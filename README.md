# ahridocs watch dispatcher, folder tree and config store — a Dafny model

This project models three sequential pieces of the ahridocs desktop client:

- **The file-watch dispatcher** of `src-tauri/src/main.rs`. The hotwatch callback classifies a
  raw filesystem event into an integer-tagged `Message`, or drops it (module `Events`,
  `Classify`). The "watch-path-changed" listener turns an `OpenFolder` payload into a control
  message: 100 means watch this folder, -100 means stop watching, and 0 is a plain message
  (`Events.ListenerMessage`). A single dispatch thread then takes messages off the channel.
  On -100 it unwatches `old_watch`. On 100 it unwatches `old_watch`, sets `old_watch` to the
  new path and watches that path. Every other message is emitted to the window as
  "file-system-changed". Module `Dispatch` gives this loop as a transition function
  (`Transition`, replayed over a message sequence by `Replay`). It also gives it as a class
  (`Dispatcher`): the channel is a FIFO sequence, hotwatch's watched roots are a ghost set,
  and the emitted events are an output sequence.
- **The folder tree builder** `read_dir` and the `open` command of `src-tauri/src/api.rs`
  (module `DirTree`). The filesystem is an abstract tree. Each directory's listing is its
  entries in listing order, or the I/O error that listing it raised. The builder skips
  `.ahriknow` at the top level. It turns directories into type 0 with children, `md` files
  into type 1 and `ahtml` files into type 2, drops every other entry, and stable-sorts each
  listing by type. `open` turns an error anywhere into `None`.
- **The config store** of `src/store/index.ts` (module `ConfigStore`). `defaultConfig` reads
  the stored config or initialises storage with `{theme: 'dark'}`. The `theme` getter defaults
  to `'dark'` when the stored theme is falsy. `updateConfig` is a right-biased merge
  (`{...this.config, ...config}`) that is written back to storage.

The hotwatch callback's filesystem queries (`is_dir()`, `extension()`) are inputs of the
model. So is the listener's `is_dir()`. Four behaviours of the code are easy to misread, and
the model keeps them as written:
- a file remove is matched on the path suffix `.md`/`.json`, not on the extension;
- the directory-rename branch tests the source end (`from.is_dir()`);
- messages that are not control messages are forwarded whatever is being watched;
- no extended-length path prefix is stripped anywhere in main.rs or api.rs.

## Model

| member | source | states |
|---|---|---|
| `Events.Classify` | src-tauri/src/main.rs:114-207 | A message is produced only for create, write, remove and rename events. Its tag is one of the eight event tags and never 100 or -100. `path` is the subject path, and `path2` is the rename destination or `""`. Directory events always produce a message. |
| `Events.ClassifyTagDecodes` | src-tauri/src/main.rs:115-205 | The tag of a classified message decodes back to the event's kind (created, written, removed, renamed) and to whether its subject was a directory. |
| `Events.ClassifyReportsExactly` | src-tauri/src/main.rs:115-206 | An event is forwarded exactly when it is a directory event; or a file create or write with extension md or json; or a file remove whose path ends in `.md` or `.json`; or a file rename whose two ends are both md or both json. No other event kind is forwarded. |
| `Events.RenameAcrossExtensionsDropped` | src-tauri/src/main.rs:187-203 | Renaming an md file to a json file produces no message. |
| `Events.RemoveIgnoresExtension` | src-tauri/src/main.rs:167-176 | The classification of a remove does not depend on the path's extension, only on its text. |
| `Events.RenameFromDirectory` | src-tauri/src/main.rs:180-186 | When the source end of a rename is a directory, the message is type 5 with `path = from` and `path2 = to`, whatever the destination is. |
| `Events.ListenerMessage` | src-tauri/src/main.rs:73-97 | An open request for a directory gives 100 with its path. An open request for anything else gives 0 with its path. Any other request gives -100 with empty paths. `path2` is always empty. |
| `Events.ListenerTagsDisjoint` | src-tauri/src/main.rs:73-97 | No listener message carries the tag of a classified filesystem event. |
| `Dispatch.Transition` | src-tauri/src/main.rs:106-212 | -100 only unwatches `old_watch` and keeps it. 100 unwatches `old_watch`, moves it to the new path and watches that path: the watched set becomes the old one without `old_watch`, plus the new path. Any other message is appended to the emitted events and leaves the watch state alone. At most one root is watched, the one `old_watch` names, and every step keeps this true. |
| `Dispatch.ReplayAppend` | src-tauri/src/main.rs:103-213 | Running the loop over two batches of messages in turn is the same as running it over their concatenation. |
| `Dispatch.ReplayKeepsSingleRoot` | src-tauri/src/main.rs:102-113 | Over any message sequence, the watched roots stay a subset of `{old_watch}`. |
| `Dispatch.ReplayEmitsForwarded` | src-tauri/src/main.rs:210-211 | The emitted events are exactly the non-control messages received, unchanged and in channel order. |
| `Dispatch.ReplayOldWatch` | src-tauri/src/main.rs:106-110 | `old_watch` ends as the path of the last watch order, or stays unchanged when there was none. |
| `Dispatch.ReplayWatchedByLastControl` | src-tauri/src/main.rs:106-113 | The last control message decides what is watched: `{p}` after a watch order for `p`, nothing after a stop order. |
| `Dispatch.EventIsForwarded` | src-tauri/src/main.rs:114-211 | A classified filesystem event never acts as a control message. The loop forwards it unchanged. |
| `Dispatch.DocsScenario` | src-tauri/src/main.rs:73-213 | Open `/docs`, create `/docs/a.md`, rename it to `/docs/b.md`, then stop watching. The window receives exactly `(2, "/docs/a.md", "")` and then `(6, "/docs/a.md", "/docs/b.md")`, and nothing is left watched. |
| `Dispatch.Dispatcher.constructor` | src-tauri/src/main.rs:101-102 | The loop starts with `old_watch` empty, nothing watched, nothing emitted and an empty channel. |
| `Dispatch.Dispatcher.Listen` | src-tauri/src/main.rs:70-98 | The listener appends its message to the channel. |
| `Dispatch.Dispatcher.Notify` | src-tauri/src/main.rs:114-209 | The callback of a watched root appends the classified message to the channel, or nothing when the event is dropped. |
| `Dispatch.Dispatcher.Step` | src-tauri/src/main.rs:104-212 | Takes the head of the channel and moves to `Transition` of it. The single-root invariant holds afterwards. |
| `Dispatch.Dispatcher.Drain` | src-tauri/src/main.rs:103-213 | The loop empties the channel. The new state is `Replay` of the old state over the old channel content, and the emitted events are extended by exactly the forwarded messages. |
| `DirTree.KindOf` | src-tauri/src/api.rs:12-34 | At the top level `.ahriknow` is skipped. Otherwise a directory gets type 0, an md file type 1 and an ahtml file type 2, and every other file is dropped. |
| `DirTree.HiddenKeptBelowTop` | src-tauri/src/api.rs:12-19 | Below the top level a directory named `.ahriknow` is kept as type 0. |
| `DirTree.SortByKind` | src-tauri/src/api.rs:56 | The sorted listing is ordered by type. It is a permutation of its input, and for every type it keeps the items of that type in their original order (stability). |
| `DirTree.SortByKindGroups` | src-tauri/src/api.rs:56 | The sort gives the directories, then the md files, then the ahtml pages, each group in listing order. |
| `DirTree.CollectErrSticks` | src-tauri/src/api.rs:42-44 | Once a subdirectory fails to list, the later entries do not change the result. |
| `DirTree.ReadDirErrIffFails` | src-tauri/src/api.rs:9-53 | `read_dir` returns `Err` exactly when the listing, or any kept subdirectory at any depth, cannot be listed. |
| `DirTree.ReadDirOkFromEntries` | src-tauri/src/api.rs:8-51 | A successful listing holds exactly one item per kept entry. The items are a permutation of an ordered selection of distinct entries. Each item has its entry's name, path and type, and children exactly for directories, which are `read_dir` of the subdirectory one level deeper. Every kept entry has its item, and there are as many items as kept entries. At the top level no item is named `.ahriknow`. |
| `DirTree.CollectKeepsEvery` | src-tauri/src/api.rs:11-50 | The loop pushes an item for every kept entry, and its result has exactly as many items as there are kept entries. |
| `DirTree.ReadDirOkGrouped` | src-tauri/src/api.rs:50-58 | A successful listing is sorted by type. It is the kept entries of type 0, then 1, then 2, each group in listing order. |
| `DirTree.ReadDir` | src-tauri/src/api.rs:7-59 | The loop with `continue`, the recursive call and its early `Err` return, and then the sort, compute `ReadDirSpec`. |
| `DirTree.Open` | src-tauri/src/api.rs:61-71 | `None` exactly when some listing fails. Otherwise `Some` of the `read_dir` result at depth 0. |
| `ConfigStore.Theme` | src/store/index.ts:33-35 | The configured theme when it is set and truthy, otherwise `'dark'`. The result is always truthy. |
| `ConfigStore.Merge` | src/store/index.ts:39 | The merged keys are the union of both key sets. Keys of the update get the update's value, and all other keys keep their old value. |
| `ConfigStore.MergeEmpty` | src/store/index.ts:39 | An empty update leaves the config unchanged. |
| `ConfigStore.MergeIdempotent` | src/store/index.ts:39 | Applying the same update twice gives the same config as applying it once. |
| `ConfigStore.MergeSequential` | src/store/index.ts:38-42 | Two updates in a row give the same config as one update made of the second merged over the first. |
| `ConfigStore.ThemeAfterMerge` | src/store/index.ts:33-41 | After an update that sets a truthy theme, the getter returns that theme. |
| `ConfigStore.LoadConfig` | src/store/index.ts:4-12 | When a config is stored, it is returned and storage is untouched. Otherwise `{theme: 'dark'}` is written under `'config'` and returned. |
| `ConfigStore.IndexStore.constructor` | src/store/index.ts:26-31 | The store's state starts as `defaultConfig()`, and storage then holds it under `'config'`. |
| `ConfigStore.IndexStore.UpdateConfig` | src/store/index.ts:38-42 | The state becomes the merge of the old state and the update. Storage under `'config'` holds exactly the new state, and no other storage key changes. |
| `ConfigStore.UpdateTwice` | src/store/index.ts:38-42 | Calling `updateConfig` twice with the same object leaves the state of a single call. |

## Left out

- Threads and the `mpsc` channel's synchronisation (main.rs:67, 100, 111-209): the channel is a sequence. The interleaving of listener, callback and loop is whatever order the caller of `Listen`, `Notify` and `Step` chooses.
- A failing `hotwatch.watch` (`expect` at main.rs:209) panics the loop thread. The model treats watching a path as always succeeding. The listener sends 100 only for a path that was a directory.
- `extension().unwrap()` panics of the callback (main.rs:124, 146, 188-189) are the precondition `NoPanic` of `Classify` and `Notify`. Paths are strings, so the `to_str().unwrap()` failures cannot arise.
- The `unwrap()` calls on the payload, on each `send` and on `emit` (main.rs:71-72, 81, 211), and the rest of `Hotwatch::new().expect`, are panics outside the model.
- Unwatch failures on a watched root: `hotwatch.unwatch` errors are discarded (main.rs:107, 109), and the model takes unwatching a watched root as always succeeding. An unwatch error on a root that is watched, for example because its path no longer resolves, would leave that root watched beside the new one. That breaks the single-root invariant, which `SingleRoot`, `ReplayKeepsSingleRoot` and `ReplayWatchedByLastControl` rely on.
- `Dispatch.Dispatcher.Step`: when the channel is empty the real thread blocks in `recv`. The model returns `false` and changes nothing.
- Serde (de)serialisation of `OpenFolder`/`Message` and the `Box::leak` allocation: both are plain records here.
- `read_dir`'s per-entry errors and `metadata` failures (api.rs:12, 15, 35) panic in the source; the abstract tree yields readable entries only. The `updated` timestamp (api.rs:40) is a clock and I/O query and is dropped from `FileTree`.
- `depth` is an `i32` in the source and a `nat` here; overflow at 2^31 levels is not modelled.
- `DirTree.SortByKind`: `Vec::sort_by` is the standard library's stable sort, modelled by an insertion sort on the sequence rather than in place; it is proved to have the same observable result (sorted, a permutation, stable).
- `open`'s `println!` of the error.
- The CRUD and config commands (`create`, `delete`, `rename`, `read`, `reads`, `write`, `get_config`, `set_config`, api.rs:100-364), the folder dialogs `open()` (main.rs:26-60) and `select()` (api.rs:73-98) and the `tests` module (main.rs:223-262): I/O wrappers and a live watch test.
- src-tauri/src/entity.rs and src/types/index.ts are type declarations; `FileTree` and `Config` are reused as datatypes.
- `localStorage` strings and `JSON.parse`/`JSON.stringify` (index.ts:5-10, 40): storage maps a key to the parsed config. A malformed stored text, or a stored empty string (`if (config)`), is not modelled.
- Config values: JavaScript numbers are integers here (no fractions, no NaN). JSON arrays and objects, which are always truthy (so `theme || 'dark'` would return them), are not modelled. Neither are `undefined`-valued keys, which `JSON.stringify` drops.
- Pinia's `defineStore` wiring and the `async` of `updateConfig`.
