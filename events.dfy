/**
 * The two pure decisions of src-tauri/src/main.rs: how the hotwatch callback turns a raw
 * filesystem event into a `Message` for the channel (or nothing), and how the
 * "watch-path-changed" listener turns an `OpenFolder` payload into a control message.
 * The filesystem queries the source makes (`is_dir()`, `extension()`) are inputs here.
 */
module Events {
  import opened Wrappers

  /** A path as the callback sees it: its text, whether it names a directory now, its extension. */
  datatype FsPath = FsPath(text: string, isDir: bool, ext: Option<string>)

  /** The raw events hotwatch delivers to a watch callback. */
  datatype RawEvent =
    | NoticeWrite(path: FsPath)
    | NoticeRemove(path: FsPath)
    | Create(path: FsPath)
    | Write(path: FsPath)
    | Chmod(path: FsPath)
    | Remove(path: FsPath)
    | Rename(from: FsPath, to: FsPath)
    | Rescan
    | Error(message: string, subject: Option<FsPath>)

  /** What travels on the channel and, unless it is a control message, to the window. */
  datatype Message = Message(tag: int, path: string, path2: string)

  /** The payload of the "watch-path-changed" window event. */
  datatype OpenFolder = OpenFolder(tag: int, path: string)

  // Message tags of classified events
  const DirCreated: int := 1
  const FileCreated: int := 2
  const DirWritten: int := 3
  const FileWritten: int := 4
  const DirRemoved: int := -1
  const FileRemoved: int := -2
  const DirRenamed: int := 5
  const FileRenamed: int := 6
  // Message tags the listener sends
  const WatchFolder: int := 100
  const StopWatching: int := -100
  const NotAFolder: int := 0

  const EventTags: set<int> :=
    {DirCreated, FileCreated, DirWritten, FileWritten, DirRemoved, FileRemoved, DirRenamed, FileRenamed}

  /** The dispatch loop treats exactly these two tags as orders rather than as news. */
  predicate IsControl(m: Message) {
    m.tag == WatchFolder || m.tag == StopWatching
  }

  /** The extensions the callback forwards file events for. */
  predicate TrackedExt(ext: Option<string>) {
    ext == Some("md") || ext == Some("json")
  }

  /** Both ends of a file rename carry the same tracked extension. */
  predicate SameTrackedExt(a: Option<string>, b: Option<string>) {
    (a == Some("md") && b == Some("md")) || (a == Some("json") && b == Some("json"))
  }

  predicate EndsWith(s: string, suffix: string) {
    |suffix| <= |s| && s[|s| - |suffix|..] == suffix
  }

  /** The test the remove branch makes on the path text instead of on its extension. */
  predicate TrackedSuffix(s: string) {
    EndsWith(s, ".md") || EndsWith(s, ".json")
  }

  /**
   * The events for which the callback does not panic: a non-directory create or write, and a
   * non-directory rename, unwrap the extension of each path they look at.
   */
  predicate NoPanic(e: RawEvent) {
    match e
    case Create(p) => p.isDir || p.ext.Some?
    case Write(p) => p.isDir || p.ext.Some?
    case Rename(from, to) => from.isDir || (from.ext.Some? && to.ext.Some?)
    case _ => true
  }

  /** The event kinds the callback reacts to at all. */
  predicate Handled(e: RawEvent) {
    e.Create? || e.Write? || e.Remove? || e.Rename?
  }

  /** The path that decides the branch, and whose text becomes `path` of the message. */
  function Subject(e: RawEvent): FsPath
    requires Handled(e)
  {
    if e.Rename? then e.from else e.path
  }

  /**
   * The hotwatch callback: a message to send, or None when the event is dropped.
   */
  function Classify(e: RawEvent): (r: Option<Message>)
    requires NoPanic(e)
    ensures r.Some? ==> Handled(e) && r.value.tag in EventTags && !IsControl(r.value)
    ensures r.Some? ==> r.value.path == Subject(e).text
    ensures r.Some? ==> r.value.path2 == (if e.Rename? then e.to.text else "")
    ensures Handled(e) && Subject(e).isDir ==> r.Some?
  {
    match e
    case Create(p) =>
      if p.isDir then Some(Message(DirCreated, p.text, ""))
      else if TrackedExt(p.ext) then Some(Message(FileCreated, p.text, ""))
      else None
    case Write(p) =>
      if p.isDir then Some(Message(DirWritten, p.text, ""))
      else if TrackedExt(p.ext) then Some(Message(FileWritten, p.text, ""))
      else None
    case Remove(p) =>
      if p.isDir then Some(Message(DirRemoved, p.text, ""))
      else if TrackedSuffix(p.text) then Some(Message(FileRemoved, p.text, ""))
      else None
    case Rename(from, to) =>
      if from.isDir then Some(Message(DirRenamed, from.text, to.text))
      else if SameTrackedExt(from.ext, to.ext) then Some(Message(FileRenamed, from.text, to.text))
      else None
    case _ => None
  }

  /** The kind of change a message tag reports, as the window reads it back. */
  datatype Change = Created | Written | Removed | Renamed

  /** Decoding of an event tag: which change, and whether the subject was a directory. */
  function DecodeTag(tag: int): Option<(Change, bool)> {
    if tag == DirCreated then Some((Created, true))
    else if tag == FileCreated then Some((Created, false))
    else if tag == DirWritten then Some((Written, true))
    else if tag == FileWritten then Some((Written, false))
    else if tag == DirRemoved then Some((Removed, true))
    else if tag == FileRemoved then Some((Removed, false))
    else if tag == DirRenamed then Some((Renamed, true))
    else if tag == FileRenamed then Some((Renamed, false))
    else None
  }

  function ChangeOf(e: RawEvent): Change
    requires Handled(e)
  {
    match e
    case Create(_) => Created
    case Write(_) => Written
    case Remove(_) => Removed
    case Rename(_, _) => Renamed
  }

  /** The tag of a classified message tells the change and the directory-ness of its subject. */
  lemma ClassifyTagDecodes(e: RawEvent)
    requires NoPanic(e) && Classify(e).Some?
    ensures DecodeTag(Classify(e).value.tag) == Some((ChangeOf(e), Subject(e).isDir))
  {
  }

  /**
   * Which events are forwarded, stated per transition: directory events always; file creates
   * and writes when the extension is md or json; file removes when the path text ends in
   * ".md" or ".json"; file renames only when both ends share md or share json.
   */
  predicate Reported(e: RawEvent)
    requires Handled(e)
  {
    Subject(e).isDir ||
    match e
    case Create(p) => TrackedExt(p.ext)
    case Write(p) => TrackedExt(p.ext)
    case Remove(p) => TrackedSuffix(p.text)
    case Rename(from, to) => SameTrackedExt(from.ext, to.ext)
  }

  lemma ClassifyReportsExactly(e: RawEvent)
    requires NoPanic(e)
    ensures Classify(e).Some? <==> Handled(e) && Reported(e)
  {
  }

  /** A rename between an md file and a json file is dropped. */
  lemma RenameAcrossExtensionsDropped(from: FsPath, to: FsPath)
    requires !from.isDir && from.ext == Some("md") && to.ext == Some("json")
    ensures Classify(Rename(from, to)) == None
  {
  }

  /** The remove branch looks at the path text only: the extension does not matter. */
  lemma RemoveIgnoresExtension(p: FsPath, ext: Option<string>)
    ensures Classify(Remove(p)) == Classify(Remove(p.(ext := ext)))
  {
  }

  /** The directory-rename branch is taken on the source end alone, whatever the destination is. */
  lemma RenameFromDirectory(from: FsPath, to: FsPath)
    requires from.isDir
    ensures Classify(Rename(from, to)) == Some(Message(DirRenamed, from.text, to.text))
  {
  }

  /**
   * The "watch-path-changed" listener: an open request (`tag == 0`) for a directory becomes a
   * watch order, one for anything else is passed on as tag 0; every other request stops watching.
   */
  function ListenerMessage(open: OpenFolder, isDir: bool): (m: Message)
    ensures m.tag == WatchFolder <==> open.tag == 0 && isDir
    ensures m.tag == StopWatching <==> open.tag != 0
    ensures m.tag == NotAFolder <==> open.tag == 0 && !isDir
    ensures m.path == (if open.tag == 0 then open.path else "")
    ensures m.path2 == ""
  {
    if open.tag == 0 then
      if isDir then Message(WatchFolder, open.path, "") else Message(NotAFolder, open.path, "")
    else Message(StopWatching, "", "")
  }

  /** Listener messages never collide with classified event tags. */
  lemma ListenerTagsDisjoint(open: OpenFolder, isDir: bool, e: RawEvent)
    requires NoPanic(e) && Classify(e).Some?
    ensures ListenerMessage(open, isDir).tag != Classify(e).value.tag
  {
  }
}
