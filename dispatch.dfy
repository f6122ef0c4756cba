/**
 * The dispatch thread of src-tauri/src/main.rs: it takes messages off the channel one at a
 * time; tag -100 unwatches the current root, tag 100 moves the watch to a new root, and every
 * other message is emitted to the window as "file-system-changed".
 *
 * The specification is a transition function on values (LoopState), replayed over a sequence
 * of messages; class Dispatcher is the loop itself, with the channel as a FIFO sequence and
 * hotwatch's set of watched roots as a ghost field.
 */
module Dispatch {
  import opened Wrappers
  import opened Events

  /** `old_watch`, the roots hotwatch is watching, and what has been emitted to the window. */
  datatype LoopState = LoopState(oldWatch: string, watched: set<string>, emitted: seq<Message>)

  /** The state the thread starts in: `old_watch` empty, nothing watched, nothing emitted. */
  const Initial: LoopState := LoopState("", {}, [])

  /** At most one root is watched, and it is the one `old_watch` names. */
  predicate SingleRoot(s: LoopState) {
    s.watched <= {s.oldWatch}
  }

  /**
   * One iteration of the loop. `hotwatch.unwatch` is taken to remove the root whenever it is
   * watched; its error when the root is not watched (as for the initial empty `old_watch`) is
   * ignored by the source, and removing an absent root changes nothing here.
   */
  function Transition(s: LoopState, m: Message): (t: LoopState)
    ensures !IsControl(m) ==> t.oldWatch == s.oldWatch && t.watched == s.watched && t.emitted == s.emitted + [m]
    ensures IsControl(m) ==> t.emitted == s.emitted
    ensures m.tag == StopWatching ==> t.oldWatch == s.oldWatch && t.watched == s.watched - {s.oldWatch}
    ensures m.tag == WatchFolder ==> t.oldWatch == m.path && t.watched == s.watched - {s.oldWatch} + {m.path}
    ensures SingleRoot(s) ==> SingleRoot(t)
  {
    if m.tag == StopWatching then
      s.(watched := s.watched - {s.oldWatch})
    else if m.tag == WatchFolder then
      LoopState(m.path, s.watched - {s.oldWatch} + {m.path}, s.emitted)
    else
      s.(emitted := s.emitted + [m])
  }

  /** The loop run over the messages `ms`, received in order. */
  function Replay(s: LoopState, ms: seq<Message>): LoopState
    decreases |ms|
  {
    if ms == [] then s else Transition(Replay(s, ms[..|ms| - 1]), ms[|ms| - 1])
  }

  /** The messages of `ms` that are not control messages, in order. */
  function Forwarded(ms: seq<Message>): (r: seq<Message>)
    ensures |r| <= |ms|
    ensures forall i :: 0 <= i < |r| ==> !IsControl(r[i])
    decreases |ms|
  {
    if ms == [] then []
    else Forwarded(ms[..|ms| - 1]) + (if IsControl(ms[|ms| - 1]) then [] else [ms[|ms| - 1]])
  }

  /** The last control message of `ms`, if any. */
  function LastControl(ms: seq<Message>): (r: Option<Message>)
    ensures r.Some? ==> IsControl(r.value) && r.value in ms
    decreases |ms|
  {
    if ms == [] then None
    else if IsControl(ms[|ms| - 1]) then Some(ms[|ms| - 1])
    else LastControl(ms[..|ms| - 1])
  }

  /** The path of the last watch order of `ms`, if any. */
  function LastWatched(ms: seq<Message>): Option<string>
    decreases |ms|
  {
    if ms == [] then None
    else if ms[|ms| - 1].tag == WatchFolder then Some(ms[|ms| - 1].path)
    else LastWatched(ms[..|ms| - 1])
  }

  /** Replaying two batches one after the other is replaying their concatenation. */
  lemma {:induction false} ReplayAppend(s: LoopState, a: seq<Message>, b: seq<Message>)
    ensures Replay(s, a + b) == Replay(Replay(s, a), b)
    decreases |b|
  {
    if b == [] {
      assert a + b == a;
    } else {
      assert (a + b)[..|a + b| - 1] == a + b[..|b| - 1];
      ReplayAppend(s, a, b[..|b| - 1]);
    }
  }

  /** However the messages interleave, at most one root is ever watched, the one `old_watch` names. */
  lemma {:induction false} ReplayKeepsSingleRoot(s: LoopState, ms: seq<Message>)
    requires SingleRoot(s)
    ensures SingleRoot(Replay(s, ms))
    decreases |ms|
  {
    if ms != [] {
      ReplayKeepsSingleRoot(s, ms[..|ms| - 1]);
    }
  }

  /** What reaches the window is exactly the non-control messages, unchanged and in channel order. */
  lemma {:induction false} ReplayEmitsForwarded(s: LoopState, ms: seq<Message>)
    ensures Replay(s, ms).emitted == s.emitted + Forwarded(ms)
    decreases |ms|
  {
    if ms != [] {
      ReplayEmitsForwarded(s, ms[..|ms| - 1]);
    }
  }

  /** `old_watch` is the path of the last watch order; stop orders and events leave it alone. */
  lemma {:induction false} ReplayOldWatch(s: LoopState, ms: seq<Message>)
    ensures Replay(s, ms).oldWatch == (if LastWatched(ms).Some? then LastWatched(ms).value else s.oldWatch)
    decreases |ms|
  {
    if ms != [] {
      ReplayOldWatch(s, ms[..|ms| - 1]);
    }
  }

  /**
   * The watched roots are decided by the last control message alone: after a watch order for
   * `p` exactly `{p}` is watched, after a stop order nothing is.
   */
  lemma {:induction false} ReplayWatchedByLastControl(s: LoopState, ms: seq<Message>)
    requires SingleRoot(s)
    ensures var t := Replay(s, ms);
      t.watched == match LastControl(ms)
                   case None => s.watched
                   case Some(m) => if m.tag == WatchFolder then {m.path} else {}
    decreases |ms|
  {
    if ms != [] {
      ReplayWatchedByLastControl(s, ms[..|ms| - 1]);
      ReplayKeepsSingleRoot(s, ms[..|ms| - 1]);
    }
  }

  /** A classified filesystem event never acts as an order: the loop forwards it unchanged. */
  lemma EventIsForwarded(s: LoopState, e: RawEvent)
    requires NoPanic(e) && Classify(e).Some?
    ensures Transition(s, Classify(e).value) == s.(emitted := s.emitted + [Classify(e).value])
  {
  }

  /**
   * The loop thread. `queue` is the channel's content, `watched` the roots hotwatch watches,
   * `emitted` the "file-system-changed" events sent to the window so far.
   */
  class Dispatcher {
    var queue: seq<Message>
    var oldWatch: string
    ghost var watched: set<string>
    var emitted: seq<Message>

    ghost function State(): LoopState
      reads this
    {
      LoopState(oldWatch, watched, emitted)
    }

    ghost predicate Valid()
      reads this
    {
      SingleRoot(State())
    }

    constructor ()
      ensures Valid() && State() == Initial && queue == []
    {
      queue := [];
      oldWatch := "";
      watched := {};
      emitted := [];
    }

    /** The "watch-path-changed" listener sends its message; `isDir` is the answer of `is_dir()`. */
    method Listen(open: OpenFolder, isDir: bool)
      modifies this`queue
      ensures queue == old(queue) + [ListenerMessage(open, isDir)]
    {
      queue := queue + [ListenerMessage(open, isDir)];
    }

    /** hotwatch calls the callback of a watched root; it sends the classified event, if any. */
    method Notify(root: string, e: RawEvent)
      requires root in watched
      requires NoPanic(e)
      modifies this`queue
      ensures queue == old(queue) + (if Classify(e).Some? then [Classify(e).value] else [])
    {
      var r := Classify(e);
      if r.Some? {
        queue := queue + [r.value];
      }
    }

    /** One iteration: receive a message, if one is waiting, and act on it. */
    method Step() returns (received: bool)
      requires Valid()
      modifies this
      ensures Valid()
      ensures received <==> old(queue) != []
      ensures received ==> queue == old(queue)[1..] && State() == Transition(old(State()), old(queue)[0])
      ensures !received ==> queue == old(queue) && State() == old(State())
    {
      if queue == [] {
        return false;
      }
      var msg := queue[0];
      queue := queue[1..];
      if msg.tag == StopWatching {
        watched := watched - {oldWatch};
      } else if msg.tag == WatchFolder {
        watched := watched - {oldWatch};
        oldWatch := msg.path;
        watched := watched + {msg.path};
      } else {
        emitted := emitted + [msg];
      }
      return true;
    }

    /** The loop, run until the channel is empty. */
    method Drain()
      requires Valid()
      modifies this
      ensures Valid() && queue == []
      ensures State() == Replay(old(State()), old(queue))
      ensures emitted == old(emitted) + Forwarded(old(queue))
    {
      ghost var s0 := State();
      ghost var q0 := queue;
      ghost var n := 0;
      while queue != []
        invariant Valid()
        invariant 0 <= n <= |q0| && queue == q0[n..]
        invariant State() == Replay(s0, q0[..n])
        decreases |queue|
      {
        var _ := Step();
        assert q0[..n + 1][..n] == q0[..n];
        n := n + 1;
      }
      assert q0[..n] == q0;
      ReplayEmitsForwarded(s0, q0);
    }
  }

  /**
   * A scenario: open `/docs`, a markdown file appears in it and is then renamed; the window
   * sees the two file events, in order, and only them.
   */
  lemma DocsScenario()
    ensures var a := FsPath("/docs/a.md", false, Some("md"));
      var b := FsPath("/docs/b.md", false, Some("md"));
      var ms := [ListenerMessage(OpenFolder(0, "/docs"), true),
                 Classify(Create(a)).value,
                 Classify(Rename(a, b)).value,
                 ListenerMessage(OpenFolder(1, "path not found"), false)];
      var t := Replay(Initial, ms);
      t.emitted == [Message(FileCreated, "/docs/a.md", ""), Message(FileRenamed, "/docs/a.md", "/docs/b.md")] &&
      t.watched == {} && t.oldWatch == "/docs"
  {
    var a := FsPath("/docs/a.md", false, Some("md"));
    var b := FsPath("/docs/b.md", false, Some("md"));
    var m0 := ListenerMessage(OpenFolder(0, "/docs"), true);
    var m1 := Classify(Create(a)).value;
    var m2 := Classify(Rename(a, b)).value;
    var m3 := ListenerMessage(OpenFolder(1, "path not found"), false);
    var ms := [m0, m1, m2, m3];
    assert ms[..3] == [m0, m1, m2] && ms[..2] == [m0, m1] && ms[..1] == [m0];
    assert ms[..3][..2] == ms[..2] && ms[..2][..1] == ms[..1] && ms[..1][..0] == [];
    var s1 := Transition(Initial, m0);
    assert s1 == LoopState("/docs", {"/docs"}, []);
    var s3 := Transition(Transition(s1, m1), m2);
    assert s3 == LoopState("/docs", {"/docs"}, [m1, m2]);
    assert Replay(Initial, ms[..1]) == s1;
    assert Replay(Initial, ms[..2]) == Transition(s1, m1);
    assert Replay(Initial, ms[..3]) == s3;
    assert Replay(Initial, ms) == Transition(s3, m3);
  }
}
