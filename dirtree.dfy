/**
 * `read_dir` and `open` of src-tauri/src/api.rs: list a folder recursively into a tree of
 * directories, markdown files and ahtml pages, each listing sorted by entry type.
 *
 * The filesystem is an abstract tree: a directory's listing is its entries in the order the
 * operating system yields them, or the I/O error that listing it raised.
 */
module DirTree {
  import opened Wrappers

  /** An entry of a listing: a file with the extension its path has, or a directory. */
  datatype Node =
    | File(name: string, path: string, ext: Option<string>)
    | Dir(name: string, path: string, listing: Listing)

  /** What `std::fs::read_dir` gives for a directory. */
  datatype Listing = Listed(entries: seq<Node>) | Unlistable(error: string)

  /** `entity::FileTree` without its `updated` timestamp. */
  datatype FileTree = FileTree(kind: int, name: string, path: string, children: Option<seq<FileTree>>)

  const DirKind: int := 0
  const MarkdownKind: int := 1
  const PageKind: int := 2

  /** The entry name skipped at the top of the opened folder. */
  const Hidden: string := ".ahriknow"

  /**
   * The `type_` an entry gets at `depth`, or None when the loop skips it: the hidden entry at
   * the top level, and files whose extension is missing or neither md nor ahtml.
   */
  function KindOf(n: Node, depth: nat): (k: Option<int>)
    ensures k.Some? ==> k.value in {DirKind, MarkdownKind, PageKind}
    ensures depth == 0 && n.name == Hidden ==> k == None
    ensures k == Some(DirKind) <==> n.Dir? && !(depth == 0 && n.name == Hidden)
    ensures k == Some(MarkdownKind) <==> n.File? && n.ext == Some("md") && !(depth == 0 && n.name == Hidden)
    ensures k == Some(PageKind) <==> n.File? && n.ext == Some("ahtml") && !(depth == 0 && n.name == Hidden)
  {
    if depth == 0 && n.name == Hidden then None
    else match n
      case Dir(_, _, _) => Some(DirKind)
      case File(_, _, ext) =>
        if ext == Some("md") then Some(MarkdownKind)
        else if ext == Some("ahtml") then Some(PageKind)
        else None
  }

  /** Below the top level the hidden name is an ordinary name: a directory of that name is kept. */
  lemma HiddenKeptBelowTop(path: string, listing: Listing, depth: nat)
    requires depth > 0
    ensures KindOf(Dir(Hidden, path, listing), depth) == Some(DirKind)
  {
  }

  // ---------------------------------------------------------------------------------------
  // The sort: `result.sort_by(|a, b| a.type_.cmp(&b.type_))`, a stable sort by `type_`.

  predicate SortedByKind(s: seq<FileTree>) {
    forall i, j :: 0 <= i < j < |s| ==> s[i].kind <= s[j].kind
  }

  /** The items of `s` whose `type_` is `k`, in order. */
  function OfKind(s: seq<FileTree>, k: int): (r: seq<FileTree>)
    ensures |r| <= |s|
    decreases |s|
  {
    if s == [] then []
    else (if s[0].kind == k then [s[0]] else []) + OfKind(s[1..], k)
  }

  lemma {:induction false} OfKindAppend(a: seq<FileTree>, b: seq<FileTree>, k: int)
    ensures OfKind(a + b, k) == OfKind(a, k) + OfKind(b, k)
    decreases |a|
  {
    if a == [] {
      assert a + b == b;
    } else {
      var head := if a[0].kind == k then [a[0]] else [];
      assert (a + b)[0] == a[0] && (a + b)[1..] == a[1..] + b;
      assert OfKind(a + b, k) == head + OfKind(a[1..] + b, k);
      OfKindAppend(a[1..], b, k);
      assert OfKind(a, k) == head + OfKind(a[1..], k);
    }
  }

  lemma {:induction false} OfKindAbsent(s: seq<FileTree>, k: int)
    requires forall i :: 0 <= i < |s| ==> s[i].kind != k
    ensures OfKind(s, k) == []
    decreases |s|
  {
    if s != [] {
      OfKindAbsent(s[1..], k);
    }
  }

  /** `x` placed after every item whose `type_` is not larger than its own. */
  function Insert(x: FileTree, s: seq<FileTree>): (r: seq<FileTree>)
    ensures |r| == |s| + 1
    decreases |s|
  {
    if s == [] then [x]
    else if x.kind < s[0].kind then [x] + s
    else [s[0]] + Insert(x, s[1..])
  }

  lemma {:induction false} InsertPermutes(x: FileTree, s: seq<FileTree>)
    ensures multiset(Insert(x, s)) == multiset(s) + multiset{x}
    decreases |s|
  {
    if s != [] && x.kind >= s[0].kind {
      InsertPermutes(x, s[1..]);
      assert s == [s[0]] + s[1..];
    }
  }

  lemma {:induction false} InsertSorted(x: FileTree, s: seq<FileTree>)
    requires SortedByKind(s)
    ensures SortedByKind(Insert(x, s))
    ensures forall i :: 0 <= i < |Insert(x, s)| ==> Insert(x, s)[i] == x || Insert(x, s)[i] in s
    decreases |s|
  {
    if s != [] && x.kind >= s[0].kind {
      var rest := Insert(x, s[1..]);
      InsertSorted(x, s[1..]);
      assert Insert(x, s) == [s[0]] + rest;
      forall i | 0 <= i < |rest| ensures s[0].kind <= rest[i].kind {
        if rest[i] != x {
          var j :| 0 <= j < |s[1..]| && s[1..][j] == rest[i];
          assert s[j + 1] == rest[i];
        }
      }
    }
  }

  lemma {:induction false} InsertOfKind(x: FileTree, s: seq<FileTree>, k: int)
    requires SortedByKind(s)
    ensures OfKind(Insert(x, s), k) == OfKind(s, k) + (if x.kind == k then [x] else [])
    decreases |s|
  {
    var mine := if x.kind == k then [x] else [];
    if s == [] {
      assert Insert(x, s) == [x];
      assert OfKind([x], k) == mine + OfKind([], k);
    } else if x.kind < s[0].kind {
      if x.kind == k {
        OfKindAbsent(s, k);
      }
      assert Insert(x, s) == [x] + s;
      assert ([x] + s)[0] == x && ([x] + s)[1..] == s;
      assert OfKind([x] + s, k) == mine + OfKind(s, k);
    } else {
      var rest := Insert(x, s[1..]);
      var head := if s[0].kind == k then [s[0]] else [];
      assert Insert(x, s) == [s[0]] + rest;
      InsertOfKind(x, s[1..], k);
      assert ([s[0]] + rest)[0] == s[0] && ([s[0]] + rest)[1..] == rest;
      assert OfKind([s[0]] + rest, k) == head + OfKind(rest, k);
      assert OfKind(s, k) == head + OfKind(s[1..], k);
    }
  }

  /**
   * A stable insertion sort by `type_`: the result is sorted, is a permutation of `s`, and for
   * every `type_` holds the items of that type in their original order.
   */
  function SortByKind(s: seq<FileTree>): (r: seq<FileTree>)
    ensures SortedByKind(r)
    ensures multiset(r) == multiset(s)
    ensures forall k :: OfKind(r, k) == OfKind(s, k)
    decreases |s|
  {
    if s == [] then []
    else
      var init, last := s[..|s| - 1], s[|s| - 1];
      var sorted := SortByKind(init);
      assert s == init + [last];
      InsertPermutes(last, sorted);
      InsertSorted(last, sorted);
      assert forall k :: OfKind(Insert(last, sorted), k) == OfKind(s, k) by {
        forall k ensures OfKind(Insert(last, sorted), k) == OfKind(s, k) {
          OfKindAppend(init, [last], k);
          InsertOfKind(last, sorted, k);
        }
      }
      Insert(last, sorted)
  }

  /** A sorted sequence of trees of the three types is its directories, then md files, then pages. */
  lemma {:induction false} SortedSplitsByKind(s: seq<FileTree>)
    requires SortedByKind(s)
    requires forall i :: 0 <= i < |s| ==> s[i].kind in {DirKind, MarkdownKind, PageKind}
    ensures s == OfKind(s, DirKind) + OfKind(s, MarkdownKind) + OfKind(s, PageKind)
    decreases |s|
  {
    if s != [] {
      var rest := s[1..];
      SortedSplitsByKind(rest);
      if s[0].kind >= MarkdownKind {
        OfKindAbsent(rest, DirKind);
      }
      if s[0].kind == PageKind {
        OfKindAbsent(rest, MarkdownKind);
      }
    }
  }

  /** The sort puts directories first, then md files, then pages, each group in listing order. */
  lemma SortByKindGroups(s: seq<FileTree>)
    requires forall i :: 0 <= i < |s| ==> s[i].kind in {DirKind, MarkdownKind, PageKind}
    ensures SortByKind(s) == OfKind(s, DirKind) + OfKind(s, MarkdownKind) + OfKind(s, PageKind)
  {
    var r := SortByKind(s);
    forall i | 0 <= i < |r| ensures r[i].kind in {DirKind, MarkdownKind, PageKind} {
      assert r[i] in multiset(s);
    }
    SortedSplitsByKind(r);
  }

  // ---------------------------------------------------------------------------------------
  // The listing, as a specification over the abstract tree.

  /**
   * `read_dir(path, depth)`: the error of the listing, or the first error met in a kept
   * subdirectory, or the kept entries converted and sorted by `type_`.
   */
  function ReadDirSpec(l: Listing, depth: nat): Result<seq<FileTree>, string>
    decreases l
  {
    match l
    case Unlistable(e) => Err(e)
    case Listed(es) =>
      match Collect(es, depth)
      case Err(e) => Err(e)
      case Ok(items) => Ok(SortByKind(items))
  }

  /** The loop over the entries `es`, in order, before the sort. */
  function Collect(es: seq<Node>, depth: nat): Result<seq<FileTree>, string>
    decreases es
  {
    if es == [] then Ok([])
    else
      match Collect(es[..|es| - 1], depth)
      case Err(e) => Err(e)
      case Ok(items) =>
        var n := es[|es| - 1];
        match KindOf(n, depth)
        case None => Ok(items)
        case Some(k) =>
          if n.Dir? then
            match ReadDirSpec(n.listing, depth + 1)
            case Err(e) => Err(e)
            case Ok(children) => Ok(items + [FileTree(k, n.name, n.path, Some(children))])
          else Ok(items + [FileTree(k, n.name, n.path, None)])
  }

  /** Once the loop has met an error, the rest of the entries do not matter. */
  lemma {:induction false} CollectErrSticks(es: seq<Node>, i: nat, depth: nat)
    requires i <= |es| && Collect(es[..i], depth).Err?
    ensures Collect(es, depth) == Collect(es[..i], depth)
    decreases |es| - i
  {
    if i < |es| {
      assert es[..i + 1][..i] == es[..i];
      CollectErrSticks(es, i + 1, depth);
    } else {
      assert es[..i] == es;
    }
  }

  /** `t` is the tree item made from entry `n` at `depth`: same name and path, and its type. */
  predicate Describes(t: FileTree, n: Node, depth: nat) {
    && KindOf(n, depth) == Some(t.kind)
    && t.name == n.name && t.path == n.path
    && (t.children.Some? <==> n.Dir?)
    && (n.Dir? ==> ReadDirSpec(n.listing, depth + 1) == Ok(t.children.value))
  }

  /** `t` is made from some entry of `es`. */
  predicate FromSome(t: FileTree, es: seq<Node>, depth: nat) {
    exists i :: 0 <= i < |es| && Describes(t, es[i], depth)
  }

  /** `items` are made from distinct entries of `es`, one each, in the same order. */
  predicate Embeds(items: seq<FileTree>, es: seq<Node>, depth: nat)
    decreases |es|
  {
    if es == [] then items == []
    else
      var init := es[..|es| - 1];
      Embeds(items, init, depth) ||
      (items != [] && Describes(items[|items| - 1], es[|es| - 1], depth) &&
       Embeds(items[..|items| - 1], init, depth))
  }

  lemma {:induction false} EmbedsShorter(items: seq<FileTree>, es: seq<Node>, depth: nat)
    requires Embeds(items, es, depth)
    ensures |items| <= |es|
    ensures forall j :: 0 <= j < |items| ==> FromSome(items[j], es, depth)
    decreases |es|
  {
    if es != [] {
      var init := es[..|es| - 1];
      if Embeds(items, init, depth) {
        EmbedsShorter(items, init, depth);
        forall j | 0 <= j < |items|
          ensures FromSome(items[j], es, depth)
        {
          var w :| 0 <= w < |init| && Describes(items[j], init[w], depth);
          assert es[w] == init[w];
          assert 0 <= w < |es| && Describes(items[j], es[w], depth);
        }

      } else {
        var front := items[..|items| - 1];
        EmbedsShorter(front, init, depth);
        forall j | 0 <= j < |items| ensures FromSome(items[j], es, depth) {
          if j == |items| - 1 {
            assert Describes(items[j], es[|es| - 1], depth);
          } else {
            assert items[j] == front[j];
            var i :| 0 <= i < |init| && Describes(front[j], init[i], depth);
            assert es[i] == init[i];
            assert 0 <= i < |es| && Describes(items[j], es[i], depth);
          }
        }
      }
    }
  }

  /** The loop keeps an ordered selection of the entries, each converted by Describes. */
  lemma {:induction false} CollectEmbeds(es: seq<Node>, depth: nat)
    requires Collect(es, depth).Ok?
    ensures Embeds(Collect(es, depth).value, es, depth)
    decreases |es|
  {
    if es != [] {
      var init := es[..|es| - 1];
      CollectEmbeds(init, depth);
      var items := Collect(init, depth).value;
      var r := Collect(es, depth).value;
      if r != items {
        assert r[..|r| - 1] == items;
      }
    }
  }

  /** A listing fails when it, or a kept subdirectory at any depth, cannot be listed. */
  predicate Fails(l: Listing, depth: nat)
    decreases l
  {
    match l
    case Unlistable(_) => true
    case Listed(es) => AnyFails(es, depth)
  }

  predicate AnyFails(es: seq<Node>, depth: nat)
    decreases es
  {
    exists i :: 0 <= i < |es| && es[i].Dir? && KindOf(es[i], depth).Some? && Fails(es[i].listing, depth + 1)
  }

  lemma {:induction false} ReadDirErrIffFails(l: Listing, depth: nat)
    ensures ReadDirSpec(l, depth).Err? <==> Fails(l, depth)
    decreases l
  {
    if l.Listed? {
      CollectErrIffFails(l.entries, depth);
    }
  }

  lemma {:induction false} CollectErrIffFails(es: seq<Node>, depth: nat)
    ensures Collect(es, depth).Err? <==> AnyFails(es, depth)
    decreases es
  {
    if es != [] {
      var init, n := es[..|es| - 1], es[|es| - 1];
      CollectErrIffFails(init, depth);
      if n.Dir? && KindOf(n, depth).Some? {
        ReadDirErrIffFails(n.listing, depth + 1);
      }
      if AnyFails(init, depth) {
        var i :| 0 <= i < |init| && init[i].Dir? && KindOf(init[i], depth).Some? && Fails(init[i].listing, depth + 1);
        assert es[i] == init[i];
      }
      if AnyFails(es, depth) {
        var i :| 0 <= i < |es| && es[i].Dir? && KindOf(es[i], depth).Some? && Fails(es[i].listing, depth + 1);
        if i < |init| {
          assert init[i] == es[i];
        }
      }
    }
  }

  /** Some item of `t` is made from entry `n`. */
  predicate HasItemFor(t: seq<FileTree>, n: Node, depth: nat) {
    exists j :: 0 <= j < |t| && Describes(t[j], n, depth)
  }

  /** The number of entries of `es` the loop keeps at `depth`. */
  function KeptCount(es: seq<Node>, depth: nat): (c: nat)
    ensures c <= |es|
    decreases |es|
  {
    if es == [] then 0
    else KeptCount(es[..|es| - 1], depth) + (if KindOf(es[|es| - 1], depth).Some? then 1 else 0)
  }

  /** The loop turns every kept entry into an item, and makes no other item. */
  lemma {:induction false} CollectKeepsEvery(es: seq<Node>, depth: nat)
    requires Collect(es, depth).Ok?
    ensures |Collect(es, depth).value| == KeptCount(es, depth)
    ensures forall i :: 0 <= i < |es| && KindOf(es[i], depth).Some? ==> HasItemFor(Collect(es, depth).value, es[i], depth)
    decreases |es|
  {
    if es != [] {
      var init, n := es[..|es| - 1], es[|es| - 1];
      CollectKeepsEvery(init, depth);
      var items := Collect(init, depth).value;
      var r := Collect(es, depth).value;
      assert r[..|items|] == items;
      forall i | 0 <= i < |es| && KindOf(es[i], depth).Some? ensures HasItemFor(r, es[i], depth) {
        if i < |init| {
          assert init[i] == es[i];
          var j :| 0 <= j < |items| && Describes(items[j], init[i], depth);
          assert r[j] == items[j];
          assert 0 <= j < |r| && Describes(r[j], es[i], depth);
        } else {
          assert 0 <= |r| - 1 < |r| && Describes(r[|r| - 1], es[i], depth);
        }
      }
    }
  }

  /**
   * A successful listing holds exactly one item per kept entry: the items are a permutation of
   * an ordered selection of distinct entries (Embeds), every kept entry has its item, and there
   * are as many items as kept entries. So at the top level none is named ".ahriknow".
   */
  lemma ReadDirOkFromEntries(l: Listing, depth: nat)
    requires ReadDirSpec(l, depth).Ok?
    ensures var t := ReadDirSpec(l, depth).value;
      var items := Collect(l.entries, depth).value;
      && Embeds(items, l.entries, depth) && multiset(t) == multiset(items)
      && |t| == KeptCount(l.entries, depth) <= |l.entries|
      && (forall j :: 0 <= j < |t| ==> FromSome(t[j], l.entries, depth))
      && (forall i :: 0 <= i < |l.entries| && KindOf(l.entries[i], depth).Some? ==> HasItemFor(t, l.entries[i], depth))
      && (depth == 0 ==> forall j :: 0 <= j < |t| ==> t[j].name != Hidden)
  {
    var es := l.entries;
    var items := Collect(es, depth).value;
    var t := SortByKind(items);
    assert ReadDirSpec(l, depth) == Ok(t);
    CollectEmbeds(es, depth);
    EmbedsShorter(items, es, depth);
    CollectKeepsEvery(es, depth);
    assert |t| == |items| by {
      assert |multiset(t)| == |multiset(items)|;
    }
    forall j | 0 <= j < |t| ensures FromSome(t[j], es, depth) {
      assert t[j] in multiset(items);
      var m :| 0 <= m < |items| && items[m] == t[j];
      var i :| 0 <= i < |es| && Describes(items[m], es[i], depth);
    }
    forall i | 0 <= i < |es| && KindOf(es[i], depth).Some? ensures HasItemFor(t, es[i], depth) {
      var m :| 0 <= m < |items| && Describes(items[m], es[i], depth);
      assert items[m] in multiset(t);
      var j :| 0 <= j < |t| && t[j] == items[m];
      assert 0 <= j < |t| && Describes(t[j], es[i], depth);
    }
  }

  /**
   * A successful listing is its directories first, then md files, then pages, each group in
   * listing order.
   */
  lemma ReadDirOkGrouped(l: Listing, depth: nat)
    requires ReadDirSpec(l, depth).Ok?
    ensures SortedByKind(ReadDirSpec(l, depth).value)
    ensures var items := Collect(l.entries, depth).value;
      ReadDirSpec(l, depth).value == OfKind(items, DirKind) + OfKind(items, MarkdownKind) + OfKind(items, PageKind)
  {
    var es := l.entries;
    var items := Collect(es, depth).value;
    assert ReadDirSpec(l, depth) == Ok(SortByKind(items));
    CollectEmbeds(es, depth);
    EmbedsShorter(items, es, depth);
    forall m | 0 <= m < |items| ensures items[m].kind in {DirKind, MarkdownKind, PageKind} {
      var i :| 0 <= i < |es| && Describes(items[m], es[i], depth);
    }
    SortByKindGroups(items);
  }

  // ---------------------------------------------------------------------------------------
  // The code.

  /** `read_dir`: the loop with `continue` and early return, then the sort. */
  method ReadDir(l: Listing, depth: nat) returns (r: Result<seq<FileTree>, string>)
    ensures r == ReadDirSpec(l, depth)
    decreases l
  {
    if l.Unlistable? {
      return Err(l.error);
    }
    var es := l.entries;
    var result: seq<FileTree> := [];
    for i := 0 to |es|
      invariant Collect(es[..i], depth) == Ok(result)
    {
      var entry := es[i];
      assert es[..i + 1][..i] == es[..i];
      if depth == 0 && entry.name == Hidden {
        continue;
      }
      var kind: int;
      if entry.Dir? {
        kind := DirKind;
      } else {
        match entry.ext {
          case None => continue;
          case Some(ext) =>
            if ext == "md" {
              kind := MarkdownKind;
            } else if ext == "ahtml" {
              kind := PageKind;
            } else {
              continue;
            }
        }
      }
      var children: Option<seq<FileTree>>;
      if entry.Dir? {
        var sub := ReadDir(entry.listing, depth + 1);
        if sub.Err? {
          CollectErrSticks(es, i + 1, depth);
          return Err(sub.error);
        }
        children := Some(sub.value);
      } else {
        children := None;
      }
      result := result + [FileTree(kind, entry.name, entry.path, children)];
    }
    assert es[..|es|] == es;
    return Ok(SortByKind(result));
  }

  /** The `open` command: the tree of the folder, or None when any listing failed. */
  method Open(root: Listing) returns (r: Option<seq<FileTree>>)
    ensures r.None? <==> Fails(root, 0)
    ensures r.Some? ==> ReadDirSpec(root, 0) == Ok(r.value)
  {
    var t := ReadDir(root, 0);
    ReadDirErrIffFails(root, 0);
    match t {
      case Ok(tree) => r := Some(tree);
      case Err(_) => r := None;
    }
  }
}
