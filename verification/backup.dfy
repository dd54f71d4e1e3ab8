/**
 Server backups (internal/mc/backup.go): tarGzDir walks a tree into archive
 entries, extractTarGz turns entries back into files. Compression and the tar
 byte format are left to the library; an archive is its list of entries.
 */
module Backup {
  import opened Prelude
  import opened FileTree

  const EXCLUDES: set<Name> := {"logs", "crash-reports", "cache", ".DS_Store", "session.lock", "debug"}

  const MAX_RESTORE_BYTES := 549_755_813_888

  function TarPolicy(dest: Path): Policy { Policy(EXCLUDES, LinksInside(dest)) }

  // --- archiving ----------------------------------------------------------------

  function FileCount(entries: seq<Entry>): nat {
    if entries == [] then 0 else (if entries[0].item.FileItem? then 1 else 0) + FileCount(entries[1..])
  }

  lemma {:induction false} FileCountAppend(a: seq<Entry>, b: seq<Entry>)
    ensures FileCount(a + b) == FileCount(a) + FileCount(b)
  {
    if a == [] {
      assert a + b == b;
    } else {
      FileCountAppend(a[1..], b);
      assert (a + b)[1..] == a[1..] + b;
    }
  }

  lemma OneMoreEntry(entries: seq<Entry>)
    requires entries != []
    ensures var front, last := entries[..|entries| - 1], entries[|entries| - 1];
            |set i | 0 <= i < |entries| && entries[i].item.FileItem?|
            == |set i | 0 <= i < |front| && front[i].item.FileItem?| + (if last.item.FileItem? then 1 else 0)
  {
    var front, last := entries[..|entries| - 1], entries[|entries| - 1];
    var files := set i | 0 <= i < |entries| && entries[i].item.FileItem?;
    var earlier := set i | 0 <= i < |front| && front[i].item.FileItem?;
    assert files == if last.item.FileItem? then earlier + {|front|} else earlier;
  }

  /** That is how many entries are files. */
  lemma {:induction false} FileCountIsCardinality(entries: seq<Entry>)
    ensures FileCount(entries) == |set i | 0 <= i < |entries| && entries[i].item.FileItem?|
  {
    var files := set i | 0 <= i < |entries| && entries[i].item.FileItem?;
    if entries == [] {
      assert files == {};
    } else {
      var front, last := entries[..|entries| - 1], entries[|entries| - 1];
      FileCountIsCardinality(front);
      OneMoreEntry(entries);
      assert entries == front + [last];
      FileCountAppend(front, [last]);
      assert [last][1..] == [];
    }
  }

  datatype Verdict = Descend | SkipDir | Next

  class TarWriter {
    var entries: seq<Entry>
    var files: nat
    var bytes: nat

    /** The counters that the progress lines report agree with what was written. */
    ghost predicate Valid() reads this { files == FileCount(entries) && bytes == TotalBytes(entries) }

    constructor ()
      ensures Valid() && entries == []
    {
      entries, files, bytes := [], 0, 0;
    }

    method Write(e: Entry)
      requires Valid()
      modifies this
      ensures Valid() && entries == old(entries) + [e]
    {
      FileCountAppend(entries, [e]);
      TotalBytesAppend(entries, [e]);
      entries := entries + [e];
      if e.item.FileItem? {
        files := files + 1;
        bytes := bytes + |e.item.data|;
      }
    }

    /** The walk callback for one path: any excluded segment skips it, and a directory is then not entered. */
    method Visit(rel: Path, node: Node) returns (v: Verdict)
      requires Valid()
      modifies this
      ensures Valid()
      ensures v.SkipDir? <==> node.Dir? && exists i :: 0 <= i < |rel| && rel[i] in EXCLUDES
      ensures v.Descend? <==> node.Dir? && !v.SkipDir?
      ensures if (exists i :: 0 <= i < |rel| && rel[i] in EXCLUDES) || node.Special? then
                entries == old(entries)
              else
                entries == old(entries) + [Entry(rel, ItemOf(node))]
    {
      for i := 0 to |rel|
        invariant Valid() && entries == old(entries)
        invariant forall k :: 0 <= k < i ==> rel[k] !in EXCLUDES
      {
        if rel[i] in EXCLUDES {
          return if node.Dir? then SkipDir else Next;
        }
      }
      match node {
        case Special => return Next;
        case Dir(_) =>
          Write(Entry(rel, DirItem));
          return Descend;
        case File(data) =>
          Write(Entry(rel, FileItem(data)));
          return Next;
        case Link(target) =>
          Write(Entry(rel, LinkItem(target)));
          return Next;
      }
    }

    /** The walk below a directory none of whose own segments is excluded. */
    method Walk(children: seq<(Name, Node)>, at: Path)
      requires Valid() && forall i :: 0 <= i < |at| ==> at[i] !in EXCLUDES
      modifies this
      ensures Valid() && entries == old(entries) + Entries(TarPolicy([]), children, at)
      decreases children
    {
      if children != [] {
        WalkChild(children[0], at);
        Walk(children[1..], at);
      }
    }

    method WalkChild(child: (Name, Node), at: Path)
      requires Valid() && forall i :: 0 <= i < |at| ==> at[i] !in EXCLUDES
      modifies this
      ensures Valid() && entries == old(entries) + EntriesOf(TarPolicy([]), child, at)
      decreases child
    {
      var rel := at + [child.0];
      assert rel[|at|] == child.0;
      assert (exists i :: 0 <= i < |rel| && rel[i] in EXCLUDES) <==> child.0 in EXCLUDES;
      var v := Visit(rel, child.1);
      if v.Descend? {
        Walk(child.1.children, rel);
      }
    }
  }

  method TarGzDir(children: seq<(Name, Node)>) returns (entries: seq<Entry>, files: nat, bytes: nat)
    ensures entries == Entries(TarPolicy([]), children, [])
    ensures files == FileCount(entries) && bytes == TotalBytes(entries)
  {
    var w := new TarWriter();
    w.Walk(children, []);
    return w.entries, w.files, w.bytes;
  }

  // --- extraction -----------------------------------------------------------------

  datatype Failure = Escapes | Refused | TooLarge

  datatype Extraction = Extraction(fs: Fs, total: nat)

  /** One turn of the loop. Failing to create a link is ignored, as in the code. */
  function ExtractOne(max: nat, dest: Path, x: Extraction, e: Entry): Result<Extraction, Failure> {
    var target := Clean(dest + e.name);
    if !Inside(dest, target) || |target| < |dest| then Err(Escapes)
    else
      var p := target[|dest|..];
      match e.item
      case DirItem =>
        (match MkdirAll(x.fs, p)
         case None => Err(Refused)
         case Some(fs) => Ok(x.(fs := fs)))
      case LinkItem(link) =>
        if !KeepsLink(LinksInside(dest), p, link) || p in x.fs || !IsDir(x.fs, p[..|p| - 1]) then Ok(x)
        else Ok(x.(fs := x.fs[p := LinkItem(link)]))
      case FileItem(data) =>
        match WriteFile(x.fs, p, data)
        case None => Err(Refused)
        case Some(fs) =>
          if x.total + |data| > max then Err(TooLarge) else Ok(Extraction(fs, x.total + |data|))
  }

  function Extract(max: nat, dest: Path, x: Extraction, entries: seq<Entry>): Result<Extraction, Failure>
    decreases |entries|
  {
    if entries == [] then Ok(x)
    else
      match ExtractOne(max, dest, x, entries[0])
      case Err(f) => Err(f)
      case Ok(y) => Extract(max, dest, y, entries[1..])
  }

  method ExtractTarGz(dest: Path, fs: Fs, entries: seq<Entry>) returns (r: Result<Fs, Failure>)
    ensures r == match Extract(MAX_RESTORE_BYTES, dest, Extraction(fs, 0), entries)
                 case Ok(y) => Ok(y.fs)
                 case Err(f) => Err(f)
  {
    var x := Extraction(fs, 0);
    for i := 0 to |entries|
      invariant Extract(MAX_RESTORE_BYTES, dest, Extraction(fs, 0), entries)
             == Extract(MAX_RESTORE_BYTES, dest, x, entries[i..])
    {
      assert entries[i..][1..] == entries[i + 1..];
      var one := ExtractEntry(dest, x, entries[i]);
      if one.Err? {
        return Err(one.error);
      }
      x := one.value;
    }
    return Ok(x.fs);
  }

  method ExtractEntry(dest: Path, x: Extraction, e: Entry) returns (r: Result<Extraction, Failure>)
    ensures r == ExtractOne(MAX_RESTORE_BYTES, dest, x, e)
  {
    var target := Clean(dest + e.name);
    if !Inside(dest, target) || |target| < |dest| {
      return Err(Escapes);
    }
    var p := target[|dest|..];
    match e.item {
      case DirItem =>
        var made := MkdirAll(x.fs, p);
        if made.None? {
          return Err(Refused);
        }
        return Ok(x.(fs := made.value));
      case LinkItem(link) =>
        if KeepsLink(LinksInside(dest), p, link) && p !in x.fs && IsDir(x.fs, p[..|p| - 1]) {
          return Ok(x.(fs := x.fs[p := LinkItem(link)]));
        }
        return Ok(x);
      case FileItem(data) =>
        var written := WriteFile(x.fs, p, data);
        if written.None? {
          return Err(Refused);
        }
        var total := x.total + |data|;
        if total > MAX_RESTORE_BYTES {
          return Err(TooLarge);
        }
        return Ok(Extraction(written.value, total));
    }
  }

  /** An entry is turned away as an escape exactly if its name leads out of the destination. */
  lemma EscapesIff(max: nat, dest: Path, x: Extraction, e: Entry)
    requires PlainPath(dest) && dest != []
    ensures ExtractOne(max, dest, x, e) == Err(Escapes) <==> !IsPrefix(dest, Walk(dest, e.name))
  {
    CleanPlain(dest);
    CleanIsAWalk(dest, e.name);
  }

  /** Where in the destination the name of an entry leads. */
  function Place(dest: Path, e: Entry): Path
    requires IsPrefix(dest, Walk(dest, e.name))
  {
    Walk(dest, e.name)[|dest|..]
  }

  lemma {:induction false} MkdirAddsOnlyAbove(fs: Fs, p: Path, q: Path)
    requires MkdirAll(fs, p).Some?
    ensures var made := MkdirAll(fs, p).value;
            && p in made && made[p].DirItem?
            && (q in fs ==> q in made && made[q] == fs[q])
            && (q in made && q !in fs ==> IsPrefix(q, p) && made[q].DirItem?)
    decreases |p|
  {
    if p !in fs && p != [] {
      var up := p[..|p| - 1];
      MkdirAddsOnlyAbove(fs, up, q);
      if IsPrefix(q, up) {
        assert p[..|q|] == up[..|q|];
      }
    }
  }

  /**
   An entry that is extracted is at its place with what it holds; apart from
   directories above it nothing else is new, and nothing else changes.
   */
  lemma ExtractedEntryIsThere(max: nat, dest: Path, x: Extraction, e: Entry, q: Path)
    requires PlainPath(dest) && dest != [] && ExtractOne(max, dest, x, e).Ok? && !e.item.LinkItem?
    ensures IsPrefix(dest, Walk(dest, e.name))
    ensures var y, p := ExtractOne(max, dest, x, e).value, Place(dest, e);
            && p in y.fs && y.fs[p] == e.item
            && (q in x.fs && q != p ==> q in y.fs && y.fs[q] == x.fs[q])
            && (q in y.fs && q !in x.fs && q != p ==> IsPrefix(q, p) && y.fs[q].DirItem?)
            && y.total == x.total + (if e.item.FileItem? then |e.item.data| else 0)
  {
    EscapesIff(max, dest, x, e);
    CleanPlain(dest);
    CleanIsAWalk(dest, e.name);
    var p := Place(dest, e);
    if e.item.DirItem? {
      MkdirAddsOnlyAbove(x.fs, p, q);
    } else if p != [] {
      var up := p[..|p| - 1];
      MkdirAddsOnlyAbove(x.fs, up, q);
      if IsPrefix(q, up) {
        assert p[..|q|] == up[..|q|];
      }
    }
  }

  /**
   A link is made if it stays inside and nothing is in its place; otherwise it is
   passed over, which is no failure.
   */
  lemma LinkEntryActs(max: nat, dest: Path, x: Extraction, e: Entry)
    requires PlainPath(dest) && dest != [] && e.item.LinkItem? && IsPrefix(dest, Walk(dest, e.name))
    requires PlainPath(Place(dest, e)) && Place(dest, e) != []
    ensures var p := Place(dest, e);
            var made := p !in x.fs && p[..|p| - 1] in x.fs && x.fs[p[..|p| - 1]].DirItem? && !e.item.target.absolute
                        && IsPrefix(dest, Walk(dest + p[..|p| - 1], e.item.target.segs));
            ExtractOne(max, dest, x, e) == Ok(if made then x.(fs := x.fs[p := e.item]) else x)
  {
    CleanPlain(dest);
    CleanIsAWalk(dest, e.name);
    KeepsLinkIff(dest, Place(dest, e), e.item.target);
  }

  // --- archive, then extract ----------------------------------------------------------

  lemma {:induction false} ExtractAppend(max: nat, dest: Path, x: Extraction, a: seq<Entry>, b: seq<Entry>)
    ensures Extract(max, dest, x, a + b) == match Extract(max, dest, x, a)
                                            case Err(f) => Err(f)
                                            case Ok(y) => Extract(max, dest, y, b)
    decreases |a|
  {
    if a == [] {
      assert a + b == b;
    } else {
      assert (a + b)[1..] == a[1..] + b;
      match ExtractOne(max, dest, x, a[0])
      case Err(_) =>
      case Ok(y) => ExtractAppend(max, dest, y, a[1..], b);
    }
  }

  lemma SmallerLimitOnce(large: nat, small: nat, dest: Path, x: Extraction, e: Entry)
    requires small <= large && x.total <= small && ExtractOne(large, dest, x, e).Ok?
    ensures var y := ExtractOne(large, dest, x, e).value;
            && y.total == x.total + TotalBytes([e])
            && ExtractOne(small, dest, x, e) == if y.total <= small then Ok(y) else Err(TooLarge)
  {
  }

  /** A smaller limit changes the outcome only by refusing what is too large for it. */
  lemma {:induction false} SmallerLimit(large: nat, small: nat, dest: Path, x: Extraction, entries: seq<Entry>)
    requires small <= large && x.total <= small && Extract(large, dest, x, entries).Ok?
    ensures var y := Extract(large, dest, x, entries).value;
            && y.total == x.total + TotalBytes(entries)
            && Extract(small, dest, x, entries) == if y.total <= small then Ok(y) else Err(TooLarge)
    decreases |entries|
  {
    if entries != [] {
      SmallerLimitOnce(large, small, dest, x, entries[0]);
      var one := ExtractOne(large, dest, x, entries[0]).value;
      TotalNeverFalls(large, dest, one, entries[1..]);
      if one.total <= small {
        SmallerLimit(large, small, dest, one, entries[1..]);
      }
      assert TotalBytes([entries[0]]) + TotalBytes(entries[1..]) == TotalBytes(entries) by {
        assert [entries[0]][1..] == [];
      }
    }
  }

  lemma {:induction false} TotalNeverFalls(max: nat, dest: Path, x: Extraction, entries: seq<Entry>)
    requires Extract(max, dest, x, entries).Ok?
    ensures Extract(max, dest, x, entries).value.total == x.total + TotalBytes(entries)
    decreases |entries|
  {
    if entries != [] {
      TotalNeverFalls(max, dest, ExtractOne(max, dest, x, entries[0]).value, entries[1..]);
    }
  }

  predicate IsDir(fs: Fs, p: Path) { p in fs && fs[p].DirItem? }

  /** Where both have something it is the same, or both are files. */
  predicate Agrees(fs: Fs, added: Fs) {
    forall p :: p in fs && p in added ==> fs[p] == added[p] || (fs[p].FileItem? && added[p].FileItem?)
  }

  lemma AgreesSplit(fs: Fs, a: Fs, b: Fs)
    requires a.Keys !! b.Keys && Agrees(fs, a + b)
    ensures Agrees(fs, a) && Agrees(fs + a, b)
  {
  }

  /** The outcome of extracting some entries: `added` on top of what was there, and `size` more bytes. */
  predicate Yields(r: Result<Extraction, Failure>, x: Extraction, added: Fs, size: nat) {
    r == Ok(Extraction(x.fs + added, x.total + size))
  }

  /** Extracting the entries succeeds and puts `added` on top. */
  predicate Adds(max: nat, dest: Path, x: Extraction, entries: seq<Entry>, added: Fs) {
    Yields(Extract(max, dest, x, entries), x, added, TotalBytes(entries))
  }

  lemma ExtractThen(max: nat, dest: Path, x: Extraction, a: seq<Entry>, b: seq<Entry>, y: Extraction)
    requires Extract(max, dest, x, a) == Ok(y)
    ensures Extract(max, dest, x, a + b) == Extract(max, dest, y, b)
  {
    ExtractAppend(max, dest, x, a, b);
  }

  lemma YieldsMore(r: Result<Extraction, Failure>, x: Extraction, addA: Fs, sizeA: nat, addB: Fs, sizeB: nat)
    requires Yields(r, Extraction(x.fs + addA, x.total + sizeA), addB, sizeB)
    ensures Yields(r, x, addA + addB, sizeA + sizeB)
  {
    UnionAssociative(x.fs, addA, addB);
  }

  lemma AddsChain(max: nat, dest: Path, x: Extraction, a: seq<Entry>, b: seq<Entry>, addA: Fs, addB: Fs)
    requires Adds(max, dest, x, a, addA)
    requires Adds(max, dest, Extraction(x.fs + addA, x.total + TotalBytes(a)), b, addB)
    ensures Adds(max, dest, x, a + b, addA + addB)
  {
    var sizeA, sizeB := TotalBytes(a), TotalBytes(b);
    var y := Extraction(x.fs + addA, x.total + sizeA);
    var rest := Extract(max, dest, y, b);
    assert Extract(max, dest, x, a + b) == rest by {
      ExtractThen(max, dest, x, a, b, y);
    }
    YieldsMore(rest, x, addA, sizeA, addB, sizeB);
    assert TotalBytes(a + b) == sizeA + sizeB by {
      TotalBytesAppend(a, b);
    }
  }

  lemma YieldsNothing(max: nat, dest: Path, x: Extraction)
    ensures Yields(Extract(max, dest, x, []), x, map[], 0)
  {
    assert x.fs + map[] == x.fs;
  }

  lemma ExtractSingle(max: nat, dest: Path, x: Extraction, e: Entry)
    ensures Extract(max, dest, x, [e]) == ExtractOne(max, dest, x, e)
  {
  }

  predicate PlainDest(policy: Policy, dest: Path) {
    PlainPath(dest) && dest != [] && (policy.links.NoLinks? || policy.links == LinksInside(dest))
  }

  lemma PlainTarget(dest: Path, p: Path)
    requires PlainPath(dest) && dest != [] && PlainPath(p)
    ensures Clean(dest + p) == dest + p && Inside(dest, dest + p) && (dest + p)[|dest|..] == p
  {
    CleanPlain(dest + p);
  }

  /** What extraction does with the entry of one stored child directly below an existing directory. */
  lemma ExtractOwnEntry(max: nat, policy: Policy, dest: Path, x: Extraction, at: Path, child: (Name, Node))
    requires PlainDest(policy, dest) && PlainPath(at) && PlainName(child.0) && Stored(policy, child)
    requires IsDir(x.fs, at) && Agrees(x.fs, KeptItem(policy, child, at + [child.0]))
    requires x.total + TotalBytes([Entry(at + [child.0], ItemOf(child.1))]) <= max
    ensures Yields(ExtractOne(max, dest, x, Entry(at + [child.0], ItemOf(child.1))), x,
                   KeptItem(policy, child, at + [child.0]), TotalBytes([Entry(at + [child.0], ItemOf(child.1))]))
  {
    var p, item := at + [child.0], ItemOf(child.1);
    PlainTarget(dest, p);
    assert p[..|p| - 1] == at;
    PutOnTop(x.fs, p, item);
    match item {
      case DirItem =>
        if p !in x.fs {
          MkdirBelow(x.fs, at, child.0);
        }
      case FileItem(data) => WriteBelow(x.fs, at, child.0, data);
      case LinkItem(_) =>
    }
  }

  lemma PutOnTop(fs: Fs, p: Path, item: Item)
    ensures fs + map[p := item] == fs[p := item] && fs + map[] == fs
    ensures p in fs && fs[p] == item ==> fs[p := item] == fs
    ensures TotalBytes([Entry(p, item)]) == if item.FileItem? then |item.data| else 0
  {
  }

  lemma {:induction false} ExtractChildren(
    max: nat, policy: Policy, dest: Path, x: Extraction, children: seq<(Name, Node)>, at: Path)
    requires PlainDest(policy, dest) && WellFormed(children) && PlainPath(at)
    requires IsDir(x.fs, at) && Agrees(x.fs, Kept(policy, Layout(children, at), |at|))
    requires x.total + TotalBytes(Entries(policy, children, at)) <= max
    ensures Adds(max, dest, x, Entries(policy, children, at), Kept(policy, Layout(children, at), |at|))
    decreases children
  {
    if children == [] {
      assert Kept(policy, map[], |at|) == map[];
      YieldsNothing(max, dest, x);
    } else {
      var first, rest := EntriesOf(policy, children[0], at), Entries(policy, children[1..], at);
      var keptFirst := Kept(policy, LayoutOf(children[0], at), |at|);
      var keptRest := Kept(policy, Layout(children[1..], at), |at|);
      TotalBytesAppend(first, rest);
      KeptSplits(policy, children, at);
      SiblingsAgree(policy, x.fs, children, at);
      assert Adds(max, dest, x, first, keptFirst) by {
        ExtractChild(max, policy, dest, x, children[0], at);
      }
      var y := Extraction(x.fs + keptFirst, x.total + TotalBytes(first));
      assert Adds(max, dest, y, rest, keptRest) by {
        ExtractChildren(max, policy, dest, y, children[1..], at);
      }
      AddsChain(max, dest, x, first, rest, keptFirst, keptRest);
    }
  }

  lemma SiblingsAgree(policy: Policy, fs: Fs, children: seq<(Name, Node)>, at: Path)
    requires children != [] && WellFormed(children)
    requires IsDir(fs, at) && Agrees(fs, Kept(policy, Layout(children, at), |at|))
    ensures var keptFirst := Kept(policy, LayoutOf(children[0], at), |at|);
            && Agrees(fs, keptFirst) && IsDir(fs + keptFirst, at)
            && Agrees(fs + keptFirst, Kept(policy, Layout(children[1..], at), |at|))
  {
    var keptFirst := Kept(policy, LayoutOf(children[0], at), |at|);
    KeptSplits(policy, children, at);
    SiblingsLayOutApart(children, at);
    AgreesSplit(fs, keptFirst, Kept(policy, Layout(children[1..], at), |at|));
    if at in keptFirst {
      LayoutOfBelow(children[0], at, at);
    }
  }

  lemma {:induction false} ExtractChild(
    max: nat, policy: Policy, dest: Path, x: Extraction, child: (Name, Node), at: Path)
    requires PlainDest(policy, dest) && WellFormedChild(child) && PlainPath(at)
    requires IsDir(x.fs, at) && Agrees(x.fs, Kept(policy, LayoutOf(child, at), |at|))
    requires x.total + TotalBytes(EntriesOf(policy, child, at)) <= max
    ensures Adds(max, dest, x, EntriesOf(policy, child, at), Kept(policy, LayoutOf(child, at), |at|))
    decreases child, 1
  {
    if !Stored(policy, child) {
      KeptOfUnstored(policy, child, at);
      YieldsNothing(max, dest, x);
    } else if child.1.Dir? {
      ExtractStoredDir(max, policy, dest, x, child, at);
    } else {
      var own := Entry(at + [child.0], ItemOf(child.1));
      assert EntriesOf(policy, child, at) == [own];
      KeptOfStored(policy, child, at);
      assert KeptItem(policy, child, at + [child.0]) + map[] == KeptItem(policy, child, at + [child.0]);
      ExtractOwnEntry(max, policy, dest, x, at, child);
      ExtractSingle(max, dest, x, own);
    }
  }

  lemma {:induction false} ExtractStoredDir(
    max: nat, policy: Policy, dest: Path, x: Extraction, child: (Name, Node), at: Path)
    requires PlainDest(policy, dest) && WellFormedChild(child) && PlainPath(at)
    requires Stored(policy, child) && child.1.Dir?
    requires IsDir(x.fs, at) && Agrees(x.fs, Kept(policy, LayoutOf(child, at), |at|))
    requires x.total + TotalBytes(EntriesOf(policy, child, at)) <= max
    ensures Adds(max, dest, x, EntriesOf(policy, child, at), Kept(policy, LayoutOf(child, at), |at|))
    decreases child, 0
  {
    var p := at + [child.0];
    var own, inner := [Entry(p, DirItem)], Entries(policy, child.1.children, p);
    var keptInner := Kept(policy, Layout(child.1.children, p), |p|);
    KeptOfStored(policy, child, at);
    ItselfAndBelowAgree(policy, x.fs, child, at);
    TotalBytesAppend(own, inner);
    assert Adds(max, dest, x, own, map[p := DirItem]) by {
      ExtractOwnEntry(max, policy, dest, x, at, child);
      ExtractSingle(max, dest, x, own[0]);
    }
    var y := Extraction(x.fs + map[p := DirItem], x.total);
    assert TotalBytes(own) == 0;
    assert Adds(max, dest, y, inner, keptInner) by {
      ExtractChildren(max, policy, dest, y, child.1.children, p);
    }
    AddsChain(max, dest, x, own, inner, map[p := DirItem], keptInner);
  }

  lemma ItselfAndBelowAgree(policy: Policy, fs: Fs, child: (Name, Node), at: Path)
    requires Stored(policy, child) && child.1.Dir? && Agrees(fs, Kept(policy, LayoutOf(child, at), |at|))
    ensures var p := at + [child.0];
            && Agrees(fs, map[p := DirItem])
            && Agrees(fs + map[p := DirItem], Kept(policy, Layout(child.1.children, p), |p|))
  {
    var p := at + [child.0];
    var inner := Kept(policy, Layout(child.1.children, p), |p|);
    KeptOfStored(policy, child, at);
    if p in inner {
      LayoutBelow(child.1.children, p, p);
    }
    AgreesSplit(fs, map[p := DirItem], inner);
  }

  function EmptyDir(): Fs { map[[] := DirItem] }

  /** Extracting the archive of a tree over what agrees with the tree puts the tree on top. */
  lemma ExtractOverAgreeing(dest: Path, fs: Fs, children: seq<(Name, Node)>)
    requires WellFormed(children) && PlainPath(dest) && dest != []
    requires IsDir(fs, []) && Agrees(fs, Kept(TarPolicy(dest), Layout(children, []), 0))
    ensures var entries := Entries(TarPolicy(dest), children, []);
            Extract(MAX_RESTORE_BYTES, dest, Extraction(fs, 0), entries)
            == if TotalBytes(entries) > MAX_RESTORE_BYTES then Err(TooLarge)
               else Ok(Extraction(fs + Kept(TarPolicy(dest), Layout(children, []), 0), TotalBytes(entries)))
  {
    var x, entries := Extraction(fs, 0), Entries(TarPolicy(dest), children, []);
    var large := MAX_RESTORE_BYTES + TotalBytes(entries);
    ExtractChildren(large, TarPolicy(dest), dest, x, children, []);
    SmallerLimit(large, MAX_RESTORE_BYTES, dest, x, entries);
  }

  lemma EmptyDirAgrees(policy: Policy, children: seq<(Name, Node)>)
    ensures Agrees(EmptyDir(), Kept(policy, Layout(children, []), 0))
  {
    if [] in Layout(children, []) {
      LayoutBelow(children, [], []);
    }
  }

  /**
   Archiving a tree and extracting the archive into an empty directory gives
   the tree without every path that has an excluded segment, without special
   files, and without links that are absolute or lexically leave the
   destination; unless its files are larger than the limit, and then it fails.
   */
  lemma BackupRoundTrip(dest: Path, children: seq<(Name, Node)>)
    requires WellFormed(children) && PlainPath(dest) && dest != []
    ensures var entries := Entries(TarPolicy(dest), children, []);
            Extract(MAX_RESTORE_BYTES, dest, Extraction(EmptyDir(), 0), entries)
            == if TotalBytes(entries) > MAX_RESTORE_BYTES then Err(TooLarge)
               else Ok(Extraction(EmptyDir() + Kept(TarPolicy(dest), Layout(children, []), 0),
                                  TotalBytes(entries)))
  {
    EmptyDirAgrees(TarPolicy(dest), children);
    ExtractOverAgreeing(dest, EmptyDir(), children);
  }

  /** Whatever archive it is given, extraction only adds: no path disappears, and at most a file replaces a file. */
  lemma {:induction false} ExtractionOnlyAdds(max: nat, dest: Path, x: Extraction, entries: seq<Entry>, p: Path)
    requires Extract(max, dest, x, entries).Ok? && p in x.fs
    ensures p in Extract(max, dest, x, entries).value.fs
    ensures var after := Extract(max, dest, x, entries).value.fs[p];
            after == x.fs[p] || (after.FileItem? && x.fs[p].FileItem?)
    decreases |entries|
  {
    if entries != [] {
      OneKeeps(max, dest, x, entries[0], p);
      ExtractionOnlyAdds(max, dest, ExtractOne(max, dest, x, entries[0]).value, entries[1..], p);
    }
  }

  lemma {:induction false} MkdirKeeps(fs: Fs, q: Path, p: Path)
    requires MkdirAll(fs, q).Some? && p in fs
    ensures p in MkdirAll(fs, q).value && MkdirAll(fs, q).value[p] == fs[p]
    decreases |q|
  {
    if q !in fs && q != [] {
      MkdirKeeps(fs, q[..|q| - 1], p);
    }
  }

  lemma OneKeeps(max: nat, dest: Path, x: Extraction, e: Entry, p: Path)
    requires ExtractOne(max, dest, x, e).Ok? && p in x.fs
    ensures var y := ExtractOne(max, dest, x, e).value;
            p in y.fs && (y.fs[p] == x.fs[p] || (y.fs[p].FileItem? && x.fs[p].FileItem?))
  {
    var target := Clean(dest + e.name);
    var q := target[|dest|..];
    match e.item
    case DirItem => MkdirKeeps(x.fs, q, p);
    case FileItem(_) =>
      if q != [] {
        MkdirKeeps(x.fs, q[..|q| - 1], p);
      }
    case LinkItem(_) =>
  }
}
