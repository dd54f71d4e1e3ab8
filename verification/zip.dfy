/**
 Zip and unzip inside a server directory (internal/mcfiles/zip.go): the
 extraction budget against lying headers, and the round trip of a directory.
 */
module Zip {
  import opened Prelude
  import opened FileTree
  import Tar = Backup

  /** Nothing; the entry or the new file cannot be opened; or the copy fails once `after` bytes have gone through. */
  datatype Fault = NoFault | NotOpened | CutShort(after: nat)

  /** `declared` is the uint64 size of the header. */
  datatype ZipEntry = ZipEntry(name: Path, isDir: bool, declared: nat, data: Bytes, fault: Fault)

  predicate Uint64(n: nat) { n < 0x1_0000_0000_0000_0000 }

  /** Conversion of a uint64 to int64, which wraps. */
  function AsInt64(n: nat): int {
    if n < 0x8000_0000_0000_0000 then n else n - 0x1_0000_0000_0000_0000
  }

  datatype Failure = Escapes | TooLarge | Failed

  /** `total` is the meter of the loop, `written` every byte that reached the disk. */
  datatype Extraction = Extraction(fs: Fs, total: nat, written: nat)

  /** The copy asks for more after `after` bytes, and so meets its error. */
  predicate Breaks(e: ZipEntry, remaining: nat) {
    e.fault.CutShort? && e.fault.after <= |e.data| && e.fault.after <= remaining
  }

  /** What io.Copy takes through a reader limited to one byte more than remains. */
  function Copied(e: ZipEntry, remaining: nat): (n: nat)
    ensures n <= |e.data| && n <= remaining + 1
  {
    if Breaks(e, remaining) then e.fault.after
    else if |e.data| <= remaining + 1 then |e.data|
    else remaining + 1
  }

  /** The copy of one file into a directory that exists; an error still tells what was written. */
  function CopyFile(budget: nat, x: Extraction, p: Path, e: ZipEntry): (Extraction, Option<Failure>)
    requires x.total <= budget
  {
    var remaining := budget - x.total;
    var n := Copied(e, remaining);
    match PutFile(x.fs, p, e.data[..n])
    case None => (x, Some(Failed))
    case Some(fs) =>
      var y := Extraction(fs, x.total + n, x.written + n);
      if Breaks(e, remaining) then (y.(total := x.total), Some(Failed))
      else if n > remaining then (y, Some(TooLarge))
      else (y, None)
  }

  /** One turn of the loop. The budget is a variable of the package, 20 GiB unless changed. */
  function UnzipOne(budget: nat, dest: Path, x: Extraction, e: ZipEntry): (Extraction, Option<Failure>)
    requires x.total <= budget
  {
    var target := Clean(dest + e.name);
    if !Inside(dest, target) || |target| < |dest| then (x, Some(Escapes))
    else
      var p := target[|dest|..];
      if e.isDir then
        match MkdirAll(x.fs, p)
        case None => (x, Some(Failed))
        case Some(fs) => (x.(fs := fs), None)
      else if AsInt64(e.declared) > budget - x.total then (x, Some(TooLarge))
      else
        match MkdirParent(x.fs, p)
        case None => (x, Some(Failed))
        case Some(fs) =>
          if e.fault.NotOpened? then (x.(fs := fs), Some(Failed)) else CopyFile(budget, x.(fs := fs), p, e)
  }

  function UnzipAll(budget: nat, dest: Path, x: Extraction, entries: seq<ZipEntry>): (Extraction, Option<Failure>)
    requires x.total <= budget
    decreases |entries|
  {
    if entries == [] then (x, None)
    else
      var (y, failure) := UnzipOne(budget, dest, x, entries[0]);
      if failure.Some? then (y, failure) else UnzipAll(budget, dest, y, entries[1..])
  }

  /** Real size of everything that is not a directory. */
  function RealTotal(entries: seq<ZipEntry>): nat {
    if entries == [] then 0 else (if entries[0].isDir then 0 else |entries[0].data|) + RealTotal(entries[1..])
  }

  lemma UnzipOneMeter(budget: nat, dest: Path, x: Extraction, e: ZipEntry)
    requires x.total <= budget
    ensures UnzipOne(budget, dest, x, e).1.None? ==>
              var y := UnzipOne(budget, dest, x, e).0; y.total <= budget && y.total - x.total == y.written - x.written
  {
  }

  /** The loop of UnzipInto: the meter never passes the budget where the loop is entered again. */
  method UnzipInto(budget: nat, dest: Path, fs: Fs, entries: seq<ZipEntry>)
    returns (result: Fs, written: nat, failure: Option<Failure>)
    ensures var (y, f) := UnzipAll(budget, dest, Extraction(fs, 0, 0), entries);
            result == y.fs && written == y.written && failure == f
    ensures written <= budget + 1
  {
    var total: nat := 0;
    result, written, failure := fs, 0, None;
    BudgetHolds(budget, dest, Extraction(fs, 0, 0), entries);
    for i := 0 to |entries|
      invariant total == written <= budget && failure.None?
      invariant UnzipAll(budget, dest, Extraction(fs, 0, 0), entries)
             == UnzipAll(budget, dest, Extraction(result, total, written), entries[i..])
    {
      assert entries[i..][1..] == entries[i + 1..];
      UnzipOneMeter(budget, dest, Extraction(result, total, written), entries[i]);
      var y, f := UnzipEntry(budget, dest, Extraction(result, total, written), entries[i]);
      result, total, written := y.fs, y.total, y.written;
      if f.Some? {
        failure := f;
        return;
      }
    }
  }

  method UnzipEntry(budget: nat, dest: Path, x: Extraction, e: ZipEntry) returns (y: Extraction, f: Option<Failure>)
    requires x.total <= budget
    ensures (y, f) == UnzipOne(budget, dest, x, e)
  {
    y := x;
    var target := Clean(dest + e.name);
    if !Inside(dest, target) || |target| < |dest| {
      return y, Some(Escapes);
    }
    var p := target[|dest|..];
    if e.isDir {
      var dirs := MkdirAll(x.fs, p);
      if dirs.None? {
        return y, Some(Failed);
      }
      return y.(fs := dirs.value), None;
    }
    if AsInt64(e.declared) > budget - x.total {
      return y, Some(TooLarge);
    }
    var made := MkdirParent(x.fs, p);
    if made.None? {
      return y, Some(Failed);
    }
    y := y.(fs := made.value);
    if e.fault.NotOpened? {
      return y, Some(Failed);
    }
    y, f := CopyEntry(budget, y, p, e);
  }

  method CopyEntry(budget: nat, x: Extraction, p: Path, e: ZipEntry) returns (y: Extraction, f: Option<Failure>)
    requires x.total <= budget
    ensures (y, f) == CopyFile(budget, x, p, e)
  {
    y := x;
    var remaining := budget - x.total;
    var n := Copied(e, remaining);
    var put := PutFile(y.fs, p, e.data[..n]);
    if put.None? {
      return y, Some(Failed);
    }
    y := y.(fs := put.value, written := y.written + n);
    if Breaks(e, remaining) {
      return y, Some(Failed);
    }
    y := y.(total := y.total + n);
    if n > remaining {
      return y, Some(TooLarge);
    }
    return y, None;
  }

  lemma OneKeepsTheBudget(budget: nat, dest: Path, x: Extraction, e: ZipEntry)
    requires x.total == x.written <= budget
    ensures var (y, failure) := UnzipOne(budget, dest, x, e);
            && y.written <= budget + 1
            && (failure.None? ==> y.total == y.written == x.total + (if e.isDir then 0 else |e.data|) <= budget)
  {
  }

  /** Whatever the headers declare, at most one byte more than the budget is ever written. */
  lemma {:induction false} BudgetHolds(budget: nat, dest: Path, x: Extraction, entries: seq<ZipEntry>)
    requires x.total == x.written <= budget
    ensures UnzipAll(budget, dest, x, entries).0.written <= budget + 1
    ensures UnzipAll(budget, dest, x, entries).1.None? ==>
              var y := UnzipAll(budget, dest, x, entries).0;
              y.total == y.written == x.total + RealTotal(entries) <= budget
    decreases |entries|
  {
    if entries != [] {
      OneKeepsTheBudget(budget, dest, x, entries[0]);
      var y := UnzipOne(budget, dest, x, entries[0]).0;
      if UnzipOne(budget, dest, x, entries[0]).1.None? {
        BudgetHolds(budget, dest, y, entries[1..]);
      }
    }
  }

  /** Success means that the real sizes fit, so no header, however small or wrapped, buys extra room. */
  lemma SuccessIsWithinBudget(budget: nat, dest: Path, fs: Fs, entries: seq<ZipEntry>)
    requires UnzipAll(budget, dest, Extraction(fs, 0, 0), entries).1.None?
    ensures RealTotal(entries) <= budget
  {
    BudgetHolds(budget, dest, Extraction(fs, 0, 0), entries);
  }

  /** The early check on declared sizes lets every wrapped size through; only the meter stops such an entry. */
  lemma WrappedSizePassesTheEarlyCheck(budget: nat, total: nat, declared: nat)
    requires Uint64(declared) && total <= budget < 0x8000_0000_0000_0000
    ensures AsInt64(declared) > budget - total <==> budget - total < declared < 0x8000_0000_0000_0000
  {
  }

  lemma CopiedFileIsThere(budget: nat, x: Extraction, p: Path, e: ZipEntry)
    requires x.total <= budget
    ensures var (y, failure) := CopyFile(budget, x, p, e);
            && failure != Some(Escapes) && y.written <= x.written + |e.data|
            && (failure.None? ==>
                 && p in y.fs && y.fs[p] == FileItem(e.data)
                 && y.total == x.total + |e.data| && y.written == x.written + |e.data|)
  {
    assert e.data[..|e.data|] == e.data;
  }

  /** An entry is an escape exactly if its name leads out of the destination, and then nothing is touched. */
  lemma EscapesIff(budget: nat, dest: Path, x: Extraction, e: ZipEntry)
    requires PlainPath(dest) && dest != [] && x.total <= budget
    ensures UnzipOne(budget, dest, x, e).1 == Some(Escapes) <==> !IsPrefix(dest, Walk(dest, e.name))
    ensures UnzipOne(budget, dest, x, e).1 == Some(Escapes) ==> UnzipOne(budget, dest, x, e).0 == x
  {
    CleanPlain(dest);
    CleanIsAWalk(dest, e.name);
    var p := Clean(dest + e.name)[if |Clean(dest + e.name)| < |dest| then 0 else |dest|..];
    if !e.isDir && MkdirParent(x.fs, p).Some? {
      CopiedFileIsThere(budget, x.(fs := MkdirParent(x.fs, p).value), p, e);
    }
  }

  /** An entry that passes could be opened and is there, whole, where its name leads. */
  lemma UnzippedEntryIsThere(budget: nat, dest: Path, x: Extraction, e: ZipEntry)
    requires PlainPath(dest) && dest != [] && x.total <= budget && UnzipOne(budget, dest, x, e).1.None?
    ensures IsPrefix(dest, Walk(dest, e.name))
    ensures var y, p := UnzipOne(budget, dest, x, e).0, Walk(dest, e.name)[|dest|..];
            && p in y.fs && y.fs[p] == (if e.isDir then DirItem else FileItem(e.data))
            && y.total == x.total + (if e.isDir then 0 else |e.data|) && (e.isDir || !e.fault.NotOpened?)
  {
    EscapesIff(budget, dest, x, e);
    CleanPlain(dest);
    CleanIsAWalk(dest, e.name);
    var p := Walk(dest, e.name)[|dest|..];
    if e.isDir {
      Tar.MkdirAddsOnlyAbove(x.fs, p, p);
    } else {
      CopiedFileIsThere(budget, x.(fs := MkdirParent(x.fs, p).value), p, e);
    }
  }

  // --- zip, then unzip ------------------------------------------------------------------

  /** Zip stores directories and regular files; every other kind of file is passed over. */
  function ZipPolicy(): Policy { Policy({}, NoLinks) }

  function Honest(e: Entry): ZipEntry
    requires !e.item.LinkItem?
  {
    if e.item.DirItem? then ZipEntry(e.name, true, 0, [], NoFault)
    else ZipEntry(e.name, false, |e.item.data|, e.item.data, NoFault)
  }

  predicate NoLinkEntries(entries: seq<Entry>) {
    forall i :: 0 <= i < |entries| ==> !entries[i].item.LinkItem?
  }

  function HonestAll(entries: seq<Entry>): (r: seq<ZipEntry>)
    requires NoLinkEntries(entries)
    ensures |r| == |entries|
  {
    if entries == [] then [] else [Honest(entries[0])] + HonestAll(entries[1..])
  }

  lemma {:induction false} EntriesHaveNoLinks(children: seq<(Name, Node)>, at: Path)
    ensures NoLinkEntries(Entries(ZipPolicy(), children, at))
    decreases children
  {
    if children != [] {
      ChildHasNoLinks(children[0], at);
      EntriesHaveNoLinks(children[1..], at);
    }
  }

  lemma {:induction false} ChildHasNoLinks(child: (Name, Node), at: Path)
    ensures NoLinkEntries(EntriesOf(ZipPolicy(), child, at))
    decreases child
  {
    if child.1.Dir? {
      EntriesHaveNoLinks(child.1.children, at + [child.0]);
    }
  }

  /** On an archive of our own making, unzipping and untarring take the same steps. */
  lemma UnzipsLikeTar(budget: nat, dest: Path, x: Extraction, e: Entry)
    requires x.total <= budget < 0x8000_0000_0000_0000 && !e.item.LinkItem?
    requires Tar.ExtractOne(budget, dest, Tar.Extraction(x.fs, x.total), e).Ok?
    ensures var y := Tar.ExtractOne(budget, dest, Tar.Extraction(x.fs, x.total), e).value;
            && y.total <= budget
            && UnzipOne(budget, dest, x, Honest(e))
               == (Extraction(y.fs, y.total, x.written + (y.total - x.total)), None)
  {
    if e.item.FileItem? {
      assert e.item.data[..|e.item.data|] == e.item.data;
    }
  }

  lemma HonestStep(entries: seq<Entry>)
    requires NoLinkEntries(entries) && entries != []
    ensures !entries[0].item.LinkItem? && NoLinkEntries(entries[1..])
    ensures HonestAll(entries)[0] == Honest(entries[0]) && HonestAll(entries)[1..] == HonestAll(entries[1..])
  {
  }

  lemma UnzipAllStep(budget: nat, dest: Path, x: Extraction, entries: seq<ZipEntry>, y: Extraction)
    requires x.total <= budget && entries != [] && UnzipOne(budget, dest, x, entries[0]) == (y, None)
    ensures y.total <= budget && UnzipAll(budget, dest, x, entries) == UnzipAll(budget, dest, y, entries[1..])
  {
  }

  /** The same tree and meter, and as many bytes written as metered. */
  predicate Matches(r: (Extraction, Option<Failure>), x: Extraction, y: Tar.Extraction) {
    y.total >= x.total && r == (Extraction(y.fs, y.total, x.written + (y.total - x.total)), None)
  }

  lemma MatchesFurther(r: (Extraction, Option<Failure>), x: Extraction, mid: Extraction, y: Tar.Extraction)
    requires mid.total >= x.total && mid.written == x.written + (mid.total - x.total) && Matches(r, mid, y)
    ensures Matches(r, x, y)
  {
  }

  lemma {:induction false} UnzipAllLikeTar(budget: nat, dest: Path, x: Extraction, entries: seq<Entry>)
    requires x.total <= budget < 0x8000_0000_0000_0000 && NoLinkEntries(entries)
    requires Tar.Extract(budget, dest, Tar.Extraction(x.fs, x.total), entries).Ok?
    ensures Matches(UnzipAll(budget, dest, x, HonestAll(entries)), x,
                    Tar.Extract(budget, dest, Tar.Extraction(x.fs, x.total), entries).value)
    decreases |entries|
  {
    if entries != [] {
      HonestStep(entries);
      UnzipsLikeTar(budget, dest, x, entries[0]);
      var mid := UnzipOne(budget, dest, x, Honest(entries[0])).0;
      UnzipAllStep(budget, dest, x, HonestAll(entries), mid);
      UnzipAllLikeTar(budget, dest, mid, entries[1..]);
      MatchesFurther(UnzipAll(budget, dest, mid, HonestAll(entries[1..])), x, mid,
                     Tar.Extract(budget, dest, Tar.Extraction(mid.fs, mid.total), entries[1..]).value);
    }
  }

  lemma {:induction false} FirstEntryIsAtTheTop(children: seq<(Name, Node)>, at: Path)
    requires WellFormed(children) && Entries(ZipPolicy(), children, at) != []
    ensures var e := Entries(ZipPolicy(), children, at)[0];
            |e.name| == |at| + 1 && e.name[..|at|] == at && PlainName(e.name[|at|]) && !e.item.LinkItem?
    decreases children
  {
    if EntriesOf(ZipPolicy(), children[0], at) == [] {
      FirstEntryIsAtTheTop(children[1..], at);
    }
  }

  /** Unzip starts without a destination; the first entry creates it. */
  lemma FirstEntryCreatesTheDestination(budget: nat, dest: Path, e: Entry)
    requires PlainPath(dest) && dest != [] && |e.name| == 1 && PlainName(e.name[0]) && !e.item.LinkItem?
    ensures Tar.ExtractOne(budget, dest, Tar.Extraction(map[], 0), e)
         == Tar.ExtractOne(budget, dest, Tar.Extraction(Tar.EmptyDir(), 0), e)
  {
    Tar.PlainTarget(dest, e.name);
    assert e.name[..0] == [];
    assert MkdirAll(map[], []) == Some(Tar.EmptyDir());
    assert MkdirAll(Tar.EmptyDir(), []) == Some(Tar.EmptyDir());
  }

  lemma {:induction false} HonestTotal(entries: seq<Entry>)
    requires NoLinkEntries(entries)
    ensures RealTotal(HonestAll(entries)) == TotalBytes(entries)
  {
    if entries != [] {
      HonestTotal(entries[1..]);
      assert HonestAll(entries)[1..] == HonestAll(entries[1..]);
    }
  }

  /** What Zip stores of its source: what a directory holds, or any other file under its own base name. */
  function Contents(base: Name, source: Node): seq<(Name, Node)> {
    if source.Dir? then source.children else [(base, source)]
  }

  /**
   Zipping a directory or file and unzipping the archive rebuilds every regular
   file and directory of it, exactly when the files fit the budget. A source in
   which there is nothing to store gives an archive that creates nothing.
   */
  lemma ZipRoundTrip(budget: nat, dest: Path, base: Name, source: Node)
    requires WellFormed(Contents(base, source)) && PlainPath(dest) && dest != [] && budget < 0x8000_0000_0000_0000
    ensures var entries := Entries(ZipPolicy(), Contents(base, source), []);
            && NoLinkEntries(entries)
            && var (y, failure) := UnzipAll(budget, dest, Extraction(map[], 0, 0), HonestAll(entries));
            && (failure.None? <==> TotalBytes(entries) <= budget)
            && (failure.None? ==>
                  y.fs == if entries == [] then map[]
                          else Tar.EmptyDir() + Kept(ZipPolicy(), Layout(Contents(base, source), []), 0))
  {
    var children := Contents(base, source);
    var entries := Entries(ZipPolicy(), children, []);
    EntriesHaveNoLinks(children, []);
    HonestTotal(entries);
    BudgetHolds(budget, dest, Extraction(map[], 0, 0), HonestAll(entries));
    if TotalBytes(entries) <= budget && entries != [] {
      Tar.EmptyDirAgrees(ZipPolicy(), children);
      Tar.ExtractChildren(budget, ZipPolicy(), dest, Tar.Extraction(Tar.EmptyDir(), 0), children, []);
      FirstEntryIsAtTheTop(children, []);
      FirstEntryCreatesTheDestination(budget, dest, entries[0]);
      UnzipAllLikeTar(budget, dest, Extraction(map[], 0, 0), entries);
    }
  }

  /** Path by path: every directory and regular file of the source comes back with its contents, and no link does. */
  lemma UnzippedIff(budget: nat, dest: Path, base: Name, source: Node, p: Path)
    requires WellFormed(Contents(base, source)) && PlainPath(dest) && dest != [] && budget < 0x8000_0000_0000_0000
    requires TotalBytes(Entries(ZipPolicy(), Contents(base, source), [])) <= budget && p != []
    ensures var entries, tree := Entries(ZipPolicy(), Contents(base, source), []), Layout(Contents(base, source), []);
            && NoLinkEntries(entries)
            && var (y, failure) := UnzipAll(budget, dest, Extraction(map[], 0, 0), HonestAll(entries));
            && failure.None?
            && (p in y.fs <==> p in tree && !tree[p].LinkItem?)
            && (p in y.fs ==> y.fs[p] == tree[p])
  {
    var children := Contents(base, source);
    ZipRoundTrip(budget, dest, base, source);
    if Entries(ZipPolicy(), children, []) == [] {
      NothingStoredNothingKept(children, []);
    }
  }

  lemma {:induction false} NothingStoredNothingKept(children: seq<(Name, Node)>, at: Path)
    requires Entries(ZipPolicy(), children, at) == []
    ensures Kept(ZipPolicy(), Layout(children, at), 0) == map[]
    decreases children
  {
    if children != [] {
      var first := LayoutOf(children[0], at);
      assert EntriesOf(ZipPolicy(), children[0], at) == [];
      assert children[0].1.Special? || children[0].1.Link?;
      assert forall p :: p in first ==> first[p].LinkItem?;
      NothingStoredNothingKept(children[1..], at);
    }
  }

  lemma OneFile(base: Name, data: Bytes)
    requires PlainName(base)
    ensures var children := Contents(base, File(data));
            && WellFormed(children) && Layout(children, []) == map[[base] := FileItem(data)]
            && Entries(ZipPolicy(), children, []) == [Entry([base], FileItem(data))]
  {
    var children := Contents(base, File(data));
    assert children == [(base, File(data))] && children[1..] == [] && [] + [base] == [base];
    assert EntriesOf(ZipPolicy(), children[0], []) == [Entry([base], FileItem(data))];
    assert Entries(ZipPolicy(), children[1..], []) == [];
    assert LayoutOf(children[0], []) == map[[base] := FileItem(data)] by {
      assert LayoutOf(children[0], []) == map[[base] := FileItem(data)] + map[];
    }
    assert Layout(children[1..], []) == map[];
    assert Layout(children, []) == LayoutOf(children[0], []) + map[];
    assert WellFormedChild(children[0]) && WellFormed(children[1..]);
  }

  /** A single regular file comes back alone in the new directory, under its own name. */
  lemma FileRoundTrip(budget: nat, dest: Path, base: Name, data: Bytes)
    requires PlainName(base) && PlainPath(dest) && dest != [] && |data| <= budget < 0x8000_0000_0000_0000
    ensures var entries := Entries(ZipPolicy(), Contents(base, File(data)), []);
            && NoLinkEntries(entries)
            && UnzipAll(budget, dest, Extraction(map[], 0, 0), HonestAll(entries))
               == (Extraction(map[[] := DirItem, [base] := FileItem(data)], |data|, |data|), None)
  {
    var entries := Entries(ZipPolicy(), Contents(base, File(data)), []);
    OneFile(base, data);
    assert TotalBytes(entries) == |data| by {
      assert entries[1..] == [];
    }
    ZipRoundTrip(budget, dest, base, File(data));
    BudgetHolds(budget, dest, Extraction(map[], 0, 0), HonestAll(entries));
    HonestTotal(entries);
    assert Tar.EmptyDir() + map[[base] := FileItem(data)] == map[[] := DirItem, [base] := FileItem(data)];
    assert Kept(ZipPolicy(), map[[base] := FileItem(data)], 0) == map[[base] := FileItem(data)];
  }

  /** A tree of directories and regular files only comes back whole. */
  lemma {:induction false} PlainTreesAreKeptWhole(children: seq<(Name, Node)>, at: Path)
    requires OnlyFilesAndDirs(children)
    ensures Kept(ZipPolicy(), Layout(children, at), |at|) == Layout(children, at)
  {
    forall p | p in Layout(children, at) ensures !Layout(children, at)[p].LinkItem? {
      NoLinksInLayout(children, at, p);
    }
  }

  predicate OnlyFilesAndDirs(children: seq<(Name, Node)>)
    decreases children
  {
    children == [] || (OnlyFileOrDir(children[0]) && OnlyFilesAndDirs(children[1..]))
  }

  predicate OnlyFileOrDir(child: (Name, Node))
    decreases child
  {
    child.1.File? || (child.1.Dir? && OnlyFilesAndDirs(child.1.children))
  }

  lemma {:induction false} NoLinksInLayout(children: seq<(Name, Node)>, at: Path, p: Path)
    requires OnlyFilesAndDirs(children) && p in Layout(children, at)
    ensures !Layout(children, at)[p].LinkItem?
    decreases children
  {
    if p in Layout(children[1..], at) {
      NoLinksInLayout(children[1..], at, p);
    } else {
      NoLinksInChild(children[0], at, p);
    }
  }

  lemma {:induction false} NoLinksInChild(child: (Name, Node), at: Path, p: Path)
    requires OnlyFileOrDir(child) && p in LayoutOf(child, at)
    ensures !LayoutOf(child, at)[p].LinkItem?
    decreases child
  {
    if child.1.Dir? && p in Layout(child.1.children, at + [child.0]) {
      NoLinksInLayout(child.1.children, at + [child.0], p);
    }
  }
}
