/**
 Directory trees, lexical paths and the small part of a file system that the
 archive code touches. A slash-separated path is the sequence of its segments.
 */
module FileTree {
  import opened Prelude

  type Name = string

  type Path = seq<Name>

  type Bytes = seq<bv8>

  datatype LinkTarget = LinkTarget(absolute: bool, segs: Path)

  /** `Special` stands for sockets, devices and the like. */
  datatype Node = Dir(children: seq<(Name, Node)>) | File(data: Bytes) | Link(target: LinkTarget) | Special

  datatype Item = DirItem | FileItem(data: Bytes) | LinkItem(target: LinkTarget)

  /** What exists below a destination; [] is the destination itself. */
  type Fs = map<Path, Item>

  // --- lexical paths ------------------------------------------------------------

  predicate PlainName(n: Name) { n != "" && n != "." && n != ".." && '/' !in n }

  predicate PlainPath(p: Path) { forall i :: 0 <= i < |p| ==> PlainName(p[i]) }

  /** filepath.Clean of an absolute path. */
  function Clean(segs: Path): Path {
    if segs == [] then []
    else
      var front, last := Clean(segs[..|segs| - 1]), segs[|segs| - 1];
      if last == "" || last == "." then front
      else if last == ".." then (if front == [] then [] else front[..|front| - 1])
      else front + [last]
  }

  lemma {:induction false} CleanPlain(p: Path)
    requires PlainPath(p)
    ensures Clean(p) == p
  {
    if p != [] {
      CleanPlain(p[..|p| - 1]);
    }
  }

  predicate IsPrefix(a: Path, b: Path) { |a| <= |b| && b[..|a|] == a }

  /** The code tests for the destination followed by a separator; the root directory never passes that test. */
  predicate Inside(dest: Path, target: Path) {
    target == dest || (dest != [] && IsPrefix(dest, target))
  }

  /** One segment further, as the operating system would go. */
  function Step(at: Path, seg: Name): Path {
    if seg == "" || seg == "." then at
    else if seg == ".." then (if at == [] then [] else at[..|at| - 1])
    else at + [seg]
  }

  /** Where the segments lead from a directory, taken in their order. */
  function Walk(at: Path, segs: Path): Path
    decreases |segs|
  {
    if segs == [] then at else Walk(Step(at, segs[0]), segs[1..])
  }

  /** Cleaning a joined path is walking it. */
  lemma {:induction false} CleanIsAWalk(a: Path, segs: Path)
    ensures Clean(a + segs) == Walk(Clean(a), segs)
    decreases |segs|
  {
    if segs == [] {
      assert a + segs == a;
    } else {
      var first := a + [segs[0]];
      assert first[..|first| - 1] == a;
      assert Clean(first) == Step(Clean(a), segs[0]);
      assert a + segs == first + segs[1..];
      CleanIsAWalk(first, segs[1..]);
    }
  }

  /** The segments never lead above a directory `depth` levels down. */
  predicate NeverAbove(depth: nat, segs: Path)
    decreases |segs|
  {
    segs == [] ||
    (if segs[0] == "" || segs[0] == "." then NeverAbove(depth, segs[1..])
     else if segs[0] == ".." then depth > 0 && NeverAbove(depth - 1, segs[1..])
     else NeverAbove(depth + 1, segs[1..]))
  }

  lemma {:induction false} NeverAboveStaysInside(dest: Path, at: Path, segs: Path)
    requires IsPrefix(dest, at) && NeverAbove(|at| - |dest|, segs)
    ensures IsPrefix(dest, Walk(at, segs))
    decreases |segs|
  {
    if segs != [] {
      var next := Step(at, segs[0]);
      assert IsPrefix(dest, next) by {
        if segs[0] == ".." {
          assert next[..|dest|] == at[..|dest|];
        } else if segs[0] != "" && segs[0] != "." {
          assert next[..|dest|] == at[..|dest|];
        }
      }
      NeverAboveStaysInside(dest, next, segs[1..]);
    }
  }

  /** Nothing but steps up, at least as many as there are levels, and one more leads out. */
  lemma {:induction false} UpLeadsOut(at: Path, segs: Path)
    requires forall i :: 0 <= i < |segs| ==> segs[i] == ".."
    ensures |Walk(at, segs)| == if |segs| <= |at| then |at| - |segs| else 0
    decreases |segs|
  {
    if segs != [] {
      UpLeadsOut(Step(at, segs[0]), segs[1..]);
    }
  }

  // --- file system ----------------------------------------------------------------

  /** MkdirAll; it fails where a segment exists and is not a directory. */
  function MkdirAll(fs: Fs, p: Path): Option<Fs>
    decreases |p|
  {
    if p in fs then (if fs[p].DirItem? then Some(fs) else None)
    else if p == [] then Some(fs[p := DirItem])
    else
      match MkdirAll(fs, p[..|p| - 1])
      case None => None
      case Some(made) => Some(made[p := DirItem])
  }

  /** Creating or truncating a file in an existing directory; it fails where something else exists. */
  function PutFile(fs: Fs, p: Path, data: Bytes): Option<Fs> {
    if p in fs && !fs[p].FileItem? then None else Some(fs[p := FileItem(data)])
  }

  /** MkdirAll of the directory of a path; that of the destination lies outside and exists. */
  function MkdirParent(fs: Fs, p: Path): Option<Fs> {
    if p == [] then Some(fs) else MkdirAll(fs, p[..|p| - 1])
  }

  function WriteFile(fs: Fs, p: Path, data: Bytes): Option<Fs> {
    match MkdirParent(fs, p)
    case None => None
    case Some(made) => PutFile(made, p, data)
  }

  lemma MkdirBelow(fs: Fs, p: Path, n: Name)
    requires p in fs && fs[p].DirItem? && p + [n] !in fs
    ensures MkdirAll(fs, p + [n]) == Some(fs[p + [n] := DirItem])
  {
  }

  lemma WriteBelow(fs: Fs, p: Path, n: Name, data: Bytes)
    requires p in fs && fs[p].DirItem? && (p + [n] in fs ==> fs[p + [n]].FileItem?)
    ensures WriteFile(fs, p + [n], data) == Some(fs[p + [n] := FileItem(data)])
  {
  }

  // --- trees ------------------------------------------------------------------------

  /** Names are plain and no two siblings share one. */
  predicate WellFormed(children: seq<(Name, Node)>)
    decreases children
  {
    children == [] ||
    (&& WellFormedChild(children[0]) && WellFormed(children[1..])
     && forall i :: 0 < i < |children| ==> children[i].0 != children[0].0)
  }

  predicate WellFormedChild(child: (Name, Node))
    decreases child
  {
    PlainName(child.0) && (child.1.Dir? ==> WellFormed(child.1.children))
  }

  /** Which links come back: none are archived, or those that stay inside `dest`. */
  datatype LinkRule = NoLinks | LinksInside(dest: Path)

  /** What an archiver passes over, and what becomes of links. */
  datatype Policy = Policy(excluded: set<Name>, links: LinkRule)

  /** A link at `p` is kept when it is relative and its lexically cleaned target is inside the destination. */
  predicate KeepsLink(rule: LinkRule, p: Path, target: LinkTarget) {
    rule.LinksInside? && p != [] && !target.absolute && Inside(rule.dest, Clean(rule.dest + p[..|p| - 1] + target.segs))
  }

  /** Which links come back, told by where they lead: relative ones that end up inside the destination. */
  lemma KeepsLinkIff(dest: Path, p: Path, target: LinkTarget)
    requires PlainPath(dest) && dest != [] && PlainPath(p) && p != []
    ensures KeepsLink(LinksInside(dest), p, target)
       <==> !target.absolute && IsPrefix(dest, Walk(dest + p[..|p| - 1], target.segs))
  {
    var dir := dest + p[..|p| - 1];
    CleanPlain(dir);
    CleanIsAWalk(dir, target.segs);
  }

  /** So a relative link that never climbs above the destination is kept, and one that climbs out of it is not. */
  lemma LinksWithinAreKept(dest: Path, p: Path, segs: Path)
    requires PlainPath(dest) && dest != [] && PlainPath(p) && p != []
    ensures NeverAbove(|p| - 1, segs) ==> KeepsLink(LinksInside(dest), p, LinkTarget(false, segs))
    ensures |segs| >= |p| && (forall i :: 0 <= i < |segs| ==> segs[i] == "..") ==>
              !KeepsLink(LinksInside(dest), p, LinkTarget(false, segs))
    ensures !KeepsLink(LinksInside(dest), p, LinkTarget(true, segs))
  {
    var dir := dest + p[..|p| - 1];
    KeepsLinkIff(dest, p, LinkTarget(false, segs));
    assert IsPrefix(dest, dir);
    if NeverAbove(|p| - 1, segs) {
      NeverAboveStaysInside(dest, dir, segs);
    }
    if |segs| >= |p| && forall i :: 0 <= i < |segs| ==> segs[i] == ".." {
      UpLeadsOut(dir, segs);
    }
  }

  predicate Stored(policy: Policy, child: (Name, Node)) {
    child.0 !in policy.excluded && !child.1.Special? && (child.1.Link? ==> policy.links.LinksInside?)
  }

  function ItemOf(node: Node): Item
    requires !node.Special?
  {
    match node
    case Dir(_) => DirItem
    case File(data) => FileItem(data)
    case Link(target) => LinkItem(target)
  }

  datatype Entry = Entry(name: Path, item: Item)

  /** The entries a walk in the order of the children produces, each directory before what it holds. */
  function Entries(policy: Policy, children: seq<(Name, Node)>, at: Path): seq<Entry>
    decreases children
  {
    if children == [] then []
    else EntriesOf(policy, children[0], at) + Entries(policy, children[1..], at)
  }

  function EntriesOf(policy: Policy, child: (Name, Node), at: Path): seq<Entry>
    decreases child
  {
    if !Stored(policy, child) then []
    else
      var p := at + [child.0];
      [Entry(p, ItemOf(child.1))] + (if child.1.Dir? then Entries(policy, child.1.children, p) else [])
  }

  /** The file system that holds exactly the given children below `at`. */
  function Layout(children: seq<(Name, Node)>, at: Path): Fs
    decreases children
  {
    if children == [] then map[] else LayoutOf(children[0], at) + Layout(children[1..], at)
  }

  function LayoutOf(child: (Name, Node), at: Path): Fs
    decreases child
  {
    var p := at + [child.0];
    if child.1.Special? then map[]
    else map[p := ItemOf(child.1)] + (if child.1.Dir? then Layout(child.1.children, p) else map[])
  }

  predicate NoneExcluded(policy: Policy, p: Path, from: nat) {
    forall i :: from <= i < |p| ==> p[i] !in policy.excluded
  }

  predicate Keeps(policy: Policy, p: Path, item: Item, from: nat) {
    NoneExcluded(policy, p, from) && (item.LinkItem? ==> KeepsLink(policy.links, p, item.target))
  }

  /**
   The part of a file system that an archive preserves: no segment from `from` on
   is excluded, and links are kept ones.
   */
  function Kept(policy: Policy, fs: Fs, from: nat): Fs {
    map p | p in fs && Keeps(policy, p, fs[p], from) :: fs[p]
  }

  /** Sum of the sizes of all files in a list of entries. */
  function TotalBytes(entries: seq<Entry>): nat {
    if entries == [] then 0
    else (if entries[0].item.FileItem? then |entries[0].item.data| else 0) + TotalBytes(entries[1..])
  }

  lemma {:induction false} TotalBytesAppend(a: seq<Entry>, b: seq<Entry>)
    ensures TotalBytes(a + b) == TotalBytes(a) + TotalBytes(b)
  {
    if a == [] {
      assert a + b == b;
    } else {
      TotalBytesAppend(a[1..], b);
      assert (a + b)[1..] == a[1..] + b;
    }
  }

  // --- where a layout lives ------------------------------------------------------------

  lemma {:induction false} LayoutBelow(children: seq<(Name, Node)>, at: Path, p: Path)
    requires p in Layout(children, at)
    ensures |p| > |at| && IsPrefix(at, p) && exists i :: 0 <= i < |children| && children[i].0 == p[|at|]
    decreases children
  {
    if p in LayoutOf(children[0], at) {
      LayoutOfBelow(children[0], at, p);
    } else {
      LayoutBelow(children[1..], at, p);
      var i :| 0 <= i < |children[1..]| && children[1..][i].0 == p[|at|];
      assert children[i + 1].0 == p[|at|];
    }
  }

  lemma {:induction false} LayoutOfBelow(child: (Name, Node), at: Path, p: Path)
    requires p in LayoutOf(child, at)
    ensures |p| > |at| && IsPrefix(at, p) && p[|at|] == child.0
    decreases child
  {
    var q := at + [child.0];
    if p != q {
      LayoutBelow(child.1.children, q, p);
      assert p[..|q|] == q;
      assert p[..|at|] == q[..|at|] == at;
    }
  }

  lemma {:induction false} LayoutPathsArePlain(children: seq<(Name, Node)>, at: Path, p: Path)
    requires WellFormed(children) && PlainPath(at) && p in Layout(children, at)
    ensures PlainPath(p) && p != []
    decreases children
  {
    if p in Layout(children[1..], at) {
      LayoutPathsArePlain(children[1..], at, p);
    } else {
      LayoutOfPathsArePlain(children[0], at, p);
    }
  }

  lemma {:induction false} LayoutOfPathsArePlain(child: (Name, Node), at: Path, p: Path)
    requires WellFormedChild(child) && PlainPath(at) && p in LayoutOf(child, at)
    ensures PlainPath(p) && p != []
    decreases child
  {
    if p != at + [child.0] {
      LayoutPathsArePlain(child.1.children, at + [child.0], p);
    }
  }

  /** Every directory is stored before what it holds. */
  predicate DirectoriesFirst(entries: seq<Entry>, at: Path) {
    forall i :: 0 <= i < |entries| ==> HasItsDirectory(entries, at, i)
  }

  predicate HasItsDirectory(entries: seq<Entry>, at: Path, i: nat)
    requires i < |entries|
  {
    var q := entries[i].name;
    && |q| > |at| && IsPrefix(at, q)
    && (|q| > |at| + 1 ==> exists j :: 0 <= j < i && entries[j] == Entry(q[..|q| - 1], DirItem))
  }

  lemma DirectoriesFirstAppend(a: seq<Entry>, b: seq<Entry>, at: Path)
    requires DirectoriesFirst(a, at) && DirectoriesFirst(b, at)
    ensures DirectoriesFirst(a + b, at)
  {
    forall i | 0 <= i < |a + b| ensures HasItsDirectory(a + b, at, i) {
      var q := (a + b)[i].name;
      if i < |a| {
        assert HasItsDirectory(a, at, i);
        if |q| > |at| + 1 {
          var j :| 0 <= j < i && a[j] == Entry(q[..|q| - 1], DirItem);
          assert (a + b)[j] == Entry(q[..|q| - 1], DirItem);
        }
      } else {
        assert HasItsDirectory(b, at, i - |a|);
        if |q| > |at| + 1 {
          var j :| 0 <= j < i - |a| && b[j] == Entry(q[..|q| - 1], DirItem);
          assert (a + b)[|a| + j] == Entry(q[..|q| - 1], DirItem);
        }
      }
    }
  }

  lemma DirectoryThenContents(at: Path, n: Name, inner: seq<Entry>)
    requires DirectoriesFirst(inner, at + [n])
    ensures DirectoriesFirst([Entry(at + [n], DirItem)] + inner, at)
  {
    var p, all := at + [n], [Entry(at + [n], DirItem)] + inner;
    forall i | 0 <= i < |all| ensures HasItsDirectory(all, at, i) {
      var q := all[i].name;
      if i > 0 {
        assert HasItsDirectory(inner, p, i - 1);
        assert q[..|at|] == q[..|p|][..|at|];
        if |q| > |p| + 1 {
          var j :| 0 <= j < i - 1 && inner[j] == Entry(q[..|q| - 1], DirItem);
          assert all[j + 1] == Entry(q[..|q| - 1], DirItem);
        } else {
          assert q[..|q| - 1] == p && all[0] == Entry(p, DirItem);
        }
      }
    }
  }

  lemma {:induction false} EntriesFollowTheirDirectories(policy: Policy, children: seq<(Name, Node)>, at: Path)
    ensures DirectoriesFirst(Entries(policy, children, at), at)
    decreases children
  {
    if children != [] {
      EntryFollowsItsDirectory(policy, children[0], at);
      EntriesFollowTheirDirectories(policy, children[1..], at);
      DirectoriesFirstAppend(EntriesOf(policy, children[0], at), Entries(policy, children[1..], at), at);
    }
  }

  lemma {:induction false} EntryFollowsItsDirectory(policy: Policy, child: (Name, Node), at: Path)
    ensures DirectoriesFirst(EntriesOf(policy, child, at), at)
    decreases child
  {
    if Stored(policy, child) && child.1.Dir? {
      EntriesFollowTheirDirectories(policy, child.1.children, at + [child.0]);
      DirectoryThenContents(at, child.0, Entries(policy, child.1.children, at + [child.0]));
    }
  }

  // --- what is kept of one child ---------------------------------------------------------

  lemma SiblingsLayOutApart(children: seq<(Name, Node)>, at: Path)
    requires children != [] && WellFormed(children)
    ensures LayoutOf(children[0], at).Keys !! Layout(children[1..], at).Keys
  {
    forall p | p in Layout(children[1..], at) ensures p !in LayoutOf(children[0], at) {
      LayoutBelow(children[1..], at, p);
      var i :| 0 <= i < |children[1..]| && children[1..][i].0 == p[|at|];
      assert children[i + 1].0 != children[0].0;
      if p in LayoutOf(children[0], at) {
        LayoutOfBelow(children[0], at, p);
      }
    }
  }

  lemma KeptUnion(policy: Policy, a: Fs, b: Fs, from: nat)
    requires a.Keys !! b.Keys
    ensures Kept(policy, a + b, from) == Kept(policy, a, from) + Kept(policy, b, from)
  {
  }

  lemma KeptSplits(policy: Policy, children: seq<(Name, Node)>, at: Path)
    requires children != [] && WellFormed(children)
    ensures Kept(policy, Layout(children, at), |at|)
         == Kept(policy, LayoutOf(children[0], at), |at|) + Kept(policy, Layout(children[1..], at), |at|)
  {
    SiblingsLayOutApart(children, at);
    KeptUnion(policy, LayoutOf(children[0], at), Layout(children[1..], at), |at|);
  }

  /** Nothing of a child that the archiver passes over is kept. */
  lemma KeptOfUnstored(policy: Policy, child: (Name, Node), at: Path)
    requires !Stored(policy, child)
    ensures Kept(policy, LayoutOf(child, at), |at|) == map[]
  {
    forall p | p in LayoutOf(child, at) ensures !Keeps(policy, p, LayoutOf(child, at)[p], |at|) {
      LayoutOfBelow(child, at, p);
    }
  }

  /** What is kept of the child's own entry. */
  function KeptItem(policy: Policy, child: (Name, Node), p: Path): Fs
    requires !child.1.Special?
  {
    var item := ItemOf(child.1);
    if item.LinkItem? && !KeepsLink(policy.links, p, item.target) then map[] else map[p := item]
  }

  /**
   Of a stored child its own entry is kept, if it is not a dropped link, and
   below it what is kept of its children.
   */
  lemma KeptOfStored(policy: Policy, child: (Name, Node), at: Path)
    requires Stored(policy, child)
    ensures Kept(policy, LayoutOf(child, at), |at|)
         == KeptItem(policy, child, at + [child.0])
            + (if child.1.Dir? then Kept(policy, Layout(child.1.children, at + [child.0]), |at| + 1) else map[])
  {
    var p := at + [child.0];
    var own := map[p := ItemOf(child.1)];
    assert Kept(policy, own, |at|) == KeptItem(policy, child, p);
    if child.1.Dir? {
      var inner := Layout(child.1.children, p);
      forall q | q in inner
        ensures q != p && (NoneExcluded(policy, q, |at|) <==> NoneExcluded(policy, q, |p|))
      {
        LayoutBelow(child.1.children, p, q);
        assert q[|at|] == q[..|p|][|at|] == child.0;
      }
      KeptUnion(policy, own, inner, |at|);
      assert Kept(policy, inner, |at|) == Kept(policy, inner, |p|);
    } else {
      assert LayoutOf(child, at) == own;
    }
  }

  lemma UnionAssociative(a: Fs, b: Fs, c: Fs)
    ensures (a + b) + c == a + (b + c)
  {
  }
}
