/**
 Restoring a server backup (internal/mc/manager.go:519-563): the archive is
 extracted beside the live directory, the live directory is set aside and the
 extracted one is renamed into its place. No step is undone by anyone else
 meanwhile: the server is assumed to stay stopped.
 */
module Restore {
  import opened Prelude
  import opened FileTree
  import opened Backup

  datatype RestoreError =
    NotStopped | NoBackup | NotPrepared | Unreadable | BadArchive(failure: Failure) | NotSetAside | NotInstalled

  /**
   What the file system does: what the first RemoveAll of the scratch
   directory leaves behind, and whether each later call succeeds.
   */
  datatype Faults = Faults(
    stale: Option<Fs>, mkdirOk: bool, readOk: bool, setAsideOk: bool, installOk: bool, rollbackOk: bool,
    leftover: Option<Fs>)

  /** RemoveAll either removes everything or leaves a part of a directory. */
  predicate IsPartOf(left: Option<Fs>, before: Option<Fs>) {
    left.Some? ==>
      && before.Some? && IsDir(left.value, [])
      && forall p :: p in left.value ==> p in before.value && left.value[p] == before.value[p]
  }

  /** What the extraction starts from. */
  function Scratch(stale: Option<Fs>): Fs { if stale.Some? then stale.value else EmptyDir() }

  function Unpacked(dest: Path, stale: Option<Fs>, archive: seq<Entry>): Result<Extraction, Failure> {
    Extract(MAX_RESTORE_BYTES, dest, Extraction(Scratch(stale), 0), archive)
  }

  class Directories {
    const tmpPath: Path
    var live: Option<Fs>
    var tmp: Option<Fs>
    var replaced: Option<Fs>

    constructor (tmpPath: Path, live: Option<Fs>, tmp: Option<Fs>, replaced: Option<Fs>)
      ensures this.tmpPath == tmpPath && this.live == live && this.tmp == tmp && this.replaced == replaced
    {
      this.tmpPath, this.live, this.tmp, this.replaced := tmpPath, live, tmp, replaced;
    }

    /**
     On success the live directory is what was unpacked and the previous one
     is kept aside. On failure the previous directory is still live, unless it
     was set aside and both the install and the rollback failed.
     */
    method RestoreBackup(stopped: bool, archive: Option<seq<Entry>>, f: Faults) returns (r: Result<(), RestoreError>)
      requires IsPartOf(f.stale, tmp)
      modifies this
      ensures r.Ok? <==>
                old(live).Some? && old(replaced).None? &&
                stopped && archive.Some? && f.mkdirOk && f.readOk && Unpacked(tmpPath, f.stale, archive.value).Ok?
                && f.setAsideOk && f.installOk
      ensures r.Ok? ==>
                live == Some(Unpacked(tmpPath, f.stale, archive.value).value.fs) && replaced == old(live) && tmp.None?
      ensures r.Err? ==>
                if r.error.NotInstalled? && !f.rollbackOk then live.None? && replaced == old(live) && old(live).Some?
                else live == old(live) && replaced == old(replaced)
      ensures r == Err(NotStopped) || r == Err(NoBackup) ==> tmp == old(tmp)
      ensures r.Err? && r.error.BadArchive? ==>
                archive.Some? && Unpacked(tmpPath, f.stale, archive.value) == Err(r.error.failure)
    {
      if !stopped {
        return Err(NotStopped);
      }
      if archive.None? {
        return Err(NoBackup);
      }
      tmp := f.stale;
      if !f.mkdirOk {
        return Err(NotPrepared);
      }
      tmp := Some(Scratch(tmp));
      if !f.readOk {
        tmp := f.leftover;
        return Err(Unreadable);
      }
      var unpacked := ExtractTarGz(tmpPath, tmp.value, archive.value);
      if unpacked.Err? {
        tmp := f.leftover;
        return Err(BadArchive(unpacked.error));
      }
      tmp := Some(unpacked.value);
      if live.None? || replaced.Some? || !f.setAsideOk {
        tmp := f.leftover;
        return Err(NotSetAside);
      }
      live, replaced := None, live;
      if !f.installOk {
        if f.rollbackOk {
          live, replaced := replaced, None;
        }
        tmp := f.leftover;
        return Err(NotInstalled);
      }
      live, tmp := tmp, None;
      return Ok(());
    }
  }

  /** What an archive holds does not depend on how links will be judged. */
  lemma {:induction false} EntriesIgnoreDest(a: Path, b: Path, children: seq<(Name, Node)>, at: Path)
    ensures Entries(TarPolicy(a), children, at) == Entries(TarPolicy(b), children, at)
    decreases children, 1
  {
    if children != [] {
      EntryIgnoresDest(a, b, children[0], at);
      EntriesIgnoreDest(a, b, children[1..], at);
    }
  }

  lemma {:induction false} EntryIgnoresDest(a: Path, b: Path, child: (Name, Node), at: Path)
    ensures EntriesOf(TarPolicy(a), child, at) == EntriesOf(TarPolicy(b), child, at)
    decreases child, 0
  {
    if child.1.Dir? {
      EntriesIgnoreDest(a, b, child.1.children, at + [child.0]);
    }
  }

  /**
   Back up, change anything, restore: when nothing was left in the scratch
   directory, what is installed is the tree that was backed up, without the
   excluded names and the links that lexically leave the scratch directory.
   */
  lemma RestoreRecoversBackup(children: seq<(Name, Node)>, tmpPath: Path)
    requires WellFormed(children) && PlainPath(tmpPath) && tmpPath != []
    ensures var archive := Entries(TarPolicy([]), children, []);
            Unpacked(tmpPath, None, archive)
            == if TotalBytes(archive) > MAX_RESTORE_BYTES then Err(TooLarge)
               else Ok(Extraction(EmptyDir() + Kept(TarPolicy(tmpPath), Layout(children, []), 0), TotalBytes(archive)))
  {
    EntriesIgnoreDest([], tmpPath, children, []);
    BackupRoundTrip(tmpPath, children);
  }

  /** No segment is one of the names that are never backed up. */
  predicate NoneSkipped(p: Path) {
    forall i :: 0 <= i < |p| ==>
      p[i] !in {"logs", "crash-reports", "cache", ".DS_Store", "session.lock", "debug"}
  }

  /** A relative link that ends up inside the directory in which it is unpacked. */
  predicate LeadsInside(dest: Path, p: Path, target: LinkTarget)
    requires p != []
  {
    !target.absolute && IsPrefix(dest, Walk(dest + p[..|p| - 1], target.segs))
  }

  lemma KeptIff(dest: Path, p: Path, item: Item)
    requires PlainPath(dest) && dest != [] && PlainPath(p) && p != []
    ensures Keeps(TarPolicy(dest), p, item, 0) <==>
              NoneSkipped(p) && (item.LinkItem? ==> LeadsInside(dest, p, item.target))
  {
    if item.LinkItem? {
      KeepsLinkIff(dest, p, item.target);
    }
  }

  /**
   Path by path: what a clean restore installs of a tree is every directory and
   file outside the skipped names, with its contents, and of the links there
   those that lead inside.
   */
  lemma RestoredIff(children: seq<(Name, Node)>, tmpPath: Path, p: Path)
    requires WellFormed(children) && PlainPath(tmpPath) && tmpPath != [] && p != []
    requires TotalBytes(Entries(TarPolicy([]), children, [])) <= MAX_RESTORE_BYTES
    ensures var tree, r := Layout(children, []), Unpacked(tmpPath, None, Entries(TarPolicy([]), children, []));
            && r.Ok? && [] in r.value.fs && r.value.fs[[]] == DirItem
            && (p in r.value.fs <==>
                 p in tree && NoneSkipped(p) && (tree[p].LinkItem? ==> LeadsInside(tmpPath, p, tree[p].target)))
            && (p in r.value.fs ==> r.value.fs[p] == tree[p])
  {
    var tree := Layout(children, []);
    RestoreRecoversBackup(children, tmpPath);
    if [] in tree {
      LayoutBelow(children, [], []);
    }
    if p in tree {
      LayoutPathsArePlain(children, [], p);
      KeptIff(tmpPath, p, tree[p]);
    }
  }

  /**
   When RemoveAll fails, which the code does not look at, everything it left
   behind is in the restored server: other paths stay, and a directory or link
   is never replaced by what the archive has there.
   */
  lemma StaleFilesReachTheServer(dest: Path, stale: Fs, archive: seq<Entry>, p: Path)
    requires Unpacked(dest, Some(stale), archive).Ok? && p in stale
    ensures p in Unpacked(dest, Some(stale), archive).value.fs
    ensures var restored := Unpacked(dest, Some(stale), archive).value.fs[p];
            restored == stale[p] || (restored.FileItem? && stale[p].FileItem?)
  {
    ExtractionOnlyAdds(MAX_RESTORE_BYTES, dest, Extraction(stale, 0), archive, p);
  }

  /** The tree that a clean restore installs. */
  function Restored(tmpPath: Path, children: seq<(Name, Node)>): Fs {
    EmptyDir() + Kept(TarPolicy(tmpPath), Layout(children, []), 0)
  }

  /** Every leftover is at a path of the tree, and is what the tree has there or a file where that is one. */
  predicate AllOverwritten(stale: Fs, tree: Fs) {
    forall p :: p in stale ==> p in tree && (stale[p] == tree[p] || (stale[p].FileItem? && tree[p].FileItem?))
  }

  lemma OverwrittenLeavesTheTree(tmpPath: Path, stale: Fs, children: seq<(Name, Node)>)
    requires IsDir(stale, []) && AllOverwritten(stale, Restored(tmpPath, children))
    ensures var kept := Kept(TarPolicy(tmpPath), Layout(children, []), 0);
            Agrees(stale, kept) && stale + kept == Restored(tmpPath, children)
  {
    if [] in Layout(children, []) {
      LayoutBelow(children, [], []);
    }
  }

  /**
   What was left in the scratch directory does no harm exactly if every path of
   it is one of the tree to restore, with the same item or with a file on both sides.
   */
  lemma StaleFilesAreHarmlessIff(children: seq<(Name, Node)>, tmpPath: Path, stale: Fs)
    requires WellFormed(children) && PlainPath(tmpPath) && tmpPath != [] && IsDir(stale, [])
    requires TotalBytes(Entries(TarPolicy([]), children, [])) <= MAX_RESTORE_BYTES
    ensures var archive := Entries(TarPolicy([]), children, []);
            Unpacked(tmpPath, Some(stale), archive) == Unpacked(tmpPath, None, archive)
            <==> AllOverwritten(stale, Restored(tmpPath, children))
  {
    var archive, tree := Entries(TarPolicy([]), children, []), Restored(tmpPath, children);
    RestoreRecoversBackup(children, tmpPath);
    if Unpacked(tmpPath, Some(stale), archive) == Unpacked(tmpPath, None, archive) {
      forall p | p in stale
        ensures p in tree && (stale[p] == tree[p] || (stale[p].FileItem? && tree[p].FileItem?))
      {
        StaleFilesReachTheServer(tmpPath, stale, archive, p);
      }
    }
    if AllOverwritten(stale, tree) {
      OverwrittenLeavesTheTree(tmpPath, stale, children);
      EntriesIgnoreDest([], tmpPath, children, []);
      ExtractOverAgreeing(tmpPath, stale, children);
    }
  }

  /** A file that the backup does not have, left in the scratch directory, is in the restored server. */
  lemma LeftoverIsRestored(tmpPath: Path)
    requires PlainPath(tmpPath) && tmpPath != []
    ensures var stale: Fs := map[[] := DirItem, ["old.jar"] := FileItem([])];
            var archive := Entries(TarPolicy([]), [("new.jar", File([]))], []);
            && Unpacked(tmpPath, None, archive).Ok? && ["old.jar"] !in Unpacked(tmpPath, None, archive).value.fs
            && Unpacked(tmpPath, Some(stale), archive).Ok?
            && ["old.jar"] in Unpacked(tmpPath, Some(stale), archive).value.fs
  {
    var stale: Fs := map[[] := DirItem, ["old.jar"] := FileItem([])];
    var children := [("new.jar", File([]))];
    var archive := Entries(TarPolicy([]), children, []);
    assert "old.jar"[0] != "new.jar"[0];
    assert children[1..] == [];
    RestoreRecoversBackup(children, tmpPath);
    var kept := Kept(TarPolicy(tmpPath), Layout(children, []), 0);
    if ["old.jar"] in kept {
      LayoutBelow(children, [], ["old.jar"]);
    }
    EntriesIgnoreDest([], tmpPath, children, []);
    ExtractOverAgreeing(tmpPath, stale, children);
  }
}
