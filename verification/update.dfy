/**
 Self-update (internal/update/update.go:110-178, 239-276): any number of Apply
 calls, one of which at a time downloads a release, verifies it and swaps it
 in with two renames; a rename may fail at any point and so may the machine.
 */
module Update {
  import opened Prelude

  type Bytes = seq<bv8>

  const MAX_ASSET_SIZE := 209_715_200
  const ELF: Bytes := [0x7f, 0x45, 0x4c, 0x46]

  /** SHA-256 in hexadecimal; nothing is assumed about it. */
  type Hash = Bytes -> string

  predicate IsElf(b: Bytes) { |b| >= 4 && b[..4] == ELF }

  /** What may be installed under a published checksum. */
  predicate Verified(hash: Hash, b: Bytes, sum: string) {
    |b| <= MAX_ASSET_SIZE && hash(b) == sum && IsElf(b)
  }

  // --- the download --------------------------------------------------------------------

  /** What can go wrong with the file that is written, and how much had arrived by then. */
  datatype DiskFaults = DiskFaults(openOk: bool, copyOk: bool, arrived: nat, rereadOk: bool)

  datatype DownloadError = NotCreated | NotWritten | TooBig | WrongChecksum | NotAnElf

  function Head(b: Bytes, n: nat): Bytes { if n <= |b| then b[..n] else b }

  /** At most one byte more than the limit is ever written, and success means the whole body was verified. */
  method DownloadVerified(hash: Hash, body: Bytes, wantSum: string, before: Option<Bytes>, f: DiskFaults)
    returns (r: Result<(), DownloadError>, dst: Option<Bytes>)
    ensures r.Ok? <==> f.openOk && f.copyOk && f.rereadOk && Verified(hash, body, wantSum)
    ensures r.Ok? ==> dst == Some(body)
    ensures dst == before || (dst.Some? && dst.value <= body && |dst.value| <= MAX_ASSET_SIZE + 1)
  {
    if !f.openOk {
      return Err(NotCreated), before;
    }
    var limited := Head(body, MAX_ASSET_SIZE + 1);
    if !f.copyOk {
      return Err(NotWritten), Some(Head(limited, f.arrived));
    }
    dst := Some(limited);
    if |limited| > MAX_ASSET_SIZE {
      return Err(TooBig), dst;
    }
    assert limited == body;
    if hash(limited) != wantSum {
      return Err(WrongChecksum), dst;
    }
    var head := if f.rereadOk then Head(limited, 4) else [];
    if head != ELF {
      return Err(NotAnElf), dst;
    }
    return Ok(()), dst;
  }

  // --- one call ---------------------------------------------------------------------------

  /** The three files beside each other: the running binary, the one set aside and the download. */
  datatype Files = Files(exe: Option<Bytes>, aside: Option<Bytes>, tmp: Option<Bytes>)

  /** What the release server answers and which file operations succeed during one call. */
  datatype Circumstances = Circumstances(
    sum: Option<string>, located: bool, body: Option<Bytes>, disk: DiskFaults,
    clearOk: bool, setAsideOk: bool, installOk: bool, rollbackOk: bool, removeOk: bool, restartOk: bool)

  /** The release is there with its checksum, and so is the running binary. */
  predicate Found(files: Files, w: Circumstances) { w.sum.Some? && w.located && files.exe.Some? }

  /** Its asset arrives whole on disk and is what the checksum stands for. */
  predicate Fetched(hash: Hash, w: Circumstances)
    requires w.sum.Some?
  {
    && w.body.Some? && w.disk.openOk && w.disk.copyOk && w.disk.rereadOk
    && Verified(hash, w.body.value, w.sum.value)
  }

  /** How a call ends that is not refused: the first thing that fails decides. */
  predicate EndsBy(hash: Hash, files: Files, w: Circumstances, r: Result<(), ApplyError>) {
    if !Found(files, w) then r == Err(NoRelease)
    else if !Fetched(hash, w) then r == Err(BadDownload)
    else if !w.setAsideOk then r == Err(NotSetAside)
    else if !w.installOk then r == Err(NotInstalled)
    else if !w.restartOk then r == Err(NotRestarted)
    else r == Ok(())
  }

  predicate Installed(r: Result<(), ApplyError>) { r.Ok? || r.error.NotRestarted? }

  /** What such a call leaves of the three files. */
  predicate Leaves(before: Files, w: Circumstances, r: Result<(), ApplyError>, after: Files) {
    if Installed(r) then after == Files(w.body, before.exe, None)
    else if r.error.NoRelease? then after == before
    else
      && (w.removeOk ==> after.tmp.None?)
      && (r.error.BadDownload? ==> after.exe == before.exe && after.aside == before.aside)
      && (r.error.NotSetAside? ==>
           after.exe == before.exe && after.aside == if w.clearOk then None else before.aside)
      && (r.error.NotInstalled? ==>
           if w.rollbackOk then after.exe == before.exe && after.aside.None?
           else after.exe.None? && after.aside == before.exe)
  }

  datatype ApplyError = Busy | NoRelease | BadDownload | NotSetAside | NotInstalled | NotRestarted

  class Client {
    var applying: bool
    var files: Files

    constructor (files: Files)
      ensures !applying && this.files == files
    {
      applying, this.files := false, files;
    }

    /**
     A second call is refused without touching anything. The binary is replaced
     exactly if everything up to the second rename worked, and then by the
     verified body with the previous one kept; otherwise the binary stays,
     unless the install and the rollback both failed and it is kept aside.
     */
    method Apply(hash: Hash, w: Circumstances) returns (r: Result<(), ApplyError>)
      modifies this
      ensures old(applying) ==> r == Err(Busy) && files == old(files) && applying
      ensures !old(applying) ==>
                !applying && EndsBy(hash, old(files), w, r) && r != Err(Busy) && Leaves(old(files), w, r, files)
    {
      if applying {
        return Err(Busy);
      }
      applying := true;
      r := ApplyHoldingFlag(hash, w);
      applying := false;
    }

    method ApplyHoldingFlag(hash: Hash, w: Circumstances) returns (r: Result<(), ApplyError>)
      requires applying
      modifies this
      ensures applying && EndsBy(hash, old(files), w, r) && r != Err(Busy) && Leaves(old(files), w, r, files)
    {
      if w.sum.None? || !w.located || files.exe.None? {
        return Err(NoRelease);
      }
      if w.body.None? {
        RemoveTmp(w.removeOk);
        return Err(BadDownload);
      }
      var downloaded, dst := DownloadVerified(hash, w.body.value, w.sum.value, files.tmp, w.disk);
      files := files.(tmp := dst);
      if downloaded.Err? {
        RemoveTmp(w.removeOk);
        return Err(BadDownload);
      }
      if w.clearOk {
        files := files.(aside := None);
      }
      if !w.setAsideOk {
        RemoveTmp(w.removeOk);
        return Err(NotSetAside);
      }
      files := files.(exe := None, aside := files.exe);
      if !w.installOk {
        if w.rollbackOk {
          files := files.(exe := files.aside, aside := None);
        }
        RemoveTmp(w.removeOk);
        return Err(NotInstalled);
      }
      files := files.(exe := files.tmp, tmp := None);
      if !w.restartOk {
        return Err(NotRestarted);
      }
      return Ok(());
    }

    method RemoveTmp(ok: bool)
      modifies this`files
      ensures files == old(files).(tmp := if ok then None else old(files).tmp)
    {
      if ok {
        files := files.(tmp := None);
      }
    }
  }

  // --- calls of Apply as steps ------------------------------------------------------------

  /** How far the call that holds the flag has got. */
  datatype Stage =
    | Fetching
    | Located(sum: string)
    | Downloaded(sum: string, image: Bytes)
    | Cleared(sum: string, image: Bytes)
    | SetAside(sum: string, image: Bytes)
    | InstallFailed
    | Closing(ok: bool)

  datatype Call = Waiting | Refused | Holding(stage: Stage) | Finished(ok: bool)

  datatype Install = Install(sum: string, image: Bytes)

  /** `installs` and `lostRollbacks` are history: what was swapped in, and how often nothing could be put back. */
  datatype Sys = Sys(applying: bool, files: Files, calls: seq<Call>, installs: seq<Install>, lostRollbacks: nat)

  datatype Event =
    | Arrive
    | Enter(c: nat)
    | Fetch(c: nat, sum: Option<string>, located: bool)
    | Download(c: nat, body: Option<Bytes>, written: Option<Bytes>, removed: bool)
    | ClearOld(c: nat, removed: bool)
    | Rename1(c: nat, ok: bool, removed: bool)
    | Rename2(c: nat, ok: bool)
    | RollBack(c: nat, ok: bool, removed: bool)
    | Leave(c: nat)
    | Crash

  predicate At(s: Sys, c: nat) { c < |s.calls| && s.calls[c].Holding? }

  predicate Enabled(s: Sys, e: Event) {
    match e
    case Arrive => true
    case Enter(c) => c < |s.calls| && s.calls[c].Waiting?
    case Fetch(c, _, _) => At(s, c) && s.calls[c].stage.Fetching?
    case Download(c, _, _, _) => At(s, c) && s.calls[c].stage.Located?
    case ClearOld(c, _) => At(s, c) && s.calls[c].stage.Downloaded?
    case Rename1(c, _, _) => At(s, c) && s.calls[c].stage.Cleared?
    case Rename2(c, _) => At(s, c) && s.calls[c].stage.SetAside?
    case RollBack(c, _, _) => At(s, c) && s.calls[c].stage.InstallFailed?
    case Leave(c) => At(s, c) && s.calls[c].stage.Closing?
    case Crash => true
  }

  function To(s: Sys, c: nat, stage: Stage): Sys
    requires c < |s.calls|
  {
    s.(calls := s.calls[c := Holding(stage)])
  }

  /** Giving up: the download is removed, unless that fails too. */
  function GiveUp(s: Sys, c: nat, removed: bool): Sys
    requires c < |s.calls|
  {
    To(s, c, Closing(false)).(files := s.files.(tmp := if removed then None else s.files.tmp))
  }

  function Next(hash: Hash, s: Sys, e: Event): Sys
    requires Enabled(s, e)
  {
    match e
    case Arrive => s.(calls := s.calls + [Waiting])
    case Enter(c) =>
      if s.applying then s.(calls := s.calls[c := Refused]) else To(s, c, Fetching).(applying := true)
    case Fetch(c, sum, located) =>
      if sum.Some? && located && s.files.exe.Some? then To(s, c, Located(sum.value)) else To(s, c, Closing(false))
    case Download(c, body, written, removed) =>
      var sum := s.calls[c].stage.sum;
      if body.Some? && Verified(hash, body.value, sum) && written == body
      then To(s, c, Downloaded(sum, body.value)).(files := s.files.(tmp := body))
      else GiveUp(s.(files := s.files.(tmp := written)), c, removed)
    case ClearOld(c, removed) =>
      To(s, c, Cleared(s.calls[c].stage.sum, s.calls[c].stage.image))
        .(files := s.files.(aside := if removed then None else s.files.aside))
    case Rename1(c, ok, removed) =>
      if ok && s.files.exe.Some?
      then To(s, c, SetAside(s.calls[c].stage.sum, s.calls[c].stage.image))
             .(files := s.files.(exe := None, aside := s.files.exe))
      else GiveUp(s, c, removed)
    case Rename2(c, ok) =>
      if ok && s.files.tmp.Some?
      then To(s, c, Closing(true))
             .(files := s.files.(exe := s.files.tmp, tmp := None),
               installs := s.installs + [Install(s.calls[c].stage.sum, s.files.tmp.value)])
      else To(s, c, InstallFailed)
    case RollBack(c, ok, removed) =>
      if ok && s.files.aside.Some?
      then GiveUp(s.(files := s.files.(exe := s.files.aside, aside := None)), c, removed)
      else GiveUp(s.(lostRollbacks := s.lostRollbacks + 1), c, removed)
    case Leave(c) => s.(applying := false, calls := s.calls[c := Finished(s.calls[c].stage.ok)])
    case Crash => s.(applying := false, calls := [])
  }

  // --- the invariant -------------------------------------------------------------------

  /** The version in service: the last one swapped in, or the first of all. */
  function Current(initial: Bytes, s: Sys): Bytes {
    if s.installs == [] then initial else s.installs[|s.installs| - 1].image
  }

  predicate AllVerified(hash: Hash, installs: seq<Install>) {
    forall i :: 0 <= i < |installs| ==> Verified(hash, installs[i].image, installs[i].sum)
  }

  predicate InPlace(files: Files, current: Bytes) { files.exe == Some(current) }

  predicate Aside(files: Files, current: Bytes) { files.exe.None? && files.aside == Some(current) }

  /** What the files are at each stage of the call that holds the flag. */
  predicate StageFits(hash: Hash, files: Files, current: Bytes, stage: Stage) {
    match stage
    case Fetching => InPlace(files, current) || Aside(files, current)
    case Closing(_) => InPlace(files, current) || Aside(files, current)
    case Located(_) => InPlace(files, current)
    case Downloaded(sum, image) => InPlace(files, current) && files.tmp == Some(image) && Verified(hash, image, sum)
    case Cleared(sum, image) => InPlace(files, current) && files.tmp == Some(image) && Verified(hash, image, sum)
    case SetAside(sum, image) => Aside(files, current) && files.tmp == Some(image) && Verified(hash, image, sum)
    case InstallFailed => Aside(files, current)
  }

  ghost predicate Exclusive(s: Sys) {
    && (forall c: nat :: At(s, c) ==> s.applying)
    && (forall c: nat, d: nat :: At(s, c) && At(s, d) ==> c == d)
    && (s.applying ==> exists c: nat :: At(s, c))
  }

  ghost predicate Inv(hash: Hash, initial: Bytes, s: Sys) {
    && Exclusive(s)
    && AllVerified(hash, s.installs)
    && (InPlace(s.files, Current(initial, s)) || Aside(s.files, Current(initial, s)))
    && (forall c: nat :: At(s, c) ==> StageFits(hash, s.files, Current(initial, s), s.calls[c].stage))
  }

  predicate Initial(initial: Bytes, s: Sys) {
    !s.applying && s.files.exe == Some(initial) && s.calls == [] && s.installs == [] && s.lostRollbacks == 0
  }

  /** The flag is kept straight by every step. */
  lemma StepKeepsExclusive(hash: Hash, s: Sys, e: Event)
    requires Exclusive(s) && Enabled(s, e)
    ensures Exclusive(Next(hash, s, e))
  {
    var t := Next(hash, s, e);
    if e.Crash? {
      return;
    }
    if e.Arrive? {
      assert forall c: nat :: At(t, c) <==> At(s, c);
    } else if e.Leave? {
      assert forall c: nat :: At(t, c) <==> At(s, c) && c != e.c;
    } else if e.Enter? {
      if s.applying {
        assert forall c: nat :: At(t, c) <==> At(s, c);
      } else {
        assert At(t, e.c) && forall c: nat :: At(t, c) ==> c == e.c || At(s, c);
      }
    } else {
      assert At(s, e.c) && forall c: nat :: At(t, c) <==> At(s, c);
    }
  }

  /** Steps that leave the files alone. */
  lemma QuietStepKeepsInv(hash: Hash, initial: Bytes, s: Sys, e: Event)
    requires Inv(hash, initial, s) && Enabled(s, e) && (e.Arrive? || e.Enter? || e.Leave? || e.Crash?)
    ensures Inv(hash, initial, Next(hash, s, e))
  {
    StepKeepsExclusive(hash, s, e);
    var t := Next(hash, s, e);
    assert t.files == s.files && t.installs == s.installs;
    forall c: nat | At(t, c) ensures StageFits(hash, t.files, Current(initial, t), t.calls[c].stage) {
      assert At(s, c) || t.calls[c] == Holding(Fetching);
    }
  }

  /** A step of the call that holds the flag, which it keeps: its new stage must fit the new files. */
  lemma HolderMoves(hash: Hash, initial: Bytes, s: Sys, e: Event, t: Sys)
    requires Exclusive(s) && Enabled(s, e) && !e.Arrive? && !e.Enter? && !e.Leave? && !e.Crash? && t == Next(hash, s, e)
    requires AllVerified(hash, t.installs)
    requires InPlace(t.files, Current(initial, t)) || Aside(t.files, Current(initial, t))
    requires At(t, e.c) && StageFits(hash, t.files, Current(initial, t), t.calls[e.c].stage)
    ensures Inv(hash, initial, t)
  {
    StepKeepsExclusive(hash, s, e);
  }

  lemma FetchKeepsInv(hash: Hash, initial: Bytes, s: Sys, e: Event)
    requires Inv(hash, initial, s) && Enabled(s, e) && e.Fetch?
    ensures Inv(hash, initial, Next(hash, s, e))
  {
    HolderMoves(hash, initial, s, e, Next(hash, s, e));
  }

  lemma DownloadKeepsInv(hash: Hash, initial: Bytes, s: Sys, e: Event)
    requires Inv(hash, initial, s) && Enabled(s, e) && e.Download?
    ensures Inv(hash, initial, Next(hash, s, e))
  {
    HolderMoves(hash, initial, s, e, Next(hash, s, e));
  }

  lemma ClearOldKeepsInv(hash: Hash, initial: Bytes, s: Sys, e: Event)
    requires Inv(hash, initial, s) && Enabled(s, e) && e.ClearOld?
    ensures Inv(hash, initial, Next(hash, s, e))
  {
    HolderMoves(hash, initial, s, e, Next(hash, s, e));
  }

  lemma Rename1KeepsInv(hash: Hash, initial: Bytes, s: Sys, e: Event)
    requires Inv(hash, initial, s) && Enabled(s, e) && e.Rename1?
    ensures Inv(hash, initial, Next(hash, s, e))
  {
    HolderMoves(hash, initial, s, e, Next(hash, s, e));
  }

  lemma Rename2KeepsInv(hash: Hash, initial: Bytes, s: Sys, e: Event)
    requires Inv(hash, initial, s) && Enabled(s, e) && e.Rename2?
    ensures Inv(hash, initial, Next(hash, s, e))
  {
    HolderMoves(hash, initial, s, e, Next(hash, s, e));
  }

  lemma RollBackKeepsInv(hash: Hash, initial: Bytes, s: Sys, e: Event)
    requires Inv(hash, initial, s) && Enabled(s, e) && e.RollBack?
    ensures Inv(hash, initial, Next(hash, s, e))
  {
    HolderMoves(hash, initial, s, e, Next(hash, s, e));
  }

  lemma StepKeepsInv(hash: Hash, initial: Bytes, s: Sys, e: Event)
    requires Inv(hash, initial, s) && Enabled(s, e)
    ensures Inv(hash, initial, Next(hash, s, e))
  {
    match e
    case Fetch(_, _, _) => FetchKeepsInv(hash, initial, s, e);
    case Download(_, _, _, _) => DownloadKeepsInv(hash, initial, s, e);
    case ClearOld(_, _) => ClearOldKeepsInv(hash, initial, s, e);
    case Rename1(_, _, _) => Rename1KeepsInv(hash, initial, s, e);
    case Rename2(_, _) => Rename2KeepsInv(hash, initial, s, e);
    case RollBack(_, _, _) => RollBackKeepsInv(hash, initial, s, e);
    case _ => QuietStepKeepsInv(hash, initial, s, e);
  }

  predicate Legal(hash: Hash, s: Sys, events: seq<Event>)
    decreases |events|
  {
    events == [] || (Enabled(s, events[0]) && Legal(hash, Next(hash, s, events[0]), events[1..]))
  }

  function Run(hash: Hash, s: Sys, events: seq<Event>): Sys
    requires Legal(hash, s, events)
    decreases |events|
  {
    if events == [] then s else Run(hash, Next(hash, s, events[0]), events[1..])
  }

  lemma {:induction false} RunsKeepInv(hash: Hash, initial: Bytes, s: Sys, events: seq<Event>)
    requires Inv(hash, initial, s) && Legal(hash, s, events)
    ensures Inv(hash, initial, Run(hash, s, events))
    decreases |events|
  {
    if events != [] {
      StepKeepsInv(hash, initial, s, events[0]);
      RunsKeepInv(hash, initial, Next(hash, s, events[0]), events[1..]);
    }
  }

  // --- what every run keeps ------------------------------------------------------------------

  /**
   Whatever fails, crashes included: the version in service is at its path, or
   set aside with the path empty; and it is the first one or one whose
   checksum, size and format were verified.
   */
  lemma BinaryIsNeverLost(hash: Hash, initial: Bytes, s: Sys, events: seq<Event>)
    requires Initial(initial, s) && Legal(hash, s, events)
    ensures var t := Run(hash, s, events);
            && (t.files.exe == Some(Current(initial, t))
                || (t.files.exe.None? && t.files.aside == Some(Current(initial, t))))
            && (t.installs == [] || Verified(hash, Current(initial, t), t.installs[|t.installs| - 1].sum))
  {
    RunsKeepInv(hash, initial, s, events);
  }

  /** At most one call is past the flag, and the flag is up exactly while one is. */
  lemma OneUpdateAtATime(hash: Hash, initial: Bytes, s: Sys, events: seq<Event>, c: nat, d: nat)
    requires Initial(initial, s) && Legal(hash, s, events)
    ensures var t := Run(hash, s, events);
            && (At(t, c) && At(t, d) ==> c == d)
            && (t.applying <==> exists h: nat :: At(t, h))
  {
    RunsKeepInv(hash, initial, s, events);
  }

  ghost predicate BetweenRenames(s: Sys) {
    exists c: nat :: At(s, c) && (s.calls[c].stage.SetAside? || s.calls[c].stage.InstallFailed?)
  }

  predicate NoCrash(events: seq<Event>) { forall i :: 0 <= i < |events| ==> !events[i].Crash? }

  /** The path is empty only between the two renames, or for good once an install and its rollback both failed. */
  ghost predicate EmptyExplained(s: Sys) { s.files.exe.None? ==> BetweenRenames(s) || s.lostRollbacks > 0 }

  lemma StepExplains(hash: Hash, initial: Bytes, s: Sys, e: Event)
    requires Inv(hash, initial, s) && EmptyExplained(s) && Enabled(s, e) && !e.Crash?
    ensures EmptyExplained(Next(hash, s, e))
  {
    var t := Next(hash, s, e);
    if t.files.exe.None? && t.lostRollbacks == 0 {
      if e.Rename1? && s.files.exe.Some? {
        assert At(t, e.c) && t.calls[e.c].stage.SetAside?;
      } else {
        var c: nat :| At(s, c) && (s.calls[c].stage.SetAside? || s.calls[c].stage.InstallFailed?);
        assert At(t, c);
      }
    }
  }

  lemma {:induction false} EmptyOnlyIfRollbackFailed(hash: Hash, initial: Bytes, s: Sys, events: seq<Event>)
    requires Inv(hash, initial, s) && EmptyExplained(s) && Legal(hash, s, events) && NoCrash(events)
    ensures EmptyExplained(Run(hash, s, events))
    decreases |events|
  {
    if events != [] {
      StepKeepsInv(hash, initial, s, events[0]);
      StepExplains(hash, initial, s, events[0]);
      EmptyOnlyIfRollbackFailed(hash, initial, Next(hash, s, events[0]), events[1..]);
    }
  }

  /**
   A call that reports success has installed the image its own checksum stands
   for, and the previous version is kept.
   */
  lemma SuccessInstallsWhatWasVerified(hash: Hash, initial: Bytes, s: Sys, c: nat)
    requires Inv(hash, initial, s) && Enabled(s, Rename2(c, true))
    ensures var t := Next(hash, s, Rename2(c, true));
            && t.calls[c] == Holding(Closing(true))
            && t.files.exe == Some(s.calls[c].stage.image)
            && Verified(hash, s.calls[c].stage.image, s.calls[c].stage.sum)
            && t.files.aside == Some(Current(initial, s)) && t.files.tmp.None?
  {
  }

  predicate Reaches(hash: Hash, s: Sys, events: seq<Event>, t: Sys) {
    Legal(hash, s, events) && Run(hash, s, events) == t
  }

  lemma Prepend(hash: Hash, s: Sys, e: Event, events: seq<Event>, t: Sys)
    requires Enabled(s, e) && Reaches(hash, Next(hash, s, e), events, t)
    ensures Reaches(hash, s, [e] + events, t)
  {
  }

  /** A call on its own, from the second rename to the end. */
  lemma InstallEnds(hash: Hash, s: Sys, c: nat, sum: string, image: Bytes) returns (t: Sys)
    requires c < |s.calls| && s.calls[c] == Holding(SetAside(sum, image)) && s.files.tmp == Some(image)
    ensures Reaches(hash, s, [Rename2(c, true), Leave(c)], t)
    ensures t.calls == s.calls[c := Finished(true)] && !t.applying
    ensures t.files == Files(Some(image), s.files.aside, None)
    ensures t.installs == s.installs + [Install(sum, image)] && t.lostRollbacks == s.lostRollbacks
  {
    var renamed := Next(hash, s, Rename2(c, true));
    t := Next(hash, renamed, Leave(c));
    Prepend(hash, renamed, Leave(c), [], t);
    Prepend(hash, s, Rename2(c, true), [Leave(c)], t);
  }

  /** From the verified download on. */
  lemma SwapEnds(hash: Hash, s: Sys, c: nat, sum: string, image: Bytes, cleared: bool) returns (t: Sys)
    requires c < |s.calls| && s.calls[c] == Holding(Downloaded(sum, image)) && s.files.tmp == Some(image)
    requires s.files.exe.Some?
    ensures Reaches(hash, s, [ClearOld(c, cleared), Rename1(c, true, true), Rename2(c, true), Leave(c)], t)
    ensures t.calls == s.calls[c := Finished(true)] && !t.applying
    ensures t.files == Files(Some(image), s.files.exe, None)
    ensures t.installs == s.installs + [Install(sum, image)] && t.lostRollbacks == s.lostRollbacks
  {
    var clear := Next(hash, s, ClearOld(c, cleared));
    var aside := Next(hash, clear, Rename1(c, true, true));
    t := InstallEnds(hash, aside, c, sum, image);
    Prepend(hash, clear, Rename1(c, true, true), [Rename2(c, true), Leave(c)], t);
    Prepend(hash, s, ClearOld(c, cleared), [Rename1(c, true, true), Rename2(c, true), Leave(c)], t);
  }

  /**
   A call that waits while no other runs, and for which everything works, ends
   with the verified image in place and the previous binary aside.
   */
  lemma WorkingUpdateInstalls(hash: Hash, s: Sys, c: nat, sum: string, image: Bytes, cleared: bool) returns (t: Sys)
    requires c < |s.calls| && s.calls[c].Waiting? && !s.applying && s.files.exe.Some? && Verified(hash, image, sum)
    ensures Reaches(hash, s, [Enter(c), Fetch(c, Some(sum), true), Download(c, Some(image), Some(image), true)]
                             + [ClearOld(c, cleared), Rename1(c, true, true), Rename2(c, true), Leave(c)], t)
    ensures t.calls == s.calls[c := Finished(true)] && !t.applying
    ensures t.files == Files(Some(image), s.files.exe, None)
    ensures t.installs == s.installs + [Install(sum, image)] && t.lostRollbacks == s.lostRollbacks
  {
    var entered := Next(hash, s, Enter(c));
    var located := Next(hash, entered, Fetch(c, Some(sum), true));
    var loaded := Next(hash, located, Download(c, Some(image), Some(image), true));
    t := SwapEnds(hash, loaded, c, sum, image, cleared);
    var swap := [ClearOld(c, cleared), Rename1(c, true, true), Rename2(c, true), Leave(c)];
    Prepend(hash, located, Download(c, Some(image), Some(image), true), swap, t);
    Prepend(hash, entered, Fetch(c, Some(sum), true), [Download(c, Some(image), Some(image), true)] + swap, t);
    Prepend(hash, s, Enter(c), [Fetch(c, Some(sum), true)] + ([Download(c, Some(image), Some(image), true)] + swap), t);
    assert [Enter(c)] + ([Fetch(c, Some(sum), true)] + ([Download(c, Some(image), Some(image), true)] + swap))
        == [Enter(c), Fetch(c, Some(sum), true), Download(c, Some(image), Some(image), true)] + swap;
  }

  /** A rollback that works puts the previous binary back; one that fails leaves it aside and is lost. */
  lemma RollBackActs(hash: Hash, initial: Bytes, s: Sys, c: nat, ok: bool, removed: bool)
    requires Inv(hash, initial, s) && Enabled(s, RollBack(c, ok, removed))
    ensures var t := Next(hash, s, RollBack(c, ok, removed));
            && t.calls[c] == Holding(Closing(false)) && t.installs == s.installs
            && (removed ==> t.files.tmp.None?)
            && (ok ==> t.files.exe == s.files.aside && t.files.exe.Some? && t.lostRollbacks == s.lostRollbacks)
            && (!ok ==> t.files.exe.None? && t.files.aside == s.files.aside && t.lostRollbacks == s.lostRollbacks + 1)
  {
    assert At(s, c);
  }

  /** A call that enters while another runs is refused; nothing else changes. */
  lemma SecondCallIsRefused(hash: Hash, s: Sys, c: nat)
    requires Enabled(s, Enter(c)) && s.applying
    ensures Next(hash, s, Enter(c)) == s.(calls := s.calls[c := Refused])
  {
  }
}
