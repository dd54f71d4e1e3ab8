/**
 The job runner (internal/jobs/jobs.go): one long operation at a time, its
 output kept to the last lines, its past to the last jobs.
 */
module Jobs {
  import opened Prelude

  const MAX_OUTPUT_LINES := 4000
  const MAX_RECENT := 20

  datatype State = Running | Done | Failed(message: string) | Canceled

  datatype View = View(
    id: string, kind: string, target: string, state: State, output: Option<seq<string>>, dropped: nat)

  lemma LastAppend<T>(s: seq<T>, x: T, n: nat)
    ensures LastOf(LastOf(s, n) + [x], n) == LastOf(s + [x], n)
  {
  }

  class Job {
    const id: string
    const kind: string
    const target: string
    var state: State
    var output: seq<string>
    var dropped: nat
    var canceled: bool
    /** Every line the operation ever printed. */
    ghost var lines: seq<string>

    ghost predicate Valid()
      reads this
    {
      output == LastOf(lines, MAX_OUTPUT_LINES) && dropped + |output| == |lines|
    }

    constructor (id: string, kind: string, target: string)
      ensures Valid() && this.id == id && this.kind == kind && this.target == target
      ensures state == Running && !canceled && lines == []
    {
      this.id, this.kind, this.target := id, kind, target;
      state, output, dropped, canceled, lines := Running, [], 0, false, [];
    }

    method AppendLine(line: string)
      requires Valid()
      modifies this`output, this`dropped, this`lines
      ensures Valid() && lines == old(lines) + [line]
    {
      output, lines := output + [line], lines + [line];
      if |output| > MAX_OUTPUT_LINES {
        var trim := |output| - MAX_OUTPUT_LINES;
        output, dropped := output[trim..], dropped + trim;
      }
    }

    method Snapshot(withOutput: bool) returns (v: View)
      requires Valid()
      ensures v == View(id, kind, target, state,
                        if withOutput then Some(LastOf(lines, MAX_OUTPUT_LINES)) else None, |lines| - |output|)
    {
      return View(id, kind, target, state, if withOutput then Some(output) else None, dropped);
    }
  }

  function Reverse<T>(s: seq<T>): seq<T> { if s == [] then [] else Reverse(s[1..]) + [s[0]] }

  function CurrentOf(current: Job?): seq<Job> { if current == null then [] else [current] }

  /** What can happen to a runner; lines and the end come from the job that runs, if one does. */
  datatype Call =
    | StartCall(id: string, kind: string, target: string)
    | LineCall(line: string)
    | CancelCall(id: string)
    | FinishCall(error: Option<string>)

  class Runner {
    var current: Job?
    var recent: seq<Job>
    /** Every job that ever ended, in that order. */
    ghost var ended: seq<Job>

    /** All jobs ever started; since there is one at a time, in the order they were started. */
    ghost function All(): seq<Job>
      reads this
    {
      ended + CurrentOf(current)
    }

    ghost predicate Valid()
      reads this, ended, if current == null then {} else {current}
    {
      && (forall i, j :: 0 <= i < j < |ended| ==> ended[i] != ended[j])
      && (forall i :: 0 <= i < |ended| ==> ended[i].Valid() && ended[i].state != Running)
      && (current != null ==> current !in ended && current.Valid() && current.state == Running)
      && recent == LastOf(ended, MAX_RECENT)
    }

    /** The terminal states of the jobs that ended, in that order. */
    ghost function Verdicts(): seq<State>
      reads this, ended
    {
      seq(|ended|, i requires 0 <= i < |ended| reads this, ended => ended[i].state)
    }

    constructor ()
      ensures Valid() && All() == []
    {
      current, recent, ended := null, [], [];
    }

    /** A job is started unless one is running; then the error names that one. */
    method Start(id: string, kind: string, target: string) returns (r: Result<View, string>)
      requires Valid()
      modifies this`current
      ensures Valid() && ended == old(ended) && recent == old(recent)
      ensures r.Ok? <==> old(current) == null
      ensures r.Err? ==> current == old(current) && current != null && r.error == current.kind
      ensures r.Ok? ==> current != null && fresh(current) && All() == old(All()) + [current]
                        && current.id == id && r.value == View(id, kind, target, Running, None, 0)
    {
      if current != null {
        return Err(current.kind);
      }
      var j := new Job(id, kind, target);
      current := j;
      var v := j.Snapshot(false);
      return Ok(v);
    }

    /** The end of a job's goroutine: its one and only terminal state. */
    method Finish(j: Job, error: Option<string>)
      requires Valid() && j == current
      modifies this, j`state
      ensures Valid() && current == null && ended == old(ended) + [j] && All() == old(All())
      ensures j.state == if j.canceled then Canceled else if error.Some? then Failed(error.value) else Done
    {
      if j.canceled {
        j.state := Canceled;
      } else if error.Some? {
        j.state := Failed(error.value);
      } else {
        j.state := Done;
      }
      Archive(j);
    }

    /** The slot is free again, and the job joins the last ones that ended. */
    method Archive(j: Job)
      requires recent == LastOf(ended, MAX_RECENT) && j == current && j !in ended && j.Valid() && j.state != Running
      requires forall i, k :: 0 <= i < k < |ended| ==> ended[i] != ended[k]
      requires forall i :: 0 <= i < |ended| ==> ended[i].Valid() && ended[i].state != Running
      modifies this
      ensures Valid() && current == null && ended == old(ended) + [j]
    {
      LastAppend(ended, j, MAX_RECENT);
      current := null;
      recent := recent + [j];
      ended := ended + [j];
      if |recent| > MAX_RECENT {
        recent := recent[|recent| - MAX_RECENT..];
      }
    }

    method Cancel(id: string) returns (ok: bool)
      requires Valid()
      modifies if current == null then {} else {current}
      ensures Valid() && ok == (current != null && current.id == id)
      ensures current != null ==>
                current.canceled == (ok || old(current.canceled)) && current.lines == old(current.lines)
    {
      if current != null && current.id == id {
        current.canceled := true;
        return true;
      }
      return false;
    }

    method Step(c: Call)
      requires Valid()
      modifies this, if current == null then {} else {current}
      ensures Valid() && (current == null || current == old(current) || fresh(current))
      ensures old(All()) <= All() && old(Verdicts()) <= Verdicts()
      ensures c.FinishCall? && old(current) != null ==> |Verdicts()| == |old(Verdicts())| + 1
      ensures !c.FinishCall? || old(current) == null ==> Verdicts() == old(Verdicts())
    {
      ghost var before := ended;
      ghost var verdicts := Verdicts();
      match c {
        case StartCall(id, kind, target) =>
          var _ := Start(id, kind, target);
        case LineCall(line) =>
          if current != null {
            current.AppendLine(line);
          }
        case CancelCall(id) =>
          var _ := Cancel(id);
        case FinishCall(error) =>
          if current != null {
            Finish(current, error);
          }
      }
      assert forall i :: 0 <= i < |before| ==> ended[i] == before[i] && ended[i].state == verdicts[i];
    }

    /**
     Over any sequence of calls, the list of terminal states only ever grows: a
     job that has ended never changes its state again, and no job is lost.
     */
    method Serve(calls: seq<Call>) returns (ghost history: seq<seq<State>>)
      requires Valid()
      modifies this, if current == null then {} else {current}
      ensures Valid() && old(All()) <= All()
      ensures |history| == |calls| + 1 && history[0] == old(Verdicts()) && history[|calls|] == Verdicts()
      ensures forall i, j :: 0 <= i <= j < |history| ==> history[i] <= history[j]
      ensures forall i, k :: 0 <= i < |history| && 0 <= k < |history[i]| ==> history[i][k] != Running
    {
      history := [Verdicts()];
      for n := 0 to |calls|
        invariant Valid() && (current == null || current == old(current) || fresh(current))
        invariant old(All()) <= All()
        invariant |history| == n + 1 && history[0] == old(Verdicts()) && history[n] == Verdicts()
        invariant forall i, j :: 0 <= i <= j <= n ==> history[i] <= history[j]
        invariant forall i, k :: 0 <= i <= n && 0 <= k < |history[i]| ==> history[i][k] != Running
      {
        Step(calls[n]);
        history := history + [Verdicts()];
      }
    }

    /** The jobs shown are the running one and the last twenty that ended, newest first. */
    method List() returns (out: seq<View>)
      requires Valid()
      ensures |out| == |CurrentOf(current)| + |LastOf(ended, MAX_RECENT)|
      ensures var shown := Reverse(LastOf(ended, MAX_RECENT) + CurrentOf(current));
              |shown| == |out| && forall k :: 0 <= k < |out| ==>
                out[k] == View(shown[k].id, shown[k].kind, shown[k].target, shown[k].state, None, shown[k].dropped)
    {
      out := [];
      if current != null {
        var v := current.Snapshot(false);
        out := out + [v];
      }
      ghost var shown := LastOf(ended, MAX_RECENT) + CurrentOf(current);
      var i := |recent|;
      while i > 0
        invariant 0 <= i <= |recent|
        invariant |out| == |shown| - i
        invariant forall k :: 0 <= k < |out| ==>
                    var j := shown[|shown| - 1 - k];
                    out[k] == View(j.id, j.kind, j.target, j.state, None, j.dropped)
      {
        i := i - 1;
        assert recent[i] in ended;
        var v := recent[i].Snapshot(false);
        out := out + [v];
      }
      ReverseAt(shown);
    }

    /** A job can be looked up while it runs and as long as it is among the last twenty. */
    method Get(id: string) returns (v: Option<View>)
      requires Valid()
      ensures v.None? <==> forall j :: j in recent + CurrentOf(current) ==> j.id != id
      ensures v.Some? ==>
                exists j :: j in recent + CurrentOf(current) && j.id == id
                  && v.value == View(id, j.kind, j.target, j.state, Some(LastOf(j.lines, MAX_OUTPUT_LINES)), j.dropped)
    {
      if current != null && current.id == id {
        var view := current.Snapshot(true);
        assert current in recent + CurrentOf(current);
        return Some(view);
      }
      for i := 0 to |recent|
        invariant forall k :: 0 <= k < i ==> recent[k].id != id
      {
        assert recent[i] in ended;
        if recent[i].id == id {
          var view := recent[i].Snapshot(true);
          assert recent[i] in recent + CurrentOf(current);
          return Some(view);
        }
      }
      return None;
    }
  }

  lemma {:induction false} ReverseAt<T>(s: seq<T>)
    ensures |Reverse(s)| == |s| && forall k :: 0 <= k < |s| ==> Reverse(s)[k] == s[|s| - 1 - k]
  {
    if s != [] {
      ReverseAt(s[1..]);
    }
  }
}
