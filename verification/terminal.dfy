/**
 Terminal sessions (internal/term/term.go): bounded replay, live subscribers
 that are dropped when they fall behind, and teardown exactly once.

 A Go channel is a value in the list `chans`; `received` and `queue` together
 are everything it ever accepted. `snapshot` and `at` are the replay that
 Subscribe handed out with it and the length of the output at that moment.
 Go keys the live channels by a counter; as every live subscription creates
 one channel, the counter is the position in `chans`, and `subs` is the key set.
 */
module Terminal {
  import opened Prelude

  type Byte = bv8

  datatype Chunk = Chunk(data: seq<Byte>, exit: bool)

  datatype Chan = Chan(received: seq<Chunk>, queue: seq<Chunk>, closed: bool, snapshot: seq<Byte>, at: nat)

  const REPLAY_MAX := 262_144
  const SUB_BUFFER := 1024

  datatype Sess = Sess(
    replay: seq<Byte>,
    subs: set<nat>,
    nextSub: nat,
    exited: bool,
    chans: seq<Chan>,
    output: seq<Byte>)

  function InitialSess(): Sess { Sess([], {}, 0, false, [], []) }

  // --- critical sections --------------------------------------------------------

  /** The non-blocking send: a full channel is closed instead. */
  function Deliver(ch: Chan, c: Chunk): Chan {
    if |ch.queue| < SUB_BUFFER then ch.(queue := ch.queue + [c]) else ch.(closed := true)
  }

  function DeliverTo(chans: seq<Chan>, targets: set<nat>, c: Chunk): (r: seq<Chan>)
    ensures |r| == |chans|
  {
    seq(|chans|, k requires 0 <= k < |chans| => if k in targets then Deliver(chans[k], c) else chans[k])
  }

  function CloseThose(chans: seq<Chan>, targets: set<nat>): (r: seq<Chan>)
    ensures |r| == |chans|
  {
    seq(|chans|, k requires 0 <= k < |chans| => if k in targets then chans[k].(closed := true) else chans[k])
  }

  predicate HasRoom(chans: seq<Chan>, k: nat) { k < |chans| && |chans[k].queue| < SUB_BUFFER }

  function BroadcastBlock(s: Sess, c: Chunk): Sess {
    s.(chans := DeliverTo(s.chans, s.subs, c), subs := set id | id in s.subs && HasRoom(s.chans, id))
  }

  function PumpBlock(s: Sess, data: seq<Byte>): Sess {
    BroadcastBlock(s.(replay := LastOf(s.replay + data, REPLAY_MAX), output := s.output + data), Chunk(data, false))
  }

  function SubscribeBlock(s: Sess): Sess {
    if s.exited then
      s.(chans := s.chans + [Chan([], [Chunk([], true)], true, s.replay, |s.output|)])
    else
      s.(chans := s.chans + [Chan([], [], false, s.replay, |s.output|)],
         subs := s.subs + {s.nextSub}, nextSub := s.nextSub + 1)
  }

  function CancelBlock(s: Sess, id: nat): Sess {
    if id in s.subs && id < |s.chans| then
      s.(chans := s.chans[id := s.chans[id].(closed := true)], subs := s.subs - {id})
    else s
  }

  function CloseBlock(s: Sess): Sess {
    if s.exited then s
    else
      var told := BroadcastBlock(s.(exited := true), Chunk([], true));
      told.(chans := CloseThose(told.chans, told.subs), subs := {})
  }

  // --- the invariant --------------------------------------------------------------

  function Flat(chunks: seq<Chunk>): seq<Byte> {
    if chunks == [] then [] else Flat(chunks[..|chunks| - 1]) + chunks[|chunks| - 1].data
  }

  function Accepted(ch: Chan): seq<Chunk> { ch.received + ch.queue }

  /** The bytes a subscriber holds once it has drained its channel. */
  function Seen(ch: Chan): seq<Byte> { ch.snapshot + Flat(Accepted(ch)) }

  /** Where the subscriber's bytes begin and end in the whole output. */
  function Begins(ch: Chan): int { ch.at - |ch.snapshot| }

  function Ends(ch: Chan): int { ch.at + |Flat(Accepted(ch))| }

  predicate Contiguous(ch: Chan, output: seq<Byte>) {
    && 0 <= Begins(ch) <= Ends(ch) <= |output|
    && Seen(ch) == output[Begins(ch)..Ends(ch)]
  }

  predicate ExitIsLast(ch: Chan) {
    var all := Accepted(ch);
    forall i :: 0 <= i < |all| && all[i].exit ==> i == |all| - 1 && ch.closed && all[i].data == []
  }

  predicate Wired(s: Sess) {
    && (forall id :: id in s.subs ==> id < |s.chans|)
    && (forall k: nat :: k < |s.chans| ==> (s.chans[k].closed <==> k !in s.subs))
  }

  predicate StreamOk(ch: Chan, output: seq<Byte>) {
    && Contiguous(ch, output)
    && ExitIsLast(ch)
    && |ch.queue| <= SUB_BUFFER
    && (!ch.closed ==> Ends(ch) == |output|)
  }

  predicate Streams(s: Sess) {
    forall k: nat :: k < |s.chans| ==> StreamOk(s.chans[k], s.output)
  }

  predicate Inv(s: Sess) {
    && Wired(s) && Streams(s) && s.replay == LastOf(s.output, REPLAY_MAX)
    && (if s.exited then s.subs == {} else s.nextSub == |s.chans|)
  }

  lemma FlatAppends(chunks: seq<Chunk>, c: Chunk)
    ensures Flat(chunks + [c]) == Flat(chunks) + c.data
  {
  }

  lemma DeliverKeepsContiguity(ch: Chan, output: seq<Byte>, c: Chunk)
    requires Contiguous(ch, output) && Ends(ch) == |output|
    ensures var d := Deliver(ch, c);
            Contiguous(d, output + c.data) && (|ch.queue| < SUB_BUFFER ==> Ends(d) == |output + c.data|)
  {
    var d := Deliver(ch, c);
    if |ch.queue| < SUB_BUFFER {
      assert Accepted(d) == Accepted(ch) + [c];
      FlatAppends(Accepted(ch), c);
      assert Seen(d) == Seen(ch) + c.data;
      assert (output + c.data)[Begins(ch)..] == output[Begins(ch)..] + c.data;
    } else {
      assert (output + c.data)[Begins(ch)..Ends(ch)] == output[Begins(ch)..Ends(ch)];
    }
  }

  lemma DeliverKeepsExitLast(ch: Chan, c: Chunk)
    requires ExitIsLast(ch) && !ch.closed && (c.exit ==> c.data == [])
    ensures ExitIsLast(if c.exit then Deliver(ch, c).(closed := true) else Deliver(ch, c))
  {
    var d := if c.exit then Deliver(ch, c).(closed := true) else Deliver(ch, c);
    var before := Accepted(ch);
    assert forall i :: 0 <= i < |before| ==> !before[i].exit;
    if |ch.queue| < SUB_BUFFER {
      assert Accepted(d) == before + [c];
    } else {
      assert Accepted(d) == before;
    }
  }

  /** One channel of an ongoing broadcast keeps its stream property against the longer output. */
  lemma DeliverKeepsStream(ch: Chan, output: seq<Byte>, c: Chunk)
    requires StreamOk(ch, output) && !ch.closed
    requires c.exit ==> c.data == []
    ensures StreamOk(if c.exit then Deliver(ch, c).(closed := true) else Deliver(ch, c), output + c.data)
  {
    DeliverKeepsContiguity(ch, output, c);
    DeliverKeepsExitLast(ch, c);
    assert Accepted(Deliver(ch, c).(closed := true)) == Accepted(Deliver(ch, c));
  }

  lemma BroadcastKeepsStreams(s: Sess, c: Chunk, k: nat)
    requires Wired(s) && Streams(s) && k < |s.chans|
    requires c.exit ==> c.data == []
    ensures var d := BroadcastBlock(s, c).chans[k];
            StreamOk(if c.exit then d.(closed := true) else d, s.output + c.data)
  {
    assert StreamOk(s.chans[k], s.output);
    if k in s.subs {
      DeliverKeepsStream(s.chans[k], s.output, c);
    } else {
      assert (s.output + c.data)[Begins(s.chans[k])..Ends(s.chans[k])]
          == s.output[Begins(s.chans[k])..Ends(s.chans[k])];
    }
  }

  lemma BroadcastKeepsWiring(s: Sess, c: Chunk)
    requires Wired(s)
    ensures Wired(BroadcastBlock(s, c))
  {
  }

  lemma PumpKeepsInv(s: Sess, data: seq<Byte>)
    requires Inv(s)
    ensures Inv(PumpBlock(s, data))
  {
    var c := Chunk(data, false);
    BroadcastKeepsWiring(s, c);
    forall k: nat | k < |s.chans| ensures PumpBlock(s, data).chans[k] == BroadcastBlock(s, c).chans[k] {
    }
    forall k: nat | k < |s.chans| {
      BroadcastKeepsStreams(s, c, k);
    }
  }

  lemma NewChannelFits(output: seq<Byte>, ch: Chan)
    requires ch.received == [] && ch.snapshot == LastOf(output, REPLAY_MAX) && ch.at == |output|
    requires ch.queue == if ch.closed then [Chunk([], true)] else []
    ensures StreamOk(ch, output)
  {
    assert Accepted(ch) == ch.queue;
    NothingIn(ch.queue);
    TailIsSlice(output);
  }

  lemma NothingIn(queue: seq<Chunk>)
    requires queue == [] || queue == [Chunk([], true)]
    ensures Flat(queue) == []
  {
  }

  lemma TailIsSlice(output: seq<Byte>)
    ensures var tail := LastOf(output, REPLAY_MAX);
            |tail| <= |output| && tail + [] == output[|output| - |tail|..|output|]
  {
  }

  lemma SubscribeKeepsInv(s: Sess)
    requires Inv(s)
    ensures Inv(SubscribeBlock(s))
  {
    var t := SubscribeBlock(s);
    NewChannelFits(s.output, t.chans[|s.chans|]);
    forall k: nat | k < |t.chans| ensures StreamOk(t.chans[k], t.output) {
      assert k < |s.chans| ==> t.chans[k] == s.chans[k] && StreamOk(s.chans[k], s.output);
    }
  }

  lemma CancelKeepsInv(s: Sess, id: nat)
    requires Inv(s)
    ensures Inv(CancelBlock(s, id))
  {
  }

  lemma CloseKeepsInv(s: Sess)
    requires Inv(s)
    ensures Inv(CloseBlock(s))
  {
    if !s.exited {
      var c := Chunk([], true);
      var t := CloseBlock(s);
      BroadcastKeepsWiring(s, c);
      forall k: nat | k < |s.chans|
        ensures t.chans[k] == BroadcastBlock(s, c).chans[k].(closed := true)
      {
      }
      forall k: nat | k < |s.chans| {
        BroadcastKeepsStreams(s, c, k);
      }
      assert s.output + [] == s.output;
    }
  }

  // --- runs -------------------------------------------------------------------------

  datatype Event =
    | Output(data: seq<Byte>)
    | Subscribe
    | Cancel(id: nat)
    | Close
    | Receive(chan: nat)

  function ReceiveFrom(s: Sess, k: nat): Sess {
    if k < |s.chans| && s.chans[k].queue != [] then
      var ch := s.chans[k];
      s.(chans := s.chans[k := ch.(received := ch.received + [ch.queue[0]], queue := ch.queue[1..])])
    else s
  }

  function Next(s: Sess, e: Event): Sess {
    match e
    case Output(data) => PumpBlock(s, data)
    case Subscribe => SubscribeBlock(s)
    case Cancel(id) => CancelBlock(s, id)
    case Close => CloseBlock(s)
    case Receive(k) => ReceiveFrom(s, k)
  }

  function Run(events: seq<Event>): Sess {
    if events == [] then InitialSess() else Next(Run(events[..|events| - 1]), events[|events| - 1])
  }

  lemma ReceiveKeepsInv(s: Sess, k: nat)
    requires Inv(s)
    ensures Inv(ReceiveFrom(s, k))
  {
    if k < |s.chans| && s.chans[k].queue != [] {
      var ch, after := s.chans[k], ReceiveFrom(s, k).chans[k];
      assert StreamOk(ch, s.output);
      assert Accepted(after) == Accepted(ch);
      assert StreamOk(after, s.output);
    }
  }

  lemma StepKeepsInv(s: Sess, e: Event)
    requires Inv(s)
    ensures Inv(Next(s, e))
  {
    match e
    case Output(data) => PumpKeepsInv(s, data);
    case Subscribe => SubscribeKeepsInv(s);
    case Cancel(id) => CancelKeepsInv(s, id);
    case Close => CloseKeepsInv(s);
    case Receive(k) => ReceiveKeepsInv(s, k);
  }

  lemma {:induction false} RunKeepsInv(events: seq<Event>)
    ensures Inv(Run(events))
  {
    if events != [] {
      RunKeepsInv(events[..|events| - 1]);
      StepKeepsInv(Run(events[..|events| - 1]), events[|events| - 1]);
    }
  }

  /** Everything the process printed, read off the events alone. */
  function Printed(events: seq<Event>): seq<Byte> {
    if events == [] then []
    else
      var last := events[|events| - 1];
      Printed(events[..|events| - 1]) + (if last.Output? then last.data else [])
  }

  lemma {:induction false} OutputIsWhatWasPrinted(events: seq<Event>)
    ensures Run(events).output == Printed(events)
  {
    if events != [] {
      OutputIsWhatWasPrinted(events[..|events| - 1]);
    }
  }

  /**
   In any interleaving a subscriber's replay followed by everything its channel
   accepted is one contiguous slice of the output, a suffix while it is
   subscribed; the exit marker, if any, is the last thing it gets.
   */
  lemma SubscribersSeeOneSlice(events: seq<Event>, k: nat)
    requires k < |Run(events).chans|
    ensures var ch, out := Run(events).chans[k], Printed(events);
            && 0 <= Begins(ch) <= Ends(ch) <= |out|
            && Seen(ch) == out[Begins(ch)..Ends(ch)]
            && (!ch.closed ==> Ends(ch) == |out|)
            && (ch.closed <==> k !in Run(events).subs)
            && ExitIsLast(ch)
  {
    RunKeepsInv(events);
    OutputIsWhatWasPrinted(events);
  }

  /** The replay buffer is exactly the last REPLAY_MAX bytes printed, or all of them when fewer. */
  lemma ReplayIsTheTail(events: seq<Event>)
    ensures var out, n := Printed(events), |Run(events).replay|;
            n == (if |out| < REPLAY_MAX then |out| else REPLAY_MAX) && Run(events).replay == out[|out| - n..]
  {
    RunKeepsInv(events);
    OutputIsWhatWasPrinted(events);
  }

  /** A subscription starts with the current replay and no gap: its slice ends where the output ends. */
  lemma SubscribeStartsAtTheEnd(events: seq<Event>)
    ensures var s, t := Run(events), Next(Run(events), Subscribe);
            && |t.chans| == |s.chans| + 1
            && t.chans[|s.chans|].snapshot == LastOf(Printed(events), REPLAY_MAX)
            && Ends(t.chans[|s.chans|]) == |Printed(events)|
            && (s.exited ==> Accepted(t.chans[|s.chans|]) == [Chunk([], true)])
            && (!s.exited ==> |s.chans| in t.subs)
  {
    RunKeepsInv(events);
    OutputIsWhatWasPrinted(events);
    var t := Next(Run(events), Subscribe);
    var ch := t.chans[|Run(events).chans|];
    assert Accepted(ch) == ch.queue;
  }

  predicate IsPrefix(a: seq<Chunk>, b: seq<Chunk>) { |a| <= |b| && b[..|a|] == a }

  /** `b` is a later moment of channel `a`: nothing is taken back, and a closed channel accepts nothing more. */
  predicate LaterMoment(a: Chan, b: Chan) {
    && b.snapshot == a.snapshot && b.at == a.at
    && IsPrefix(a.received, b.received)
    && IsPrefix(Accepted(a), Accepted(b))
    && (a.closed ==> b.closed && Accepted(b) == Accepted(a))
  }

  lemma ReceiveIsLater(ch: Chan)
    requires ch.queue != []
    ensures LaterMoment(ch, ch.(received := ch.received + [ch.queue[0]], queue := ch.queue[1..]))
  {
  }

  lemma BroadcastChannelsGrow(s: Sess, data: seq<Byte>, k: nat)
    requires Inv(s) && k < |s.chans|
    ensures LaterMoment(s.chans[k], PumpBlock(s, data).chans[k])
  {
  }

  lemma CloseChannelsGrow(s: Sess, k: nat)
    requires Inv(s) && k < |s.chans|
    ensures LaterMoment(s.chans[k], CloseBlock(s).chans[k])
  {
  }

  lemma CancelChannelsGrow(s: Sess, id: nat, k: nat)
    requires Inv(s) && k < |s.chans|
    ensures LaterMoment(s.chans[k], CancelBlock(s, id).chans[k])
  {
  }

  lemma ReceiveChannelsGrow(s: Sess, r: nat, k: nat)
    requires Inv(s) && k < |s.chans|
    ensures LaterMoment(s.chans[k], ReceiveFrom(s, r).chans[k])
  {
    if r == k && s.chans[k].queue != [] {
      ReceiveIsLater(s.chans[k]);
    }
  }

  lemma ChannelsOnlyGrow(s: Sess, e: Event, k: nat)
    requires Inv(s) && k < |s.chans|
    ensures k < |Next(s, e).chans| && LaterMoment(s.chans[k], Next(s, e).chans[k])
  {
    match e
    case Output(data) => BroadcastChannelsGrow(s, data, k);
    case Subscribe => assert SubscribeBlock(s).chans[k] == s.chans[k];
    case Cancel(id) => CancelChannelsGrow(s, id, k);
    case Close => CloseChannelsGrow(s, k);
    case Receive(r) => ReceiveChannelsGrow(s, r, k);
  }

  predicate EndsWithExit(ch: Chan) {
    var got := Accepted(ch);
    |got| > 0 && got[|got| - 1].exit && ch.closed
  }

  /** Teardown takes effect once; every subscriber with room is told, and closing again changes nothing. */
  lemma CloseIsFinal(s: Sess)
    requires Inv(s)
    ensures CloseBlock(s).exited && CloseBlock(s).subs == {} && CloseBlock(CloseBlock(s)) == CloseBlock(s)
    ensures forall k: nat :: k < |s.chans| && k in s.subs && HasRoom(s.chans, k) ==>
              EndsWithExit(CloseBlock(s).chans[k])
  {
  }

  // --- what each step does to whom ------------------------------------------------------

  /** Nobody outside `ids` notices the step: channels and subscriptions are as they were. */
  predicate OthersKept(s: Sess, t: Sess, ids: set<nat>) {
    && |s.chans| <= |t.chans|
    && (forall j: nat :: j < |s.chans| && j !in ids ==> t.chans[j] == s.chans[j])
    && (forall j: nat :: j < |s.chans| && j !in ids ==> (j in t.subs <==> j in s.subs))
  }

  /** Same subscriber, same place in the output, and `more` has been put behind what the channel had accepted. */
  predicate AcceptedMore(a: Chan, b: Chan, more: seq<Chunk>) {
    b.snapshot == a.snapshot && b.at == a.at && b.received == a.received && Accepted(b) == Accepted(a) + more
  }

  lemma AcceptedOneMore(ch: Chan, c: Chunk)
    ensures Accepted(ch.(queue := ch.queue + [c])) == Accepted(ch) + [c]
    ensures Accepted(ch) == Accepted(ch) + []
  {
  }

  /**
   In any run a chunk of output is put behind everything the channel of a
   subscriber with room has accepted, and the subscriber stays; one without room
   gets nothing, its channel is closed and it is gone. Nobody else notices.
   */
  lemma OutputIsDelivered(events: seq<Event>, data: seq<Byte>, k: nat)
    requires k in Run(events).subs
    ensures k < |Run(events).chans|
    ensures var s, t := Run(events), Next(Run(events), Output(data));
            && |t.chans| == |s.chans| && t.nextSub == s.nextSub && t.exited == s.exited && OthersKept(s, t, s.subs)
            && (|s.chans[k].queue| < 1024 ==>
                 k in t.subs && !t.chans[k].closed && AcceptedMore(s.chans[k], t.chans[k], [Chunk(data, false)]))
            && (|s.chans[k].queue| >= 1024 ==>
                 k !in t.subs && t.chans[k].closed && AcceptedMore(s.chans[k], t.chans[k], []))
  {
    RunKeepsInv(events);
    AcceptedOneMore(Run(events).chans[k], Chunk(data, false));
  }

  /** A new subscriber changes nothing for the others, and joins them unless the session has ended. */
  lemma SubscribeJoins(events: seq<Event>)
    ensures var s, t := Run(events), Next(Run(events), Subscribe);
            && |t.chans| == |s.chans| + 1 && OthersKept(s, t, {}) && t.exited == s.exited
            && t.subs == (if s.exited then s.subs else s.subs + {|s.chans|})
            && t.replay == s.replay && t.output == s.output
  {
    RunKeepsInv(events);
  }

  /** Cancelling ends one subscription if it is still live, with nothing more sent, and touches no other. */
  lemma CancelLeaves(events: seq<Event>, id: nat)
    ensures var s, t := Run(events), Next(Run(events), Cancel(id));
            if id in s.subs then
              && OthersKept(s, t, {id}) && t.subs == s.subs - {id} && |t.chans| == |s.chans|
              && id < |s.chans| && t.chans[id].closed && AcceptedMore(s.chans[id], t.chans[id], [])
              && t.replay == s.replay && t.output == s.output && t.exited == s.exited
            else t == s
  {
    RunKeepsInv(events);
    var s := Run(events);
    if id in s.subs {
      AcceptedOneMore(s.chans[id], Chunk([], true));
    }
  }

  /**
   The first teardown sends every subscriber with room the exit notice and closes
   all their channels; a second does nothing.
   */
  lemma CloseTellsEverybody(events: seq<Event>, k: nat)
    requires k in Run(events).subs
    ensures k < |Run(events).chans|
    ensures var s, t := Run(events), Next(Run(events), Close);
            && !s.exited && t.exited && t.subs == {} && |t.chans| == |s.chans| && OthersKept(s, t, s.subs)
            && t.chans[k].closed
            && AcceptedMore(s.chans[k], t.chans[k], if |s.chans[k].queue| < 1024 then [Chunk([], true)] else [])
            && t.replay == s.replay && t.output == s.output
  {
    RunKeepsInv(events);
    var s := Run(events);
    AcceptedOneMore(s.chans[k], Chunk([], true));
  }

  lemma CloseOfTheEndedDoesNothing(events: seq<Event>)
    ensures Run(events).exited ==> Next(Run(events), Close) == Run(events)
    ensures Next(Run(events), Close).exited
  {
  }

  /** One chunk taken from the queue. */
  lemma TakenFromTheQueue(ch: Chan)
    requires ch.queue != []
    ensures var after := ch.(received := ch.received + [ch.queue[0]], queue := ch.queue[1..]);
            Accepted(after) == Accepted(ch)
  {
    assert ch.queue == [ch.queue[0]] + ch.queue[1..];
    Reassociate(ch.received, [ch.queue[0]], ch.queue[1..]);
  }

  lemma ReceiveActs(s: Sess, k: nat)
    requires k < |s.chans| && s.chans[k].queue != []
    ensures var t := Next(s, Receive(k));
            && OthersKept(s, t, {k}) && t.subs == s.subs && |t.chans| == |s.chans|
            && t.chans[k].received == s.chans[k].received + [s.chans[k].queue[0]]
            && Accepted(t.chans[k]) == Accepted(s.chans[k]) && t.chans[k].closed == s.chans[k].closed
  {
    TakenFromTheQueue(s.chans[k]);
  }

  /** A subscriber that receives takes the oldest chunk it has not had; nobody else notices. */
  lemma ReceiveTakesTheOldest(events: seq<Event>, k: nat)
    requires k < |Run(events).chans| && Run(events).chans[k].queue != []
    ensures var s, t := Run(events), Next(Run(events), Receive(k));
            && OthersKept(s, t, {k}) && t.subs == s.subs && |t.chans| == |s.chans|
            && t.chans[k].received == s.chans[k].received + [s.chans[k].queue[0]]
            && Accepted(t.chans[k]) == Accepted(s.chans[k]) && t.chans[k].closed == s.chans[k].closed
  {
    ReceiveActs(Run(events), k);
  }

  // --- the session object -------------------------------------------------------------

  class Session {
    var replay: seq<Byte>
    var subs: set<nat>
    var nextSub: nat
    var exited: bool
    var chans: seq<Chan>
    var output: seq<Byte>  // history: everything printed; no decision depends on it

    ghost function Fields(): Sess reads this { Sess(replay, subs, nextSub, exited, chans, output) }

    ghost predicate Valid() reads this { Inv(Fields()) }

    constructor ()
      ensures Valid() && Fields() == InitialSess()
    {
      replay, subs, nextSub, exited, chans, output := [], {}, 0, false, [], [];
    }

    /** A send; Go panics when the channel is closed, so that must not happen. */
    method Send(k: nat, c: Chunk)
      requires k < |chans| && !chans[k].closed && |chans[k].queue| < SUB_BUFFER
      modifies this`chans
      ensures chans == old(chans)[k := old(chans[k]).(queue := old(chans[k]).queue + [c])]
    {
      chans := chans[k := chans[k].(queue := chans[k].queue + [c])];
    }

    /** A close; Go panics when the channel is closed already. */
    method CloseChan(k: nat)
      requires k < |chans| && !chans[k].closed
      modifies this`chans
      ensures chans == old(chans)[k := old(chans[k]).(closed := true)]
    {
      chans := chans[k := chans[k].(closed := true)];
    }

    method BroadcastLocked(c: Chunk)
      requires Wired(Fields())
      modifies this`chans, this`subs
      ensures Fields() == BroadcastBlock(old(Fields()), c)
    {
      ghost var before := Fields();
      var todo := subs;
      while todo != {}
        invariant todo <= before.subs
        invariant chans == DeliverTo(before.chans, before.subs - todo, c)
        invariant subs == set id | id in before.subs && (id in todo || HasRoom(before.chans, id))
      {
        var id :| id in todo;
        assert chans[id] == before.chans[id];
        if |chans[id].queue| < SUB_BUFFER {
          Send(id, c);
        } else {
          subs := subs - {id};
          CloseChan(id);
        }
        todo := todo - {id};
      }
    }

    method Pump(data: seq<Byte>)
      requires Valid()
      modifies this
      ensures Valid() && Fields() == PumpBlock(old(Fields()), data)
    {
      PumpKeepsInv(Fields(), data);
      replay := replay + data;
      if |replay| > REPLAY_MAX {
        replay := replay[|replay| - REPLAY_MAX..];
      }
      output := output + data;
      BroadcastLocked(Chunk(data, false));
    }

    method Subscribe() returns (snapshot: seq<Byte>, k: nat, id: Option<nat>)
      requires Valid()
      modifies this
      ensures Valid() && Fields() == SubscribeBlock(old(Fields()))
      ensures snapshot == old(replay) && k == |old(chans)| && (id.None? <==> old(exited))
    {
      SubscribeKeepsInv(Fields());
      snapshot, k := replay, |chans|;
      if exited {
        chans := chans + [Chan([], [], false, snapshot, |output|)];
        Send(k, Chunk([], true));
        CloseChan(k);
        return snapshot, k, None;
      }
      chans := chans + [Chan([], [], false, snapshot, |output|)];
      id := Some(nextSub);
      subs := subs + {nextSub};
      nextSub := nextSub + 1;
    }

    method Cancel(id: nat)
      requires Valid()
      modifies this
      ensures Valid() && Fields() == CancelBlock(old(Fields()), id)
    {
      CancelKeepsInv(Fields(), id);
      if id in subs {
        subs := subs - {id};
        CloseChan(id);
      }
    }

    /** The locked part of close; `first` tells the caller to go on with closing the process. */
    method Close() returns (first: bool)
      requires Valid()
      modifies this
      ensures Valid() && Fields() == CloseBlock(old(Fields())) && first == !old(exited)
    {
      CloseKeepsInv(Fields());
      if exited {
        return false;
      }
      BroadcastKeepsWiring(Fields(), Chunk([], true));
      exited := true;
      BroadcastLocked(Chunk([], true));
      CloseRemaining();
      return true;
    }

    method CloseRemaining()
      requires Wired(Fields())
      modifies this`chans, this`subs
      ensures chans == CloseThose(old(chans), old(subs)) && subs == {}
    {
      ghost var before := Fields();
      while subs != {}
        invariant subs <= before.subs
        invariant chans == CloseThose(before.chans, before.subs - subs)
      {
        var id :| id in subs;
        assert chans[id] == before.chans[id];
        subs := subs - {id};
        CloseChan(id);
      }
    }
  }
}
