/**
 The qBittorrent client (internal/qbit/qbit.go): logging in, holding off after
 rejected credentials, retrying on an expired session or an old endpoint, and
 a short cache. Every public call holds the mutex throughout, so calls run one
 after another. The server may answer anything.
 */
module Qbit {
  import opened Prelude

  const SECOND := 1_000_000_000
  const CACHE_TTL := 2 * SECOND
  const ERR_TTL := 10 * SECOND
  const LOGIN_BACKOFF := 300 * SECOND

  const OK := 200
  const FORBIDDEN := 403
  const NOT_FOUND := 404

  /**
   `good` says that a login body contains "Ok.", or that any other body could
   be read and decoded; `blank` that a text body is empty but for spaces.
   */
  datatype Reply = NoReply | Reply(status: int, good: bool, blank: bool)

  datatype Answer = Answer(delay: nat, reply: Reply)

  datatype Verdict = Accepted | Rejected | Inconclusive

  /** One exchange with the server, as history. */
  datatype Exchange =
    | Login(sentAt: int, answeredAt: int, verdict: Verdict)
    | Send(path: string, reply: Reply)

  /** What a snapshot is made of: the exchanges from `since` on, finished at `at`. */
  datatype Snapshot = Snapshot(reachable: bool, since: nat, at: int)

  function VerdictOf(reply: Reply): Verdict {
    if reply.NoReply? then Inconclusive
    else if reply.status == FORBIDDEN then Rejected
    else if reply.status != OK then Inconclusive
    else if reply.good then Accepted else Rejected
  }

  /** What an answer to a login means: only 200 with "Ok." accepts, and only 403 or another 200 rejects. */
  lemma VerdictIff(reply: Reply)
    ensures VerdictOf(reply).Accepted? <==> reply.Reply? && reply.status == 200 && reply.good
    ensures VerdictOf(reply).Rejected? <==>
              reply.Reply? && (reply.status == 403 || (reply.status == 200 && !reply.good))
  {
  }

  predicate Answers(a: Answer, x: Exchange) {
    match x
    case Login(sentAt, answeredAt, verdict) => answeredAt == sentAt + a.delay && verdict == VerdictOf(a.reply)
    case Send(_, reply) => reply == a.reply
  }

  /** The history is what the server answered, in order. */
  predicate AnsweredBy(trace: seq<Exchange>, server: nat -> Answer) {
    forall i :: 0 <= i < |trace| ==> Answers(server(i), trace[i])
  }

  // --- what is to hold of any history ------------------------------------------------

  /** No login is sent within five minutes of a rejected one. */
  predicate HoldsOff(trace: seq<Exchange>) {
    forall i, j :: 0 <= i < j < |trace| && trace[i].Login? && trace[i].verdict.Rejected? && trace[j].Login? ==>
      trace[i].answeredAt + LOGIN_BACKOFF <= trace[j].sentAt
  }

  /** Every rejection is either still being waited out, or five minutes old. */
  predicate RejectionsCovered(trace: seq<Exchange>, clock: int, authUntil: int) {
    forall i :: 0 <= i < |trace| && trace[i].Login? && trace[i].verdict.Rejected? ==>
      trace[i].answeredAt + LOGIN_BACKOFF <= authUntil || trace[i].answeredAt + LOGIN_BACKOFF <= clock
  }

  function Logins(trace: seq<Exchange>): nat {
    if trace == [] then 0 else (if trace[0].Login? then 1 else 0) + Logins(trace[1..])
  }

  function Sends(trace: seq<Exchange>): nat {
    if trace == [] then 0 else (if trace[0].Send? then 1 else 0) + Sends(trace[1..])
  }

  lemma {:induction false} CountsAppend(a: seq<Exchange>, b: seq<Exchange>)
    ensures Logins(a + b) == Logins(a) + Logins(b) && Sends(a + b) == Sends(a) + Sends(b)
  {
    if a == [] {
      assert a + b == b;
    } else {
      CountsAppend(a[1..], b);
      assert (a + b)[0] == a[0] && (a + b)[1..] == a[1..] + b;
    }
  }

  lemma Recorded(trace: seq<Exchange>, x: Exchange, server: nat -> Answer)
    requires AnsweredBy(trace, server) && Answers(server(|trace|), x)
    ensures AnsweredBy(trace + [x], server)
    ensures Logins(trace + [x]) == Logins(trace) + (if x.Login? then 1 else 0)
  {
    CountsAppend(trace, [x]);
  }

  lemma Extend(before: seq<Exchange>, added: seq<Exchange>, more: seq<Exchange>)
    ensures before + added + more == before + (added + more)
    ensures Logins(added + more) == Logins(added) + Logins(more) && Sends(added + more) == Sends(added) + Sends(more)
  {
    CountsAppend(added, more);
  }

  predicate Refused(x: Exchange, codes: set<int>) { x.Send? && x.reply.Reply? && x.reply.status in codes }

  /** A send is followed by another only if the server refused it. */
  predicate OnlyAfterRefusal(trace: seq<Exchange>, codes: set<int>) {
    forall i, j :: 0 <= i < j < |trace| && trace[i].Send? && trace[j].Send? ==> Refused(trace[i], codes)
  }

  predicate EndsWith(trace: seq<Exchange>, reply: Reply) {
    trace != [] && trace[|trace| - 1].Send? && trace[|trace| - 1].reply == reply
  }

  /** The last thing that happened is a send answered 200. */
  predicate EndsWell(trace: seq<Exchange>) {
    trace != [] && trace[|trace| - 1].Send? && trace[|trace| - 1].reply.Reply? && trace[|trace| - 1].reply.status == OK
  }

  /** The last thing that happened is a good answer to that request. */
  predicate EndsGood(trace: seq<Exchange>, path: string) {
    EndsWell(trace) && trace[|trace| - 1].path == path && trace[|trace| - 1].reply.good
  }

  /** The request was answered well somewhere. */
  predicate Answered(trace: seq<Exchange>, path: string) {
    exists i :: 0 <= i < |trace| && IsGood(trace[i], path)
  }

  predicate IsGood(x: Exchange, path: string) {
    x.Send? && x.path == path && x.reply.Reply? && x.reply.status == OK && x.reply.good
  }

  lemma AnsweredBefore(a: seq<Exchange>, b: seq<Exchange>, path: string)
    requires Answered(a, path) || EndsGood(a, path)
    ensures Answered(a, path) && Answered(a + b, path)
  {
    if EndsGood(a, path) {
      assert IsGood(a[|a| - 1], path);
    }
    var i :| 0 <= i < |a| && IsGood(a[i], path);
    assert IsGood((a + b)[i], path);
  }

  const VERSION := "/api/v2/app/version"
  const MAINDATA := "/api/v2/sync/maindata?rid=0"
  const TORRENTS := "/api/v2/torrents/info"

  /** The last thing that happened is a login that was not accepted, or a send that was not answered. */
  predicate EndsUnanswered(trace: seq<Exchange>) {
    trace != [] &&
    match trace[|trace| - 1]
    case Login(_, _, verdict) => !verdict.Accepted?
    case Send(_, reply) => reply.NoReply?
  }

  /** A login is sent only by a client that is not logged in: at the beginning, or since the server said 403. */
  predicate LoginsHaveACause(trace: seq<Exchange>, loggedIn: bool) {
    && (trace != [] && trace[0].Login? ==> !loggedIn)
    && forall i :: 0 < i < |trace| && trace[i].Login? ==> Refused(trace[i - 1], {FORBIDDEN})
  }

  predicate AllTo(trace: seq<Exchange>, paths: seq<string>) {
    forall i :: 0 <= i < |trace| && trace[i].Send? ==> trace[i].path in paths
  }

  // --- the client --------------------------------------------------------------------------

  datatype Action =
    Global(path: string, limit: Option<int>) | OnTorrents(paths: seq<string>, hashes: seq<string>) | Unknown

  function PathsOf(a: Action): seq<string> {
    match a
    case Global(path, _) => [path]
    case OnTorrents(paths, _) => paths
    case Unknown => []
  }

  /** What is wrong with an action before anything is sent. */
  function Fault(a: Action): Option<DoError> {
    match a
    case Global(_, limit) => if limit.Some? && limit.value < 0 then Some(BadLimit) else None
    case OnTorrents(_, hashes) => if hashes == [] then Some(NothingSelected) else None
    case Unknown => Some(UnknownAction)
  }

  datatype DoError = NotConfigured | Disabled | BadLimit | UnknownAction | NothingSelected | RequestFailed

  class Client {
    const username: string
    const configured: bool
    const allowActions: bool
    const server: nat -> Answer

    var clock: int
    var exchanges: nat
    var loggedIn: bool
    var versionKnown: bool
    var cached: Option<Snapshot>
    var authErr: bool
    var authUntil: int
    ghost var trace: seq<Exchange>
    ghost var lastAction: nat

    ghost predicate Valid()
      reads this
    {
      && exchanges == |trace| && 0 <= clock && lastAction <= |trace|
      && AnsweredBy(trace, server)
      && HoldsOff(trace) && RejectionsCovered(trace, clock, authUntil)
      && (username == "" ==> Logins(trace) == 0)
      && (clock < authUntil ==> authErr)
      && (cached.Some? ==> lastAction <= cached.value.since <= |trace| && cached.value.at <= clock)
    }

    constructor (username: string, configured: bool, allowActions: bool, server: nat -> Answer)
      ensures Valid() && trace == [] && cached.None?
      ensures this.username == username && this.configured == configured && this.allowActions == allowActions
    {
      this.username, this.configured, this.allowActions, this.server := username, configured, allowActions, server;
      clock, exchanges, loggedIn, versionKnown, cached, authErr, authUntil := 0, 0, false, false, None, false, 0;
      trace, lastAction := [], 0;
    }

    /** The client may not log in at present. */
    ghost predicate HeldOff()
      reads this
    {
      username != "" && !loggedIn && clock < authUntil
    }

    method Elapse(dt: nat)
      requires Valid()
      modifies this`clock
      ensures Valid() && clock == old(clock) + dt
    {
      clock := clock + dt;
    }

    /** Credentials go out only when no rejection is less than five minutes old; only a rejection starts a hold-off. */
    method SignIn() returns (ok: bool)
      requires Valid() && !loggedIn
      modifies this`clock, this`exchanges, this`loggedIn, this`authErr, this`authUntil, this`trace
      ensures Valid() && old(clock) <= clock && ok == loggedIn
      ensures username == "" ==> ok && trace == old(trace)
      ensures username != "" && old(clock < authUntil) ==>
                !ok && trace == old(trace) && clock == old(clock) && authUntil == old(authUntil)
      ensures username != "" && old(clock >= authUntil) ==>
                var v := VerdictOf(server(old(exchanges)).reply);
                && trace == old(trace) + [Login(old(clock), clock, v)] && (ok <==> v.Accepted?)
                && authUntil == (if v.Rejected? then clock + LOGIN_BACKOFF
                                 else if v.Accepted? then 0
                                 else old(authUntil))
    {
      if username == "" {
        loggedIn := true;
        return true;
      }
      if clock < authUntil {
        return !authErr;
      }
      var sentAt := clock;
      var answer := server(exchanges);
      exchanges, clock := exchanges + 1, clock + answer.delay;
      ghost var verdict := VerdictOf(answer.reply);
      ghost var login := Login(sentAt, clock, verdict);
      LoginIsAllowed(trace, login, authUntil);
      Recorded(trace, login, server);
      trace := trace + [login];
      if answer.reply.NoReply? {
        return false;
      }
      if answer.reply.status == FORBIDDEN {
        authErr, authUntil := true, clock + LOGIN_BACKOFF;
        return false;
      }
      if answer.reply.status != OK {
        return false;
      }
      if !answer.reply.good {
        authErr, authUntil := true, clock + LOGIN_BACKOFF;
        return false;
      }
      loggedIn := true;
      authErr, authUntil := false, 0;
      return true;
    }

    method SendOnce(path: string) returns (reply: Reply)
      requires Valid()
      modifies this`clock, this`exchanges, this`trace
      ensures Valid() && old(clock) <= clock && trace == old(trace) + [Send(path, reply)]
    {
      var answer := server(exchanges);
      exchanges, clock := exchanges + 1, clock + answer.delay;
      reply := answer.reply;
      Recorded(trace, Send(path, reply), server);
      trace := trace + [Send(path, reply)];
    }

    /** One attempt: log in if that is not done, then send. */
    method Attempt(path: string) returns (reply: Reply, ghost added: seq<Exchange>)
      requires Valid()
      modifies this`clock, this`exchanges, this`loggedIn, this`authErr, this`authUntil, this`trace
      ensures Valid() && old(clock) <= clock && trace == old(trace) + added && IsAttempt(added, path, reply)
      ensures LoginsHaveACause(added, old(loggedIn)) && (reply.Reply? ==> loggedIn)
      ensures reply.NoReply? ==> EndsUnanswered(added) || (added == [] && HeldOff() && !old(loggedIn))
    {
      added := [];
      if !loggedIn {
        var ok := SignIn();
        added := trace[|old(trace)|..];
        assert trace == old(trace) + added;
        if !ok {
          return NoReply, added;
        }
      }
      reply := SendOnce(path);
      assert old(trace) + added + [Send(path, reply)] == old(trace) + (added + [Send(path, reply)]);
      added := added + [Send(path, reply)];
    }

    /** One request: see IsRequest. */
    method Request(path: string) returns (reply: Reply, ghost added: seq<Exchange>)
      requires Valid()
      modifies this`clock, this`exchanges, this`loggedIn, this`authErr, this`authUntil, this`trace
      ensures Valid() && old(clock) <= clock && trace == old(trace) + added
      ensures IsRequest(added, path, reply, old(loggedIn), HeldOff()) && (reply.Reply? ==> loggedIn)
    {
      reply, added := Attempt(path);
      if reply.NoReply? || reply.status != FORBIDDEN {
        AttemptCounts(added, path, reply);
        return;
      }
      loggedIn := false;
      ghost var first, refusal := added, reply;
      reply, added := Attempt(path);
      TwoAttempts(first, added, path, refusal, reply, old(loggedIn), HeldOff());
      assert old(trace) + first + added == old(trace) + (first + added);
      added := first + added;
    }

    /** One GET whose answer must be 200 and decodable. */
    method Get(path: string) returns (reply: Option<Reply>, ghost added: seq<Exchange>)
      requires Valid()
      modifies this`clock, this`exchanges, this`loggedIn, this`authErr, this`authUntil, this`trace
      ensures Valid() && old(clock) <= clock && trace == old(trace) + added && Logins(added) <= 2 && Sends(added) <= 2
      ensures reply.Some? ==> reply.value.Reply? && reply.value.status == OK && EndsWith(added, reply.value)
      ensures (reply.Some? <==> EndsGood(added, path)) && AllTo(added, [path])
      ensures reply.Some? ==> loggedIn
      ensures added == [] ==> HeldOff()
    {
      var got: Reply;
      got, added := Request(path);
      return if got.Reply? && got.status == OK && got.good then Some(got) else None, added;
    }

    /** The version, unless it is known. */
    method FetchVersion() returns (ok: bool, ghost added: seq<Exchange>)
      requires Valid()
      modifies this`clock, this`exchanges, this`loggedIn, this`authErr, this`authUntil, this`trace, this`versionKnown
      ensures Valid() && old(clock) <= clock && trace == old(trace) + added && Logins(added) <= 2 && Sends(added) <= 2
      ensures old(versionKnown) ==> ok && added == [] && versionKnown
      ensures AllTo(added, [VERSION])
      ensures !old(versionKnown) ==> (ok <==> EndsGood(added, VERSION)) && (added == [] ==> HeldOff())
      ensures !old(versionKnown) ==> (versionKnown <==> ok && !added[|added| - 1].reply.blank) && (ok ==> loggedIn)
    {
      added := [];
      if versionKnown {
        return true, added;
      }
      var reply: Option<Reply>;
      reply, added := Get(VERSION);
      if reply.None? {
        return false, added;
      }
      versionKnown := !reply.value.blank;
      return true, added;
    }

    /** The version once, then the session and the torrents; the first failure ends it. */
    method Fetch() returns (ok: bool, ghost added: seq<Exchange>)
      requires Valid()
      modifies this`clock, this`exchanges, this`loggedIn, this`authErr, this`authUntil, this`trace, this`versionKnown
      ensures Valid() && old(clock) <= clock && trace == old(trace) + added && Logins(added) <= 6 && Sends(added) <= 6
      ensures ok <==> EndsGood(added, TORRENTS)
      ensures ok ==> Answered(added, MAINDATA) && (!old(versionKnown) ==> Answered(added, VERSION))
      ensures added == [] ==> HeldOff()
    {
      ghost var more: seq<Exchange>;
      ok, added := FetchVersion();
      PathsDiffer();
      if !ok {
        return false, added;
      }
      ok, more := FetchSession();
      FetchEnds(added, more);
      Extend(old(trace), added, more);
      added := added + more;
    }

    /** The session and then the torrents. */
    method FetchSession() returns (ok: bool, ghost added: seq<Exchange>)
      requires Valid()
      modifies this`clock, this`exchanges, this`loggedIn, this`authErr, this`authUntil, this`trace
      ensures Valid() && old(clock) <= clock && trace == old(trace) + added && Logins(added) <= 4 && Sends(added) <= 4
      ensures ok <==> EndsGood(added, TORRENTS)
      ensures ok ==> Answered(added, MAINDATA)
      ensures added == [] ==> HeldOff()
    {
      var reply: Option<Reply>;
      ghost var more: seq<Exchange>;
      PathsDiffer();
      reply, added := Get(MAINDATA);
      if reply.None? {
        return false, added;
      }
      ghost var session := added;
      reply, more := Get(TORRENTS);
      AnsweredBefore(session, more, MAINDATA);
      FetchEnds(session, more);
      Extend(old(trace), added, more);
      added := added + more;
      ok := reply.Some?;
    }

    /**
     A snapshot never predates the last action: it is the cached one while that
     is young enough, and otherwise made of the exchanges of this call.
     */
    method Status() returns (st: Option<Snapshot>)
      requires Valid()
      modifies this
      ensures Valid() && lastAction == old(lastAction) && old(trace) <= trace
      ensures st.None? <==> !configured
      ensures st.Some? ==> lastAction <= st.value.since
      ensures st.Some? ==>
                if old(cached.Some?
                       && clock - cached.value.at < (if cached.value.reachable then CACHE_TTL else ERR_TTL))
                then st == old(cached) && trace == old(trace) && clock == old(clock)
                else st.value.since == |old(trace)| && st.value.at == clock && cached == st
                     && (st.value.reachable <==> EndsGood(trace[|old(trace)|..], TORRENTS))
                     && (st.value.reachable ==> Answered(trace[|old(trace)|..], MAINDATA))
      ensures var added := trace[|old(trace)|..]; Logins(added) <= 6 && Sends(added) <= 6
    {
      if !configured {
        return None;
      }
      var ttl := CACHE_TTL;
      if cached.Some? && !cached.value.reachable {
        ttl := ERR_TTL;
      }
      if cached.Some? && clock - cached.value.at < ttl {
        return cached;
      }
      ghost var since := |trace|;
      var from := exchanges;
      var ok, added := Fetch();
      assert trace[|old(trace)|..] == added;
      cached := Some(Snapshot(ok, from, clock));
      return cached;
    }

    method Files(hash: string) returns (ok: bool)
      requires Valid()
      modifies this`clock, this`exchanges, this`loggedIn, this`authErr, this`authUntil, this`trace
      ensures Valid() && old(trace) <= trace && (!configured ==> !ok && trace == old(trace))
      ensures var added := trace[|old(trace)|..]; Logins(added) <= 2 && Sends(added) <= 2
      ensures ok <==> EndsGood(trace[|old(trace)|..], "/api/v2/torrents/files?hash=" + hash)
      ensures configured && trace == old(trace) ==> HeldOff()
    {
      if !configured {
        return false;
      }
      var reply, added := Get("/api/v2/torrents/files?hash=" + hash);
      assert trace[|old(trace)|..] == added;
      return reply.Some?;
    }

    /**
     An action is sent again only after a 403 or a 404, so it takes effect at
     most once; success means the last send was answered 200. The cache is
     dropped whatever happened, unless the call was turned away at the door.
     */
    method Do(a: Action) returns (r: Result<(), DoError>)
      requires Valid()
      modifies this
      ensures Valid() && old(trace) <= trace
      ensures !configured || !allowActions ==> r.Err? && trace == old(trace) && cached == old(cached)
      ensures configured && allowActions ==> cached.None? && lastAction == |trace|
      ensures var added := trace[|old(trace)|..];
              && OnlyAfterRefusal(added, {FORBIDDEN, NOT_FOUND})
              && AllTo(added, PathsOf(a))
              && (EndsMissing(added) ==> added[|added| - 1].path == PathsOf(a)[|PathsOf(a)| - 1])
              && r == if !configured then Err(NotConfigured)
                      else if !allowActions then Err(Disabled)
                      else if Fault(a).Some? then Err(Fault(a).value)
                      else if EndsWell(added) then Ok(())
                      else Err(RequestFailed)
      ensures Fault(a).Some? ==> trace == old(trace)
      ensures configured && allowActions && Fault(a).None? && PathsOf(a) != [] && trace == old(trace) ==> HeldOff()
    {
      if !configured {
        return Err(NotConfigured);
      }
      if !allowActions {
        return Err(Disabled);
      }
      ghost var added: seq<Exchange>;
      r, added := Perform(a);
      assert trace[|old(trace)|..] == added;
      cached, lastAction := None, |trace|;
    }

    method Perform(a: Action) returns (r: Result<(), DoError>, ghost added: seq<Exchange>)
      requires Valid()
      modifies this`clock, this`exchanges, this`loggedIn, this`authErr, this`authUntil, this`trace
      ensures Valid() && trace == old(trace) + added
      ensures OnlyAfterRefusal(added, {FORBIDDEN, NOT_FOUND}) && AllTo(added, PathsOf(a))
      ensures Fault(a).Some? ==> r == Err(Fault(a).value) && added == []
      ensures Fault(a).None? ==> r == (if EndsWell(added) then Ok(()) else Err(RequestFailed))
      ensures Fault(a).None? && added == [] && PathsOf(a) != [] ==> HeldOff()
      ensures EndsMissing(added) ==> added[|added| - 1].path == PathsOf(a)[|PathsOf(a)| - 1]
    {
      added := [];
      match a {
        case Global(path, limit) =>
          if limit.Some? && limit.value < 0 {
            return Err(BadLimit), added;
          }
          var reply: Reply;
          reply, added := Request(path);
          return if reply.Reply? && reply.status == OK then Ok(()) else Err(RequestFailed), added;
        case Unknown =>
          return Err(UnknownAction), added;
        case OnTorrents(paths, hashes) =>
          if hashes == [] {
            return Err(NothingSelected), added;
          }
          var ok: bool;
          ok, added := TryPaths(paths);
          return if ok then Ok(()) else Err(RequestFailed), added;
      }
    }

    /** The modern endpoint first, the legacy one only if the former does not exist. */
    method TryPaths(paths: seq<string>) returns (ok: bool, ghost added: seq<Exchange>)
      requires Valid()
      modifies this`clock, this`exchanges, this`loggedIn, this`authErr, this`authUntil, this`trace
      ensures Valid() && old(clock) <= clock && trace == old(trace) + added
      ensures OnlyAfterRefusal(added, {FORBIDDEN, NOT_FOUND}) && AllTo(added, paths)
      ensures Logins(added) <= 2 * |paths| && Sends(added) <= 2 * |paths|
      ensures ok <==> EndsWell(added)
      ensures paths != [] && added == [] ==> HeldOff()
      ensures paths != [] && EndsMissing(added) ==> added[|added| - 1].path == paths[|paths| - 1]
    {
      ok, added := false, [];
      for i := 0 to |paths|
        invariant Valid() && old(clock) <= clock && trace == old(trace) + added && !ok
        invariant AllRefused(added, {FORBIDDEN, NOT_FOUND}) && AllTo(added, paths)
        invariant Logins(added) <= 2 * i && Sends(added) <= 2 * i
        invariant if i == 0 then added == [] else i < |paths| && EndsMissing(added) && loggedIn
      {
        var reply, more := Request(paths[i]);
        RefusedThen(added, more, paths, i, reply);
        LastOfThisPath(added, more, paths[i], reply);
        Extend(old(trace), added, more);
        added := added + more;
        ok := reply.Reply? && reply.status == OK;
        if ok || reply.NoReply? || reply.status != NOT_FOUND || i == |paths| - 1 {
          return;
        }
      }
    }
  }

  datatype Call = Pause(dt: nat) | GetStatus | GetFiles(hash: string) | Act(action: Action)

  /** A poll as history: the snapshot it returned, and how many exchanges the last action before it had seen. */
  datatype Poll = Poll(snapshot: Snapshot, lastAction: nat)

  /**
   Any calls in any order against any server: no login within five minutes of
   a rejected one, none at all without a user name, and no poll returns
   anything that was fetched before the last action.
   */
  method Serve(username: string, configured: bool, allowActions: bool, server: nat -> Answer, calls: seq<Call>)
    returns (client: Client, ghost polls: seq<Poll>)
    ensures HoldsOff(client.trace) && (username == "" ==> Logins(client.trace) == 0)
    ensures forall i :: 0 <= i < |polls| ==> polls[i].lastAction <= polls[i].snapshot.since
  {
    client := new Client(username, configured, allowActions, server);
    polls := [];
    for i := 0 to |calls|
      invariant fresh(client) && client.Valid() && client.username == username
      invariant forall j :: 0 <= j < |polls| ==> polls[j].lastAction <= polls[j].snapshot.since
    {
      match calls[i] {
        case Pause(dt) => client.Elapse(dt);
        case GetStatus =>
          var st := client.Status();
          if st.Some? {
            polls := polls + [Poll(st.value, client.lastAction)];
          }
        case GetFiles(hash) =>
          var ok := client.Files(hash);
        case Act(action) =>
          var r := client.Do(action);
      }
    }
  }

  predicate AllRefused(trace: seq<Exchange>, codes: set<int>) {
    forall i :: 0 <= i < |trace| && trace[i].Send? ==> Refused(trace[i], codes)
  }

  lemma RefusedThen(before: seq<Exchange>, more: seq<Exchange>, paths: seq<string>, i: nat, reply: Reply)
    requires i < |paths| && AllRefused(before, {FORBIDDEN, NOT_FOUND}) && AllTo(before, paths)
    requires AllTo(more, [paths[i]]) && OnlyAfterRefusal(more, {FORBIDDEN})
    requires reply.Reply? ==> EndsWith(more, reply)
    ensures OnlyAfterRefusal(before + more, {FORBIDDEN, NOT_FOUND}) && AllTo(before + more, paths)
    ensures reply.Reply? && reply.status == NOT_FOUND ==> AllRefused(before + more, {FORBIDDEN, NOT_FOUND})
  {
  }

  /** The last thing that happened is a send answered 404. */
  predicate EndsMissing(trace: seq<Exchange>) {
    trace != [] && Refused(trace[|trace| - 1], {NOT_FOUND})
  }

  /** Whether the torrents were fetched shows in the end, as nothing before is a good answer to that. */
  lemma FetchEnds(before: seq<Exchange>, more: seq<Exchange>)
    requires before == [] || !EndsGood(before, TORRENTS)
    ensures EndsGood(before + more, TORRENTS) <==> EndsGood(more, TORRENTS)
    ensures EndsGood(before, VERSION) ==> Answered(before + more, VERSION)
    ensures Answered(more, MAINDATA) ==> Answered(before + more, MAINDATA)
  {
    if more == [] {
      assert before + more == before;
    } else {
      assert (before + more)[|before + more| - 1] == more[|more| - 1];
    }
    if EndsGood(before, VERSION) {
      AnsweredBefore(before, more, VERSION);
    }
    if Answered(more, MAINDATA) {
      var i :| 0 <= i < |more| && IsGood(more[i], MAINDATA);
      assert IsGood((before + more)[|before| + i], MAINDATA);
    }
  }

  lemma PathsDiffer()
    ensures VERSION != TORRENTS && MAINDATA != TORRENTS && VERSION != MAINDATA
  {
    assert VERSION[8] == 'a' && MAINDATA[8] == 's' && TORRENTS[8] == 't';
  }

  /** After a request the last thing that happened is of that request. */
  lemma LastOfThisPath(before: seq<Exchange>, more: seq<Exchange>, path: string, reply: Reply)
    requires AllTo(more, [path]) && (reply.Reply? ==> EndsWith(more, reply))
    requires reply.NoReply? ==> more == [] || EndsUnanswered(more) || Refused(more[|more| - 1], {FORBIDDEN})
    ensures more != [] && EndsMissing(before + more) ==>
              reply.Reply? && reply.status == NOT_FOUND && (before + more)[|before + more| - 1].path == path
    ensures reply.Reply? && reply.status == NOT_FOUND ==> EndsMissing(before + more)
    ensures more != [] ==> (EndsWell(before + more) <==> reply.Reply? && reply.status == OK)
  {
    if more != [] {
      assert (before + more)[|before + more| - 1] == more[|more| - 1];
    }
  }

  predicate AtMostOneLogin(added: seq<Exchange>) { added == [] || (|added| == 1 && added[0].Login?) }

  lemma LoginComesFirst(added: seq<Exchange>, path: string, reply: Reply, i: nat)
    requires IsAttempt(added, path, reply) && i < |added| && added[i].Login?
    ensures i == 0
  {
    if i < |added| - 1 {
      assert added[..|added| - 1][i] == added[i];
    }
  }

  lemma CausesChain(
    first: seq<Exchange>, second: seq<Exchange>, path: string, refusal: Reply, reply: Reply, loggedIn: bool)
    requires refusal.Reply? && refusal.status == FORBIDDEN
    requires IsAttempt(first, path, refusal) && IsAttempt(second, path, reply)
    requires LoginsHaveACause(first, loggedIn) && LoginsHaveACause(second, false)
    ensures LoginsHaveACause(first + second, loggedIn)
  {
    var both := first + second;
    assert Refused(first[|first| - 1], {FORBIDDEN});
    forall i | 0 < i < |both| && both[i].Login? ensures Refused(both[i - 1], {FORBIDDEN}) {
      if i < |first| {
        LoginComesFirst(first, path, refusal, i);
      } else {
        LoginComesFirst(second, path, reply, i - |first|);
        assert both[i - 1] == first[|first| - 1];
      }
    }
  }

  /** At most one login, and then, unless it failed, the send. */
  predicate IsAttempt(added: seq<Exchange>, path: string, reply: Reply) {
    (reply.NoReply? && AtMostOneLogin(added)) ||
    (added != [] && added[|added| - 1] == Send(path, reply) && AtMostOneLogin(added[..|added| - 1]))
  }

  lemma AttemptCounts(added: seq<Exchange>, path: string, reply: Reply)
    requires IsAttempt(added, path, reply)
    ensures Logins(added) <= 1 && Sends(added) <= 1 && AllTo(added, [path]) && OnlyAfterRefusal(added, {FORBIDDEN})
    ensures reply.Reply? ==> EndsWith(added, reply) && Sends(added) == 1
  {
    if !(reply.NoReply? && AtMostOneLogin(added)) {
      var login := added[..|added| - 1];
      LoginThenSend(login, Send(path, reply));
      assert added == login + [Send(path, reply)];
    }
  }

  lemma LoginThenSend(login: seq<Exchange>, send: Exchange)
    requires AtMostOneLogin(login) && send.Send?
    ensures Logins(login + [send]) <= 1 && Sends(login + [send]) == 1
  {
    CountsAppend(login, [send]);
    if login != [] {
      assert login[1..] == [];
    }
    assert [send][1..] == [];
  }

  /**
   At most two logins and two sends, the second send only after a 403, and each
   login because there was none or the server said 403. A 403 is given back only
   after two sends; and there is no answer only if the last login or send failed,
   or logging in, at the beginning or after a 403, must wait.
   */
  predicate IsRequest(added: seq<Exchange>, path: string, reply: Reply, wasLoggedIn: bool, heldOff: bool) {
    && Logins(added) <= 2 && Sends(added) <= 2 && AllTo(added, [path]) && OnlyAfterRefusal(added, {FORBIDDEN})
    && LoginsHaveACause(added, wasLoggedIn)
    && (reply.Reply? ==> EndsWith(added, reply))
    && (reply.Reply? && reply.status == FORBIDDEN ==> Sends(added) == 2)
    && (reply.NoReply? ==> EndsUnanswered(added) || (heldOff && (added == [] || EndsRefused(added))))
    && (added == [] ==> heldOff && !wasLoggedIn)
  }

  /** The last thing that happened is a send answered 403. */
  predicate EndsRefused(trace: seq<Exchange>) { trace != [] && Refused(trace[|trace| - 1], {FORBIDDEN}) }

  lemma TwoAttempts(
    first: seq<Exchange>, second: seq<Exchange>, path: string, refusal: Reply, reply: Reply,
    wasLoggedIn: bool, heldOff: bool)
    requires refusal.Reply? && refusal.status == FORBIDDEN
    requires IsAttempt(first, path, refusal) && IsAttempt(second, path, reply)
    requires LoginsHaveACause(first, wasLoggedIn) && LoginsHaveACause(second, false)
    requires reply.NoReply? ==> EndsUnanswered(second) || (second == [] && heldOff)
    ensures IsRequest(first + second, path, reply, wasLoggedIn, heldOff)
  {
    AttemptCounts(first, path, refusal);
    AttemptCounts(second, path, reply);
    CountsAppend(first, second);
    CausesChain(first, second, path, refusal, reply, wasLoggedIn);
    if second != [] {
      assert (first + second)[|first + second| - 1] == second[|second| - 1];
    } else {
      assert first + second == first;
    }
  }

  lemma LoginIsAllowed(trace: seq<Exchange>, login: Exchange, authUntil: int)
    requires HoldsOff(trace) && login.Login? && login.sentAt <= login.answeredAt && authUntil <= login.sentAt
    requires RejectionsCovered(trace, login.sentAt, authUntil)
    ensures HoldsOff(trace + [login])
    ensures login.verdict.Rejected? ==>
              RejectionsCovered(trace + [login], login.answeredAt, login.answeredAt + LOGIN_BACKOFF)
    ensures !login.verdict.Rejected? ==> forall until :: RejectionsCovered(trace + [login], login.answeredAt, until)
  {
  }
}
