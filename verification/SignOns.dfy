/**
 Request counting across worker processes. Each worker counts requests in its own memory and adds them to the
 stored count of the sign-on at most once a minute or at sign-out; a worker that restarts forgets its own.
 */
module SignOns {
  import opened Common

  const TOUCH_INTERVAL := 60
  const IDLE_EXPIRY := 8 * 3600

  datatype Session = Session(lastSeen: int, endedAt: Option<int>, endReason: string, requestCount: nat)

  /** Counts by sign-on; a sign-on that is not there counts zero. */
  type Counts = map<nat, nat>

  function At(counts: Counts, id: nat): nat {
    if id in counts then counts[id] else 0
  }

  /** `lost` and `touches` are what an observer of every worker would have counted. */
  datatype State = State(sessions: map<nat, Session>, pending: seq<Counts>, lost: Counts, touches: Counts)

  function Start(workers: nat): (s: State)
    ensures |s.pending| == workers && forall w | 0 <= w < workers :: s.pending[w] == map[]
  {
    State(map[], seq(workers, _ => map[]), map[], map[])
  }

  /** `seen` is the sign-on's last-seen time as this worker loaded it, which may be out of date. */
  datatype Step =
    | NoteRequest(worker: nat, id: nat, now: int, seen: int, saved: bool)
    | SignOut(worker: nat, id: nat, now: int, reason: string, saved: bool)
    | ExpireIdle(now: int)
    | Restart(worker: nat)

  function Add(counts: Counts, id: nat, n: nat): Counts {
    counts[id := At(counts, id) + n]
  }

  function AddAll(a: Counts, b: Counts): (sum: Counts)
    ensures forall id :: At(sum, id) == At(a, id) + At(b, id)
  {
    map id | id in a.Keys + b.Keys :: At(a, id) + At(b, id)
  }

  /** The sign-on a request belongs to: opened at the first one, reopened after it ended. */
  function OpenOrResume(sessions: map<nat, Session>, id: nat, now: int): map<nat, Session> {
    if id !in sessions then sessions[id := Session(now, None, "", 0)]
    else if sessions[id].endedAt.Some? then sessions[id := sessions[id].(endedAt := None, endReason := "")]
    else sessions
  }

  function Touch(s: State, worker: nat, id: nat, now: int, seen: int, saved: bool): State
    requires worker < |s.pending| && id in s.sessions
  {
    var touched := s.(touches := Add(s.touches, id, 1));
    if now - seen < TOUCH_INTERVAL then
      touched.(pending := s.pending[worker := Add(s.pending[worker], id, 1)])
    else
      var session, counted := s.sessions[id], At(s.pending[worker], id) + 1;
      var popped := touched.(pending := s.pending[worker := s.pending[worker] - {id}]);
      if saved then
        popped.(sessions := s.sessions[id := session.(lastSeen := now, requestCount := session.requestCount + counted)])
      else popped.(lost := Add(s.lost, id, counted))
  }

  predicate Idle(session: Session, now: int) {
    session.endedAt == None && session.lastSeen < now - IDLE_EXPIRY
  }

  function Expired(session: Session): Session {
    session.(endedAt := Some(session.lastSeen), endReason := "expired")
  }

  function ExpireAll(sessions: map<nat, Session>, now: int): map<nat, Session> {
    map id | id in sessions :: if Idle(sessions[id], now) then Expired(sessions[id]) else sessions[id]
  }

  function Next(s: State, step: Step): State {
    match step
    case NoteRequest(worker, id, now, seen, saved) =>
      if worker >= |s.pending| then s
      else
        var joined := OpenOrResume(s.sessions, id, now);
        Touch(s.(sessions := joined), worker, id, now, if id in s.sessions then seen else now, saved)
    case SignOut(worker, id, now, reason, saved) =>
      if worker >= |s.pending| || id !in s.sessions || s.sessions[id].endedAt.Some? then s
      else
        var session, counted := s.sessions[id], At(s.pending[worker], id);
        var popped := s.(pending := s.pending[worker := s.pending[worker] - {id}]);
        if saved then
          popped.(sessions := s.sessions[id := session.(endedAt := Some(now), endReason := reason,
                                                        requestCount := session.requestCount + counted)])
        else popped.(lost := Add(s.lost, id, counted))
    case ExpireIdle(now) => s.(sessions := ExpireAll(s.sessions, now))
    case Restart(worker) =>
      if worker >= |s.pending| then s
      else s.(pending := s.pending[worker := map[]], lost := AddAll(s.lost, s.pending[worker]))
  }

  function Run(s: State, steps: seq<Step>): State
    decreases |steps|
  {
    if steps == [] then s else Run(Next(s, steps[0]), steps[1..])
  }

  // ---- A request on its columns -----------------------------------------------------------------

  /**
   A request is counted in its worker's memory for up to a minute after the sign-on was last seen; after that the worker
   adds all it holds for the sign-on to the record, or loses it if the write fails. A sign-on that is new, or had ended,
   is open afterwards.
   */
  lemma RequestByColumns(s: State, worker: nat, id: nat, now: int, seen: int, saved: bool)
    requires worker < |s.pending|
    ensures var after := Next(s, NoteRequest(worker, id, now, seen, saved));
            var held := At(s.pending[worker], id) + 1;
            var was := if id in s.sessions then s.sessions[id] else Session(now, None, "", 0);
            && id in after.sessions && after.sessions[id].endedAt == None
            && after.sessions[id].endReason == (if was.endedAt == None then was.endReason else "")
            && At(after.touches, id) == At(s.touches, id) + 1
            && (id !in s.sessions || now - seen < 60 ==>
                  && At(after.pending[worker], id) == held
                  && after.sessions[id].lastSeen == was.lastSeen && after.sessions[id].requestCount == was.requestCount
                  && At(after.lost, id) == At(s.lost, id))
            && (id in s.sessions && now - seen >= 60 ==>
                  && At(after.pending[worker], id) == 0
                  && (saved ==> after.sessions[id].lastSeen == now
                                && after.sessions[id].requestCount == was.requestCount + held
                                && At(after.lost, id) == At(s.lost, id))
                  && (!saved ==> after.sessions[id].lastSeen == was.lastSeen
                                 && after.sessions[id].requestCount == was.requestCount
                                 && At(after.lost, id) == At(s.lost, id) + held))
            && |after.pending| == |s.pending|
            && (forall w | 0 <= w < |s.pending| && w != worker :: after.pending[w] == s.pending[w])
            && forall other | other != id ::
                 && At(after.pending[worker], other) == At(s.pending[worker], other)
                 && (other in after.sessions <==> other in s.sessions)
                 && (other in s.sessions ==> after.sessions[other] == s.sessions[other])
  {
  }

  // ---- The workers and their store ----------------------------------------------------------------

  class Platform {
    var sessions: map<nat, Session>
    var pending: seq<Counts>
    ghost var lost: Counts
    ghost var touches: Counts

    ghost function Contents(): State reads this { State(sessions, pending, lost, touches) }

    constructor (workers: nat)
      ensures Contents() == Start(workers)
    {
      sessions, pending, lost, touches := map[], Start(workers).pending, map[], map[];
    }

    method Note(worker: nat, id: nat, now: int, loaded: int, saved: bool)
      requires worker < |pending|
      modifies this
      ensures Contents() == Next(old(Contents()), NoteRequest(worker, id, now, loaded, saved))
    {
      var seen := loaded;
      if id !in sessions {
        sessions := sessions[id := Session(now, None, "", 0)];
        seen := now;
      } else if sessions[id].endedAt.Some? {
        sessions := sessions[id := sessions[id].(endedAt := None, endReason := "")];
      }
      pending := pending[worker := Add(pending[worker], id, 1)];
      touches := Add(touches, id, 1);
      if now - seen >= TOUCH_INTERVAL {
        var counted := At(pending[worker], id);
        ghost var before := old(pending)[worker];
        assert Add(before, id, 1) - {id} == before - {id};
        pending := pending[worker := pending[worker] - {id}];
        if saved {
          var session := sessions[id];
          sessions := sessions[id := session.(lastSeen := now, requestCount := session.requestCount + counted)];
        } else {
          lost := Add(lost, id, counted);
        }
      }
    }

    method EndSession(worker: nat, id: nat, now: int, reason: string, saved: bool) returns (closed: bool)
      requires worker < |pending|
      modifies this
      ensures Contents() == Next(old(Contents()), SignOut(worker, id, now, reason, saved))
      ensures closed <==> saved && id in old(sessions) && old(sessions)[id].endedAt == None
    {
      if id !in sessions || sessions[id].endedAt.Some? {
        return false;
      }
      var counted := At(pending[worker], id);
      pending := pending[worker := pending[worker] - {id}];
      if !saved {
        lost := Add(lost, id, counted);
        return false;
      }
      var session := sessions[id];
      sessions := sessions[id := session.(endedAt := Some(now), endReason := reason,
                                          requestCount := session.requestCount + counted)];
      closed := true;
    }

    method Expire(now: int) returns (closed: nat)
      modifies this`sessions
      ensures Contents() == Next(old(Contents()), Step.ExpireIdle(now))
      ensures closed == |set id | id in old(sessions) && Idle(old(sessions)[id], now)|
      ensures sessions.Keys == old(sessions.Keys)
      ensures forall id | id in old(sessions) ::
                var was := old(sessions)[id];
                sessions[id] == if was.endedAt == None && was.lastSeen < now - 28800
                                then Session(was.lastSeen, Some(was.lastSeen), "expired", was.requestCount) else was
    {
      ghost var was := sessions;
      ghost var expired: set<nat> := {};
      var todo := sessions.Keys;
      closed := 0;
      while todo != {}
        invariant todo <= was.Keys == sessions.Keys
        invariant forall id | id in was ::
                    sessions[id] == if id !in todo && Idle(was[id], now) then Expired(was[id]) else was[id]
        invariant expired == set id | id in was && id !in todo && Idle(was[id], now)
        invariant closed == |expired|
        decreases todo
      {
        var id :| id in todo;
        todo := todo - {id};
        if Idle(sessions[id], now) {
          sessions := sessions[id := Expired(sessions[id])];
          closed := closed + 1;
          expired := expired + {id};
        }
      }
      assert expired == set id | id in was && Idle(was[id], now);
      assert sessions == ExpireAll(was, now);
    }

    method RestartWorker(worker: nat)
      requires worker < |pending|
      modifies this
      ensures Contents() == Next(old(Contents()), Step.Restart(worker))
    {
      lost := AddAll(lost, pending[worker]);
      pending := pending[worker := map[]];
    }
  }

  // ---- Conservation -----------------------------------------------------------------------------

  function Stored(s: State, id: nat): nat {
    if id in s.sessions then s.sessions[id].requestCount else 0
  }

  /** What all workers together still hold for a sign-on. */
  function Unflushed(pending: seq<Counts>, id: nat): nat {
    if pending == [] then 0 else Unflushed(pending[..|pending| - 1], id) + At(pending[|pending| - 1], id)
  }

  ghost predicate Conserved(s: State, id: nat) {
    Stored(s, id) + Unflushed(s.pending, id) + At(s.lost, id) == At(s.touches, id)
  }

  lemma {:induction false} UnflushedUpdate(pending: seq<Counts>, worker: nat, counts: Counts, id: nat)
    requires worker < |pending|
    ensures Unflushed(pending[worker := counts], id) == Unflushed(pending, id) - At(pending[worker], id) + At(counts, id)
  {
    var n := |pending| - 1;
    var updated := pending[worker := counts];
    if worker < n {
      assert updated[..n] == pending[..n][worker := counts];
      UnflushedUpdate(pending[..n], worker, counts, id);
    } else {
      assert updated[..n] == pending[..n];
    }
  }

  lemma TouchConserves(s: State, worker: nat, id: nat, now: int, seen: int, saved: bool, other: nat)
    requires worker < |s.pending| && id in s.sessions && Conserved(s, other)
    ensures Conserved(Touch(s, worker, id, now, seen, saved), other)
  {
    var held := s.pending[worker];
    UnflushedUpdate(s.pending, worker, if now - seen < TOUCH_INTERVAL then Add(held, id, 1) else held - {id}, other);
  }

  lemma NoteConserves(s: State, worker: nat, id: nat, now: int, seen: int, saved: bool, other: nat)
    requires Conserved(s, other)
    ensures Conserved(Next(s, NoteRequest(worker, id, now, seen, saved)), other)
  {
    if worker < |s.pending| {
      var joined := s.(sessions := OpenOrResume(s.sessions, id, now));
      assert Conserved(joined, other);
      TouchConserves(joined, worker, id, now, if id in s.sessions then seen else now, saved, other);
    }
  }

  lemma SignOutConserves(s: State, worker: nat, id: nat, now: int, reason: string, saved: bool, other: nat)
    requires Conserved(s, other)
    ensures Conserved(Next(s, SignOut(worker, id, now, reason, saved)), other)
  {
    if worker < |s.pending| {
      UnflushedUpdate(s.pending, worker, s.pending[worker] - {id}, other);
    }
  }

  lemma StepConserves(s: State, step: Step, id: nat)
    requires Conserved(s, id)
    ensures Conserved(Next(s, step), id)
  {
    match step
    case NoteRequest(worker, touched, now, seen, saved) => NoteConserves(s, worker, touched, now, seen, saved, id);
    case SignOut(worker, closed, now, reason, saved) => SignOutConserves(s, worker, closed, now, reason, saved, id);
    case ExpireIdle(now) =>
    case Restart(worker) =>
      if worker < |s.pending| {
        UnflushedUpdate(s.pending, worker, map[], id);
      }
  }

  /** Touching, flushing, signing out, resuming, expiring and restarting in any order keep the account. */
  lemma {:induction false} EveryRunConserves(s: State, steps: seq<Step>, id: nat)
    requires Conserved(s, id)
    ensures Conserved(Run(s, steps), id)
    decreases |steps|
  {
    if steps != [] {
      StepConserves(s, steps[0], id);
      EveryRunConserves(Next(s, steps[0]), steps[1..], id);
    }
  }

  lemma {:induction false} NothingPending(pending: seq<Counts>, id: nat)
    requires forall w | 0 <= w < |pending| :: pending[w] == map[]
    ensures Unflushed(pending, id) == 0
  {
    if pending != [] {
      NothingPending(pending[..|pending| - 1], id);
    }
  }

  /** From the first request on, for any number of workers: stored, pending and lost make up the touches made. */
  lemma TouchesAreAccountedFor(workers: nat, steps: seq<Step>, id: nat)
    ensures Conserved(Run(Start(workers), steps), id)
  {
    NothingPending(Start(workers).pending, id);
    EveryRunConserves(Start(workers), steps, id);
  }

  /** The record a sign-out closes shows every request exactly when no other worker holds any and none was lost. */
  lemma ClosedRecordIsCompleteIff(s: State, worker: nat, id: nat, now: int, reason: string)
    requires Conserved(s, id) && worker < |s.pending| && id in s.sessions && s.sessions[id].endedAt == None
    ensures var closed := Next(s, SignOut(worker, id, now, reason, true));
            Stored(closed, id) == At(closed.touches, id)
            <==> Unflushed(s.pending, id) == At(s.pending[worker], id) && At(s.lost, id) == 0
  {
    UnflushedUpdate(s.pending, worker, s.pending[worker] - {id}, id);
  }

  /** An expired sign-on keeps the count of its last flush: what workers still hold is not in it. */
  lemma ExpiryFlushesNothing(s: State, now: int, id: nat)
    requires Conserved(s, id) && id in s.sessions && Idle(s.sessions[id], now)
    ensures var after := Next(s, ExpireIdle(now));
            && after.sessions[id].endedAt == Some(s.sessions[id].lastSeen)
            && (Stored(after, id) == At(after.touches, id) <==> Unflushed(s.pending, id) == 0 && At(s.lost, id) == 0)
  {
  }
}
