/** The pool of read connections as a transition system.  A metadata request keeps one connection for its
    whole life and, while it does, its tag lookups and its tag-name lookup take further ones. */
module ReadPool {
  import opened Interning

  const READ_POOL_SIZE: nat := 4

  datatype Request =
    | PlainWaiting
    | PlainHolding
    | MetadataWaiting(jobs: nat, full: bool)                  // wants its own, outer connection
    | Looking(jobs: nat, waiting: nat, holding: nat)          // holds it; workers wait for or hold inner ones
    | TagNamesWaiting                                         // holds it; wants one for the tag names
    | TagNamesHolding
    | Answering                                               // holds only the outer connection
    | Finished

  datatype Pool = Pool(free: nat, requests: seq<Request>)

  const EMPTY_POOL := Pool(READ_POOL_SIZE, [])

  /** Connections a request holds. */
  function Held(r: Request): nat {
    match r
    case PlainHolding => 1
    case Looking(_, _, holding) => 1 + holding
    case TagNamesWaiting => 1
    case TagNamesHolding => 2
    case Answering => 1
    case _ => 0
  }

  function Outer(r: Request): nat {
    if r.Looking? || r.TagNamesWaiting? || r.TagNamesHolding? || r.Answering? then 1 else 0
  }

  function TotalHeld(rs: seq<Request>): nat {
    if rs == [] then 0 else TotalHeld(rs[..|rs| - 1]) + Held(rs[|rs| - 1])
  }

  function OuterHolders(rs: seq<Request>): nat {
    if rs == [] then 0 else OuterHolders(rs[..|rs| - 1]) + Outer(rs[|rs| - 1])
  }

  datatype Step =
    | ArrivePlain
    | ArriveMetadata(jobs: nat, full: bool)
    | Advance(i: nat, act: Act)

  datatype Act =
    | TakePlain | GivePlain
    | TakeOuter | Spawn | TakeInner | GiveInner | JobsDone | TakeTagNames | GiveTagNames | GiveOuter

  /** What an action makes of a request and of the number of free connections, when it is enabled. */
  function Do(free: nat, r: Request, act: Act): (nat, Request) {
    match (act, r)
    case (TakePlain, PlainWaiting) => if free > 0 then (free - 1, PlainHolding) else (free, r)
    case (GivePlain, PlainHolding) => (free + 1, Finished)
    case (TakeOuter, MetadataWaiting(jobs, full)) =>
      if free > 0 then (free - 1, if full then Looking(jobs, 0, 0) else Answering) else (free, r)
    case (Spawn, Looking(jobs, waiting, holding)) =>
      if jobs > 0 && waiting + holding < READ_POOL_SIZE then (free, Looking(jobs - 1, waiting + 1, holding))
      else (free, r)
    case (TakeInner, Looking(jobs, waiting, holding)) =>
      if waiting > 0 && free > 0 then (free - 1, Looking(jobs, waiting - 1, holding + 1)) else (free, r)
    case (GiveInner, Looking(jobs, waiting, holding)) =>
      if holding > 0 then (free + 1, Looking(jobs, waiting, holding - 1)) else (free, r)
    case (JobsDone, Looking(jobs, waiting, holding)) =>
      if jobs == 0 && waiting == 0 && holding == 0 then (free, TagNamesWaiting) else (free, r)
    case (TakeTagNames, TagNamesWaiting) => if free > 0 then (free - 1, TagNamesHolding) else (free, r)
    case (GiveTagNames, TagNamesHolding) => (free + 1, Answering)
    case (GiveOuter, Answering) => (free + 1, Finished)
    case _ => (free, r)
  }

  function Next(p: Pool, step: Step): Pool {
    match step
    case ArrivePlain => p.(requests := p.requests + [PlainWaiting])
    case ArriveMetadata(jobs, full) => p.(requests := p.requests + [MetadataWaiting(jobs, full)])
    case Advance(i, act) =>
      if i < |p.requests| then
        var (free, r) := Do(p.free, p.requests[i], act);
        Pool(free, p.requests[i := r])
      else p
  }

  function Exec(p: Pool, steps: seq<Step>): Pool {
    if steps == [] then p else Next(Exec(p, steps[..|steps| - 1]), steps[|steps| - 1])
  }

  // ----- Conservation -----

  lemma {:induction false} TotalAfterUpdate(rs: seq<Request>, i: nat, r: Request)
    requires i < |rs|
    ensures TotalHeld(rs[i := r]) == TotalHeld(rs) - Held(rs[i]) + Held(r)
    ensures OuterHolders(rs[i := r]) == OuterHolders(rs) - Outer(rs[i]) + Outer(r)
    decreases |rs|
  {
    var init := rs[..|rs| - 1];
    if i < |init| {
      TotalAfterUpdate(init, i, r);
      assert rs[i := r][..|rs| - 1] == init[i := r];
    } else {
      assert rs[i := r][..|rs| - 1] == init;
    }
  }

  lemma DoConserves(free: nat, r: Request, act: Act)
    ensures var (after, q) := Do(free, r, act); after + Held(q) == free + Held(r)
  {
  }

  lemma NextConserves(p: Pool, step: Step)
    ensures var q := Next(p, step); q.free + TotalHeld(q.requests) == p.free + TotalHeld(p.requests)
  {
    match step
    case ArrivePlain =>
      assert (p.requests + [PlainWaiting])[..|p.requests|] == p.requests;
    case ArriveMetadata(jobs, full) =>
      assert (p.requests + [MetadataWaiting(jobs, full)])[..|p.requests|] == p.requests;
    case Advance(i, act) =>
      hide Do, Held;
      if i < |p.requests| {
        DoConserves(p.free, p.requests[i], act);
        TotalAfterUpdate(p.requests, i, Do(p.free, p.requests[i], act).1);
      }
  }

  /** No connection is lost or made: free and held ones always add up to the size of the pool. */
  lemma {:induction false} ConnectionsAreConserved(steps: seq<Step>)
    ensures var p := Exec(EMPTY_POOL, steps); p.free + TotalHeld(p.requests) == READ_POOL_SIZE
  {
    hide Next, Held;
    if steps != [] {
      ConnectionsAreConserved(steps[..|steps| - 1]);
      NextConserves(Exec(EMPTY_POOL, steps[..|steps| - 1]), steps[|steps| - 1]);
    }
  }

  // ----- Being stuck -----

  predicate Unfinished(p: Pool) {
    exists i | 0 <= i < |p.requests| :: p.requests[i] != Finished
  }

  /** Some request is not finished, and no request can make any step. */
  ghost predicate Stuck(p: Pool) {
    Unfinished(p) && forall i: nat, act | i < |p.requests| :: Do(p.free, p.requests[i], act) == (p.free, p.requests[i])
  }

  /** A request that can go no further while no connection is free. */
  predicate Blocked(r: Request) {
    match r
    case Finished => true
    case PlainWaiting => true
    case MetadataWaiting(_, _) => true
    case Looking(jobs, waiting, holding) => holding == 0 && waiting > 0 && (jobs == 0 || waiting >= READ_POOL_SIZE)
    case TagNamesWaiting => true
    case _ => false
  }

  /** An action a request can take. */
  function SomeAct(free: nat, r: Request): Act {
    match r
    case PlainWaiting => TakePlain
    case PlainHolding => GivePlain
    case MetadataWaiting(_, _) => TakeOuter
    case Looking(jobs, waiting, holding) =>
      if holding > 0 then GiveInner
      else if jobs > 0 && waiting < READ_POOL_SIZE then Spawn
      else if waiting > 0 then TakeInner
      else JobsDone
    case TagNamesWaiting => TakeTagNames
    case TagNamesHolding => GiveTagNames
    case Answering => GiveOuter
    case Finished => GiveOuter
  }

  lemma SomeActMoves(free: nat, r: Request)
    requires r != Finished && (free > 0 || !Blocked(r))
    ensures Do(free, r, SomeAct(free, r)) != (free, r)
  {
  }

  /** A pool is stuck exactly when something is unfinished, nothing is free, and every request is blocked. */
  lemma StuckIff(p: Pool)
    ensures Stuck(p) <==> Unfinished(p) && p.free == 0 && forall i | 0 <= i < |p.requests| :: Blocked(p.requests[i])
  {
    if Stuck(p) {
      var k :| 0 <= k < |p.requests| && p.requests[k] != Finished;
      if p.free > 0 { SomeActMoves(p.free, p.requests[k]); }
      forall i | 0 <= i < |p.requests| ensures Blocked(p.requests[i]) {
        if !Blocked(p.requests[i]) { SomeActMoves(p.free, p.requests[i]); }
      }
    }
  }

  lemma {:induction false} BlockedHoldOuters(rs: seq<Request>)
    requires forall i | 0 <= i < |rs| :: Blocked(rs[i])
    ensures TotalHeld(rs) == OuterHolders(rs)
  {
    if rs != [] {
      BlockedHoldOuters(rs[..|rs| - 1]);
    }
  }

  /** While fewer metadata requests than the pool has connections hold one for themselves, no reachable state
      is stuck. */
  lemma NotStuckBelowPoolSize(steps: seq<Step>)
    requires OuterHolders(Exec(EMPTY_POOL, steps).requests) < READ_POOL_SIZE
    ensures !Stuck(Exec(EMPTY_POOL, steps))
  {
    var p := Exec(EMPTY_POOL, steps);
    ConnectionsAreConserved(steps);
    StuckIff(p);
    if forall i | 0 <= i < |p.requests| :: Blocked(p.requests[i]) {
      BlockedHoldOuters(p.requests);
    }
  }

  /** A stuck pool has given every connection to a metadata request that waits for a further one. */
  lemma StuckPoolIsAllOuter(steps: seq<Step>)
    requires Stuck(Exec(EMPTY_POOL, steps))
    ensures OuterHolders(Exec(EMPTY_POOL, steps).requests) == READ_POOL_SIZE
  {
    var p := Exec(EMPTY_POOL, steps);
    ConnectionsAreConserved(steps);
    StuckIff(p);
    BlockedHoldOuters(p.requests);
  }

  lemma ExecSnoc(p: Pool, steps: seq<Step>, step: Step)
    ensures Exec(p, steps + [step]) == Next(Exec(p, steps), step)
  {
    assert (steps + [step])[..|steps|] == steps;
  }

  /** The bound is tight: as many metadata requests as the pool has connections can each take one and then
      all wait for another. */
  lemma StuckIsReachable() returns (steps: seq<Step>)
    ensures Stuck(Exec(EMPTY_POOL, steps)) && OuterHolders(Exec(EMPTY_POOL, steps).requests) == READ_POOL_SIZE
  {
    var waiting, holding, blocked := MetadataWaiting(1, true), Looking(1, 0, 0), Looking(0, 1, 0);
    steps := [];
    var n := 0;
    ghost var rs: seq<Request> := [];
    while n < READ_POOL_SIZE
      invariant 0 <= n <= READ_POOL_SIZE
      invariant |rs| == n && (forall i | 0 <= i < n :: rs[i] == waiting)
      invariant Exec(EMPTY_POOL, steps) == Pool(READ_POOL_SIZE, rs)
    {
      ExecSnoc(EMPTY_POOL, steps, ArriveMetadata(1, true));
      steps, rs, n := steps + [ArriveMetadata(1, true)], rs + [waiting], n + 1;
    }
    n := 0;
    while n < READ_POOL_SIZE
      invariant 0 <= n <= READ_POOL_SIZE && |rs| == READ_POOL_SIZE
      invariant forall i | 0 <= i < READ_POOL_SIZE :: rs[i] == if i < n then holding else waiting
      invariant Exec(EMPTY_POOL, steps) == Pool(READ_POOL_SIZE - n, rs)
    {
      ExecSnoc(EMPTY_POOL, steps, Advance(n, TakeOuter));
      steps, rs, n := steps + [Advance(n, TakeOuter)], rs[n := holding], n + 1;
    }
    n := 0;
    while n < READ_POOL_SIZE
      invariant 0 <= n <= READ_POOL_SIZE && |rs| == READ_POOL_SIZE
      invariant forall i | 0 <= i < READ_POOL_SIZE :: rs[i] == if i < n then blocked else holding
      invariant Exec(EMPTY_POOL, steps) == Pool(0, rs)
    {
      ExecSnoc(EMPTY_POOL, steps, Advance(n, Spawn));
      steps, rs, n := steps + [Advance(n, Spawn)], rs[n := blocked], n + 1;
    }
    assert rs[0] != Finished;
    StuckIff(Pool(0, rs));
    StuckPoolIsAllOuter(steps);
  }

  // ----- Progress -----

  /** How many actions a request can still take. */
  function Remaining(r: Request): nat {
    match r
    case PlainWaiting => 2
    case PlainHolding => 1
    case MetadataWaiting(jobs, full) => 5 + 3 * jobs
    case Looking(jobs, waiting, holding) => 4 + 3 * jobs + 2 * waiting + holding
    case TagNamesWaiting => 3
    case TagNamesHolding => 2
    case Answering => 1
    case Finished => 0
  }

  function TotalRemaining(rs: seq<Request>): nat {
    if rs == [] then 0 else TotalRemaining(rs[..|rs| - 1]) + Remaining(rs[|rs| - 1])
  }

  lemma {:induction false} RemainingAfterUpdate(rs: seq<Request>, i: nat, r: Request)
    requires i < |rs|
    ensures TotalRemaining(rs[i := r]) == TotalRemaining(rs) - Remaining(rs[i]) + Remaining(r)
    decreases |rs|
  {
    var init := rs[..|rs| - 1];
    if i < |init| {
      RemainingAfterUpdate(init, i, r);
      assert rs[i := r][..|rs| - 1] == init[i := r];
    } else {
      assert rs[i := r][..|rs| - 1] == init;
    }
  }

  lemma DoUsesUp(free: nat, r: Request, act: Act)
    ensures Do(free, r, act) == (free, r) || Remaining(Do(free, r, act).1) < Remaining(r)
  {
  }

  /** Every action that changes the pool brings the requests closer to their end. */
  lemma ActionsUseUp(p: Pool, i: nat, act: Act)
    requires i < |p.requests| && Next(p, Advance(i, act)) != p
    ensures TotalRemaining(Next(p, Advance(i, act)).requests) < TotalRemaining(p.requests)
  {
    DoUsesUp(p.free, p.requests[i], act);
    RemainingAfterUpdate(p.requests, i, Do(p.free, p.requests[i], act).1);
    hide Do, Remaining;
    assert p.requests[i := p.requests[i]] == p.requests;
  }

  /** A metadata request that is not finished: it holds an outer connection or may come to hold one. */
  function Metadata(r: Request): nat {
    if r.MetadataWaiting? then 1 else Outer(r)
  }

  function TotalMetadata(rs: seq<Request>): nat {
    if rs == [] then 0 else TotalMetadata(rs[..|rs| - 1]) + Metadata(rs[|rs| - 1])
  }

  lemma {:induction false} MetadataAfterUpdate(rs: seq<Request>, i: nat, r: Request)
    requires i < |rs|
    ensures TotalMetadata(rs[i := r]) == TotalMetadata(rs) - Metadata(rs[i]) + Metadata(r)
    decreases |rs|
  {
    var init := rs[..|rs| - 1];
    if i < |init| {
      MetadataAfterUpdate(init, i, r);
      assert rs[i := r][..|rs| - 1] == init[i := r];
    } else {
      assert rs[i := r][..|rs| - 1] == init;
    }
  }

  lemma {:induction false} OutersAreMetadata(rs: seq<Request>)
    ensures OuterHolders(rs) <= TotalMetadata(rs)
  {
    if rs != [] {
      OutersAreMetadata(rs[..|rs| - 1]);
    }
  }

  lemma AdvanceKeepsMetadata(p: Pool, i: nat, act: Act)
    ensures TotalMetadata(Next(p, Advance(i, act)).requests) <= TotalMetadata(p.requests)
  {
    if i < |p.requests| {
      MetadataAfterUpdate(p.requests, i, Do(p.free, p.requests[i], act).1);
    }
  }

  /** No request arrives, and every step changes the pool. */
  predicate BusyRun(p: Pool, steps: seq<Step>) {
    forall n | 0 <= n < |steps| ::
      && steps[n].Advance? && steps[n].i < |Exec(p, steps[..n]).requests|
      && Next(Exec(p, steps[..n]), steps[n]) != Exec(p, steps[..n])
  }

  lemma {:induction false} BusyRunUsesUp(p: Pool, steps: seq<Step>)
    requires BusyRun(p, steps)
    ensures |steps| + TotalRemaining(Exec(p, steps).requests) <= TotalRemaining(p.requests)
    ensures TotalMetadata(Exec(p, steps).requests) <= TotalMetadata(p.requests)
  {
    hide Next;
    if steps != [] {
      var init, last := steps[..|steps| - 1], steps[|steps| - 1];
      assert BusyRun(p, init) by {
        forall n | 0 <= n < |init|
          ensures init[n].Advance? && init[n].i < |Exec(p, init[..n]).requests|
                  && Next(Exec(p, init[..n]), init[n]) != Exec(p, init[..n])
        {
          assert init[..n] == steps[..n];
        }
      }
      BusyRunUsesUp(p, init);
      ActionsUseUp(Exec(p, init), last.i, last.act);
      AdvanceKeepsMetadata(Exec(p, init), last.i, last.act);
    }
  }

  lemma {:induction false} ExecTwice(p: Pool, steps: seq<Step>, more: seq<Step>)
    ensures Exec(p, steps + more) == Exec(Exec(p, steps), more)
    decreases |more|
  {
    hide Next;
    if more == [] {
      assert steps + more == steps;
    } else {
      ExecTwice(p, steps, more[..|more| - 1]);
      assert (steps + more)[..|steps + more| - 1] == steps + more[..|more| - 1];
    }
  }

  /** With fewer metadata requests than connections, a pool to which no more requests come finishes them all:
      however they are served, it is never stuck, it stops after a bounded number of actions, and it has only
      stopped when every request is finished. */
  lemma AllRequestsFinish(steps: seq<Step>, more: seq<Step>)
    requires TotalMetadata(Exec(EMPTY_POOL, steps).requests) < READ_POOL_SIZE
    requires BusyRun(Exec(EMPTY_POOL, steps), more)
    ensures var p := Exec(EMPTY_POOL, steps);
            var q := Exec(p, more);
            && !Stuck(q) && |more| <= TotalRemaining(p.requests)
            && (Unfinished(q) <==> exists i: nat, act | i < |q.requests| :: Next(q, Advance(i, act)) != q)
  {
    hide Next, Stuck;
    var p := Exec(EMPTY_POOL, steps);
    var q := Exec(p, more);
    BusyRunUsesUp(p, more);
    OutersAreMetadata(q.requests);
    ExecTwice(EMPTY_POOL, steps, more);
    NotStuckBelowPoolSize(steps + more);
    UnfinishedMoves(q);
  }

  lemma UnfinishedMoves(q: Pool)
    requires !Stuck(q)
    ensures Unfinished(q) <==> exists i: nat, act | i < |q.requests| :: Next(q, Advance(i, act)) != q
  {
    if Unfinished(q) {
      var i: nat, act :| i < |q.requests| && Do(q.free, q.requests[i], act) != (q.free, q.requests[i]);
      var (free, r) := Do(q.free, q.requests[i], act);
      DoUsesUp(q.free, q.requests[i], act);
      assert Next(q, Advance(i, act)).requests[i] == r;
    } else {
      forall i: nat, act | i < |q.requests| ensures Next(q, Advance(i, act)) == q {
        FinishedStays(q, i, act);
      }
    }
  }

  lemma FinishedStays(q: Pool, i: nat, act: Act)
    requires i < |q.requests| && q.requests[i] == Finished
    ensures Next(q, Advance(i, act)) == q
  {
    assert q.requests[i := q.requests[i]] == q.requests;
  }

  // ----- The channel of connections -----

  datatype Conn = Conn(n: nat)

  /** The buffered channel a read-only bundle keeps its idle connections in, first in first out. */
  class ConnPool {
    var idle: seq<Conn>
    ghost var lent: set<Conn>

    /** Every connection is idle or lent, and only one of the two, and only once. */
    ghost predicate Valid()
      reads this
    {
      && (forall i, j | 0 <= i < j < |idle| :: idle[i] != idle[j])
      && (forall i | 0 <= i < |idle| :: idle[i] !in lent)
      && |idle| + |lent| == READ_POOL_SIZE
    }

    constructor ()
      ensures Valid() && lent == {}
      ensures |idle| == READ_POOL_SIZE
    {
      idle := seq(READ_POOL_SIZE, i requires 0 <= i < READ_POOL_SIZE => Conn(i));
      lent := {};
    }

    /** Takes the connection that has been idle longest, when there is one; nobody else has it. */
    method AcquireReadConn() returns (conn: Option<Conn>)
      requires Valid()
      modifies this
      ensures Valid()
      ensures conn.None? <==> old(idle) == []
      ensures conn.None? ==> idle == old(idle) && lent == old(lent)
      ensures conn.Some? ==> conn.value !in old(lent) && lent == old(lent) + {conn.value}
      ensures conn.Some? ==> [conn.value] + idle == old(idle)
    {
      if idle == [] {
        return None;
      }
      var first := idle[0];
      conn := Some(first);
      idle := idle[1..];
      lent := lent + {first};
    }

    /** Gives a lent connection back; the channel always has room for it. */
    method ReleaseReadConn(conn: Conn)
      requires Valid() && conn in lent
      modifies this
      ensures Valid() && lent == old(lent) - {conn} && idle == old(idle) + [conn]
      ensures |idle| <= READ_POOL_SIZE
    {
      idle := idle + [conn];
      lent := lent - {conn};
    }
  }
}
