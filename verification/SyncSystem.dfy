/** The sync protocol as a transition system: a remote log that grows, any number of workers that each
    hold a run token, a database whose transactions are atomic, and every interleaving of their steps. */
module SyncSystem {
  import opened Tags
  import opened UpdateOrder
  import opened Repository
  import opened Replay

  // ----- The remote log -----

  datatype Entry = Entry(index: nat, payload: Payload)

  /** The whole log the server will ever publish in a run, and the case table tags are cleaned with. */
  datatype World = World(cases: CaseTable, log: map<UpdateId, Entry>)

  function RankOf(w: World, id: UpdateId): Rank
    requires id in w.log
  {
    Rank(w.log[id].index, KindRank(KindOf(w.log[id].payload)), id)
  }

  /** What the server shows once it has published all indices below n: an index arrives as a whole. */
  function Visible(w: World, n: nat): map<UpdateId, nat> {
    map id | id in w.log && w.log[id].index < n :: w.log[id].index
  }

  function LogRanks(w: World, n: nat): set<Rank> {
    set id | id in w.log && w.log[id].index < n :: RankOf(w, id)
  }

  /** The published log in the order in which it has to be applied. */
  function LogOrder(w: World, n: nat): seq<Rank> {
    Sorted(LogRanks(w, n))
  }

  /** A metadata answer lists, in any order, every entry from since up to the published horizon. */
  predicate IsMetadata(w: World, since: nat, upto: nat, rows: seq<(nat, UpdateId)>) {
    && (forall row | row in rows :: row.1 in w.log && row.0 == w.log[row.1].index && since <= row.0 < upto)
    && (forall id | id in w.log && since <= w.log[id].index < upto :: (w.log[id].index, id) in rows)
  }

  // ----- Workers -----

  const PARALLELISM := 3
  const BATCH_SIZE := 25
  const MAX_BUSY_RETRIES := 10

  datatype Pc =
    | Started
    | HaveMetadata(upto: nat)
    | Registered
    | Downloading(pending: seq<UpdateId>, batch: seq<UpdateId>)
    | Flushed(pending: seq<UpdateId>)
    | Applying(pending: seq<UpdateId>, todo: seq<Rank>, more: bool)
    | Drained
    | Broken
    | Ended

  /** slice and attempt are what the lease status said; seen is the retry attempt of the status read since. */
  datatype Worker = Worker(slice: nat, attempt: int, seen: int, pc: Pc, failing: bool)

  datatype Sys = Sys(
    store: Store,
    workers: map<Token, Worker>,
    issued: set<Token>,
    horizon: nat,
    known: nat,               // the horizon of the answer persisted last
    history: seq<Event>,
    streak: nat)              // leases that ended throttled since the state was last idle

  function Start(names: Names): Sys {
    Sys(Initial(names), map[], {}, 0, 0, [], 0)
  }

  predicate Has(s: Sys, token: Token) {
    token in s.workers && s.workers[token].pc != Ended
  }

  function Goto(s: Sys, token: Token, pc: Pc): Sys
    requires token in s.workers
  {
    s.(workers := s.workers[token := s.workers[token].(pc := pc)])
  }

  function Items(w: World, batch: seq<UpdateId>): seq<Item>
    requires forall i | 0 <= i < |batch| :: batch[i] in w.log
  {
    seq(|batch|, i requires 0 <= i < |batch| =>
      Item(batch[i], MimeOf(w.log[batch[i]].payload), w.log[batch[i]].payload))
  }

  // ----- Steps -----

  datatype Step =
    | Publish(n: nat)
    | RecoverState
    | BeginRun(token: Token, now: int)
    | FetchMetadata(token: Token)
    | PersistMetadata(token: Token, rows: seq<(nat, UpdateId)>)
    | ListPending(token: Token)
    | Download(token: Token, got: seq<UpdateId>, ok: bool)
    | FinalizeBatch(token: Token)
    | ListProcessable(token: Token)
    | ApplyNext(token: Token, names: Names)
    | Resume(token: Token)
    | Complete(token: Token)
    | Cancel(token: Token)
    | FailRun(token: Token, text: string)
    | ThrottleRun(token: Token, retryAt: int, text: string)
    | Crash(token: Token)
    | StageLocally(tags: seq<string>, hashes: seq<string>, names: Names)
    | CommitLocally
    | InternElsewhere(names: Names)

  /** The state after a step; a step that is not enabled changes nothing. */
  function Next(w: World, s: Sys, step: Step): Sys {
    match step
    case Publish(n) => if n > s.horizon then s.(horizon := n) else s
    case RecoverState => DoRecover(s)
    case BeginRun(token, now) => DoBegin(s, token, now)
    case FetchMetadata(token) => DoFetch(s, token)
    case PersistMetadata(token, rows) => DoPersist(w, s, token, rows)
    case ListPending(token) => DoListPending(s, token)
    case Download(token, got, ok) => DoDownload(s, token, got, ok)
    case FinalizeBatch(token) => DoFinalize(w, s, token)
    case ListProcessable(token) => DoListProcessable(s, token)
    case ApplyNext(token, names) => DoApply(w, s, token, names)
    case Resume(token) => DoResume(s, token)
    case Complete(token) => DoComplete(s, token)
    case Cancel(token) => DoCancel(s, token)
    case FailRun(token, text) => DoFail(s, token, text)
    case ThrottleRun(token, retryAt, text) => DoThrottle(s, token, retryAt, text)
    case Crash(token) => s.(workers := s.workers - {token})
    case StageLocally(tags, hashes, names) => DoStage(w, s, tags, hashes, names)
    case CommitLocally => s.(store := CommitMappings(s.store), history := s.history + [LocalCommit])
    case InternElsewhere(names) =>
      if NamesExtend(s.store.content.names, names) && ValidNames(names)
      then s.(store := s.store.(content := s.store.content.(names := names))) else s
  }

  function DoRecover(s: Sys): Sys {
    var after := Recover(s.store);
    s.(store := after, streak := if after == s.store then s.streak else 0)
  }

  /** A waiting retry is not started before its time, and tokens are fresh. */
  function DoBegin(s: Sys, token: Token, now: int): Sys {
    if token in s.issued || (s.store.sync.phase == Retrying && s.store.sync.retryAt > now) then s
    else
      var outcome := Begin(s.store, token);
      if outcome.RolledBack? then s.(issued := s.issued + {token})
      else
        var sync := outcome.store.sync;
        s.(store := outcome.store, issued := s.issued + {token},
           workers := s.workers[token := Worker(sync.metadataSlice, sync.retryAttempt, 0, Started, false)])
  }

  function DoFetch(s: Sys, token: Token): Sys {
    if Has(s, token) && s.workers[token].pc == Started then Goto(s, token, HaveMetadata(s.horizon)) else s
  }

  function DoPersist(w: World, s: Sys, token: Token, rows: seq<(nat, UpdateId)>): Sys {
    if Has(s, token) && s.workers[token].pc.HaveMetadata?
       && IsMetadata(w, s.workers[token].slice, s.workers[token].pc.upto, rows)
    then
      var outcome := Persist(s.store, token, rows, s.workers[token].slice == 0);
      if outcome.RolledBack? then Goto(s, token, Broken)
      else
        s.(store := outcome.store, known := s.workers[token].pc.upto,
           workers := s.workers[token := s.workers[token].(pc := Registered, seen := outcome.store.sync.retryAttempt)])
    else s
  }

  function DoListPending(s: Sys, token: Token): Sys {
    if Has(s, token) && s.workers[token].pc == Registered then
      if !Active(s.store, token) then Goto(s, token, Broken)
      else Goto(s, token, Downloading(InIdOrder(s.store.updates.unregistered), []))
    else s
  }

  /** One round of parallel fetches: the next three hashes, of which some or all arrive, in any order. */
  function DoDownload(s: Sys, token: Token, got: seq<UpdateId>, ok: bool): Sys {
    if Has(s, token) && s.workers[token].pc.Downloading? && !s.workers[token].failing then
      var Downloading(pending, batch) := s.workers[token].pc;
      var k := if |pending| < PARALLELISM then |pending| else PARALLELISM;
      if k > 0 && |batch| < BATCH_SIZE && multiset(got) <= multiset(pending[..k]) && (ok ==> |got| == k) then
        var worker := s.workers[token].(pc := Downloading(pending[k..], batch + got), failing := !ok);
        s.(workers := s.workers[token := worker])
      else s
    else s
  }

  /** A batch is flushed when it is large enough, at the end of the list and after a failed round. */
  function DoFinalize(w: World, s: Sys, token: Token): Sys {
    if Has(s, token) && s.workers[token].pc.Downloading? then
      var Downloading(pending, batch) := s.workers[token].pc;
      if batch != [] && (|batch| >= BATCH_SIZE || pending == [] || s.workers[token].failing)
         && (forall i | 0 <= i < |batch| :: batch[i] in w.log)
      then
        var outcome := Finalize(s.store, token, Items(w, batch));
        if outcome.RolledBack? then Goto(s, token, Broken)
        else Goto(s, token, Flushed(pending)).(store := outcome.store)
      else s
    else s
  }

  /** The list of processable updates is read after each flush, and once more at the very end. */
  function DoListProcessable(s: Sys, token: Token): Sys {
    if Has(s, token) && s.workers[token].pc.Flushed? then
      if !Active(s.store, token) then Goto(s, token, Broken)
      else Goto(s, token, Applying(s.workers[token].pc.pending, Processable(s.store.updates), true))
    else if Has(s, token) && s.workers[token].pc == Downloading([], []) && !s.workers[token].failing then
      if !Active(s.store, token) then Goto(s, token, Broken)
      else Goto(s, token, Applying([], Processable(s.store.updates), false))
    else s
  }

  function DoApply(w: World, s: Sys, token: Token, names: Names): Sys {
    if Has(s, token) && s.workers[token].pc.Applying? && s.workers[token].pc.todo != [] then
      var Applying(pending, todo, more) := s.workers[token].pc;
      var id := todo[0].id;
      if id in w.log && Interned(s.store.content.names, NeededHashes(w.log[id].payload),
                                 NeededTags(w.cases, w.log[id].payload), names)
      then
        var outcome := ApplyUpdate(w.cases, s.store, token, id, w.log[id].payload, names);
        if outcome.RolledBack? then Goto(s, token, Broken)
        else
          Goto(s, token, Applying(pending, todo[1..], more)).(
            store := outcome.store, history := s.history + [Remote(todo[0], w.log[id].payload)])
      else s
    else s
  }

  function DoResume(s: Sys, token: Token): Sys {
    if Has(s, token) && s.workers[token].pc.Applying? && s.workers[token].pc.todo == [] then
      if s.workers[token].pc.more then Goto(s, token, Downloading(s.workers[token].pc.pending, []))
      else Goto(s, token, Drained)
    else s
  }

  function DoComplete(s: Sys, token: Token): Sys {
    if Has(s, token) && s.workers[token].pc == Drained then
      var outcome := Finish(s.store, token, true);
      if outcome.RolledBack? then Goto(s, token, Broken)
      else Goto(s, token, Ended).(store := outcome.store, streak := 0)
    else s
  }

  function DoCancel(s: Sys, token: Token): Sys {
    if Has(s, token) then
      var outcome := Finish(s.store, token, false);
      if outcome.RolledBack? then Goto(s, token, Ended)
      else Goto(s, token, Ended).(store := outcome.store, streak := 0)
    else s
  }

  function DoFail(s: Sys, token: Token, text: string): Sys {
    if Has(s, token) then
      var outcome := Fail(s.store, token, text);
      if outcome.RolledBack? then Goto(s, token, Ended)
      else Goto(s, token, Ended).(store := outcome.store, streak := 0)
    else s
  }

  function NextAttempt(worker: Worker): int {
    (if worker.attempt < worker.seen then worker.seen else worker.attempt) + 1
  }

  /** A busy or transient answer ends the run in a retry, or in a failure once the retries are used up.
      After such a failure the run's own cleanup still reports the failure a second time. */
  function DoThrottle(s: Sys, token: Token, retryAt: int, text: string): Sys {
    if Has(s, token) then
      var attempt := NextAttempt(s.workers[token]);
      if attempt > MAX_BUSY_RETRIES then
        var outcome := Fail(s.store, token, text);
        if outcome.RolledBack? then Goto(s, token, Broken)
        else Goto(s, token, Broken).(store := outcome.store, streak := 0)
      else
        var outcome := Throttle(s.store, token, retryAt, attempt);
        if outcome.RolledBack? then Goto(s, token, Broken)
        else Goto(s, token, Ended).(store := outcome.store, streak := s.streak + 1)
    else s
  }

  function DoStage(w: World, s: Sys, tags: seq<string>, hashes: seq<string>, names: Names): Sys {
    if Interned(s.store.content.names, {}, CleanTags(w.cases, tags), names) then
      var outcome := StageMappings(w.cases, s.store, tags, hashes, names);
      if outcome.RolledBack? then s
      else s.(store := outcome.store, history := s.history + [Staged(StagedNames(w.cases, tags, hashes))])
    else s
  }

  /** A run of the system. */
  function Exec(w: World, s: Sys, steps: seq<Step>): Sys {
    if steps == [] then s else Next(w, Exec(w, s, steps[..|steps| - 1]), steps[|steps| - 1])
  }
}
