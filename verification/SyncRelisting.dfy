/** When an update whose body is stored is put back on the waiting list, and with it when a body is written more
    than once. */
module SyncRelisting {
  import opened Tags
  import opened Interning
  import opened UpdateOrder
  import opened Repository
  import opened Replay
  import opened SyncSystem
  import opened SyncInvariants
  import opened SyncTheorems
  import opened SyncBatches

  /** No update waits for a body that is stored. */
  predicate Apart(t: UpdateTables) {
    t.unregistered !! StoredIds(t)
  }

  /** The step registers an answer under a live lease. */
  predicate Persists(w: World, s: Sys, step: Step) {
    && step.PersistMetadata? && Has(s, step.token) && Active(s.store, step.token)
    && s.workers[step.token].pc.HaveMetadata?
    && IsMetadata(w, s.workers[step.token].slice, s.workers[step.token].pc.upto, step.rows)
  }

  /** Every stored update comes before the index from which metadata is asked for. */
  predicate StoredBefore(w: World, t: UpdateTables, slice: nat) {
    forall k | k in t.stored :: k.0 in w.log && w.log[k.0].index < slice
  }

  predicate BeforeSlice(w: World, s: Sys) {
    StoredBefore(w, s.store.updates, s.store.sync.metadataSlice)
  }

  // ----- One step -----

  /** An answer from an index on puts no stored update on the waiting list exactly when none has that index or a
      later one. */
  lemma RegisterApartIff(w: World, t: UpdateTables, known: nat, upto: nat, applied: seq<Rank>, since: nat,
                         rows: seq<(nat, UpdateId)>)
    requires MirrorInv(w, t, known, applied) && Apart(t)
    requires known <= upto && since <= known && IsMetadata(w, since, upto, rows)
    ensures Apart(RegisterTables(t, rows, since == 0)) <==> StoredBefore(w, t, since)
  {
    PersistMirror(w, t, known, upto, applied, since, rows);
    var after := RegisterTables(t, rows, since == 0);
    forall k | k in t.stored ensures k.0 in w.log && w.log[k.0].index < upto {
      assert RowOk(w, t, Elements(applied), k);
    }
    ListedIds(w, since, upto, rows);
    hide MirrorInv, IsMetadata;
    if Apart(after) {
      forall k | k in t.stored ensures w.log[k.0].index < since {
        assert k.0 in StoredIds(after);
      }
    }
  }

  lemma ListedIds(w: World, since: nat, upto: nat, rows: seq<(nat, UpdateId)>)
    requires IsMetadata(w, since, upto, rows)
    ensures forall id :: id in RowIds(rows) <==> id in w.log && since <= w.log[id].index < upto
  {
    forall id | id in w.log && since <= w.log[id].index < upto ensures id in RowIds(rows) {
      assert (w.log[id].index, id) in rows;
    }
  }

  lemma PersistApartIff(w: World, s: Sys, token: Token, rows: seq<(nat, UpdateId)>)
    requires Inv(w, s) && Apart(s.store.updates)
    ensures Apart(DoPersist(w, s, token, rows).store.updates)
       <==> (Persists(w, s, PersistMetadata(token, rows)) ==> BeforeSlice(w, s))
  {
    hide MirrorInv, CountInv, HistoryInv, Apart, RegisterTables, IsMetadata, StoredBefore;
    if Persists(w, s, PersistMetadata(token, rows)) {
      SliceBound(w, s);
      RegisterApartIff(w, s.store.updates, s.known, s.workers[token].pc.upto, Applied(s.history),
                       s.store.sync.metadataSlice, rows);
    }
  }

  lemma FinalizeApart(w: World, s: Sys, token: Token)
    requires Apart(s.store.updates)
    ensures Apart(DoFinalize(w, s, token).store.updates)
  {
    FinalizeOutcome(w, s, token);
    if BatchWritten(w, s, FinalizeBatch(token)) != [] {
      var batch := s.workers[token].pc.batch;
      hide DoFinalize, BatchWritten;
      StoredMore(w, s.store.updates, batch);
      StoreFromLog(w, map[], batch);
      hide StoredIds, StoreItems, Items;
    }
  }

  lemma ApplyApart(w: World, s: Sys, token: Token, names: Names)
    requires Apart(s.store.updates)
    ensures Apart(DoApply(w, s, token, names).store.updates)
  {
    ApplyStores(w, s, token, names);
    hide ApplyContent, Obstacle, Interned, NeededHashes, NeededTags, Done, StoredIds;
  }

  /** A step puts a stored update back on the waiting list exactly when it registers an answer while some stored
      update is not before the slice. */
  lemma RelistsIff(w: World, s: Sys, step: Step)
    requires Inv(w, s) && Apart(s.store.updates)
    ensures Apart(Next(w, s, step).store.updates) <==> (Persists(w, s, step) ==> BeforeSlice(w, s))
  {
    hide Inv, DoRecover, DoBegin, DoFetch, DoPersist, DoListPending, DoDownload, DoFinalize, DoListProcessable, DoApply,
         DoResume, DoComplete, DoCancel, DoFail, DoThrottle, DoStage, Apart, BeforeSlice;
    match step
    case FinalizeBatch(token) => FinalizeApart(w, s, token);
    case PersistMetadata(token, rows) => PersistApartIff(w, s, token, rows);
    case ApplyNext(token, names) => ApplyApart(w, s, token, names);
    case _ => OtherStepStores(w, s, step);
  }

  // ----- Whole runs -----

  lemma ExecPrefix(w: World, s: Sys, steps: seq<Step>, n: nat)
    requires n < |steps|
    ensures Exec(w, s, steps[..n + 1]) == Next(w, Exec(w, s, steps[..n]), steps[n])
  {
    hide Next;
    assert steps[..n + 1] == steps[..n] + [steps[n]];
    ExecSnoc(w, s, steps[..n], steps[n]);
  }

  /** The n-th step registers no answer, or does so with every stored update before the slice. */
  predicate SparesStored(w: World, s: Sys, steps: seq<Step>, n: nat)
    requires n < |steps|
  {
    Persists(w, Exec(w, s, steps[..n]), steps[n]) ==> BeforeSlice(w, Exec(w, s, steps[..n]))
  }

  predicate ApartAt(w: World, s: Sys, steps: seq<Step>, n: nat)
    requires n <= |steps|
  {
    Apart(Exec(w, s, steps[..n]).store.updates)
  }

  /** Over a run no stored update is ever waiting exactly when every answer is registered with all stored updates
      before the slice. */
  lemma NeverRelistedIff(w: World, names: Names, steps: seq<Step>)
    requires ValidNames(names)
    ensures (forall n | 0 <= n <= |steps| :: ApartAt(w, Start(names), steps, n))
       <==> (forall n | 0 <= n < |steps| :: SparesStored(w, Start(names), steps, n))
  {
    hide Apart, SparesStored, ApartAt;
    if forall n | 0 <= n <= |steps| :: ApartAt(w, Start(names), steps, n) {
      forall n | 0 <= n < |steps| ensures SparesStored(w, Start(names), steps, n) {
        assert ApartAt(w, Start(names), steps, n) && ApartAt(w, Start(names), steps, n + 1);
        StepApartIff(w, names, steps, n);
      }
    }
    if forall n | 0 <= n < |steps| :: SparesStored(w, Start(names), steps, n) {
      forall n | 0 <= n <= |steps| ensures ApartAt(w, Start(names), steps, n) {
        SparedApart(w, names, steps, n);
      }
    }
  }

  lemma StepApartIff(w: World, names: Names, steps: seq<Step>, n: nat)
    requires ValidNames(names) && n < |steps| && ApartAt(w, Start(names), steps, n)
    ensures ApartAt(w, Start(names), steps, n + 1) <==> SparesStored(w, Start(names), steps, n)
  {
    hide Next, Inv, Apart, Persists, BeforeSlice, Exec;
    Reachable(w, names, steps[..n]);
    ExecPrefix(w, Start(names), steps, n);
    RelistsIff(w, Exec(w, Start(names), steps[..n]), steps[n]);
  }

  lemma {:induction false} SparedApart(w: World, names: Names, steps: seq<Step>, n: nat)
    requires ValidNames(names) && n <= |steps|
    requires forall k | 0 <= k < |steps| :: SparesStored(w, Start(names), steps, k)
    ensures ApartAt(w, Start(names), steps, n)
  {
    hide SparesStored;
    if n > 0 {
      hide ApartAt;
      SparedApart(w, names, steps, n - 1);
      StepApartIff(w, names, steps, n - 1);
    } else {
      assert StoredIds(Start(names).store.updates) == {};
    }
  }

  /** While that is so, every body is written at most once over the whole run. */
  lemma {:induction false} WrittenOnce(w: World, names: Names, steps: seq<Step>)
    requires ValidNames(names)
    requires forall n | 0 <= n < |steps| :: SparesStored(w, Start(names), steps, n)
    ensures NoneTwice(Concat(BatchesWritten(w, Start(names), steps)))
  {
    hide Next, Inv, BatchWritten, SparesStored, NoneTwice, WaitedFor, Apart;
    if steps == [] {
      NothingTwice();
    } else {
      var m := |steps| - 1;
      var init, last := steps[..m], steps[m];
      SparesPrefix(w, names, steps, m);
      WrittenOnce(w, names, init);
      SparedApart(w, names, steps, m);
      Reachable(w, names, init);
      StoredIffWritten(w, names, init);
      var s := Exec(w, Start(names), init);
      StepStores(w, s, last);
      WrittenOne(w, s, last);
      WriteOnce(s.store.updates, BatchesWritten(w, Start(names), init), BatchWritten(w, s, last));
    }
  }

  lemma NothingTwice()
    ensures NoneTwice(Concat([]))
  {
  }

  lemma SparesPrefix(w: World, names: Names, steps: seq<Step>, m: nat)
    requires m <= |steps| && forall n | 0 <= n < |steps| :: SparesStored(w, Start(names), steps, n)
    ensures forall n | 0 <= n < m :: SparesStored(w, Start(names), steps[..m], n)
  {
    hide Exec, Persists, BeforeSlice;
    forall n | 0 <= n < m ensures SparesStored(w, Start(names), steps[..m], n) {
      assert steps[..m][..n] == steps[..n];
      assert SparesStored(w, Start(names), steps, n);
    }
  }

  /** A batch of waiting updates has none that was written before. */
  lemma WriteOnce(t: UpdateTables, written: seq<seq<UpdateId>>, more: seq<seq<UpdateId>>)
    requires Apart(t) && StoredIds(t) == Batched(Concat(written)) && NoneTwice(Concat(written))
    requires |more| <= 1 && forall b | b in more :: WaitedFor(t, b)
    ensures NoneTwice(Concat(written + more))
  {
    ConcatAppend(written, more);
    hide StoredIds, Concat;
    if more == [] {
      assert written + more == written;
    } else {
      var batch := more[0];
      ConcatOne(batch);
      assert more == [batch] && WaitedFor(t, batch);
      WaitedForNoneTwice(t, batch);
      var all := Concat(written) + batch;
      forall id | id in all ensures multiset(all)[id] == 1 {
        assert multiset(all) == multiset(Concat(written)) + multiset(batch);
        assert multiset(batch)[id] <= multiset(t.unregistered)[id];
        assert id in batch ==> id in t.unregistered;
        assert id in Concat(written) ==> id in StoredIds(t);
      }
    }
  }

  // ----- Runs that end cancelled or in success -----

  /** A cancelled run, like a completed one, moves the slice past every stored update. */
  lemma EndedPastStored(w: World, s: Sys, token: Token)
    requires Inv(w, s) && Has(s, token) && Active(s.store, token)
    ensures BeforeSlice(w, DoCancel(s, token))
    ensures s.workers[token].pc == Drained ==> BeforeSlice(w, DoComplete(s, token))
  {
    hide CountInv, HistoryInv, LeaseInv, HolderInv;
    var t := s.store.updates;
    forall k | k in t.stored ensures k.0 in w.log && w.log[k.0].index < NextIndex(t.registered) {
      assert RowOk(w, t, Elements(Applied(s.history)), k);
      assert t.registered[k.0] == w.log[k.0].index;
    }
    hide MirrorInv, NextIndex;
  }

  /** The step ends a lease without moving the slice: failed, throttled or by recovery. */
  predicate EndsUnfinished(s: Sys, step: Step) {
    match step
    case FailRun(token, _) => Has(s, token) && Active(s.store, token)
    case ThrottleRun(token, _, _) => Has(s, token) && Active(s.store, token)
    case RecoverState => Recover(s.store) != s.store
    case _ => false
  }

  /** The worker has not registered its answer yet. */
  predicate IsAsking(worker: Worker) {
    worker.pc.Started? || worker.pc.HaveMetadata?
  }

  /** Whoever is about to register an answer will find every stored update before the slice. */
  predicate AsksPast(w: World, s: Sys) {
    var sync := s.store.sync;
    && (!sync.running ==> BeforeSlice(w, s))
    && (sync.token.Some? && sync.token.value in s.workers && IsAsking(s.workers[sync.token.value]) ==>
          BeforeSlice(w, s))
  }

  /** Nothing but workers and lease fields that do not matter has changed. */
  lemma SameStore(w: World, s: Sys, t: Sys)
    requires AsksPast(w, s) && t.store == s.store
    requires forall token | token in t.workers && IsAsking(t.workers[token]) ::
               token in s.workers && IsAsking(s.workers[token])
    ensures AsksPast(w, t)
  {
    hide StoredBefore;
  }

  /** A running lease whose holder is past registering the answer. */
  lemma HolderIsPast(w: World, t: Sys, token: Token)
    requires t.store.sync.running && t.store.sync.token == Some(token) && token in t.workers
    requires !IsAsking(t.workers[token])
    ensures AsksPast(w, t)
  {
    hide StoredBefore;
  }

  predicate IsLeaseStep(step: Step) {
    step.BeginRun? || step.Complete? || step.Cancel? || step.FailRun? || step.ThrottleRun? || step.RecoverState?
  }

  lemma LeaseStepAsksPast(w: World, s: Sys, step: Step)
    requires Inv(w, s) && AsksPast(w, s) && !EndsUnfinished(s, step)
    requires IsLeaseStep(step)
    ensures AsksPast(w, Next(w, s, step))
  {
    hide MirrorInv, CountInv, HistoryInv, HolderInv, StoredBefore, NextIndex, FailureText;
    match step
    case BeginRun(token, now) =>
    case Complete(token) =>
      if Has(s, token) && Active(s.store, token) { EndedPastStored(w, s, token); }
    case Cancel(token) =>
      if Has(s, token) && Active(s.store, token) { EndedPastStored(w, s, token); }
    case FailRun(token, text) =>
    case ThrottleRun(token, retryAt, text) =>
    case RecoverState =>
  }

  lemma TableStepAsksPast(w: World, s: Sys, step: Step)
    requires Inv(w, s) && AsksPast(w, s)
    requires step.PersistMetadata? || step.FinalizeBatch? || step.ApplyNext?
    ensures AsksPast(w, Next(w, s, step))
  {
    hide MirrorInv, CountInv, HistoryInv, HolderInv, StoredBefore, RegisterTables, StoreTables, Supported, Items,
         IsMetadata, ApplyContent, Obstacle, Interned, NeededHashes, NeededTags, Done;
    var t := Next(w, s, step);
    var token := step.token;
    if Has(s, token) && Active(s.store, token) && t.store != s.store {
      HolderIsPast(w, t, token);
    } else {
      SameStore(w, s, t);
    }
  }

  lemma OtherStepAsksPast(w: World, s: Sys, step: Step)
    requires AsksPast(w, s)
    requires step.Publish? || step.FetchMetadata? || step.ListPending? || step.Download? || step.ListProcessable?
             || step.Resume? || step.Crash? || step.StageLocally? || step.CommitLocally? || step.InternElsewhere?
    ensures AsksPast(w, Next(w, s, step))
  {
    hide StoredBefore, StageMappings, Interned, NamesExtend, ValidNames, Processable, InIdOrder, StagedNames;
    StagedTables(w, s, step);
  }

  lemma StagedTables(w: World, s: Sys, step: Step)
    ensures step.StageLocally? ==>
              var t := Next(w, s, step);
              t.store.sync == s.store.sync && t.store.updates == s.store.updates && t.workers == s.workers
  {
    hide Interned, StagedPairs, CleanTags, StagedNames;
  }

  lemma NextAsksPast(w: World, s: Sys, step: Step)
    requires Inv(w, s) && AsksPast(w, s) && !EndsUnfinished(s, step)
    ensures AsksPast(w, Next(w, s, step))
  {
    hide Inv, AsksPast, EndsUnfinished, Next;
    if step.PersistMetadata? || step.FinalizeBatch? || step.ApplyNext? {
      TableStepAsksPast(w, s, step);
    } else if IsLeaseStep(step) {
      LeaseStepAsksPast(w, s, step);
    } else {
      OtherStepAsksPast(w, s, step);
    }
  }

  /** Every lease that ends in the run is cancelled or completed. */
  predicate AllFinished(w: World, s: Sys, steps: seq<Step>) {
    forall n | 0 <= n < |steps| :: !EndsUnfinished(Exec(w, s, steps[..n]), steps[n])
  }

  /** In a run in which every lease that ends is cancelled or completed, no stored update is ever put back on the
      waiting list, and no body is written twice. */
  lemma FinishedRunsNeverRelist(w: World, names: Names, steps: seq<Step>)
    requires ValidNames(names) && AllFinished(w, Start(names), steps)
    ensures forall n | 0 <= n <= |steps| :: ApartAt(w, Start(names), steps, n)
    ensures NoneTwice(Concat(BatchesWritten(w, Start(names), steps)))
  {
    hide AllFinished, ApartAt, NoneTwice, SparesStored, BatchesWritten;
    forall n | 0 <= n < |steps| ensures SparesStored(w, Start(names), steps, n) {
      FinishedSpares(w, names, steps, n);
    }
    NeverRelistedIff(w, names, steps);
    WrittenOnce(w, names, steps);
  }

  lemma FinishedSpares(w: World, names: Names, steps: seq<Step>, n: nat)
    requires ValidNames(names) && n < |steps| && AllFinished(w, Start(names), steps)
    ensures SparesStored(w, Start(names), steps, n)
  {
    hide Exec, Inv, AsksPast, Persists, BeforeSlice, AllFinished;
    var s := Exec(w, Start(names), steps[..n]);
    FinishedAsksPast(w, names, steps, n);
    Reachable(w, names, steps[..n]);
    if Persists(w, s, steps[n]) {
      PersistsPast(w, s, steps[n]);
    }
  }

  lemma PersistsPast(w: World, s: Sys, step: Step)
    requires Inv(w, s) && AsksPast(w, s) && Persists(w, s, step)
    ensures BeforeSlice(w, s)
  {
    hide MirrorInv, CountInv, HistoryInv, StoredBefore, IsMetadata;
  }

  lemma {:induction false} FinishedAsksPast(w: World, names: Names, steps: seq<Step>, n: nat)
    requires ValidNames(names) && n <= |steps| && AllFinished(w, Start(names), steps)
    ensures AsksPast(w, Exec(w, Start(names), steps[..n]))
  {
    hide EndsUnfinished, Next, Inv;
    if n == 0 {
      assert steps[..0] == [];
    } else {
      hide AsksPast, Exec;
      assert !EndsUnfinished(Exec(w, Start(names), steps[..n - 1]), steps[n - 1]);
      hide AllFinished;
      FinishedAsksPast(w, names, steps, n - 1);
      Reachable(w, names, steps[..n - 1]);
      ExecPrefix(w, Start(names), steps, n - 1);
      NextAsksPast(w, Exec(w, Start(names), steps[..n - 1]), steps[n - 1]);
    }
  }

  // ----- A stored update that is listed again -----

  /** A log of one update. */
  function OneUpdate(cases: CaseTable, id: UpdateId, p: Payload): World {
    World(cases, map[id := Entry(0, p)])
  }

  lemma OneAnswer(cases: CaseTable, id: UpdateId, p: Payload)
    ensures IsMetadata(OneUpdate(cases, id, p), 0, 1, [(0, id)])
    ensures RowIds([(0, id)]) == {id}
  {
    assert (0, id) in [(0, id)];
  }

  lemma OneListed(id: UpdateId)
    ensures InIdOrder({id}) == [id]
  {
    InIdOrderLists({id});
    var list := InIdOrder({id});
    hide InIdOrder;
    assert multiset(list) == multiset{id};
    assert |list| == |multiset(list)| == 1;
    assert list[0] in multiset(list);
  }

  /** A worker that holds the lease of a run that asks from the start, and what the tables are. */
  predicate InRun(s: Sys, token: Token, pc: Pc, t: UpdateTables) {
    && s.horizon == 1 && token in s.issued && s.store.updates == t && s.store.sync.metadataSlice == 0
    && Active(s.store, token) && token in s.workers && s.workers[token] == Worker(0, 0, 0, pc, false)
    && s.store.sync.retryAttempt == 0
  }

  lemma BeginAndAsk(cases: CaseTable, id: UpdateId, p: Payload, s: Sys, token: Token)
    requires s.horizon == 1 && token !in s.issued && s.store.sync.metadataSlice == 0
    requires !s.store.sync.running && s.store.sync.phase == Idle && s.store.sync.retryAttempt == 0
    ensures var w := OneUpdate(cases, id, p);
            var t := Next(w, Next(w, s, BeginRun(token, 0)), FetchMetadata(token));
            InRun(t, token, HaveMetadata(1), s.store.updates) && t.issued == s.issued + {token}
  {
  }

  lemma RegisterOne(cases: CaseTable, id: UpdateId, p: Payload, s: Sys, token: Token)
    requires InRun(s, token, HaveMetadata(1), s.store.updates)
    ensures var w := OneUpdate(cases, id, p);
            var t := Next(w, s, PersistMetadata(token, [(0, id)]));
            InRun(t, token, Registered, RegisterTables(s.store.updates, [(0, id)], true)) && t.issued == s.issued
  {
    OneAnswer(cases, id, p);
    hide IsMetadata, RegisterTables, Done;
  }

  lemma ListAndDownload(cases: CaseTable, id: UpdateId, p: Payload, s: Sys, token: Token)
    requires InRun(s, token, Registered, s.store.updates) && s.store.updates.unregistered == {id}
    ensures var w := OneUpdate(cases, id, p);
            var t := Next(w, Next(w, s, ListPending(token)), Download(token, [id], true));
            InRun(t, token, Downloading([], [id]), s.store.updates) && t.issued == s.issued
  {
    OneListed(id);
    hide InIdOrder;
    assert [id][..1] == [id] && [id][1..] == [] && [] + [id] == [id];
  }

  lemma FinalizeAndFail(cases: CaseTable, id: UpdateId, p: Payload, s: Sys, token: Token)
    requires InRun(s, token, Downloading([], [id]), s.store.updates)
    ensures var w := OneUpdate(cases, id, p);
            var t := Next(w, Next(w, s, FinalizeBatch(token)), FailRun(token, ""));
            && t.horizon == 1 && t.issued == s.issued && t.store.sync.metadataSlice == 0
            && !t.store.sync.running && t.store.sync.phase == Idle && t.store.sync.retryAttempt == 0
            && (id, KindOf(p)) in t.store.updates.stored
  {
    var w := OneUpdate(cases, id, p);
    StoreFromLog(w, s.store.updates.stored, [id]);
    assert Items(w, [id]) != [] && id in [id];
    hide Items, Supported, StoreItems, FailureText;
  }

  lemma ExecTwo(w: World, s: Sys, steps: seq<Step>, a: Step, b: Step)
    ensures Exec(w, s, steps + [a, b]) == Next(w, Next(w, Exec(w, s, steps), a), b)
  {
    hide Next;
    assert steps + [a, b] == (steps + [a]) + [b];
    ExecSnoc(w, s, steps, a);
    ExecSnoc(w, s, steps + [a], b);
  }

  /** The log has one update.  A first run stores its body and then fails; the next run registers its metadata
      again, and the stored update is waiting once more. */
  lemma FailedRunRelists(cases: CaseTable, names: Names, id: UpdateId, p: Payload, token: Token, later: Token)
    returns (steps: seq<Step>)
    requires token != later
    ensures var t := Exec(OneUpdate(cases, id, p), Start(names), steps).store.updates;
            !Apart(t) && id in t.unregistered && id in StoredIds(t)
  {
    var w := OneUpdate(cases, id, p);
    steps := FailedRun(cases, names, id, p, token);
    var failed := Exec(w, Start(names), steps);
    hide Exec, Next, StoredIds, InRun;
    BeginAndAsk(cases, id, p, failed, later);
    ExecTwo(w, Start(names), steps, BeginRun(later, 0), FetchMetadata(later));
    steps := steps + [BeginRun(later, 0), FetchMetadata(later)];
    var asked := Exec(w, Start(names), steps);
    AskedTables(asked, later, failed.store.updates);
    RegisterOne(cases, id, p, asked, later);
    ExecSnoc(w, Start(names), steps, PersistMetadata(later, [(0, id)]));
    steps := steps + [PersistMetadata(later, [(0, id)])];
    Relisted(Exec(w, Start(names), steps), later, asked.store.updates, id, p);
  }

  lemma AskedTables(s: Sys, token: Token, t: UpdateTables)
    requires InRun(s, token, HaveMetadata(1), t)
    ensures s.store.updates == t && InRun(s, token, HaveMetadata(1), s.store.updates)
  {
  }

  lemma Relisted(s: Sys, token: Token, t: UpdateTables, id: UpdateId, p: Payload)
    requires InRun(s, token, Registered, RegisterTables(t, [(0, id)], true)) && (id, KindOf(p)) in t.stored
    ensures id in s.store.updates.unregistered && id in StoredIds(s.store.updates) && !Apart(s.store.updates)
  {
    assert (0, id) in [(0, id)] && id in RowIds([(0, id)]);
    assert (id, KindOf(p)) in s.store.updates.stored;
  }

  lemma FailedRun(cases: CaseTable, names: Names, id: UpdateId, p: Payload, token: Token) returns (steps: seq<Step>)
    ensures var s := Exec(OneUpdate(cases, id, p), Start(names), steps);
            && s.horizon == 1 && s.issued == {token} && s.store.sync.metadataSlice == 0
            && !s.store.sync.running && s.store.sync.phase == Idle && s.store.sync.retryAttempt == 0
            && (id, KindOf(p)) in s.store.updates.stored
  {
    var w, first := OneUpdate(cases, id, p), Start(names);
    steps := [Publish(1)];
    ExecSnoc(w, first, [], Publish(1));
    assert [] + [Publish(1)] == steps;
    var s := Exec(w, first, steps);
    assert s == first.(horizon := 1);
    hide Exec, Next, InRun, Start;
    BeginAndAsk(cases, id, p, s, token);
    ExecTwo(w, first, steps, BeginRun(token, 0), FetchMetadata(token));
    steps := steps + [BeginRun(token, 0), FetchMetadata(token)];
    var asked := Exec(w, first, steps);
    AskedTables(asked, token, s.store.updates);
    RegisterOne(cases, id, p, asked, token);
    ExecSnoc(w, first, steps, PersistMetadata(token, [(0, id)]));
    steps := steps + [PersistMetadata(token, [(0, id)])];
    var registered := Exec(w, first, steps);
    OneWaiting(registered, token, asked.store.updates, id);
    ListAndDownload(cases, id, p, registered, token);
    ExecTwo(w, first, steps, ListPending(token), Download(token, [id], true));
    steps := steps + [ListPending(token), Download(token, [id], true)];
    var loaded := Exec(w, first, steps);
    LoadedTables(loaded, token, registered.store.updates, id);
    FinalizeAndFail(cases, id, p, loaded, token);
    ExecTwo(w, first, steps, FinalizeBatch(token), FailRun(token, ""));
    steps := steps + [FinalizeBatch(token), FailRun(token, "")];
  }

  lemma OneWaiting(s: Sys, token: Token, t: UpdateTables, id: UpdateId)
    requires InRun(s, token, Registered, RegisterTables(t, [(0, id)], true))
    ensures InRun(s, token, Registered, s.store.updates) && s.store.updates.unregistered == {id}
  {
    assert (0, id) in [(0, id)] && RowIds([(0, id)]) == {id};
  }

  lemma LoadedTables(s: Sys, token: Token, t: UpdateTables, id: UpdateId)
    requires InRun(s, token, Downloading([], [id]), t)
    ensures InRun(s, token, Downloading([], [id]), s.store.updates)
  {
  }
}
