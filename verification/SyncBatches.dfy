/** The batches of bodies that a run of the system writes, and what the stored bodies have to do with them. */
module SyncBatches {
  import opened Tags
  import opened Repository
  import opened Replay
  import opened SyncSystem
  import opened SyncInvariants
  import opened SyncTheorems

  /** The batch a step writes: that of a finalize transaction that goes through. */
  function BatchWritten(w: World, s: Sys, step: Step): seq<seq<UpdateId>> {
    if step.FinalizeBatch? && Has(s, step.token) && s.workers[step.token].pc.Downloading?
       && DoFinalize(w, s, step.token).workers[step.token].pc.Flushed?
    then [s.workers[step.token].pc.batch] else []
  }

  /** The batches written by a run, in order. */
  function BatchesWritten(w: World, s: Sys, steps: seq<Step>): seq<seq<UpdateId>> {
    if steps == [] then []
    else
      var init := steps[..|steps| - 1];
      BatchesWritten(w, s, init) + BatchWritten(w, Exec(w, s, init), steps[|steps| - 1])
  }

  lemma BatchesSnoc(w: World, s: Sys, steps: seq<Step>, step: Step)
    ensures BatchesWritten(w, s, steps + [step]) ==
            BatchesWritten(w, s, steps) + BatchWritten(w, Exec(w, s, steps), step)
    ensures !step.FinalizeBatch? ==> BatchesWritten(w, s, steps + [step]) == BatchesWritten(w, s, steps)
  {
    hide Exec, DoFinalize;
    assert (steps + [step])[..|steps|] == steps;
  }

  function Concat(batches: seq<seq<UpdateId>>): seq<UpdateId> {
    if batches == [] then [] else Concat(batches[..|batches| - 1]) + batches[|batches| - 1]
  }

  lemma ConcatSnoc(batches: seq<seq<UpdateId>>, batch: seq<UpdateId>)
    ensures Concat(batches + [batch]) == Concat(batches) + batch
  {
    assert (batches + [batch])[..|batches|] == batches;
  }

  lemma BatchedAppend(a: seq<UpdateId>, b: seq<UpdateId>)
    ensures Batched(a + b) == Batched(a) + Batched(b)
  {
  }

  // ----- Which bodies are stored -----

  function StoredIds(t: UpdateTables): set<UpdateId> {
    set k | k in t.stored :: k.0
  }

  /** A batch of at most 27 updates that were waiting for their bodies, none of them twice. */
  predicate WaitedFor(t: UpdateTables, batch: seq<UpdateId>) {
    0 < |batch| < BATCH_SIZE + PARALLELISM && multiset(batch) <= multiset(t.unregistered)
  }

  /** A finalize step either writes the batch of the lease holder or leaves the tables as they are. */
  lemma FinalizeOutcome(w: World, s: Sys, token: Token)
    ensures BatchWritten(w, s, FinalizeBatch(token)) == [] ==>
              DoFinalize(w, s, token).store.updates == s.store.updates
    ensures BatchWritten(w, s, FinalizeBatch(token)) != [] ==>
              && Has(s, token) && Active(s.store, token) && s.workers[token].pc.Downloading?
              && var batch := s.workers[token].pc.batch;
                 && batch != [] && (forall i | 0 <= i < |batch| :: batch[i] in w.log)
                 && BatchWritten(w, s, FinalizeBatch(token)) == [batch]
                 && Supported(Items(w, batch))
                 && DoFinalize(w, s, token).store.updates == StoreTables(s.store.updates, Items(w, batch))
  {
    hide Supported, StoreTables;
    if Has(s, token) && s.workers[token].pc.Downloading? {
      var batch := s.workers[token].pc.batch;
      if batch != [] && forall i | 0 <= i < |batch| :: batch[i] in w.log {
        assert |Items(w, batch)| == |batch|;
        hide Items;
      }
    }
  }

  lemma FinalizeStores(w: World, s: Sys, token: Token)
    requires Inv(w, s)
    ensures var t, written := DoFinalize(w, s, token).store.updates, BatchWritten(w, s, FinalizeBatch(token));
            && StoredIds(t) == StoredIds(s.store.updates) + Batched(Concat(written))
            && forall b | b in written :: WaitedFor(s.store.updates, b)
  {
    FinalizeOutcome(w, s, token);
    hide MirrorInv, CountInv, HistoryInv, DoFinalize, BatchWritten, StoredIds, Batched, Supported, Items, StoreTables;
    if BatchWritten(w, s, FinalizeBatch(token)) == [] {
      NothingWritten();
    } else {
      var Downloading(pending, batch) := s.workers[token].pc;
      StoredMore(w, s.store.updates, batch);
      ConcatOne(batch);
      assert multiset(batch) <= multiset(pending) + multiset(batch);
    }
  }

  lemma NothingWritten()
    ensures Batched(Concat([])) == {}
  {
  }

  lemma ConcatOne(batch: seq<UpdateId>)
    ensures Concat([batch]) == batch
  {
    assert [batch][..0] == [];
  }

  lemma StoredMore(w: World, t: UpdateTables, batch: seq<UpdateId>)
    requires forall i | 0 <= i < |batch| :: batch[i] in w.log
    ensures Supported(Items(w, batch))
    ensures StoredIds(StoreTables(t, Items(w, batch))) == StoredIds(t) + Batched(batch)
  {
    StoreFromLog(w, t.stored, batch);
    var after := StoreTables(t, Items(w, batch));
    forall id | id in Batched(batch) ensures id in StoredIds(after) {
      assert (id, KindOf(w.log[id].payload)) in after.stored;
    }
    forall k | k in t.stored ensures k.0 in StoredIds(after) {
      assert k in after.stored;
    }
  }

  lemma PersistStores(w: World, s: Sys, token: Token, rows: seq<(nat, UpdateId)>)
    requires Inv(w, s)
    ensures StoredIds(DoPersist(w, s, token, rows).store.updates) == StoredIds(s.store.updates)
  {
    hide MirrorInv, CountInv, HistoryInv;
    if Has(s, token) && s.workers[token].pc.HaveMetadata? && Active(s.store, token)
       && IsMetadata(w, s.workers[token].slice, s.workers[token].pc.upto, rows)
    {
      SliceBound(w, s);
      PersistMirror(w, s.store.updates, s.known, s.workers[token].pc.upto, Applied(s.history), s.workers[token].slice,
                    rows);
    }
  }

  lemma ApplyStores(w: World, s: Sys, token: Token, names: Names)
    ensures StoredIds(DoApply(w, s, token, names).store.updates) == StoredIds(s.store.updates)
  {
    hide ApplyContent, Obstacle, Interned, NeededHashes, NeededTags, Done;
    assert DoApply(w, s, token, names).store.updates.stored.Keys == s.store.updates.stored.Keys;
  }

  /** What a step writes is what it adds to the stored bodies. */
  lemma StepStores(w: World, s: Sys, step: Step)
    requires Inv(w, s)
    ensures StoredIds(Next(w, s, step).store.updates) ==
            StoredIds(s.store.updates) + Batched(Concat(BatchWritten(w, s, step)))
    ensures forall b | b in BatchWritten(w, s, step) :: WaitedFor(s.store.updates, b)
  {
    hide Inv, DoRecover, DoBegin, DoFetch, DoPersist, DoListPending, DoDownload, DoFinalize, DoListProcessable, DoApply,
         DoResume, DoComplete, DoCancel, DoFail, DoThrottle, DoStage, WaitedFor, StoredIds;
    NothingWritten();
    match step
    case FinalizeBatch(token) => FinalizeStores(w, s, token);
    case PersistMetadata(token, rows) => PersistStores(w, s, token, rows);
    case ApplyNext(token, names) => ApplyStores(w, s, token, names);
    case _ => OtherStepStores(w, s, step);
  }

  lemma OtherStepStores(w: World, s: Sys, step: Step)
    requires !step.FinalizeBatch? && !step.PersistMetadata? && !step.ApplyNext?
    ensures Next(w, s, step).store.updates == s.store.updates
  {
    hide NextIndex, Processable, RegisterTables, StoreTables, Supported, Obstacle, InIdOrder, Items,
         Interned, IsMetadata, FailureText, StagedPairs, CleanTags, NotEmpty, NamesExtend, ValidNames;
  }

  /** In every run from an empty repository a body is stored exactly when some batch wrote it: none appears by
      other means and none is lost.  Each batch has between 1 and 27 updates and none of them twice. */
  lemma {:induction false} StoredIffWritten(w: World, names: Names, steps: seq<Step>)
    requires ValidNames(names)
    ensures var written := BatchesWritten(w, Start(names), steps);
            && StoredIds(Exec(w, Start(names), steps).store.updates) == Batched(Concat(written))
            && forall b | b in written :: 0 < |b| < BATCH_SIZE + PARALLELISM && NoneTwice(b)
  {
    hide Next, Inv, WaitedFor, BatchWritten;
    if steps == [] {
      assert StoredIds(Start(names).store.updates) == {};
    } else {
      var init, last := steps[..|steps| - 1], steps[|steps| - 1];
      StoredIffWritten(w, names, init);
      Reachable(w, names, init);
      var s := Exec(w, Start(names), init);
      StepStores(w, s, last);
      WrittenOne(w, s, last);
      ConcatAppend(BatchesWritten(w, Start(names), init), BatchWritten(w, s, last));
      BatchedAppend(Concat(BatchesWritten(w, Start(names), init)), Concat(BatchWritten(w, s, last)));
    }
  }

  predicate NoneTwice(batch: seq<UpdateId>) {
    forall id | id in batch :: multiset(batch)[id] == 1
  }

  lemma WrittenOne(w: World, s: Sys, step: Step)
    requires Inv(w, s)
    ensures |BatchWritten(w, s, step)| <= 1
    ensures forall b | b in BatchWritten(w, s, step) :: 0 < |b| < BATCH_SIZE + PARALLELISM && NoneTwice(b)
  {
    hide Inv, Next, WaitedFor, NoneTwice, DoFinalize;
    StepStores(w, s, step);
    forall b | b in BatchWritten(w, s, step) ensures NoneTwice(b) {
      WaitedForNoneTwice(s.store.updates, b);
    }
    forall b | b in BatchWritten(w, s, step) ensures 0 < |b| < BATCH_SIZE + PARALLELISM {
      WaitedForNoneTwice(s.store.updates, b);
    }
  }

  lemma WaitedForNoneTwice(t: UpdateTables, batch: seq<UpdateId>)
    requires WaitedFor(t, batch)
    ensures NoneTwice(batch) && 0 < |batch| < BATCH_SIZE + PARALLELISM
  {
    forall id | id in batch ensures multiset(batch)[id] == 1 {
      assert multiset(batch)[id] <= multiset(t.unregistered)[id];
    }
  }

  lemma ConcatAppend(batches: seq<seq<UpdateId>>, more: seq<seq<UpdateId>>)
    requires |more| <= 1
    ensures Concat(batches + more) == Concat(batches) + Concat(more)
  {
    if more == [] {
      assert batches + more == batches;
      assert Concat(more) == [];
    } else {
      hide Concat;
      ConcatOne(more[0]);
      ConcatSnoc(batches, more[0]);
      assert more == [more[0]];
    }
  }
}
