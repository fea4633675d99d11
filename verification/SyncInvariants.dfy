/** What every reachable state of the sync protocol satisfies, and that every step keeps it. */
module SyncInvariants {
  import opened Interning
  import opened UpdateOrder
  import opened Repository
  import opened Replay
  import opened SyncSystem

  // ----- The invariants -----

  /** Running, holding a token and being in the syncing phase are the same thing; retries are counted. */
  predicate LeaseInv(s: Sys) {
    var sync := s.store.sync;
    && (sync.running <==> sync.token.Some?)
    && (sync.running <==> sync.phase == Syncing)
    && (sync.token.Some? ==> sync.token.value in s.issued)
    && s.workers.Keys <= s.issued
    && (sync.phase == Idle ==> sync.retryAt == 0 && sync.retryAttempt == 0)
    && (sync.phase == Retrying ==> 1 <= sync.retryAttempt)
    && 0 <= sync.retryAttempt <= MAX_BUSY_RETRIES
    && s.streak == sync.retryAttempt
  }

  /** An update is processed once it has been applied. */
  predicate RowOk(w: World, t: UpdateTables, applied: set<Rank>, k: (UpdateId, ContentType))
    requires k in t.stored
  {
    && k.0 in t.registered && k.0 in w.log
    && k.1 == KindOf(w.log[k.0].payload)
    && t.stored[k].body == w.log[k.0].payload && t.stored[k].mime == MimeOf(w.log[k.0].payload)
    && (t.stored[k].processed <==> RankOf(w, k.0) in applied)
  }

  predicate IsStored(w: World, t: UpdateTables, id: UpdateId) {
    id in w.log && (id, KindOf(w.log[id].payload)) in t.stored
  }

  /** The update tables mirror the published log: which updates are known, which have a stored body, which
      have been applied, and that the applied ones are a prefix of the log in its order. */
  predicate MirrorInv(w: World, t: UpdateTables, known: nat, applied: seq<Rank>) {
    && t.registered == Visible(w, known)
    && t.unregistered <= t.registered.Keys
    && (forall id | id in t.registered :: id in t.unregistered || IsStored(w, t, id))
    && (forall k | k in t.stored :: RowOk(w, t, Elements(applied), k))
    && (forall r | r in applied :: IsStored(w, t, r.id) && r == RankOf(w, r.id))
    && applied <= LogOrder(w, known)
  }

  predicate CountInv(sync: SyncState, t: UpdateTables) {
    && sync.downloaded == |t.stored|
    && sync.definitionsDone == |Done(t.stored, Definitions)|
    && sync.contentDone == |Done(t.stored, Mappings)|
    && sync.metadataSlice <= NextIndex(t.registered)
  }

  predicate FromTheLog(w: World, history: seq<Event>) {
    forall e | e in history && e.Remote? :: e.rank.id in w.log && e.payload == w.log[e.rank.id].payload
  }

  predicate HistoryInv(w: World, content: Content, history: seq<Event>) {
    FromTheLog(w, history) && Represents(content, ReplayAll(w.cases, history))
  }

  /** What the holder of the lease knows about the tables. */
  predicate WorkerInv(s: Sys, worker: Worker) {
    && worker.slice == s.store.sync.metadataSlice
    && worker.attempt == s.store.sync.retryAttempt
    && 0 <= worker.seen <= s.store.sync.retryAttempt
    && match worker.pc
       case HaveMetadata(upto) => s.known <= upto <= s.horizon && !worker.failing
       case Downloading(pending, batch) =>
         && multiset(pending) + multiset(batch) <= multiset(s.store.updates.unregistered)
         && (!worker.failing ==> multiset(pending) + multiset(batch) == multiset(s.store.updates.unregistered))
         && |batch| < BATCH_SIZE + PARALLELISM
       case Flushed(pending) =>
         && multiset(pending) <= multiset(s.store.updates.unregistered)
         && (!worker.failing ==> multiset(pending) == multiset(s.store.updates.unregistered))
       case Applying(pending, todo, more) =>
         && multiset(pending) <= multiset(s.store.updates.unregistered)
         && (!worker.failing ==> multiset(pending) == multiset(s.store.updates.unregistered))
         && todo == Processable(s.store.updates)
         && (!more ==> pending == [] && !worker.failing)
       case Drained => s.store.updates.unregistered == {} && Unprocessed(s.store.updates.stored) == {}
       case Started => !worker.failing
       case Registered => !worker.failing
       case Broken => true
       case Ended => true
  }

  predicate HolderInv(s: Sys) {
    s.store.sync.token.Some? && s.store.sync.token.value in s.workers ==>
      WorkerInv(s, s.workers[s.store.sync.token.value])
  }

  predicate Inv(w: World, s: Sys) {
    && LeaseInv(s)
    && s.known <= s.horizon
    && MirrorInv(w, s.store.updates, s.known, Applied(s.history))
    && CountInv(s.store.sync, s.store.updates)
    && HistoryInv(w, s.store.content, s.history)
    && HolderInv(s)
  }

  // ----- The start -----

  lemma StartInv(w: World, names: Names)
    requires ValidNames(names)
    ensures Inv(w, Start(names))
  {
    var s := Start(names);
    StartMirror(w, names);
    StartReplica(w, names);
    hide MirrorInv, CountInv, HistoryInv, ValidNames;
  }

  lemma StartMirror(w: World, names: Names)
    ensures var s := Start(names);
            MirrorInv(w, s.store.updates, 0, Applied(s.history)) && CountInv(s.store.sync, s.store.updates)
  {
    var s := Start(names);
    assert LogOrder(w, 0) == [] by { NoElements(LogOrder(w, 0)); }
    assert Indexed(s.store.updates.registered) == {};
    assert Done(s.store.updates.stored, Definitions) == {} && Done(s.store.updates.stored, Mappings) == {};
  }

  lemma StartReplica(w: World, names: Names)
    requires ValidNames(names)
    ensures HistoryInv(w, Start(names).store.content, Start(names).history)
  {
    assert Represents(Start(names).store.content, EMPTY_REPLICA);
  }

  // ----- Lease transitions -----

  lemma RecoverInv(w: World, s: Sys)
    requires Inv(w, s)
    ensures Inv(w, DoRecover(s))
  {
    hide MirrorInv, HistoryInv;
  }

  lemma BeginInv(w: World, s: Sys, token: Token, now: int)
    requires Inv(w, s)
    ensures Inv(w, DoBegin(s, token, now))
  {
    hide MirrorInv, HistoryInv;
  }

  lemma FetchInv(w: World, s: Sys, token: Token)
    requires Inv(w, s)
    ensures Inv(w, DoFetch(s, token))
  {
    hide MirrorInv, CountInv, HistoryInv;
  }

  lemma SliceBound(w: World, s: Sys)
    requires Inv(w, s)
    ensures s.store.sync.metadataSlice <= NextIndex(s.store.updates.registered) <= s.known
  {
  }

  /** A step that ends the lease and leaves the tables alone keeps everything. */
  lemma EndLeaseInv(w: World, s: Sys, t: Sys)
    requires Inv(w, s) && LeaseInv(t)
    requires t.store.updates == s.store.updates && t.store.content == s.store.content
    requires t.history == s.history && t.known == s.known && t.horizon == s.horizon
    requires t.store.sync.downloaded == s.store.sync.downloaded
    requires t.store.sync.definitionsDone == s.store.sync.definitionsDone
    requires t.store.sync.contentDone == s.store.sync.contentDone
    requires t.store.sync.metadataSlice <= NextIndex(t.store.updates.registered)
    requires t.store.sync.token == None
    ensures Inv(w, t)
  {
    hide MirrorInv, HistoryInv;
  }

  lemma GotoInv(w: World, s: Sys, token: Token, pc: Pc)
    requires Inv(w, s) && token in s.workers
    requires Active(s.store, token) ==> WorkerInv(s, s.workers[token].(pc := pc))
    ensures Inv(w, Goto(s, token, pc))
  {
    hide MirrorInv, CountInv, HistoryInv;
  }

  lemma CompleteInv(w: World, s: Sys, token: Token)
    requires Inv(w, s)
    ensures Inv(w, DoComplete(s, token))
  {
    hide MirrorInv, HistoryInv;
    if Has(s, token) && s.workers[token].pc == Drained {
      if Active(s.store, token) {
        EndLeaseInv(w, s, DoComplete(s, token));
      } else {
        GotoInv(w, s, token, Broken);
      }
    }
  }

  lemma CancelInv(w: World, s: Sys, token: Token)
    requires Inv(w, s)
    ensures Inv(w, DoCancel(s, token))
  {
    hide MirrorInv, HistoryInv;
    if Has(s, token) {
      if Active(s.store, token) {
        EndLeaseInv(w, s, DoCancel(s, token));
      } else {
        GotoInv(w, s, token, Ended);
      }
    }
  }

  lemma FailInv(w: World, s: Sys, token: Token, text: string)
    requires Inv(w, s)
    ensures Inv(w, DoFail(s, token, text))
  {
    hide MirrorInv, HistoryInv;
    if Has(s, token) {
      if Active(s.store, token) {
        EndLeaseInv(w, s, DoFail(s, token, text));
      } else {
        GotoInv(w, s, token, Ended);
      }
    }
  }

  /** The holder's next attempt is one more than the attempts so far. */
  lemma HolderAttempt(s: Sys, token: Token)
    requires HolderInv(s) && Active(s.store, token) && token in s.workers
    ensures NextAttempt(s.workers[token]) == s.store.sync.retryAttempt + 1
  {
  }

  lemma ThrottleInv(w: World, s: Sys, token: Token, retryAt: int, text: string)
    requires Inv(w, s)
    ensures Inv(w, DoThrottle(s, token, retryAt, text))
  {
    hide MirrorInv, HistoryInv;
    if Has(s, token) {
      if Active(s.store, token) {
        HolderAttempt(s, token);
        var t := DoThrottle(s, token, retryAt, text);
        assert t.store.updates == s.store.updates && t.store.content == s.store.content;
        assert LeaseInv(t);
        EndLeaseInv(w, s, t);
      } else {
        GotoInv(w, s, token, Broken);
      }
    }
  }

  lemma CrashInv(w: World, s: Sys, token: Token)
    requires Inv(w, s)
    ensures Inv(w, s.(workers := s.workers - {token}))
  {
    hide MirrorInv, CountInv, HistoryInv;
  }

  // ----- Registering metadata -----

  predicate FromLog(w: World, updates: map<UpdateId, nat>) {
    forall id | id in updates :: id in w.log && updates[id] == w.log[id].index
  }

  lemma {:induction false} RegisterFromLog(w: World, updates: map<UpdateId, nat>, rows: seq<(nat, UpdateId)>)
    requires FromLog(w, updates)
    requires forall row | row in rows :: row.1 in w.log && row.0 == w.log[row.1].index
    ensures FromLog(w, Register(updates, rows))
    ensures Register(updates, rows).Keys == updates.Keys + RowIds(rows)
  {
    if rows == [] {
      assert RowIds(rows) == {};
    } else {
      var init, last := rows[..|rows| - 1], rows[|rows| - 1];
      assert rows == init + [last];
      RegisterFromLog(w, updates, init);
      assert RowIds(rows) == RowIds(init) + {last.1} by {
        assert forall row :: row in rows <==> row in init || row == last;
        forall id | id in RowIds(init) + {last.1} ensures id in RowIds(rows) {
          if id == last.1 { assert last in rows; } else { var row :| row in init && row.1 == id; assert row in rows; }
        }
      }
    }
  }

  /** Registering an answer brings the table up to the answer's horizon, whichever way it is registered. */
  lemma RegisterMetadata(w: World, known: nat, since: nat, upto: nat, rows: seq<(nat, UpdateId)>, replace: bool)
    requires known <= upto && IsMetadata(w, since, upto, rows)
    requires if replace then since == 0 else since <= known
    ensures Register(if replace then map[] else Visible(w, known), rows) == Visible(w, upto)
    ensures RowIds(rows) == set id | id in w.log && since <= w.log[id].index < upto
  {
    var before := if replace then map[] else Visible(w, known);
    RegisterFromLog(w, before, rows);
    var after := Register(before, rows);
    forall id | id in w.log && since <= w.log[id].index < upto ensures id in RowIds(rows) {
      assert (w.log[id].index, id) in rows;
    }
    var all := Visible(w, upto);
    assert forall id :: id in after <==> id in all;
    assert forall id | id in after :: after[id] == all[id];
  }

  lemma NextIndexMonotone(a: map<UpdateId, nat>, b: map<UpdateId, nat>)
    requires forall id | id in a :: id in b && b[id] == a[id]
    ensures NextIndex(a) <= NextIndex(b)
  {
  }

  lemma LogGrows(w: World, known: nat, upto: nat)
    requires known <= upto
    ensures LogOrder(w, known) <= LogOrder(w, upto)
  {
    forall a, b | a in LogRanks(w, upto) && b in LogRanks(w, known) && Less(a, b) ensures a in LogRanks(w, known) {
      assert a.index <= b.index;
    }
    SortedPrefix(LogRanks(w, known), LogRanks(w, upto));
  }

  lemma PersistMirror(w: World, t: UpdateTables, known: nat, upto: nat, applied: seq<Rank>,
                      since: nat, rows: seq<(nat, UpdateId)>)
    requires MirrorInv(w, t, known, applied)
    requires known <= upto && since <= known && IsMetadata(w, since, upto, rows)
    ensures var after := RegisterTables(t, rows, since == 0);
            && MirrorInv(w, after, upto, applied)
            && after.stored == t.stored && NextIndex(t.registered) <= NextIndex(after.registered)
  {
    var replace := since == 0;
    RegisterMetadata(w, known, since, upto, rows, replace);
    LogGrows(w, known, upto);
    var after := RegisterTables(t, rows, replace);
    PersistKeepsStored(w, t, known, applied, rows, replace);
    NextIndexMonotone(t.registered, after.registered);
    assert t.registered.Keys <= after.registered.Keys;
    RowsCarryOver(w, t, after, known, applied);
  }

  lemma RowsCarryOver(w: World, t: UpdateTables, after: UpdateTables, known: nat, applied: seq<Rank>)
    requires MirrorInv(w, t, known, applied)
    requires after.stored == t.stored && t.registered.Keys <= after.registered.Keys
    ensures forall k | k in after.stored :: RowOk(w, after, Elements(applied), k)
    ensures forall r | r in applied :: IsStored(w, after, r.id) && r == RankOf(w, r.id)
  {
    forall k | k in after.stored ensures RowOk(w, after, Elements(applied), k) {
      assert RowOk(w, t, Elements(applied), k);
    }
    forall r | r in applied ensures IsStored(w, after, r.id) && r == RankOf(w, r.id) {
      assert IsStored(w, t, r.id);
    }
  }

  /** Replacing the metadata forgets no body: the answer lists every known update. */
  lemma PersistKeepsStored(w: World, t: UpdateTables, known: nat, applied: seq<Rank>, rows: seq<(nat, UpdateId)>,
                           replace: bool)
    requires MirrorInv(w, t, known, applied)
    requires replace ==> t.registered.Keys <= RowIds(rows)
    requires RegisterTables(t, rows, replace).registered.Keys <= RowIds(rows) + t.registered.Keys
    ensures RegisterTables(t, rows, replace).stored == t.stored
    ensures var after := RegisterTables(t, rows, replace);
            && after.unregistered == RowIds(rows) + (if replace then {} else t.unregistered)
            && (forall id | id in after.registered :: id in after.unregistered || IsStored(w, after, id))
  {
    var after := RegisterTables(t, rows, replace);
    assert after.stored == t.stored by {
      assert forall k | k in t.stored :: RowOk(w, t, Elements(applied), k);
    }
    forall id | id in after.registered ensures id in after.unregistered || IsStored(w, after, id) {
      assert id in t.registered && id !in t.unregistered ==> IsStored(w, t, id);
    }
  }

  /** A step that changes tables under a live lease: the parts of the invariant, put together. */
  lemma ProgressInv(w: World, s: Sys, t: Sys, token: Token)
    requires Inv(w, s) && Active(s.store, token) && token in t.workers
    requires t.store.sync == s.store.sync.(downloaded := t.store.sync.downloaded,
                                           definitionsDone := t.store.sync.definitionsDone,
                                           contentDone := t.store.sync.contentDone)
    requires t.workers.Keys == s.workers.Keys && t.issued == s.issued && t.streak == s.streak
    requires t.known <= t.horizon
    requires MirrorInv(w, t.store.updates, t.known, Applied(t.history))
    requires CountInv(t.store.sync, t.store.updates)
    requires HistoryInv(w, t.store.content, t.history)
    requires WorkerInv(t, t.workers[token])
    ensures Inv(w, t)
  {
    hide MirrorInv, CountInv, HistoryInv;
  }

  lemma PersistInv(w: World, s: Sys, token: Token, rows: seq<(nat, UpdateId)>)
    requires Inv(w, s)
    ensures Inv(w, DoPersist(w, s, token, rows))
  {
    hide MirrorInv, CountInv, HistoryInv;
    if Has(s, token) && s.workers[token].pc.HaveMetadata?
       && IsMetadata(w, s.workers[token].slice, s.workers[token].pc.upto, rows)
    {
      if Active(s.store, token) {
        PersistStep(w, s, token, rows);
      } else {
        GotoInv(w, s, token, Broken);
      }
    }
  }

  lemma PersistStep(w: World, s: Sys, token: Token, rows: seq<(nat, UpdateId)>)
    requires Inv(w, s) && Active(s.store, token)
    requires Has(s, token) && s.workers[token].pc.HaveMetadata?
    requires IsMetadata(w, s.workers[token].slice, s.workers[token].pc.upto, rows)
    ensures Inv(w, DoPersist(w, s, token, rows))
  {
    hide MirrorInv, HistoryInv;
    var worker := s.workers[token];
    SliceBound(w, s);
    PersistMirror(w, s.store.updates, s.known, worker.pc.upto, Applied(s.history), worker.slice, rows);
    ProgressInv(w, s, DoPersist(w, s, token, rows), token);
  }

  // ----- Downloading -----

  lemma ListPendingInv(w: World, s: Sys, token: Token)
    requires Inv(w, s)
    ensures Inv(w, DoListPending(s, token))
  {
    hide MirrorInv, CountInv, HistoryInv;
    if Has(s, token) && s.workers[token].pc == Registered {
      InIdOrderLists(s.store.updates.unregistered);
      GotoInv(w, s, token, if Active(s.store, token) then Downloading(InIdOrder(s.store.updates.unregistered), [])
              else Broken);
    }
  }

  /** Sending the next hashes to the batch keeps the account of what is still to come. */
  lemma DownloadInv(w: World, s: Sys, token: Token, got: seq<UpdateId>, ok: bool)
    requires Inv(w, s)
    ensures Inv(w, DoDownload(s, token, got, ok))
  {
    hide MirrorInv, CountInv, HistoryInv;
    if Has(s, token) && s.workers[token].pc.Downloading? && !s.workers[token].failing {
      var Downloading(pending, batch) := s.workers[token].pc;
      var k := if |pending| < PARALLELISM then |pending| else PARALLELISM;
      if k > 0 && |batch| < BATCH_SIZE && multiset(got) <= multiset(pending[..k]) && (ok ==> |got| == k) {
        ChunkMultiset(pending, k, got);
        var worker := s.workers[token].(pc := Downloading(pending[k..], batch + got), failing := !ok);
        assert DoDownload(s, token, got, ok) == s.(workers := s.workers[token := worker]);
        assert Active(s.store, token) ==> WorkerInv(s, worker);
        WorkerUpdateInv(w, s, token, worker);
      }
    }
  }

  lemma WorkerUpdateInv(w: World, s: Sys, token: Token, worker: Worker)
    requires Inv(w, s) && token in s.workers
    requires Active(s.store, token) ==> WorkerInv(s, worker)
    ensures Inv(w, s.(workers := s.workers[token := worker]))
  {
    hide MirrorInv, CountInv, HistoryInv;
  }

  lemma ChunkMultiset(pending: seq<UpdateId>, k: nat, got: seq<UpdateId>)
    requires k <= |pending| && multiset(got) <= multiset(pending[..k])
    ensures multiset(pending[..k]) + multiset(pending[k..]) == multiset(pending)
    ensures |got| <= k
    ensures |got| == k ==> multiset(got) == multiset(pending[..k])
  {
    assert pending == pending[..k] + pending[k..];
    var rest := multiset(pending[..k]) - multiset(got);
    assert multiset(pending[..k]) == multiset(got) + rest;
    assert |multiset(pending[..k])| == k && |multiset(got)| == |got|;
  }

  lemma InBatch(pending: seq<UpdateId>, batch: seq<UpdateId>, ids: set<UpdateId>)
    requires multiset(pending) + multiset(batch) <= multiset(ids)
    ensures forall i | 0 <= i < |batch| :: batch[i] in ids
    ensures multiset(pending) <= multiset(ids - Batched(batch))
    ensures multiset(pending) + multiset(batch) == multiset(ids) ==> multiset(pending) == multiset(ids - Batched(batch))
  {
    forall id | id in batch ensures id in ids && id !in pending {
      assert multiset(batch)[id] >= 1 && multiset(ids)[id] <= 1;
      assert (multiset(pending) + multiset(batch))[id] <= multiset(ids)[id];
      assert multiset(pending)[id] == 0;
    }
    forall i | 0 <= i < |batch| ensures batch[i] in ids {
      assert batch[i] in batch;
    }
    forall id ensures multiset(pending)[id] <= multiset(ids - Batched(batch))[id]
      ensures multiset(pending) + multiset(batch) == multiset(ids)
              ==> multiset(pending)[id] == multiset(ids - Batched(batch))[id]
    {
      assert (multiset(pending) + multiset(batch))[id] <= multiset(ids)[id];
      assert id in batch <==> multiset(batch)[id] >= 1;
    }
  }

  function Batched(batch: seq<UpdateId>): set<UpdateId> {
    set id | id in batch
  }

  /** Storing bodies taken from the log adds unprocessed rows and never resets a processed one. */
  lemma {:induction false} StoreFromLog(w: World, stored: map<(UpdateId, ContentType), StoredUpdate>,
                                        batch: seq<UpdateId>)
    requires forall i | 0 <= i < |batch| :: batch[i] in w.log
    ensures Supported(Items(w, batch)) && ItemIds(Items(w, batch)) == Batched(batch)
    ensures var after := StoreItems(stored, Items(w, batch));
            && (forall k :: k in after <==> k in stored || (k.0 in batch && k.1 == KindOf(w.log[k.0].payload)))
            && (forall k | k in after ::
                 && (after[k].processed <==> k in stored && stored[k].processed)
                 && (k.0 in batch && k.1 == KindOf(w.log[k.0].payload) ==>
                       after[k].body == w.log[k.0].payload && after[k].mime == MimeOf(w.log[k.0].payload))
                 && (!(k.0 in batch && k.1 == KindOf(w.log[k.0].payload)) ==> after[k] == stored[k]))
    decreases |batch|
  {
    var items := Items(w, batch);
    forall id | id in Batched(batch) ensures id in ItemIds(items) {
      var i :| 0 <= i < |batch| && batch[i] == id;
      assert items[i] in items && items[i].id == id;
    }
    if batch != [] {
      var init, last := batch[..|batch| - 1], batch[|batch| - 1];
      assert batch == init + [last];
      StoreFromLog(w, stored, init);
      assert items[..|items| - 1] == Items(w, init);
      assert forall id :: id in batch <==> id in init || id == last;
    }
  }

  lemma FinalizeMirror(w: World, t: UpdateTables, known: nat, applied: seq<Rank>, batch: seq<UpdateId>)
    requires MirrorInv(w, t, known, applied)
    requires forall i | 0 <= i < |batch| :: batch[i] in w.log && batch[i] in t.unregistered
    ensures Supported(Items(w, batch))
    ensures var after := StoreTables(t, Items(w, batch));
            && MirrorInv(w, after, known, applied)
            && (forall kind :: Done(after.stored, kind) == Done(t.stored, kind))
            && after.registered == t.registered
            && after.unregistered == t.unregistered - Batched(batch)
  {
    StoreFromLog(w, t.stored, batch);
    var after := StoreTables(t, Items(w, batch));
    forall k | k in after.stored ensures RowOk(w, after, Elements(applied), k) {
      if k in t.stored {
        assert RowOk(w, t, Elements(applied), k);
      } else {
        assert k.0 in w.log && k.1 == KindOf(w.log[k.0].payload);
        assert RankOf(w, k.0) in applied ==> IsStored(w, t, k.0);
      }
    }
    forall r | r in applied ensures IsStored(w, after, r.id) && r == RankOf(w, r.id) {
      assert IsStored(w, t, r.id);
    }
    forall id | id in after.registered ensures id in after.unregistered || IsStored(w, after, id) {
      assert id in t.unregistered || IsStored(w, t, id);
    }
  }

  lemma FinalizeInv(w: World, s: Sys, token: Token)
    requires Inv(w, s)
    ensures Inv(w, DoFinalize(w, s, token))
  {
    hide MirrorInv, CountInv, HistoryInv;
    if Has(s, token) && s.workers[token].pc.Downloading? {
      var Downloading(pending, batch) := s.workers[token].pc;
      if batch != [] && (|batch| >= BATCH_SIZE || pending == [] || s.workers[token].failing)
         && (forall i | 0 <= i < |batch| :: batch[i] in w.log)
      {
        assert Items(w, batch) != [];
        if Active(s.store, token) {
          FinalizeStep(w, s, token, pending, batch);
        } else {
          assert Finalize(s.store, token, Items(w, batch)) == RolledBack(RunNotActive);
          GotoInv(w, s, token, Broken);
        }
      }
    }
  }

  /** A live flush writes the batch and leaves the worker with the rest of the list. */
  lemma FinalizeStep(w: World, s: Sys, token: Token, pending: seq<UpdateId>, batch: seq<UpdateId>)
    requires Inv(w, s) && Active(s.store, token)
    requires Has(s, token) && s.workers[token].pc == Downloading(pending, batch)
    requires batch != [] && (|batch| >= BATCH_SIZE || pending == [] || s.workers[token].failing)
    requires forall i | 0 <= i < |batch| :: batch[i] in w.log
    ensures Inv(w, DoFinalize(w, s, token))
  {
    hide MirrorInv, CountInv, HistoryInv;
    var t := s.store.updates;
    InBatch(pending, batch, t.unregistered);
    FinalizeMirror(w, t, s.known, Applied(s.history), batch);
    var items := Items(w, batch);
    var after := StoreTables(t, items);
    assert items != [];
    assert Finalize(s.store, token, items) == Committed(CountDownloaded(s.store.(updates := after)));
    assert DoFinalize(w, s, token) == FlushedSys(s, token, pending, after);
    FlushedInv(w, s, token, pending, after);
  }

  /** The system after the holder has flushed its batch. */
  function FlushedSys(s: Sys, token: Token, pending: seq<UpdateId>, after: UpdateTables): Sys
    requires token in s.workers
  {
    Goto(s, token, Flushed(pending)).(store := CountDownloaded(s.store.(updates := after)))
  }

  lemma FlushedInv(w: World, s: Sys, token: Token, pending: seq<UpdateId>, after: UpdateTables)
    requires Inv(w, s) && Active(s.store, token) && token in s.workers
    requires MirrorInv(w, after, s.known, Applied(s.history))
    requires forall kind :: Done(after.stored, kind) == Done(s.store.updates.stored, kind)
    requires after.registered == s.store.updates.registered
    requires multiset(pending) <= multiset(after.unregistered)
    requires !s.workers[token].failing ==> multiset(pending) == multiset(after.unregistered)
    ensures Inv(w, FlushedSys(s, token, pending, after))
  {
    hide MirrorInv, HistoryInv;
    var t := FlushedSys(s, token, pending, after);
    assert CountInv(t.store.sync, after);
    ProgressInv(w, s, t, token);
  }

  // ----- Applying -----

  /** The updates processed so far followed by the processable ones are again a prefix of the log. */
  lemma ProcessableContinuesLog(w: World, t: UpdateTables, known: nat, applied: seq<Rank>)
    requires MirrorInv(w, t, known, applied)
    ensures applied + Processable(t) <= LogOrder(w, known)
    ensures ProcessableRanks(t) !! Elements(applied)
    ensures forall r | r in ProcessableRanks(t) :: IsStored(w, t, r.id) && r == RankOf(w, r.id)
  {
    var all, done, next := LogRanks(w, known), Elements(applied), ProcessableRanks(t);
    PrefixIsDownClosed(applied, all);
    forall r | r in next ensures r in all && r !in done && IsStored(w, t, r.id) && r == RankOf(w, r.id) {
      var k :| k in t.stored && !t.stored[k].processed && k.0 in t.registered
               && r == Rank(t.registered[k.0], KindRank(k.1), k.0);
      assert RowOk(w, t, done, k);
    }
    forall a, b | a in all && b in next && Less(a, b) ensures a in done + next {
      assert !Blocked(t, b.index);
      assert a.id in t.registered && t.registered[a.id] <= b.index;
      assert a.id !in t.unregistered;
      assert IsStored(w, t, a.id);
      var k := (a.id, KindOf(w.log[a.id].payload));
      assert RowOk(w, t, done, k);
      assert !Blocked(t, t.registered[a.id]);
    }
    assert DownClosed(done + next, all);
    SortedPrefix(done + next, all);
    forall a, b | a in done && b in next ensures Less(a, b) {
      assert b in all && b !in done;
      assert a == b || Less(a, b) || Less(b, a);
    }
    SortedAppend(done, next);
  }

  lemma SortedTail(s: set<Rank>)
    requires s != {}
    ensures Sorted(s) != [] && Sorted(s)[0] in s
    ensures Sorted(s - {Sorted(s)[0]}) == Sorted(s)[1..]
  {
    var order := Sorted(s);
    NoElements(order);
    assert order[0] in Elements(order);
    TailElements(order);
    SortedIsUnique(Sorted(s - {order[0]}), order[1..]);
  }

  /** The tables after the update of rank r has been marked processed. */
  function Marked(t: UpdateTables, kind: ContentType, r: Rank): UpdateTables {
    t.(stored := MarkProcessed(t.stored, (r.id, kind)))
  }

  lemma MarkedRows(w: World, t: UpdateTables, known: nat, applied: seq<Rank>, r: Rank)
    requires MirrorInv(w, t, known, applied)
    requires IsStored(w, t, r.id) && r == RankOf(w, r.id) && applied + [r] <= LogOrder(w, known)
    ensures MirrorInv(w, Marked(t, KindOf(w.log[r.id].payload), r), known, applied + [r])
  {
    var after := Marked(t, KindOf(w.log[r.id].payload), r);
    var done := applied + [r];
    assert after.stored.Keys == t.stored.Keys;
    assert Elements(done) == Elements(applied) + {r} by { ElementsAppend(applied, [r]); }
    forall k | k in after.stored ensures RowOk(w, after, Elements(done), k) {
      assert RowOk(w, t, Elements(applied), k);
    }
    forall x | x in done ensures IsStored(w, after, x.id) && x == RankOf(w, x.id) {
      assert x in applied || x == r;
      assert IsStored(w, t, x.id);
    }
    forall id | id in after.registered ensures id in after.unregistered || IsStored(w, after, id) {
      assert id in t.unregistered || IsStored(w, t, id);
    }
  }

  /** Marking the first processable update processed leaves the rest of the list to be done. */
  lemma MarkMirror(w: World, t: UpdateTables, known: nat, applied: seq<Rank>, r: Rank)
    requires MirrorInv(w, t, known, applied)
    requires Processable(t) != [] && r == Processable(t)[0]
    ensures IsStored(w, t, r.id)
    ensures var after := Marked(t, KindOf(w.log[r.id].payload), r);
            && MirrorInv(w, after, known, applied + [r])
            && Processable(after) == Processable(t)[1..]
            && |after.stored| == |t.stored|
  {
    hide MirrorInv;
    ProcessableContinuesLog(w, t, known, applied);
    NoElements(Processable(t));
    assert r in Elements(Processable(t));
    assert IsStored(w, t, r.id) && r == RankOf(w, r.id);
    var kind := KindOf(w.log[r.id].payload);
    assert applied + Processable(t) == applied + [r] + Processable(t)[1..];
    MarkedRows(w, t, known, applied, r);
    MarkedRanks(w, t, known, applied, r);
    SortedTail(ProcessableRanks(t));
    assert Marked(t, kind, r).stored.Keys == t.stored.Keys;
  }

  lemma MarkedRanks(w: World, t: UpdateTables, known: nat, applied: seq<Rank>, r: Rank)
    requires MirrorInv(w, t, known, applied) && IsStored(w, t, r.id) && r == RankOf(w, r.id)
    ensures ProcessableRanks(Marked(t, KindOf(w.log[r.id].payload), r)) == ProcessableRanks(t) - {r}
  {
    var after := Marked(t, KindOf(w.log[r.id].payload), r);
    var key := (r.id, KindOf(w.log[r.id].payload));
    assert RowOk(w, t, Elements(applied), key);
    assert forall i :: Blocked(after, i) == Blocked(t, i);
    forall x | x in ProcessableRanks(after) ensures x in ProcessableRanks(t) - {r} {
      var k :| k in after.stored && !after.stored[k].processed && k.0 in after.registered
               && !Blocked(after, after.registered[k.0])
               && x == Rank(after.registered[k.0], KindRank(k.1), k.0);
      assert RowOk(w, t, Elements(applied), k);
    }
    forall x | x in ProcessableRanks(t) - {r} ensures x in ProcessableRanks(after) {
      var k :| k in t.stored && !t.stored[k].processed && k.0 in t.registered
               && !Blocked(t, t.registered[k.0])
               && x == Rank(t.registered[k.0], KindRank(k.1), k.0);
      assert k != key;
    }
  }

  lemma ListProcessableInv(w: World, s: Sys, token: Token)
    requires Inv(w, s)
    ensures Inv(w, DoListProcessable(s, token))
  {
    hide MirrorInv, CountInv, HistoryInv;
    if Has(s, token) {
      if s.workers[token].pc.Flushed? {
        GotoInv(w, s, token, if Active(s.store, token)
                             then Applying(s.workers[token].pc.pending, Processable(s.store.updates), true)
                             else Broken);
      } else if s.workers[token].pc == Downloading([], []) && !s.workers[token].failing {
        GotoInv(w, s, token, if Active(s.store, token)
                             then Applying([], Processable(s.store.updates), false) else Broken);
      }
    }
  }

  lemma HistoryAppend(w: World, c: Content, after: Content, history: seq<Event>, e: Event)
    requires HistoryInv(w, c, history)
    requires e.Remote? ==> e.rank.id in w.log && e.payload == w.log[e.rank.id].payload
    requires Represents(after, ReplayEvent(w.cases, ReplayAll(w.cases, history), e))
    ensures HistoryInv(w, after, history + [e])
    ensures Applied(history + [e]) == if e.Remote? then Applied(history) + [e.rank] else Applied(history)
  {
    ReplayAppend(w.cases, history, e);
  }

  lemma ApplyInv(w: World, s: Sys, token: Token, names: Names)
    requires Inv(w, s)
    ensures Inv(w, DoApply(w, s, token, names))
  {
    hide MirrorInv, CountInv, HistoryInv;
    if Has(s, token) && s.workers[token].pc.Applying? && s.workers[token].pc.todo != [] {
      var todo := s.workers[token].pc.todo;
      var id := todo[0].id;
      if id in w.log && Interned(s.store.content.names, NeededHashes(w.log[id].payload),
                                 NeededTags(w.cases, w.log[id].payload), names)
      {
        if Active(s.store, token) && Obstacle(s.store.content, w.log[id].payload).None? {
          ApplyStep(w, s, token, names);
        } else {
          GotoInv(w, s, token, Broken);
        }
      }
    }
  }

  lemma ApplyHistory(w: World, c: Content, history: seq<Event>, r: Rank, names: Names)
    requires HistoryInv(w, c, history) && r.id in w.log
    requires var p := w.log[r.id].payload; Interned(c.names, NeededHashes(p), NeededTags(w.cases, p), names)
    ensures var p, after := w.log[r.id].payload, history + [Remote(r, w.log[r.id].payload)];
            && HistoryInv(w, ApplyContent(w.cases, c, p, names), after)
            && Applied(after) == Applied(history) + [r]
  {
    var p := w.log[r.id].payload;
    ApplyRepresents(w.cases, c, ReplayAll(w.cases, history), p, names);
    HistoryAppend(w, c, ApplyContent(w.cases, c, p, names), history, Remote(r, p));
  }

  lemma InternedNeeded(before: Names, hashes: set<string>, tags: set<string>, after: Names)
    requires Interned(before, hashes, tags, after)
    ensures hashes <= after.hashes.Keys && tags <= after.tags.Keys
  {
  }

  lemma ApplyStep(w: World, s: Sys, token: Token, names: Names)
    requires Inv(w, s) && Active(s.store, token)
    requires Has(s, token) && s.workers[token].pc.Applying? && s.workers[token].pc.todo != []
    requires var id := s.workers[token].pc.todo[0].id;
             && id in w.log && Obstacle(s.store.content, w.log[id].payload).None?
             && Interned(s.store.content.names, NeededHashes(w.log[id].payload),
                         NeededTags(w.cases, w.log[id].payload), names)
    ensures Inv(w, DoApply(w, s, token, names))
    ensures var t := DoApply(w, s, token, names);
            && Applied(t.history) == Applied(s.history) + [s.workers[token].pc.todo[0]]
            && token in t.workers && t.workers[token].pc.Applying?
  {
    hide MirrorInv, CountInv, HistoryInv, Interned, ApplyContent;
    var r := s.workers[token].pc.todo[0];
    var p := w.log[r.id].payload;
    assert NeededHashes(p) <= names.hashes.Keys && NeededTags(w.cases, p) <= names.tags.Keys by {
      InternedNeeded(s.store.content.names, NeededHashes(p), NeededTags(w.cases, p), names);
    }
    MarkMirror(w, s.store.updates, s.known, Applied(s.history), r);
    var content := ApplyContent(w.cases, s.store.content, p, names);
    ApplyHistory(w, s.store.content, s.history, r, names);
    var after := Marked(s.store.updates, KindOf(p), r);
    assert ApplyUpdate(w.cases, s.store, token, r.id, p, names)
        == Committed(CountDone(s.store.(content := content, updates := after)));
    var t := AppliedSys(s, token, content, after, Remote(r, p));
    assert DoApply(w, s, token, names) == t;
    AppliedInv(w, s, token, content, after, Remote(r, p));
  }

  /** The system after the first update of the holder's list has been applied. */
  function AppliedSys(s: Sys, token: Token, content: Content, after: UpdateTables, e: Event): Sys
    requires token in s.workers && s.workers[token].pc.Applying? && s.workers[token].pc.todo != []
  {
    var Applying(pending, todo, more) := s.workers[token].pc;
    Goto(s, token, Applying(pending, todo[1..], more)).(
      store := CountDone(s.store.(content := content, updates := after)), history := s.history + [e])
  }

  lemma AppliedInv(w: World, s: Sys, token: Token, content: Content, after: UpdateTables, e: Event)
    requires Inv(w, s) && Active(s.store, token)
    requires token in s.workers && s.workers[token].pc.Applying? && s.workers[token].pc.todo != []
    requires MirrorInv(w, after, s.known, Applied(s.history + [e]))
    requires after.registered == s.store.updates.registered && after.unregistered == s.store.updates.unregistered
    requires |after.stored| == |s.store.updates.stored|
    requires Processable(s.store.updates) != [] && Processable(after) == Processable(s.store.updates)[1..]
    requires HistoryInv(w, content, s.history + [e])
    ensures Inv(w, AppliedSys(s, token, content, after, e))
  {
    hide MirrorInv, HistoryInv;
    var t := AppliedSys(s, token, content, after, e);
    assert t.store.sync.metadataSlice <= NextIndex(after.registered);
    ProgressInv(w, s, t, token);
  }

  lemma NothingLeft(w: World, t: UpdateTables, known: nat, applied: seq<Rank>)
    requires MirrorInv(w, t, known, applied) && t.unregistered == {} && Processable(t) == []
    ensures Unprocessed(t.stored) == {}
  {
    NoElements(Processable(t));
    forall k | k in t.stored ensures t.stored[k].processed {
      assert RowOk(w, t, Elements(applied), k);
      assert !Blocked(t, t.registered[k.0]);
      assert Rank(t.registered[k.0], KindRank(k.1), k.0) !in ProcessableRanks(t);
    }
  }

  lemma ResumeInv(w: World, s: Sys, token: Token)
    requires Inv(w, s)
    ensures Inv(w, DoResume(s, token))
  {
    hide MirrorInv, CountInv, HistoryInv;
    if Has(s, token) && s.workers[token].pc.Applying? && s.workers[token].pc.todo == [] {
      var Applying(pending, todo, more) := s.workers[token].pc;
      if Active(s.store, token) && !more {
        assert multiset(pending) == multiset(s.store.updates.unregistered);
        assert forall id :: id in s.store.updates.unregistered ==> id in multiset(pending);
        assert s.store.updates.unregistered == {};
        NothingLeft(w, s.store.updates, s.known, Applied(s.history));
      }
      GotoInv(w, s, token, if more then Downloading(pending, []) else Drained);
    }
  }

  // ----- Local writes -----

  lemma LocalInv(w: World, s: Sys, content: Content, history: seq<Event>)
    requires Inv(w, s) && HistoryInv(w, content, history) && Applied(history) == Applied(s.history)
    ensures Inv(w, s.(store := s.store.(content := content), history := history))
  {
    hide MirrorInv, CountInv, HistoryInv;
  }

  lemma StageInv(w: World, s: Sys, tags: seq<string>, hashes: seq<string>, names: Names)
    requires Inv(w, s)
    ensures Inv(w, DoStage(w, s, tags, hashes, names))
  {
    hide MirrorInv, CountInv, HistoryInv;
    var t := DoStage(w, s, tags, hashes, names);
    if t != s {
      StageHistory(w, s, tags, hashes, names);
      LocalInv(w, s, t.store.content, t.history);
    }
  }

  lemma StageHistory(w: World, s: Sys, tags: seq<string>, hashes: seq<string>, names: Names)
    requires Inv(w, s) && DoStage(w, s, tags, hashes, names) != s
    ensures var t := DoStage(w, s, tags, hashes, names);
            && t == s.(store := s.store.(content := t.store.content), history := t.history)
            && HistoryInv(w, t.store.content, t.history) && Applied(t.history) == Applied(s.history)
  {
    StageRepresents(w.cases, s.store, ReplayAll(w.cases, s.history), tags, hashes, names);
    var content := StageMappings(w.cases, s.store, tags, hashes, names).store.content;
    HistoryAppend(w, s.store.content, content, s.history, Staged(StagedNames(w.cases, tags, hashes)));
  }

  lemma CommitInv(w: World, s: Sys)
    requires Inv(w, s)
    ensures Inv(w, s.(store := CommitMappings(s.store), history := s.history + [LocalCommit]))
  {
    hide MirrorInv, CountInv;
    var r := ReplayAll(w.cases, s.history);
    EncodeCommit(s.store.content.names, r.tables);
    HistoryAppend(w, s.store.content, CommitMappings(s.store).content, s.history, LocalCommit);
    LocalInv(w, s, CommitMappings(s.store).content, s.history + [LocalCommit]);
  }

  lemma InternInv(w: World, s: Sys, names: Names)
    requires Inv(w, s) && NamesExtend(s.store.content.names, names) && ValidNames(names)
    ensures Inv(w, s.(store := s.store.(content := s.store.content.(names := names))))
  {
    RepresentsAfterInterning(s.store.content, ReplayAll(w.cases, s.history), names);
    LocalInv(w, s, s.store.content.(names := names), s.history);
  }

  // ----- All steps, all runs -----

  lemma PublishInv(w: World, s: Sys, n: nat)
    requires Inv(w, s) && n > s.horizon
    ensures Inv(w, s.(horizon := n))
  {
    hide MirrorInv, CountInv, HistoryInv;
  }

  lemma NextInv(w: World, s: Sys, step: Step)
    requires Inv(w, s)
    ensures Inv(w, Next(w, s, step))
  {
    hide Inv, DoRecover, DoBegin, DoFetch, DoPersist, DoListPending, DoDownload, DoFinalize, DoListProcessable, DoApply,
         DoResume, DoComplete, DoCancel, DoFail, DoThrottle, DoStage, NamesExtend, ValidNames;
    match step
    case Publish(n) => if n > s.horizon { PublishInv(w, s, n); }
    case RecoverState => RecoverInv(w, s);
    case BeginRun(token, now) => BeginInv(w, s, token, now);
    case FetchMetadata(token) => FetchInv(w, s, token);
    case PersistMetadata(token, rows) => PersistInv(w, s, token, rows);
    case ListPending(token) => ListPendingInv(w, s, token);
    case Download(token, got, ok) => DownloadInv(w, s, token, got, ok);
    case FinalizeBatch(token) => FinalizeInv(w, s, token);
    case ListProcessable(token) => ListProcessableInv(w, s, token);
    case ApplyNext(token, names) => ApplyInv(w, s, token, names);
    case Resume(token) => ResumeInv(w, s, token);
    case Complete(token) => CompleteInv(w, s, token);
    case Cancel(token) => CancelInv(w, s, token);
    case FailRun(token, text) => FailInv(w, s, token, text);
    case ThrottleRun(token, retryAt, text) => ThrottleInv(w, s, token, retryAt, text);
    case Crash(token) => CrashInv(w, s, token);
    case StageLocally(tags, hashes, names) => StageInv(w, s, tags, hashes, names);
    case CommitLocally => CommitInv(w, s);
    case InternElsewhere(names) =>
      if NamesExtend(s.store.content.names, names) && ValidNames(names) { InternInv(w, s, names); }
  }

  lemma ExecSnoc(w: World, s: Sys, steps: seq<Step>, step: Step)
    ensures Exec(w, s, steps + [step]) == Next(w, Exec(w, s, steps), step)
  {
    hide Next;
    assert (steps + [step])[..|steps|] == steps;
  }

  /** Every state of every run satisfies the invariant. */
  lemma {:induction false} ExecInv(w: World, s: Sys, steps: seq<Step>)
    requires Inv(w, s)
    ensures Inv(w, Exec(w, s, steps))
  {
    if steps != [] {
      ExecInv(w, s, steps[..|steps| - 1]);
      NextInv(w, Exec(w, s, steps[..|steps| - 1]), steps[|steps| - 1]);
    }
  }
}
