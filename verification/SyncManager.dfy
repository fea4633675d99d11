/** One run of the sync manager, as it is executed: fetch the metadata, download what is missing in rounds of
    three, flush in batches, apply what has become processable, and end the lease.

    The manager drives a bundle.  Beside it runs a ghost copy of the transition system: every transaction
    the manager commits is one step there, so that all that is proved of the system holds of this code.
    Between any two transactions other writers may change the local content (OthersWrite). */
module SyncManager {
  import opened Tags
  import opened Interning
  import opened UpdateOrder
  import opened Repository
  import opened Replay
  import opened SyncSystem
  import opened SyncInvariants
  import opened SyncTheorems
  import opened SyncStatus
  import opened SyncBatches
  import opened HydrusBundle

  /** How a request to the remote fails: busy or a transient transport error, cancelled, or for good. */
  datatype Failure = Busy(retryAt: int) | Cancelled | Other(text: string)

  datatype Answer = Metadata(rows: seq<(nat, UpdateId)>) | NoAnswer(failure: Failure)

  /** What the begin transaction hands the run: its token and the status at that moment. */
  datatype Lease = Lease(token: Token, slice: nat, attempt: int)

  datatype RunResult = Completed | Deferred | Stopped | Failed

  /** Where bodies come from: what is found of a body in the database or on disk, and how fetching it fails, if
      it does. */
  datatype Local = Absent | Loaded | Unreadable
  datatype Sources = Sources(local: UpdateId -> Local, fetch: UpdateId -> Option<Failure>)

  /** Where a run looks for bodies: whether its query of the database goes through, the files on disk, and the
      remote. */
  datatype Origins = Origins(database: UpdateId -> bool, disk: UpdateId -> Local, fetch: UpdateId -> Option<Failure>)

  /** What it finds when the database has these bodies: the database is asked before the disk. */
  function Found(origins: Origins, stored: set<UpdateId>): Sources {
    Sources(id => if !origins.database(id) then Unreadable else if id in stored then Loaded else origins.disk(id),
            origins.fetch)
  }

  predicate Obtainable(from: Sources, id: UpdateId) {
    from.local(id) == Loaded || (from.local(id) == Absent && from.fetch(id) == None)
  }

  /** How far a download got: on to the next round, or stopped by a body that cannot be loaded, by a failed fetch,
      or by an update that cannot be applied. */
  datatype Progress = Going | CannotLoad | FetchFailed(failure: Failure) | NotApplied

  /** The sources give a reason for the progress. */
  ghost predicate Explained(from: Sources, ids: seq<UpdateId>, progress: Progress) {
    match progress
    case Going => forall id | id in ids :: Obtainable(from, id)
    case CannotLoad => exists id :: id in ids && from.local(id) == Unreadable
    case FetchFailed(failure) => exists id :: id in ids && from.local(id) == Absent && from.fetch(id) == Some(failure)
    case NotApplied => true
  }

  /** How a failure ends a run after so many retries. */
  predicate EndsAs(failure: Failure, attempt: int, busyText: string, sync: SyncState, result: RunResult) {
    match failure
    case Other(text) => result == Failed && sync.lastError == Some(FailureText(text))
    case Cancelled => result == Stopped && sync.phase == Idle && sync.lastError == None
    case Busy(retryAt) =>
      if attempt < 10
      then result == Deferred && sync.phase == Retrying && sync.retryAt == retryAt && sync.retryAttempt == attempt + 1
      else result == Failed && sync.lastError == Some(FailureText(busyText))
  }

  /** The bodies still to download once an answer has been registered. */
  function Missing(t: UpdateTables, rows: seq<(nat, UpdateId)>, slice: nat): seq<UpdateId> {
    InIdOrder(RegisterTables(t, rows, slice == 0).unregistered)
  }

  function Max(a: int, b: int): int {
    if a < b then b else a
  }

  lemma TakeOut(s: seq<UpdateId>, i: nat)
    requires i < |s|
    ensures multiset(s) == multiset(s[..i] + s[i + 1..]) + multiset{s[i]}
  {
    assert s == s[..i] + [s[i]] + s[i + 1..];
  }

  /** Fetches a few updates at once.  The answers arrive in any order; the first error is kept and cancels the
      requests still under way, and what arrived intact is returned with it. */
  method FetchUpdatesInParallel(from: Sources, wanted: seq<UpdateId>)
    returns (got: seq<UpdateId>, failure: Option<Failure>)
    ensures multiset(got) <= multiset(wanted)
    ensures failure == None <==> |got| == |wanted|
    ensures failure == None ==> multiset(got) == multiset(wanted)
    ensures failure == None <==> forall id | id in wanted :: from.fetch(id) == None
    ensures failure.Some? ==> exists id :: id in wanted && from.fetch(id) == failure
    ensures forall id | id in got :: from.fetch(id) == None
  {
    got, failure := [], None;
    var inFlight := wanted;
    while inFlight != []
      invariant multiset(got) + multiset(inFlight) <= multiset(wanted)
      invariant failure == None <==> |got| + |inFlight| == |wanted|
      invariant |got| + |inFlight| <= |wanted|
      invariant failure == None ==> multiset(got) + multiset(inFlight) == multiset(wanted)
      invariant forall id | id in inFlight || id in got :: id in wanted
      invariant forall id | id in got :: from.fetch(id) == None
      invariant failure == None ==> forall id | id in wanted :: id in inFlight || from.fetch(id) == None
      invariant failure.Some? ==> exists id :: id in wanted && from.fetch(id) == failure
      decreases |inFlight|
    {
      var next :| 0 <= next < |inFlight|;
      var id := inFlight[next];
      var cancelled: bool := *;
      TakeOut(inFlight, next);
      if from.fetch(id) != None {
        failure := if failure == None then from.fetch(id) else failure;
      } else if failure == None || !cancelled {
        got := got + [id];
      }
      inFlight := inFlight[..next] + inFlight[next + 1..];
    }
  }

  lemma CannotLoadOne(from: Sources, ids: seq<UpdateId>, i: nat)
    requires i < |ids| && from.local(ids[i]) == Unreadable
    ensures Explained(from, ids, CannotLoad)
  {
    var id := ids[i];
    assert id in ids && from.local(id) == Unreadable;
  }

  /** One round: bodies that are there already, stored or left on disk by an earlier run, are taken from there and
      the rest is fetched.  A body that is there but cannot be read ends the round at once. */
  method DownloadRound(from: Sources, wanted: seq<UpdateId>) returns (got: seq<UpdateId>, progress: Progress)
    ensures multiset(got) <= multiset(wanted)
    ensures progress == Going <==> |got| == |wanted|
    ensures progress != NotApplied && Explained(from, wanted, progress)
  {
    var onDisk, missing := [], [];
    for i := 0 to |wanted|
      invariant multiset(onDisk) + multiset(missing) == multiset(wanted[..i])
      invariant |onDisk| + |missing| == i
      invariant forall id | id in wanted[..i] :: from.local(id) == Loaded || id in missing
      invariant forall id | id in missing :: id in wanted && from.local(id) == Absent
    {
      assert wanted[..i + 1] == wanted[..i] + [wanted[i]];
      match from.local(wanted[i]) {
        case Unreadable =>
          assert wanted == wanted[..i] + wanted[i..];
          CannotLoadOne(from, wanted, i);
          return onDisk, CannotLoad;
        case Loaded =>
          onDisk := onDisk + [wanted[i]];
        case Absent =>
          missing := missing + [wanted[i]];
      }
    }
    assert wanted[..|wanted|] == wanted;
    var fetched, failure := FetchUpdatesInParallel(from, missing);
    got := onDisk + fetched;
    progress := if failure == None then Going else FetchFailed(failure.value);
  }

  // ----- What the steps of a lease holder do to the system -----

  ghost predicate Holds(s: Sys, token: Token, pc: Pc) {
    Has(s, token) && Active(s.store, token) && s.workers[token].pc == pc
  }

  lemma PersistEffect(w: World, s: Sys, token: Token, rows: seq<(nat, UpdateId)>, upto: nat)
    requires Holds(s, token, HaveMetadata(upto)) && IsMetadata(w, s.workers[token].slice, upto, rows)
    ensures var t := Next(w, s, PersistMetadata(token, rows));
            && t.store == After(s.store, Persist(s.store, token, rows, s.workers[token].slice == 0))
            && t == DoPersist(w, s, token, rows) && Holds(t, token, Registered) && t.known == upto
            && t.workers[token] == s.workers[token].(pc := Registered, seen := t.store.sync.retryAttempt)
  {
    hide RegisterTables, IsMetadata, Done;
  }

  lemma HolderIsActive(s: Sys, token: Token, pc: Pc)
    requires Holds(s, token, pc)
    ensures Active(s.store, token)
  {
  }

  lemma PersistTables(s: Store, token: Token, rows: seq<(nat, UpdateId)>, replace: bool)
    requires Active(s, token)
    ensures After(s, Persist(s, token, rows, replace)).updates == RegisterTables(s.updates, rows, replace)
  {
    hide RegisterTables, Done;
  }

  /** Only the place of the worker differs; the database does not. */
  ghost predicate OnlyMoved(s: Sys, t: Sys, token: Token, pc: Pc)
    requires token in s.workers
  {
    && t.store == s.store && t.known == s.known
    && Holds(t, token, pc) && t.workers[token] == s.workers[token].(pc := pc)
  }

  lemma FetchEffect(w: World, s: Sys, token: Token)
    requires Holds(s, token, Started)
    ensures var t := Next(w, s, FetchMetadata(token));
            OnlyMoved(s, t, token, HaveMetadata(s.horizon)) && t.horizon == s.horizon
  {
  }

  lemma ListPendingEffect(w: World, s: Sys, token: Token)
    requires Holds(s, token, Registered)
    ensures OnlyMoved(s, Next(w, s, ListPending(token)), token,
                      Downloading(InIdOrder(s.store.updates.unregistered), []))
  {
    hide InIdOrder;
  }

  lemma DownloadEffect(w: World, s: Sys, token: Token, pending: seq<UpdateId>, batch: seq<UpdateId>,
                       k: nat, got: seq<UpdateId>, ok: bool)
    requires Holds(s, token, Downloading(pending, batch)) && !s.workers[token].failing && |batch| < BATCH_SIZE
    requires k == (if |pending| < PARALLELISM then |pending| else PARALLELISM) && k > 0
    requires multiset(got) <= multiset(pending[..k]) && (ok ==> |got| == k)
    ensures var t := Next(w, s, Download(token, got, ok));
            && t.store == s.store && Holds(t, token, Downloading(pending[k..], batch + got))
            && t.workers[token] == s.workers[token].(pc := Downloading(pending[k..], batch + got), failing := !ok)
            && t.known == s.known
  {
  }

  /** A round that ends before a place in the list leaves the worker at that place. */
  lemma RoundEffect(w: World, s: Sys, token: Token, listed: seq<UpdateId>, index: nat, end: nat, batch: seq<UpdateId>,
                    got: seq<UpdateId>, ok: bool)
    requires index < |listed| && Holds(s, token, Downloading(listed[index..], batch))
    requires end == if index + PARALLELISM > |listed| then |listed| else index + PARALLELISM
    requires !s.workers[token].failing && |batch| < BATCH_SIZE && |got| <= end - index
    requires multiset(got) <= multiset(listed[index..end]) && (ok ==> |got| == end - index)
    ensures var t, pc := Next(w, s, Download(token, got, ok)), Downloading(listed[end..], batch + got);
            && t.store == s.store && t.known == s.known && Holds(t, token, pc)
            && t.workers[token] == s.workers[token].(pc := pc, failing := !ok)
            && |batch + got| < BATCH_SIZE + PARALLELISM
  {
    RoundSlices(listed, index, end);
    hide Holds, Next;
    DownloadEffect(w, s, token, listed[index..], batch, end - index, got, ok);
  }

  /** What is on a worker's list waits for its body. */
  lemma PendingWaits(w: World, s: Sys, token: Token, pending: seq<UpdateId>, batch: seq<UpdateId>)
    requires Inv(w, s) && Holds(s, token, Downloading(pending, batch))
    ensures forall id | id in pending :: id in s.store.updates.unregistered
  {
    hide LeaseInv, CountInv, HistoryInv, MirrorInv;
    forall id | id in pending ensures id in s.store.updates.unregistered {
      assert multiset(pending)[id] <= multiset(s.store.updates.unregistered)[id];
    }
  }

  /** What is still waiting is found in the database exactly when it was there before other bodies were written. */
  lemma FoundAlike(origins: Origins, stored: set<UpdateId>, written: set<UpdateId>, waiting: set<UpdateId>,
                   listed: seq<UpdateId>, index: nat, end: nat, progress: Progress)
    requires index <= end <= |listed| && waiting !! written && forall id | id in listed[index..] :: id in waiting
    requires Explained(Found(origins, stored + written), listed[index..end], progress)
    ensures Explained(Found(origins, stored), listed[index..end], progress)
  {
    forall id | id in listed[index..end] ensures id !in written {
      assert id in listed[index..];
    }
    var before, after := Found(origins, stored), Found(origins, stored + written);
    assert forall id | id in listed[index..end] :: before.local(id) == after.local(id);
    assert before.fetch == after.fetch;
  }

  lemma BatchInLog(w: World, s: Sys, token: Token, pending: seq<UpdateId>, batch: seq<UpdateId>)
    requires Inv(w, s) && Holds(s, token, Downloading(pending, batch))
    ensures forall i | 0 <= i < |batch| :: batch[i] in w.log
    ensures Supported(Items(w, batch)) && ItemIds(Items(w, batch)) == Batched(batch)
  {
    hide LeaseInv, CountInv, HistoryInv;
    InBatch(pending, batch, s.store.updates.unregistered);
    StoreFromLog(w, map[], batch);
  }

  lemma FinalizeEffect(w: World, s: Sys, token: Token, pending: seq<UpdateId>, batch: seq<UpdateId>)
    requires Holds(s, token, Downloading(pending, batch)) && batch != []
    requires |batch| >= BATCH_SIZE || pending == [] || s.workers[token].failing
    requires (forall i | 0 <= i < |batch| :: batch[i] in w.log) && Supported(Items(w, batch))
    ensures var t := Next(w, s, FinalizeBatch(token));
            && t.store == After(s.store, Finalize(s.store, token, Items(w, batch)))
            && Holds(t, token, Flushed(pending))
            && t.workers[token] == s.workers[token].(pc := Flushed(pending)) && t.known == s.known
            && t.store.updates.unregistered == s.store.updates.unregistered - ItemIds(Items(w, batch))
            && BatchWritten(w, s, FinalizeBatch(token)) == [batch]
            && StoredIds(t.store.updates) == StoredIds(s.store.updates) + Batched(batch)
  {
    StoredMore(w, s.store.updates, batch);
    hide Supported, StoreItems, StoredIds;
    assert Items(w, batch) != [];
  }

  lemma ListProcessableEffect(w: World, s: Sys, token: Token, pending: seq<UpdateId>, more: bool)
    requires if more then Holds(s, token, Flushed(pending))
             else pending == [] && Holds(s, token, Downloading([], [])) && !s.workers[token].failing
    ensures OnlyMoved(s, Next(w, s, ListProcessable(token)), token,
                      Applying(pending, Processable(s.store.updates), more))
  {
    hide Processable;
  }

  /** The next update to apply is the first processable one; its stored body is the one in the log. */
  lemma NextToApply(w: World, s: Sys, token: Token, pending: seq<UpdateId>, todo: seq<Rank>, more: bool)
    requires Inv(w, s) && Holds(s, token, Applying(pending, todo, more)) && todo != []
    ensures todo == Processable(s.store.updates) && todo[0].id in w.log
    ensures var key := (todo[0].id, if todo[0].kind == 0 then Definitions else Mappings);
            key in s.store.updates.stored && s.store.updates.stored[key].body == w.log[todo[0].id].payload
    ensures Obstacle(s.store.content, w.log[todo[0].id].payload).None? <==> UpdateDefined(w, todo[0].id)
  {
    hide LeaseInv, CountInv, MirrorInv, HistoryInv, Processable, Obstacle, UpdateDefined;
    FirstIsApplicableIff(w, s.store.updates, s.known, s.store.content, s.history);
    FirstIsStored(w, s.store.updates, s.known, Applied(s.history));
  }

  lemma FirstIsStored(w: World, t: UpdateTables, known: nat, applied: seq<Rank>)
    requires MirrorInv(w, t, known, applied) && Processable(t) != []
    ensures var r := Processable(t)[0];
            var key := (r.id, if r.kind == 0 then Definitions else Mappings);
            r.id in w.log && key in t.stored && t.stored[key].body == w.log[r.id].payload
  {
    ProcessableContinuesLog(w, t, known, applied);
    var r := Processable(t)[0];
    assert r in Elements(Processable(t));
    assert IsStored(w, t, r.id) && r == RankOf(w, r.id);
    assert RowOk(w, t, Elements(applied), (r.id, KindOf(w.log[r.id].payload)));
  }

  lemma NeededAreInterned(before: Names, hashes: set<string>, tags: set<string>, after: Names)
    requires Interned(before, hashes, tags, after)
    ensures hashes <= after.hashes.Keys && tags <= after.tags.Keys
  {
  }

  lemma ApplyEffect(w: World, s: Sys, token: Token, pending: seq<UpdateId>, todo: seq<Rank>, more: bool, names: Names)
    requires Holds(s, token, Applying(pending, todo, more)) && todo != [] && todo[0].id in w.log
    requires var p := w.log[todo[0].id].payload;
             && Interned(s.store.content.names, NeededHashes(p), NeededTags(w.cases, p), names)
             && NeededHashes(p) <= names.hashes.Keys && NeededTags(w.cases, p) <= names.tags.Keys
             && ApplyUpdate(w.cases, s.store, token, todo[0].id, p, names).Committed?
    ensures var t, id := Next(w, s, ApplyNext(token, names)), todo[0].id;
            && Committed(t.store) == ApplyUpdate(w.cases, s.store, token, id, w.log[id].payload, names)
            && Holds(t, token, Applying(pending, todo[1..], more))
            && t.workers[token] == s.workers[token].(pc := Applying(pending, todo[1..], more)) && t.known == s.known
            && t.store.updates.unregistered == s.store.updates.unregistered
            && StoredIds(t.store.updates) == StoredIds(s.store.updates)
  {
    ApplyStores(w, s, token, names);
    hide StoredIds, Interned, Obstacle, ApplyContent, NeededHashes, NeededTags;
  }

  lemma ResumeEffect(w: World, s: Sys, token: Token, pending: seq<UpdateId>, more: bool)
    requires Holds(s, token, Applying(pending, [], more))
    ensures OnlyMoved(s, Next(w, s, Resume(token)), token, if more then Downloading(pending, []) else Drained)
  {
  }

  lemma EndEffect(w: World, s: Sys, token: Token, text: string, retryAt: int)
    requires Has(s, token) && Active(s.store, token)
    ensures s.workers[token].pc == Drained ==>
              Next(w, s, Complete(token)).store == After(s.store, Finish(s.store, token, true))
    ensures Next(w, s, Cancel(token)).store == After(s.store, Finish(s.store, token, false))
    ensures Next(w, s, FailRun(token, text)).store == After(s.store, Fail(s.store, token, text))
    ensures var attempt, t := NextAttempt(s.workers[token]), Next(w, s, ThrottleRun(token, retryAt, text));
            t.store == After(s.store, if attempt > MAX_BUSY_RETRIES then Fail(s.store, token, text)
                                      else Throttle(s.store, token, retryAt, attempt))
  {
    hide NextIndex, FailureText;
  }

  /** Once the lease is over, a further failure report changes nothing. */
  lemma LateFailureEffect(w: World, s: Sys, token: Token, text: string)
    requires !Active(s.store, token)
    ensures Next(w, s, FailRun(token, text)).store == s.store
  {
  }

  // ----- Other writers -----

  /** Only local content, and what the server has published, may differ. */
  ghost predicate Undisturbed(s: Sys, t: Sys) {
    && t.workers == s.workers && t.issued == s.issued && t.known == s.known && s.horizon <= t.horizon
    && t.store.sync == s.store.sync && t.store.updates == s.store.updates
  }

  lemma StageEffect(w: World, s: Sys, tags: seq<string>, hashes: seq<string>, names: Names, after: Store)
    requires Interned(s.store.content.names, {}, CleanTags(w.cases, tags), names)
    requires StageMappings(w.cases, s.store, tags, hashes, names) == Committed(after)
    ensures var t := Next(w, s, StageLocally(tags, hashes, names)); t.store == after && Undisturbed(s, t)
  {
    hide Interned, CleanTags, StagedPairs, StagedNames;
  }

  lemma CommitEffect(w: World, s: Sys)
    ensures var t := Next(w, s, CommitLocally); t.store == CommitMappings(s.store) && Undisturbed(s, t)
  {
  }

  lemma InternEffect(w: World, s: Sys, names: Names)
    requires NamesExtend(s.store.content.names, names) && ValidNames(names)
    ensures var t := Next(w, s, InternElsewhere(names));
            t.store == s.store.(content := s.store.content.(names := names)) && Undisturbed(s, t)
  {
    hide NamesExtend, ValidNames;
  }

  lemma PublishEffect(w: World, s: Sys, n: nat)
    ensures var t := Next(w, s, Publish(n)); t.store == s.store && Undisturbed(s, t)
  {
  }

  /** One thing another writer may do: the server publishes, or someone stages or commits mappings or interns a
      hash or a tag. */
  datatype Edit =
    | ServerPublishes(n: nat)
    | Stages(tags: seq<string>, hashes: seq<string>)
    | Commits
    | InternsHash(hash: string)
    | InternsTag(tag: string)

  class Manager {
    const remote: World
    const bundle: Bundle
    ghost const start: Sys
    ghost var sys: Sys
    ghost var trace: seq<Step>

    /** The bundle is in the state of the system, and the system got there by the traced steps. */
    ghost predicate Linked()
      reads this, bundle, bundle.master, bundle.mappings
    {
      && bundle.Valid() && sys.store == bundle.State()
      && Inv(remote, sys) && sys == Exec(remote, start, trace)
    }

    /** The worker with this token holds the lease and is at the given place. */
    ghost predicate At(token: Token, pc: Pc)
      reads this
    {
      Holds(sys, token, pc)
    }

    /** The batches written by the steps so far. */
    ghost function Batches(): seq<seq<UpdateId>>
      reads this
    {
      BatchesWritten(remote, start, trace)
    }

    /** The system takes the step the manager has just committed. */
    ghost method Advance(step: Step)
      requires Inv(remote, sys) && sys == Exec(remote, start, trace)
      modifies this`sys, this`trace
      ensures sys == Next(remote, old(sys), step) && trace == old(trace) + [step]
      ensures Inv(remote, sys) && sys == Exec(remote, start, trace)
      ensures Batches() == old(Batches()) + if step.FinalizeBatch? then BatchWritten(remote, old(sys), step) else []
    {
      hide Next, Inv, Exec, BatchesWritten, BatchWritten;
      BatchesSnoc(remote, start, trace, step);
      NextInv(remote, sys, step);
      ExecSnoc(remote, start, trace, step);
      sys, trace := Next(remote, sys, step), trace + [step];
    }

    constructor (remote: World, bundle: Bundle, ghost sys: Sys)
      requires bundle.Valid() && sys.store == bundle.State() && Inv(remote, sys)
      ensures this.remote == remote && this.bundle == bundle && this.sys == sys && start == sys
      ensures Linked() && trace == []
    {
      this.remote, this.bundle := remote, bundle;
      this.start, this.sys, this.trace := sys, sys, [];
    }

    method MakeEdit(edit: Edit)
      requires Linked()
      modifies this`sys, this`trace, bundle, bundle.master, bundle.mappings
      ensures Linked() && old(trace) <= trace && Undisturbed(old(sys), sys) && Batches() == old(Batches())
    {
      hide Inv, Exec, Next, BatchesWritten, Interned, StageMappings, CleanTags, Clean, NotEmpty, TagIds,
           Interning.Valid, NamesExtend;
      match edit {
        case ServerPublishes(n) =>
          PublishEffect(remote, sys, n);
          Advance(Step.Publish(n));
        case Stages(tags, hashes) =>
          var added := bundle.StagePending(remote.cases, tags, hashes);
          if added.Some? {
            StageEffect(remote, sys, tags, hashes, bundle.KnownNames(), bundle.State());
            Advance(Step.StageLocally(tags, hashes, bundle.KnownNames()));
          }
        case Commits =>
          CommitEffect(remote, sys);
          var _ := bundle.CommitSuccess();
          Advance(Step.CommitLocally);
        case InternsHash(hash) =>
          bundle.EnsureHashId(hash);
          bundle.NamesAreValid();
          HashInterned(sys.store.content.names, bundle.KnownNames(), hash);
          InternEffect(remote, sys, bundle.KnownNames());
          Advance(Step.InternElsewhere(bundle.KnownNames()));
        case InternsTag(tag) =>
          var id := bundle.EnsureStagedTag(remote.cases, tag);
          if id.Some? {
            bundle.NamesAreValid();
            TagInterned(sys.store.content.names, bundle.KnownNames(), Clean(remote.cases, tag));
            InternEffect(remote, sys, bundle.KnownNames());
            Advance(Step.InternElsewhere(bundle.KnownNames()));
          }
      }
    }

    /** What other writers do to the database between two transactions of a run. */
    method OthersWrite(ghost token: Token)
      requires Linked()
      modifies this`sys, this`trace, bundle, bundle.master, bundle.mappings
      ensures Linked() && old(trace) <= trace && Undisturbed(old(sys), sys) && Batches() == old(Batches())
      ensures bundle.sync == old(bundle.sync) && bundle.Updates() == old(bundle.Updates())
      ensures Has(sys, token) == old(Has(sys, token)) && Active(sys.store, token) == old(Active(sys.store, token))
    {
      hide Inv, Exec, BatchesWritten;
      ghost var before := sys;
      var edits: seq<Edit> := *;
      for i := 0 to |edits|
        invariant Linked() && old(trace) <= trace && Undisturbed(before, sys) && Batches() == old(Batches())
      {
        MakeEdit(edits[i]);
      }
    }

    method PersistMetadata(token: Token, rows: seq<(nat, UpdateId)>, replace: bool, ghost upto: nat)
      requires Linked() && At(token, HaveMetadata(upto))
      requires IsMetadata(remote, sys.workers[token].slice, upto, rows) && replace == (sys.workers[token].slice == 0)
      modifies this`sys, this`trace, bundle
      ensures Linked() && At(token, Registered)
      ensures trace == old(trace) + [Step.PersistMetadata(token, rows)] && sys.known == upto
      ensures sys.workers[token] == old(sys.workers[token]).(pc := Registered, seen := bundle.sync.retryAttempt)
      ensures Batches() == old(Batches()) && bundle.Updates() == RegisterTables(old(bundle.Updates()), rows, replace)
      ensures StoredIds(bundle.Updates()) == old(StoredIds(bundle.Updates()))
    {
      hide Inv, Exec, Next, Holds, Persist, IsMetadata, RegisterTables, Active, BatchesWritten, Has;
      HolderIsActive(sys, token, HaveMetadata(upto));
      PersistTables(bundle.State(), token, rows, replace);
      PersistEffect(remote, sys, token, rows, upto);
      PersistStores(remote, sys, token, rows);
      hide StoredIds;
      var ok := bundle.PersistMetadata(token, rows, replace);
      Advance(Step.PersistMetadata(token, rows));
    }

    /** The lease can still be ended by this worker. */
    ghost predicate Owns(token: Token)
      reads this
    {
      Has(sys, token) && Active(sys.store, token)
    }

    method ApplyOne(token: Token, id: UpdateId, body: Payload, ghost pending: seq<UpdateId>, ghost todo: seq<Rank>,
                    ghost more: bool)
      returns (ok: bool)
      requires Linked() && At(token, Applying(pending, todo, more)) && todo != []
      requires id == todo[0].id && id in remote.log && body == remote.log[id].payload
      modifies this`sys, this`trace, bundle, bundle.master, bundle.mappings
      ensures Linked() && old(trace) <= trace && Owns(token) && sys.known == old(sys.known)
      ensures sys.workers[token] == old(sys.workers[token]).(pc := sys.workers[token].pc)
      ensures ok ==> At(token, Applying(pending, todo[1..], more))
      ensures UpdateDefined(remote, id) ==> ok
      ensures Batches() == old(Batches()) && bundle.unregistered == old(bundle.unregistered)
      ensures StoredIds(bundle.Updates()) == old(StoredIds(bundle.Updates()))
    {
      hide StoredIds, Inv, Exec, Next, Active, Has, BatchesWritten, UpdateDefined, NeededHashes, NeededTags, Interned,
           Obstacle, ApplyContent;
      NextToApply(remote, sys, token, pending, todo, more);
      var error := bundle.ApplyProcessable(remote.cases, token, id, body);
      ok := error == None;
      if ok {
        ghost var names := bundle.KnownNames();
        NeededAreInterned(sys.store.content.names, NeededHashes(body), NeededTags(remote.cases, body), names);
        ApplyEffect(remote, sys, token, pending, todo, more, names);
        Advance(Step.ApplyNext(token, names));
      }
    }

    method ListProcessable(token: Token, ghost pending: seq<UpdateId>, ghost more: bool) returns (order: seq<Rank>)
      requires Linked()
      requires if more then At(token, Flushed(pending))
               else pending == [] && At(token, Downloading([], [])) && !sys.workers[token].failing
      modifies this`sys, this`trace
      ensures Linked() && old(trace) <= trace && sys.known == old(sys.known) && Batches() == old(Batches())
      ensures order == Processable(bundle.Updates()) && At(token, Applying(pending, order, more))
      ensures sys.workers[token] == old(sys.workers[token]).(pc := Applying(pending, order, more))
    {
      hide Inv, Exec, Next, BatchesWritten, Processable;
      ListProcessableEffect(remote, sys, token, pending, more);
      var listed := bundle.ListProcessableUpdates(token);
      Advance(Step.ListProcessable(token));
      return listed.value;
    }

    /** Lists what has become processable and applies it in order.  Every update goes through when the log is
        well defined; otherwise the first that does not stops the run. */
    method ApplyDownloaded(token: Token, ghost pending: seq<UpdateId>, ghost more: bool) returns (ok: bool)
      requires Linked()
      requires if more then At(token, Flushed(pending))
               else pending == [] && At(token, Downloading([], [])) && !sys.workers[token].failing
      modifies this`sys, this`trace, bundle, bundle.master, bundle.mappings
      ensures Linked() && old(trace) <= trace && Owns(token)
      ensures sys.workers[token] == old(sys.workers[token]).(pc := sys.workers[token].pc)
      ensures ok ==> At(token, Applying(pending, [], more)) && NoneReady(bundle.Updates())
      ensures WellDefined(remote) ==> ok
      ensures sys.known == old(sys.known)
      ensures Batches() == old(Batches()) && bundle.unregistered == old(bundle.unregistered)
      ensures StoredIds(bundle.Updates()) == old(StoredIds(bundle.Updates()))
    {
      hide Linked, StoredIds, Inv, BatchesWritten, Processable, Active, UpdateDefined, NoneReady;
      ghost var worker := sys.workers[token];
      var order := ListProcessable(token, pending, more);
      for i := 0 to |order|
        invariant Linked() && old(trace) <= trace && sys.known == old(sys.known)
        invariant At(token, Applying(pending, order[i..], more))
        invariant sys.workers[token] == worker.(pc := sys.workers[token].pc)
        invariant Batches() == old(Batches()) && bundle.unregistered == old(bundle.unregistered)
        invariant StoredIds(bundle.Updates()) == old(StoredIds(bundle.Updates()))
      {
        assert order[i..][0] == order[i] && order[i..][1..] == order[i + 1..];
        ok := ApplyListed(token, order[i], pending, order[i..], more);
        if !ok {
          return false;
        }
      }
      AllApplied(token, pending, more);
      return true;
    }

    /** Once the list is done, nothing is left to apply. */
    lemma AllApplied(token: Token, pending: seq<UpdateId>, more: bool)
      requires Linked() && At(token, Applying(pending, [], more))
      ensures NoneReady(bundle.Updates())
    {
      hide LeaseInv, CountInv, MirrorInv, HistoryInv, Processable, NoneReady, Exec;
      NothingListed(bundle.Updates());
    }

    /** The next update of the list, in its own transaction. */
    method ApplyListed(token: Token, next: Rank, ghost pending: seq<UpdateId>, ghost todo: seq<Rank>, ghost more: bool)
      returns (ok: bool)
      requires Linked() && At(token, Applying(pending, todo, more)) && todo != [] && next == todo[0]
      modifies this`sys, this`trace, bundle, bundle.master, bundle.mappings
      ensures Linked() && old(trace) <= trace && Owns(token) && sys.known == old(sys.known)
      ensures sys.workers[token] == old(sys.workers[token]).(pc := sys.workers[token].pc)
      ensures ok ==> At(token, Applying(pending, todo[1..], more))
      ensures WellDefined(remote) ==> ok
      ensures Batches() == old(Batches()) && bundle.unregistered == old(bundle.unregistered)
      ensures StoredIds(bundle.Updates()) == old(StoredIds(bundle.Updates()))
    {
      hide StoredIds, Inv, Exec, Next, BatchesWritten, Processable, Active, UpdateDefined, Obstacle;
      OthersWrite(token);
      NextToApply(remote, sys, token, pending, todo, more);
      var body := bundle.stored[(next.id, if next.kind == 0 then Definitions else Mappings)].body;
      ok := ApplyOne(token, next.id, body, pending, todo, more);
    }

    /** A run whose list of processable updates is done goes on. */
    ghost method GoOn(token: Token, pending: seq<UpdateId>, more: bool)
      requires Linked() && At(token, Applying(pending, [], more))
      modifies this`sys, this`trace
      ensures Linked() && old(trace) <= trace && Batches() == old(Batches()) && sys.known == old(sys.known)
      ensures At(token, if more then Downloading(pending, []) else Drained)
      ensures sys.workers[token] == old(sys.workers[token]).(pc := sys.workers[token].pc)
    {
      hide Inv, Exec, Next, Active, BatchesWritten;
      ResumeEffect(remote, sys, token, pending, more);
      Advance(Step.Resume(token));
    }

    /** Writes the batch, applies what has become processable and goes on with the rest of the list. */
    method FlushBatch(token: Token, batch: seq<UpdateId>, ghost pending: seq<UpdateId>) returns (ok: bool)
      requires Linked() && At(token, Downloading(pending, batch))
      requires batch != [] ==> |batch| >= BATCH_SIZE || pending == [] || sys.workers[token].failing
      modifies this`sys, this`trace, bundle, bundle.master, bundle.mappings
      ensures Linked() && old(trace) <= trace && Owns(token) && sys.known == old(sys.known)
      ensures sys.workers[token] == old(sys.workers[token]).(pc := sys.workers[token].pc)
      ensures ok ==> At(token, Downloading(pending, [])) && (batch != [] ==> NoneReady(bundle.Updates()))
      ensures WellDefined(remote) ==> ok
      ensures Batches() == old(Batches()) + (if batch == [] then [] else [batch])
      ensures bundle.unregistered == old(bundle.unregistered) - Batched(batch)
      ensures StoredIds(bundle.Updates()) == old(StoredIds(bundle.Updates())) + Batched(batch)
    {
      hide Linked, Inv, Active, WellDefined, BatchesWritten, StoredIds, NoneReady;
      if batch == [] {
        return true;
      }
      WriteBatch(token, batch, pending);
      OthersWrite(token);
      ok := ApplyDownloaded(token, pending, true);
      if ok {
        GoOn(token, pending, true);
      }
    }

    /** The finalize transaction of a flush. */
    method WriteBatch(token: Token, batch: seq<UpdateId>, ghost pending: seq<UpdateId>)
      requires Linked() && At(token, Downloading(pending, batch))
      requires batch != [] && (|batch| >= BATCH_SIZE || pending == [] || sys.workers[token].failing)
      modifies this`sys, this`trace, bundle, bundle.master, bundle.mappings
      ensures Linked() && old(trace) <= trace && At(token, Flushed(pending)) && sys.known == old(sys.known)
      ensures sys.workers[token] == old(sys.workers[token]).(pc := Flushed(pending))
      ensures Batches() == old(Batches()) + [batch]
      ensures bundle.unregistered == old(bundle.unregistered) - Batched(batch)
      ensures StoredIds(bundle.Updates()) == old(StoredIds(bundle.Updates())) + Batched(batch)
    {
      hide Inv, Exec, Next, Active, Supported, Items, Finalize, BatchesWritten, BatchWritten, ItemIds, StoredIds;
      OthersWrite(token);
      BatchInLog(remote, sys, token, pending, batch);
      FinalizeEffect(remote, sys, token, pending, batch);
      var written := bundle.FinalizeDownloads(token, Items(remote, batch));
      Advance(Step.FinalizeBatch(token));
    }

    /** One round of the download loop.  Its database lookups find what was stored when the download began: what has
        been written since is not on the rest of the list.  When a body cannot be loaded nothing has been done. */
    method FetchRound(token: Token, origins: Origins, ghost stored: set<UpdateId>, listed: seq<UpdateId>, index: nat,
                      batch: seq<UpdateId>, ghost flushed: seq<UpdateId>)
      returns (grown: seq<UpdateId>, end: nat, progress: Progress)
      requires Linked() && index < |listed| && At(token, Downloading(listed[index..], batch))
      requires !sys.workers[token].failing && |batch| < BATCH_SIZE
      requires StoredIds(bundle.Updates()) == stored + Batched(flushed) && bundle.unregistered !! Batched(flushed)
      requires Accounted(flushed, batch, listed[..index], true)
      requires Explained(Found(origins, stored), listed[..index], Going)
      modifies this`sys, this`trace
      ensures Linked() && old(trace) <= trace && Batches() == old(Batches()) && sys.known == old(sys.known)
      ensures progress == CannotLoad ==> sys == old(sys)
      ensures progress != CannotLoad ==>
        && end == (if index + 3 > |listed| then |listed| else index + 3)
        && index < end <= |listed| && At(token, Downloading(listed[end..], grown)) && |grown| < BATCH_SIZE + PARALLELISM
        && sys.workers[token]
             == old(sys.workers[token]).(pc := Downloading(listed[end..], grown), failing := progress != Going)
        && Accounted(flushed, grown, listed[..end], progress == Going)
        && Accounted(flushed, grown, listed, progress == Going && end == |listed|)
      ensures progress != NotApplied
      ensures Explained(Found(origins, stored), if progress == Going then listed[..end] else listed, progress)
    {
      hide Inv, Exec, Next, Active, Has, Holds, Accounted, Explained, BatchesWritten, StoredIds, Found, Batched;
      end := if index + PARALLELISM > |listed| then |listed| else index + PARALLELISM;
      var got;
      got, progress := DownloadRound(Found(origins, StoredIds(bundle.Updates())), listed[index..end]);
      PendingWaits(remote, sys, token, listed[index..], batch);
      FoundAlike(origins, stored, Batched(flushed), bundle.unregistered, listed, index, end, progress);
      ExplainRound(Found(origins, stored), listed, index, end, progress);
      if progress == CannotLoad {
        return batch, end, CannotLoad;
      }
      RoundMultiset(got, listed[index..end], progress == Going);
      RoundEffect(remote, sys, token, listed, index, end, batch, got, progress == Going);
      Advance(Step.Download(token, got, progress == Going));
      grown := batch + got;
      AccountRound(flushed, batch, listed, index, end, got, progress == Going);
    }

    /** Since a moment with these batches, updates waiting and bodies stored, exactly the given batches have been
        written: their updates have been taken off the waiting list and their bodies are stored. */
    ghost predicate Wrote(batches: seq<seq<UpdateId>>, waiting: set<UpdateId>, stored: set<UpdateId>,
                          flushed: seq<seq<UpdateId>>)
      reads this, bundle
    {
      && Batches() == batches + flushed
      && bundle.unregistered == waiting - Batched(Concat(flushed))
      && StoredIds(bundle.Updates()) == stored + Batched(Concat(flushed))
    }

    /** The run has gone on from an earlier moment; the lease is still held, with the same record. */
    ghost predicate Continues(token: Token, earlier: seq<Step>, worker: Worker, known: nat)
      reads this, bundle, bundle.master, bundle.mappings
    {
      && Linked() && earlier <= trace && Owns(token) && sys.known == known
      && sys.workers[token].attempt == worker.attempt && sys.workers[token].seen == worker.seen
    }

    /** The place in the download loop: what has been listed up to the index is flushed or in the batch. */
    ghost predicate Between(token: Token, from: Sources, listed: seq<UpdateId>, index: nat, batch: seq<UpdateId>,
                            flushed: seq<seq<UpdateId>>)
      requires index <= |listed|
      reads this
    {
      && At(token, Downloading(listed[index..], batch)) && !sys.workers[token].failing && |batch| < BATCH_SIZE
      && FullBatches(flushed) && Explained(from, listed[..index], Going)
      && Accounted(Concat(flushed), batch, listed[..index], true)
    }

    /** One round of the download loop, with the flush that may follow it. */
    method DownloadSome(token: Token, origins: Origins, listed: seq<UpdateId>, index: nat, batch: seq<UpdateId>,
                        ghost batches: seq<seq<UpdateId>>, ghost waiting: set<UpdateId>, ghost stored: set<UpdateId>,
                        ghost flushed: seq<seq<UpdateId>>, ghost earlier: seq<Step>, ghost worker: Worker)
      returns (rest: seq<UpdateId>, end: nat, progress: Progress, ghost written: seq<seq<UpdateId>>)
      requires index < |listed| && Between(token, Found(origins, stored), listed, index, batch, flushed)
      requires Continues(token, earlier, worker, sys.known) && Wrote(batches, waiting, stored, flushed)
      modifies this`sys, this`trace, bundle, bundle.master, bundle.mappings
      ensures Continues(token, earlier, worker, old(sys.known)) && Wrote(batches, waiting, stored, written)
      ensures progress == Going ==>
        index < end <= |listed| && Between(token, Found(origins, stored), listed, end, rest, written)
      ensures progress != Going ==>
        && Explained(Found(origins, stored), listed, progress) && BatchesSized(written)
        && Accounted(Concat(written), [], listed, false)
      ensures progress == NotApplied ==> !WellDefined(remote)
    {
      hide Linked, Inv, Active, WellDefined, Accounted, Concat, FullBatches, BatchesSized, Batched, BatchesWritten,
           Explained, StoredIds, Found;
      rest, end, progress := FetchRound(token, origins, stored, listed, index, batch, Concat(flushed));
      written := flushed;
      if progress == CannotLoad {
        SizedBatches(flushed, []);
        Dropped(Concat(flushed), batch, listed, index);
        return;
      }
      if |rest| < BATCH_SIZE && progress == Going {
        return;
      }
      SizedBatches(flushed, rest);
      FlushAccount(flushed, rest, listed[..end], progress == Going);
      FlushAccount(flushed, rest, listed, progress == Going && end == |listed|);
      FlushedIds(waiting, stored, flushed, rest);
      written := WithBatch(flushed, rest);
      Account(Concat(written), listed, progress == Going && end == |listed|, false);
      var ok := FlushBatch(token, rest, listed[end..]);
      rest := [];
      if !ok {
        NoReason(Found(origins, stored), listed);
        progress := NotApplied;
      }
    }

    /** Downloads the listed updates in rounds of three, collecting bodies until there are enough to flush.
        A failed round flushes what there is and stops.  The batches this adds to those written have 25 to 27
        updates, only the last may be smaller; together they are listed updates, none of them twice, and all of
        them when no round fails; and it is their updates that are taken off the waiting list and whose bodies are
        stored. */
    method DownloadUpdates(token: Token, origins: Origins, listed: seq<UpdateId>)
      returns (progress: Progress, ghost flushed: seq<seq<UpdateId>>)
      requires Linked() && At(token, Downloading(listed, [])) && !sys.workers[token].failing
      modifies this`sys, this`trace, bundle, bundle.master, bundle.mappings
      ensures Continues(token, old(trace), old(sys.workers[token]), old(sys.known))
      ensures progress == Going ==> At(token, Downloading([], [])) && !sys.workers[token].failing
      ensures progress == NotApplied ==> !WellDefined(remote)
      ensures Explained(Found(origins, old(StoredIds(bundle.Updates()))), listed, progress)
      ensures Wrote(old(Batches()), old(bundle.unregistered), old(StoredIds(bundle.Updates())), flushed)
      ensures BatchesSized(flushed)
      ensures Accounted(Concat(flushed), [], listed, progress == Going)
    {
      hide Linked, Inv, Active, WellDefined, Accounted, Concat, FullBatches, BatchesSized, Batched, BatchesWritten,
           Explained, StoredIds, Found;
      progress, flushed := Going, [];
      ghost var waiting, stored := bundle.unregistered, StoredIds(bundle.Updates());
      ghost var from := Found(origins, stored);
      ghost var earlier, worker, known := trace, sys.workers[token], sys.known;
      var batch: seq<UpdateId> := [];
      var index := 0;
      assert listed[0..] == listed && listed[..0] == [];
      NothingFlushed(from);
      assert Between(token, from, listed, 0, [], []);
      assert Continues(token, earlier, worker, known) && Wrote(old(Batches()), waiting, stored, []);
      while index < |listed|
        invariant index <= |listed| && progress == Going
        invariant Between(token, from, listed, index, batch, flushed)
        invariant Continues(token, earlier, worker, known) && Wrote(old(Batches()), waiting, stored, flushed)
        decreases |listed| - index
      {
        hide Between, Continues, Wrote;
        batch, index, progress, flushed := DownloadSome(token, origins, listed, index, batch, old(Batches()), waiting,
                                                        stored, flushed, earlier, worker);
        if progress != Going {
          return;
        }
      }
      assert listed[..index] == listed && listed[index..] == [];
      SizedBatches(flushed, batch);
      FlushAccount(flushed, batch, listed, true);
      FlushedIds(waiting, stored, flushed, batch);
      flushed := WithBatch(flushed, batch);
      var ok := FlushBatch(token, batch, []);
      Account(Concat(flushed), listed, true, ok);
      if !ok {
        NoReason(from, listed);
        progress := NotApplied;
      }
    }

    /** Ends the lease with a recorded error. */
    method FailLease(token: Token, text: string)
      requires Linked() && Owns(token)
      modifies this`sys, this`trace, bundle
      ensures Linked() && old(trace) <= trace && !Active(sys.store, token) && Batches() == old(Batches())
      ensures bundle.sync.lastError == Some(FailureText(text)) && SameProgress(old(bundle.sync), bundle.sync)
    {
      hide Inv, Exec, Next, TrimSpace, NextIndex, BatchesWritten;
      EndEffect(remote, sys, token, text, 0);
      var _ := bundle.FinishFailure(token, text);
      Advance(Step.FailRun(token, text));
    }

    /** Ends the lease after a cancellation. */
    method CancelLease(token: Token)
      requires Linked() && Owns(token)
      modifies this`sys, this`trace, bundle
      ensures Linked() && old(trace) <= trace && !Active(sys.store, token) && Batches() == old(Batches())
      ensures bundle.sync.phase == Idle && bundle.sync.lastError == None
      ensures bundle.sync.lastMappingCount == old(bundle.sync.lastMappingCount)
      ensures JustPast(bundle.sync.metadataSlice, bundle.registered)
    {
      hide Inv, Exec, Next, TrimSpace, NextIndex, BatchesWritten, JustPast;
      EndEffect(remote, sys, token, "", 0);
      var _ := bundle.FinishSync(token, false);
      Advance(Step.Cancel(token));
    }

    /** Ends the lease in success. */
    method CompleteLease(token: Token)
      requires Linked() && At(token, Drained)
      modifies this`sys, this`trace, bundle
      ensures Linked() && old(trace) <= trace && !Active(sys.store, token) && Batches() == old(Batches())
      ensures bundle.sync.phase == Idle && bundle.sync.lastError == None
      ensures bundle.unregistered == {} && Unprocessed(bundle.stored) == {}
      ensures Applied(sys.history) == LogOrder(remote, old(sys.known))
      ensures bundle.sync.lastMappingCount == Some(|bundle.mappings.current|)
      ensures JustPast(bundle.sync.metadataSlice, bundle.registered)
    {
      hide BatchesWritten, Inv, Exec, Next, Applied, LogOrder, TrimSpace, NextIndex, JustPast;
      DrainedEffect(remote, sys, token);
      EndEffect(remote, sys, token, "", 0);
      CompleteHistory(remote, sys, token);
      var _ := bundle.FinishSync(token, true);
      Advance(Step.Complete(token));
    }

    /** Ends the lease after a busy answer: in one more retry, or, once they are used up, in a failure, which the
        run's own cleanup then reports a second time. */
    method ThrottleLease(token: Token, retryAt: int, attempt: int, busyText: string) returns (result: RunResult)
      requires Linked() && Owns(token) && attempt == Max(sys.workers[token].attempt, sys.workers[token].seen)
      modifies this`sys, this`trace, bundle, bundle.master, bundle.mappings
      ensures Linked() && old(trace) <= trace && !Active(sys.store, token) && Batches() == old(Batches())
      ensures EndsAs(Busy(retryAt), attempt, busyText, bundle.sync, result)
      ensures SameProgress(old(bundle.sync), bundle.sync)
    {
      hide Inv, Exec, Next, TrimSpace, NextIndex, BatchesWritten;
      HolderAttempts(remote, sys, token);
      EndEffect(remote, sys, token, busyText, retryAt);
      if attempt + 1 > MAX_BUSY_RETRIES {
        var _ := bundle.FinishFailure(token, busyText);
        Advance(Step.ThrottleRun(token, retryAt, busyText));
        ReportAgain(token, busyText);
        return Failed;
      }
      var _ := bundle.SetThrottled(token, retryAt, attempt + 1);
      Advance(Step.ThrottleRun(token, retryAt, busyText));
      return Deferred;
    }

    /** A failure reported once the lease is over. */
    method ReportAgain(token: Token, text: string)
      requires Linked() && !Active(sys.store, token)
      modifies this`sys, this`trace, bundle, bundle.master, bundle.mappings
      ensures Linked() && old(trace) <= trace && !Active(sys.store, token) && Batches() == old(Batches())
      ensures bundle.sync == old(bundle.sync)
    {
      hide Inv, Exec, Next, TrimSpace, NextIndex, BatchesWritten;
      OthersWrite(token);
      LateFailureEffect(remote, sys, token, text);
      var _ := bundle.FinishFailure(token, text);
      Advance(Step.FailRun(token, text));
    }

    /** Ends a run that was stopped by a remote failure or by its context. */
    method EndEarly(lease: Lease, failure: Failure, statusAttempt: int, busyText: string) returns (result: RunResult)
      requires Linked() && Owns(lease.token)
      requires lease.attempt == sys.workers[lease.token].attempt && statusAttempt == sys.workers[lease.token].seen
      modifies this`sys, this`trace, bundle, bundle.master, bundle.mappings
      ensures Linked() && old(trace) <= trace && !Active(sys.store, lease.token)
      ensures EndsAs(failure, Max(lease.attempt, statusAttempt), busyText, bundle.sync, result)
      ensures Batches() == old(Batches())
      ensures bundle.sync.lastMappingCount == old(bundle.sync.lastMappingCount)
      ensures if failure == Cancelled then JustPast(bundle.sync.metadataSlice, bundle.registered)
              else SameProgress(old(bundle.sync), bundle.sync)
    {
      hide Linked, Inv, FailureText, BatchesWritten, Active, JustPast;
      var token := lease.token;
      OthersWrite(token);
      match failure {
        case Other(text) =>
          FailLease(token, text);
          result := Failed;
        case Cancelled =>
          CancelLease(token);
          result := Stopped;
        case Busy(retryAt) =>
          result := ThrottleLease(token, retryAt, Max(lease.attempt, statusAttempt), busyText);
      }
    }

    /** Applies what is left and ends the run in success: nothing is missing, nothing is unprocessed, and the
        whole log up to the answer's horizon has been applied. */
    method FinishRun(lease: Lease, text: string) returns (ok: bool)
      requires Linked() && At(lease.token, Downloading([], [])) && !sys.workers[lease.token].failing
      modifies this`sys, this`trace, bundle, bundle.master, bundle.mappings
      ensures Linked() && old(trace) <= trace && !Active(sys.store, lease.token)
      ensures WellDefined(remote) ==> ok
      ensures ok ==> bundle.sync.phase == Idle && bundle.sync.lastError == None
      ensures ok ==> bundle.unregistered == {} && Unprocessed(bundle.stored) == {}
      ensures ok ==> Applied(sys.history) == LogOrder(remote, old(sys.known))
      ensures ok ==> bundle.sync.lastMappingCount == Some(|bundle.mappings.current|)
      ensures ok ==> JustPast(bundle.sync.metadataSlice, bundle.registered)
      ensures !ok ==> bundle.sync.lastError == Some(FailureText(text))
      ensures Batches() == old(Batches())
    {
      hide Linked, BatchesWritten, Inv, WellDefined, Applied, LogOrder, FailureText, Active, Unprocessed, StoredIds,
           JustPast;
      var token := lease.token;
      OthersWrite(token);
      ok := ApplyDownloaded(token, [], false);
      OthersWrite(token);
      if !ok {
        FailLease(token, text);
        return;
      }
      GoOn(token, [], false);
      CompleteLease(token);
    }

    /** Takes the lease, unless a retry is waiting for its time or a run is active. */
    method BeginSync(token: Token, now: int) returns (lease: Option<Lease>)
      requires Linked() && token !in sys.issued
      modifies this`sys, this`trace, bundle
      ensures Linked() && old(trace) <= trace && sys.horizon == old(sys.horizon)
      ensures lease.Some? <==>
                !old(bundle.sync.running) && !(old(bundle.sync).phase == Retrying && old(bundle.sync).retryAt > now)
      ensures lease.None? ==> bundle.State() == old(bundle.State())
      ensures lease.Some? ==>
        && lease.value == Lease(token, bundle.sync.metadataSlice, bundle.sync.retryAttempt)
        && bundle.sync == old(bundle.sync).(phase := Syncing, running := true, token := Some(token), retryAt := 0,
                                            lastError := None)
        && lease.value.token == token && At(token, Started)
        && sys.workers[token] == Worker(lease.value.slice, lease.value.attempt, 0, Started, false)
    {
      hide Inv, Exec;
      var status := bundle.sync;
      if status.phase == Retrying && status.retryAt > now {
        return None;
      }
      BeginEffect(remote, sys, token, now);
      var ok := bundle.BeginSync(token);
      Advance(Step.BeginRun(token, now));
      return if ok then Some(Lease(token, bundle.sync.metadataSlice, bundle.sync.retryAttempt)) else None;
    }

    /** One whole run.  It ends with the lease given up.  On a well-defined log it completes exactly when the remote
        answers and every missing body can be loaded or fetched; a completed run has drained both backlogs,
        applied the log and written every missing body once.  Otherwise the run ends as its failure says: one
        that the remote gave, for the metadata or for a missing body; or else with a recorded error. */
    method RunStartedSync(lease: Lease, answer: Answer, origins: Origins, text: string, busyText: string)
      returns (result: RunResult, failure: Option<Failure>)
      requires Linked() && At(lease.token, Started)
      requires sys.workers[lease.token] == Worker(lease.slice, lease.attempt, 0, Started, false)
      requires answer.Metadata? ==> IsMetadata(remote, lease.slice, sys.horizon, answer.rows)
      modifies this`sys, this`trace, bundle, bundle.master, bundle.mappings
      ensures Linked() && old(trace) <= trace && !Active(sys.store, lease.token)
      ensures result == Completed ==>
        && failure == None && bundle.sync.phase == Idle && bundle.sync.lastError == None
        && bundle.unregistered == {} && Unprocessed(bundle.stored) == {}
        && Applied(sys.history) == LogOrder(remote, old(sys.horizon))
        && bundle.sync.lastMappingCount == Some(|bundle.mappings.current|)
        && JustPast(bundle.sync.metadataSlice, bundle.registered)
      ensures match failure
              case Some(f) => EndsAs(f, lease.attempt, busyText, bundle.sync, result)
              case None => result == Completed || (result == Failed && bundle.sync.lastError == Some(FailureText(text)))
      ensures answer.NoAnswer? ==> failure == Some(answer.failure) && Batches() == old(Batches())
      ensures answer.Metadata? ==>
        var missing := Missing(old(bundle.Updates()), answer.rows, lease.slice);
        var from := Found(origins, StoredIds(old(bundle.Updates())));
        && (failure.Some? ==> Explained(from, missing, FetchFailed(failure.value)))
        && (result == Completed ==> Explained(from, missing, Going))
        && (failure == None && result == Failed ==> !WellDefined(remote) || Explained(from, missing, CannotLoad))
        && (WellDefined(remote) ==> (result == Completed <==> forall id | id in missing :: Obtainable(from, id)))
        && WroteBatches(old(Batches()), Batches(), missing, result == Completed)
    {
      hide Linked, Inv, Exec, Next, WellDefined, Applied, LogOrder, IsMetadata, TrimSpace, Active, OnlyMoved, Accounted,
           BatchesSized, BatchesWritten, RegisterTables, InIdOrder, Explained, Obtainable, EndsAs, WroteBatches,
           StoredIds, Found, JustPast;
      var token := lease.token;
      LeaseAttempt(lease);
      if answer.NoAnswer? {
        result := EndEarly(lease, answer.failure, 0, busyText);
        RunEndsAs(text, lease.attempt, busyText, bundle.sync, result);
        return result, Some(answer.failure);
      }
      StartDownload(lease, answer.rows);
      var statusAttempt := bundle.sync.retryAttempt;
      OthersWrite(token);
      var listed := ListPending(token);
      LeaseAttempt(lease);
      var progress;
      ghost var flushed;
      progress, flushed := DownloadUpdates(token, origins, listed);
      WroteThese(old(Batches()), flushed, listed, progress == Going);
      ExplainEnd(Found(origins, StoredIds(old(bundle.Updates()))), listed, progress);
      if progress == Going {
        var ok := FinishRun(lease, text);
        return if ok then Completed else Failed, None;
      }
      failure := if progress.FetchFailed? then Some(progress.failure) else None;
      var cause := if progress.FetchFailed? then progress.failure else Other(text);
      result := EndEarly(lease, cause, statusAttempt, busyText);
      RunEndsAs(text, lease.attempt, busyText, bundle.sync, result);
    }

    /** The attempt the lease was taken with is the larger one. */
    lemma LeaseAttempt(lease: Lease)
      requires Linked() && Owns(lease.token) && lease.attempt == sys.workers[lease.token].attempt
      ensures Max(lease.attempt, sys.workers[lease.token].seen) == lease.attempt
      ensures Max(lease.attempt, 0) == lease.attempt
    {
      HolderAttempts(remote, sys, lease.token);
    }

    /** Fetches and persists the metadata. */
    method StartDownload(lease: Lease, rows: seq<(nat, UpdateId)>)
      requires Linked() && At(lease.token, Started)
      requires sys.workers[lease.token] == Worker(lease.slice, lease.attempt, 0, Started, false)
      requires IsMetadata(remote, lease.slice, sys.horizon, rows)
      modifies this`sys, this`trace, bundle, bundle.master, bundle.mappings
      ensures Linked() && old(trace) <= trace && sys.known == old(sys.horizon) && At(lease.token, Registered)
      ensures sys.workers[lease.token] ==
              Worker(lease.slice, lease.attempt, bundle.sync.retryAttempt, Registered, false)
      ensures bundle.Updates() == RegisterTables(old(bundle.Updates()), rows, lease.slice == 0)
      ensures StoredIds(bundle.Updates()) == old(StoredIds(bundle.Updates()))
      ensures Batches() == old(Batches())
    {
      hide StoredIds, Inv, Exec, Next, IsMetadata, Active, RegisterTables, BatchesWritten;
      FetchEffect(remote, sys, lease.token);
      ghost var upto := sys.horizon;
      Advance(Step.FetchMetadata(lease.token));
      OthersWrite(lease.token);
      PersistMetadata(lease.token, rows, lease.slice == 0, upto);
    }

    method ListPending(token: Token) returns (listed: seq<UpdateId>)
      requires Linked() && At(token, Registered)
      modifies this`sys, this`trace
      ensures Linked() && old(trace) <= trace && sys.known == old(sys.known)
      ensures listed == InIdOrder(bundle.unregistered) && At(token, Downloading(listed, []))
      ensures sys.workers[token] == old(sys.workers[token]).(pc := Downloading(listed, []))
      ensures Batches() == old(Batches())
    {
      hide Inv, Exec, Next, InIdOrder, BatchesWritten;
      ListPendingEffect(remote, sys, token);
      var ids := bundle.ListPendingHashes(token);
      Advance(Step.ListPending(token));
      return ids.value;
    }
  }

  /** No stored body is ready to be applied. */
  ghost predicate NoneReady(t: UpdateTables) {
    forall id, kind, index :: !ReadyToApply(t, id, kind, index)
  }

  lemma NothingListed(t: UpdateTables)
    requires Processable(t) == []
    ensures NoneReady(t)
  {
    ProcessableListed(t);
    hide Processable, ReadyToApply;
    forall id, kind, index ensures !ReadyToApply(t, id, kind, index) {
      var r := Rank(index, if kind == Definitions then 0 else 1, id);
      assert r !in Processable(t);
    }
  }

  lemma HashInterned(before: Names, after: Names, hash: string)
    requires Grown(before.hashes, after.hashes, {hash}) && after.tags == before.tags
    ensures NamesExtend(before, after)
  {
  }

  lemma TagInterned(before: Names, after: Names, tag: string)
    requires Grown(before.tags, after.tags, {tag}) && after.hashes == before.hashes
    ensures NamesExtend(before, after)
  {
  }

  lemma BeginEffect(w: World, s: Sys, token: Token, now: int)
    requires token !in s.issued && !(s.store.sync.phase == Retrying && s.store.sync.retryAt > now)
    ensures var t := Next(w, s, BeginRun(token, now));
            && t.store == After(s.store, Begin(s.store, token)) && t.horizon == s.horizon
            && (Begin(s.store, token).Committed? ==>
                  Holds(t, token, Started)
                  && t.workers[token] == Worker(t.store.sync.metadataSlice, t.store.sync.retryAttempt, 0, Started,
                                                false))
  {
  }

  lemma DrainedEffect(w: World, s: Sys, token: Token)
    requires Inv(w, s) && Holds(s, token, Drained)
    ensures s.store.updates.unregistered == {} && Unprocessed(s.store.updates.stored) == {}
    ensures Applied(s.history) == LogOrder(w, s.known)
  {
    hide CountInv, HistoryInv, MirrorInv;
    DrainedIffAllApplied(w, s.store.updates, s.known, Applied(s.history));
  }

  lemma CompleteHistory(w: World, s: Sys, token: Token)
    ensures Next(w, s, Complete(token)).history == s.history
  {
  }

  /** What has been flushed and what is in the batch were asked for, at most once each; all of it was, when
      nothing failed. */
  ghost predicate Accounted(flushed: seq<UpdateId>, batch: seq<UpdateId>, asked: seq<UpdateId>, complete: bool) {
    && multiset(flushed) + multiset(batch) <= multiset(asked)
    && (complete ==> multiset(flushed) + multiset(batch) == multiset(asked))
  }

  lemma NothingFlushed(from: Sources)
    ensures FullBatches([]) && Accounted(Concat([]), [], [], true) && Explained(from, [], Going)
    ensures Batched(Concat([])) == {}
  {
  }

  lemma Dropped(flushed: seq<UpdateId>, batch: seq<UpdateId>, listed: seq<UpdateId>, index: nat)
    requires index <= |listed| && Accounted(flushed, batch, listed[..index], true)
    ensures Accounted(flushed, [], listed, false)
  {
    assert listed == listed[..index] + listed[index..];
  }

  /** The batches with one more, unless it is empty. */
  function WithBatch(flushed: seq<seq<UpdateId>>, batch: seq<UpdateId>): seq<seq<UpdateId>> {
    if batch == [] then flushed else flushed + [batch]
  }

  lemma FlushedIds(waiting: set<UpdateId>, stored: set<UpdateId>, flushed: seq<seq<UpdateId>>, batch: seq<UpdateId>)
    ensures waiting - Batched(Concat(flushed)) - Batched(batch) == waiting - Batched(Concat(WithBatch(flushed, batch)))
    ensures stored + Batched(Concat(flushed)) + Batched(batch) == stored + Batched(Concat(WithBatch(flushed, batch)))
  {
    ConcatSnoc(flushed, batch);
    BatchedAppend(Concat(flushed), batch);
    hide Concat;
  }

  lemma NoReason(from: Sources, ids: seq<UpdateId>)
    ensures Explained(from, ids, NotApplied)
  {
  }

  lemma ExplainRound(from: Sources, listed: seq<UpdateId>, index: nat, end: nat, progress: Progress)
    requires index <= end <= |listed| && Explained(from, listed[..index], Going)
    requires Explained(from, listed[index..end], progress)
    ensures Explained(from, if progress == Going then listed[..end] else listed, progress)
  {
    hide Obtainable;
    assert listed[..end] == listed[..index] + listed[index..end];
    assert listed == listed[..end] + listed[end..];
    assert forall id :: id in listed[..end] <==> id in listed[..index] || id in listed[index..end];
    assert forall id | id in listed[index..end] :: id in listed;
  }

  /** A download stopped by a body has a body that cannot be obtained. */
  lemma ExplainEnd(from: Sources, ids: seq<UpdateId>, progress: Progress)
    requires Explained(from, ids, progress)
    ensures progress == Going ==> forall id | id in ids :: Obtainable(from, id)
    ensures progress.CannotLoad? || progress.FetchFailed? ==> !(forall id | id in ids :: Obtainable(from, id))
  {
  }

  lemma RunEndsAs(text: string, attempt: int, busyText: string, sync: SyncState, result: RunResult)
    ensures EndsAs(Other(text), attempt, busyText, sync, result) ==>
              result == Failed && sync.lastError == Some(FailureText(text))
    ensures forall failure | EndsAs(failure, attempt, busyText, sync, result) :: result != Completed
  {
  }

  /** What was written beyond the batches of before: full batches and perhaps a smaller last one, of wanted updates,
      none of them twice, and all of them if complete. */
  ghost predicate WroteBatches(before: seq<seq<UpdateId>>, after: seq<seq<UpdateId>>, wanted: seq<UpdateId>,
                               complete: bool)
  {
    && before <= after && BatchesSized(after[|before|..])
    && Accounted(Concat(after[|before|..]), [], wanted, complete)
  }

  lemma WroteThese(before: seq<seq<UpdateId>>, flushed: seq<seq<UpdateId>>, wanted: seq<UpdateId>, complete: bool)
    requires BatchesSized(flushed) && Accounted(Concat(flushed), [], wanted, complete)
    ensures WroteBatches(before, before + flushed, wanted, complete)
            && WroteBatches(before, before + flushed, wanted, false)
  {
    hide BatchesSized, Concat;
    assert (before + flushed)[|before|..] == flushed;
  }

  /** What a lease holder knows of the retries. */
  lemma HolderAttempts(w: World, s: Sys, token: Token)
    requires Inv(w, s) && Has(s, token) && Active(s.store, token)
    ensures 0 <= s.workers[token].seen <= s.workers[token].attempt
  {
    hide MirrorInv, CountInv, HistoryInv;
  }

  lemma Account(flushed: seq<UpdateId>, asked: seq<UpdateId>, complete: bool, less: bool)
    requires Accounted(flushed, [], asked, complete) && (less ==> complete)
    ensures Accounted(flushed, [], asked, less)
  {
  }

  lemma FlushAccount(flushed: seq<seq<UpdateId>>, batch: seq<UpdateId>, asked: seq<UpdateId>, complete: bool)
    requires Accounted(Concat(flushed), batch, asked, complete)
    ensures Accounted(Concat(WithBatch(flushed, batch)), [], asked, complete)
  {
    ConcatSnoc(flushed, batch);
  }

  /** Flushes of at least 25 and at most 27 updates. */
  predicate FullBatches(flushed: seq<seq<UpdateId>>) {
    forall i | 0 <= i < |flushed| :: 25 <= |flushed[i]| <= 27
  }

  /** Only the last flush may be smaller, and none is empty. */
  predicate BatchesSized(flushed: seq<seq<UpdateId>>) {
    flushed == [] || (FullBatches(flushed[..|flushed| - 1]) && 0 < |flushed[|flushed| - 1]| <= 27)
  }

  lemma SizedBatches(flushed: seq<seq<UpdateId>>, batch: seq<UpdateId>)
    requires FullBatches(flushed) && |batch| < BATCH_SIZE + PARALLELISM
    ensures var after := WithBatch(flushed, batch);
            BatchesSized(after) && (|batch| >= BATCH_SIZE ==> FullBatches(after))
  {
    assert (flushed + [batch])[..|flushed|] == flushed;
  }

  lemma RoundSlices(listed: seq<UpdateId>, index: nat, end: nat)
    requires index <= end <= |listed|
    ensures listed[index..][..end - index] == listed[index..end] && listed[index..][end - index..] == listed[end..]
  {
  }

  lemma AccountRound(flushed: seq<UpdateId>, batch: seq<UpdateId>, listed: seq<UpdateId>, index: nat, end: nat,
                     got: seq<UpdateId>, complete: bool)
    requires index <= end <= |listed| && Accounted(flushed, batch, listed[..index], true)
    requires multiset(got) <= multiset(listed[index..end])
    requires complete ==> multiset(got) == multiset(listed[index..end])
    ensures Accounted(flushed, batch + got, listed[..end], complete)
    ensures Accounted(flushed, batch + got, listed, complete && end == |listed|)
  {
    assert listed[..end] == listed[..index] + listed[index..end];
    assert listed == listed[..end] + listed[end..];
  }

  lemma RoundMultiset(got: seq<UpdateId>, wanted: seq<UpdateId>, complete: bool)
    requires multiset(got) <= multiset(wanted) && (complete <==> |got| == |wanted|)
    ensures |got| <= |wanted| && (complete ==> multiset(got) == multiset(wanted))
  {
    var missing := multiset(wanted) - multiset(got);
    assert multiset(wanted) == multiset(got) + missing;
    assert |multiset(wanted)| == |multiset(got)| + |missing|;
  }
}
