/** What the sync protocol guarantees over every run from an empty repository: any order of begins, metadata
    answers, parallel downloads, flushes, applications, throttles, cancellations, failures, crashes and
    recoveries, by any number of workers, against a log that keeps growing. */
module SyncTheorems {
  import opened Tags
  import opened MappingTables
  import opened UpdateOrder
  import opened Repository
  import opened Replay
  import opened SyncSystem
  import opened SyncInvariants

  lemma Reachable(w: World, names: Names, steps: seq<Step>)
    requires ValidNames(names)
    ensures Inv(w, Exec(w, Start(names), steps))
  {
    StartInv(w, names);
    ExecInv(w, Start(names), steps);
  }

  // ----- Incremental sync refines one-shot replay -----

  /** The fold of a stretch of the log over an empty replica. */
  function ReplayLog(w: World, order: seq<Rank>): Replica
    requires forall r | r in order :: r.id in w.log
  {
    if order == [] then EMPTY_REPLICA
    else ReplayUpdate(w.cases, ReplayLog(w, order[..|order| - 1]), w.log[order[|order| - 1].id].payload)
  }

  predicate AllRemote(history: seq<Event>) {
    forall i | 0 <= i < |history| :: history[i].Remote?
  }

  lemma {:induction false} ReplayOfRemote(w: World, history: seq<Event>)
    requires FromTheLog(w, history)
    ensures forall r | r in Applied(history) :: r.id in w.log
    ensures ReplayAll(w.cases, history).hashes == ReplayLog(w, Applied(history)).hashes
    ensures ReplayAll(w.cases, history).tags == ReplayLog(w, Applied(history)).tags
    ensures AllRemote(history) ==> ReplayAll(w.cases, history) == ReplayLog(w, Applied(history))
  {
    hide ReplayUpdate, Stage, Commit;
    if history != [] {
      var init, e := history[..|history| - 1], history[|history| - 1];
      assert e in history;
      ReplayOfRemote(w, init);
      if e.Remote? {
        assert Applied(history)[..|Applied(history)| - 1] == Applied(init);
        DefinitionsAlone(w.cases, ReplayAll(w.cases, init), ReplayLog(w, Applied(init)), e.payload);
      }
    }
  }

  /** What an update defines does not depend on the mapping tables. */
  lemma DefinitionsAlone(cases: CaseTable, a: Replica, b: Replica, p: Payload)
    requires a.hashes == b.hashes && a.tags == b.tags
    ensures ReplayUpdate(cases, a, p).hashes == ReplayUpdate(cases, b, p).hashes
    ensures ReplayUpdate(cases, a, p).tags == ReplayUpdate(cases, b, p).tags
  {
  }

  predicate NoLocalEdits(steps: seq<Step>) {
    forall i | 0 <= i < |steps| :: !steps[i].StageLocally? && !steps[i].CommitLocally?
  }

  lemma NextHistory(w: World, s: Sys, step: Step)
    ensures s.history <= Next(w, s, step).history
    ensures |Next(w, s, step).history| <= |s.history| + 1
    ensures !step.StageLocally? && !step.CommitLocally? && AllRemote(s.history) ==> AllRemote(Next(w, s, step).history)
    ensures !step.StageLocally? ==>
              forall i | |s.history| <= i < |Next(w, s, step).history| :: !Next(w, s, step).history[i].Staged?
  {
    hide NextIndex, Processable, RegisterTables, StoreTables, Supported, ApplyContent, Obstacle, InIdOrder, Items,
      Interned, IsMetadata, FailureText, StagedPairs, CleanTags, NotEmpty, NamesExtend, ValidNames;
  }

  lemma {:induction false} ExecHistory(w: World, s: Sys, steps: seq<Step>)
    ensures s.history <= Exec(w, s, steps).history
    ensures NoLocalEdits(steps) && AllRemote(s.history) ==> AllRemote(Exec(w, s, steps).history)
  {
    hide Next;
    if steps != [] {
      ExecHistory(w, s, steps[..|steps| - 1]);
      NextHistory(w, Exec(w, s, steps[..|steps| - 1]), steps[|steps| - 1]);
    }
  }

  /** In every run, whatever was downloaded in whatever order and however often the run was interrupted, the
      updates applied are a prefix of the log in its order, and the store holds what replaying the events in
      one go gives.  The repository's definitions are those of that prefix, whatever was staged locally. */
  lemma IncrementalSyncIsReplay(w: World, names: Names, steps: seq<Step>)
    requires ValidNames(names)
    ensures var s := Exec(w, Start(names), steps);
            var applied := Applied(s.history);
            && applied <= LogOrder(w, s.known) && s.known <= s.horizon
            && (forall r | r in applied :: r.id in w.log)
            && Represents(s.store.content, ReplayAll(w.cases, s.history))
            && ReplayAll(w.cases, s.history).hashes == ReplayLog(w, applied).hashes
            && ReplayAll(w.cases, s.history).tags == ReplayLog(w, applied).tags
  {
    hide Next, Exec, LeaseInv, CountInv, WorkerInv;
    Reachable(w, names, steps);
    ReplayOfRemote(w, Exec(w, Start(names), steps).history);
  }

  /** Without local edits, the id maps and the mapping tables are exactly the fold of the applied prefix. */
  lemma RemoteSyncIsReplay(w: World, names: Names, steps: seq<Step>)
    requires ValidNames(names) && NoLocalEdits(steps)
    ensures var s := Exec(w, Start(names), steps);
            var applied := Applied(s.history);
            && applied <= LogOrder(w, s.known)
            && (forall r | r in applied :: r.id in w.log)
            && Represents(s.store.content, ReplayLog(w, applied))
  {
    hide Next, Exec, LeaseInv, CountInv, WorkerInv;
    Reachable(w, names, steps);
    ExecHistory(w, Start(names), steps);
    ReplayOfRemote(w, Exec(w, Start(names), steps).history);
  }

  lemma PrefixesOfTheLog(w: World, a: seq<Rank>, m: nat, b: seq<Rank>, n: nat)
    requires a <= LogOrder(w, m) && b <= LogOrder(w, n) && |a| == |b|
    ensures a == b
  {
    if m <= n { LogGrows(w, m, n); } else { LogGrows(w, n, m); }
  }

  /** Two runs without local edits that have applied equally many updates hold the same tables, name by
      name, however different the two runs were. */
  lemma EqualProgressEqualTables(w: World, names: Names, steps: seq<Step>, otherNames: Names, otherSteps: seq<Step>)
    requires ValidNames(names) && NoLocalEdits(steps) && ValidNames(otherNames) && NoLocalEdits(otherSteps)
    requires |Applied(Exec(w, Start(names), steps).history)| ==
             |Applied(Exec(w, Start(otherNames), otherSteps).history)|
    ensures forall replica :: Represents(Exec(w, Start(names), steps).store.content, replica)
                         <==> Represents(Exec(w, Start(otherNames), otherSteps).store.content, replica)
  {
    hide Next, Exec, Represents;
    var s, t := Exec(w, Start(names), steps), Exec(w, Start(otherNames), otherSteps);
    RemoteSyncIsReplay(w, names, steps);
    RemoteSyncIsReplay(w, otherNames, otherSteps);
    PrefixesOfTheLog(w, Applied(s.history), s.known, Applied(t.history), t.known);
    var common := ReplayLog(w, Applied(s.history));
    forall replica ensures Represents(s.store.content, replica) <==> Represents(t.store.content, replica) {
      if Represents(s.store.content, replica) { RepresentedReplicaIsUnique(s.store.content, replica, common); }
      if Represents(t.store.content, replica) { RepresentedReplicaIsUnique(t.store.content, replica, common); }
    }
  }

  lemma {:induction false} AppliedPrefix(a: seq<Event>, b: seq<Event>)
    requires a <= b
    ensures Applied(a) <= Applied(b)
    decreases |b|
  {
    if |a| < |b| {
      AppliedPrefix(a, b[..|b| - 1]);
    } else {
      assert a == b;
    }
  }

  /** Each update is applied at most once, what is applied stays applied, and a stored body is marked
      processed exactly when its update has been applied: no later step resets the mark. */
  lemma AppliedExactlyOnce(w: World, names: Names, steps: seq<Step>, more: seq<Step>)
    requires ValidNames(names)
    ensures var s := Exec(w, Start(names), steps);
            var t := Exec(w, s, more);
            && Applied(s.history) <= Applied(t.history)
            && (forall i, j | 0 <= i < j < |Applied(t.history)| :: Applied(t.history)[i] != Applied(t.history)[j])
            && (forall k | k in t.store.updates.stored ::
                  k.0 in w.log && (t.store.updates.stored[k].processed <==> RankOf(w, k.0) in Applied(t.history)))
            && (forall k | k in s.store.updates.stored && s.store.updates.stored[k].processed ::
                  k in t.store.updates.stored && t.store.updates.stored[k].processed)
  {
    hide Next, Exec, LeaseInv, CountInv, WorkerInv, HistoryInv, CountInv;
    var s := Exec(w, Start(names), steps);
    var t := Exec(w, s, more);
    Reachable(w, names, steps);
    ExecInv(w, s, more);
    ExecHistory(w, s, more);
    AppliedPrefix(s.history, t.history);
    PrefixIsDownClosed(Applied(t.history), LogRanks(w, t.known));
    forall k | k in t.store.updates.stored
      ensures k.0 in w.log && (t.store.updates.stored[k].processed <==> RankOf(w, k.0) in Applied(t.history))
    {
      assert RowOk(w, t.store.updates, Elements(Applied(t.history)), k);
    }
    forall k | k in s.store.updates.stored && s.store.updates.stored[k].processed
      ensures k in t.store.updates.stored && t.store.updates.stored[k].processed
    {
      assert RowOk(w, s.store.updates, Elements(Applied(s.history)), k);
      var r := RankOf(w, k.0);
      assert r in Applied(t.history);
      assert IsStored(w, t.store.updates, r.id);
    }
  }

  // ----- What a replayed stretch of the log holds -----

  predicate AllInLog(w: World, order: seq<Rank>) {
    forall r | r in order :: r.id in w.log
  }

  /** The i-th update is the last of the stretch that defines the tag, or the hash. */
  predicate LastTag(w: World, order: seq<Rank>, i: nat, x: int)
    requires i < |order|
  {
    DefinesTag(w, order[i].id, x) && forall j | i < j < |order| :: !DefinesTag(w, order[j].id, x)
  }

  predicate LastHash(w: World, order: seq<Rank>, i: nat, x: int)
    requires i < |order|
  {
    DefinesHash(w, order[i].id, x) && forall j | i < j < |order| :: !DefinesHash(w, order[j].id, x)
  }

  /** A repository tag has the name the last update that defines it gives: its clean form, or the placeholder when
      nothing is left of it. */
  lemma {:induction false} ReplayedTag(w: World, order: seq<Rank>, i: nat, x: int)
    requires AllInLog(w, order) && i < |order| && LastTag(w, order, i, x)
    ensures x in ReplayLog(w, order).tags
    ensures StoredAs(w.cases, w.log[order[i].id].payload.tags[x], ReplayLog(w, order).tags[x])
    decreases |order|
  {
    hide StoredAs, DefinitionTagName;
    var m := |order| - 1;
    var init, p := order[..m], w.log[order[m].id].payload;
    assert order[m] in order && (forall r | r in init :: r in order);
    if i < m {
      ReplayedTag(w, init, i, x);
      assert !DefinesTag(w, order[m].id, x);
    } else {
      DefinitionTagNameIsStored(w.cases, p.tags[x]);
    }
  }

  /** A repository hash is the one the last update that defines it gives. */
  lemma {:induction false} ReplayedHash(w: World, order: seq<Rank>, i: nat, x: int)
    requires AllInLog(w, order) && i < |order| && LastHash(w, order, i, x)
    ensures x in ReplayLog(w, order).hashes
    ensures ReplayLog(w, order).hashes[x] == w.log[order[i].id].payload.hashes[x]
    decreases |order|
  {
    var m := |order| - 1;
    var init := order[..m];
    assert order[m] in order && (forall r | r in init :: r in order);
    if i < m {
      ReplayedHash(w, init, i, x);
      assert !DefinesHash(w, order[m].id, x);
    }
  }

  /** The i-th update adds, or deletes, the pair by the names its ids have when its turn comes. */
  predicate AddsPair(w: World, order: seq<Rank>, i: nat, p: Mapping)
    requires AllInLog(w, order) && i < |order|
  {
    assert forall r | r in order[..i] :: r in order;
    var payload, before := w.log[order[i].id].payload, ReplayLog(w, order[..i]);
    payload.MappingsUpdate? && Gives(payload.adds, before.tags, before.hashes, p)
  }

  predicate DeletesPair(w: World, order: seq<Rank>, i: nat, p: Mapping)
    requires AllInLog(w, order) && i < |order|
  {
    assert forall r | r in order[..i] :: r in order;
    var payload, before := w.log[order[i].id].payload, ReplayLog(w, order[..i]);
    payload.MappingsUpdate? && Gives(payload.deletes, before.tags, before.hashes, p)
  }

  ghost predicate LastAdded(w: World, order: seq<Rank>, p: Mapping)
    requires AllInLog(w, order)
  {
    exists i ::
      0 <= i < |order| && AddsPair(w, order, i, p) && forall j | i <= j < |order| :: !DeletesPair(w, order, j, p)
  }

  ghost predicate LastDeleted(w: World, order: seq<Rank>, p: Mapping)
    requires AllInLog(w, order)
  {
    exists i :: 0 <= i < |order| && DeletesPair(w, order, i, p)
                && forall j | i < j < |order| :: AddsPair(w, order, j, p) ==> DeletesPair(w, order, j, p)
  }

  lemma ReplayStep(w: World, order: seq<Rank>, p: Mapping)
    requires AllInLog(w, order) && order != []
    ensures var m := |order| - 1;
            && AllInLog(w, order[..m])
            && Updated(ReplayLog(w, order[..m]).tables, ReplayLog(w, order).tables, p,
                       AddsPair(w, order, m, p), DeletesPair(w, order, m, p))
  {
    hide Updated, Gives, TagNames, Pairs, RemoteUpdate;
    var m := |order| - 1;
    assert order[m] in order && forall r | r in order[..m] :: r in order;
    var before, payload := ReplayLog(w, order[..m]), w.log[order[m].id].payload;
    if payload.MappingsUpdate? {
      PairsAreGiven(payload.adds, before.tags, before.hashes, p);
      PairsAreGiven(payload.deletes, before.tags, before.hashes, p);
      RemoteUpdateMoves(before.tables, Pairs(payload.adds, before.tags, before.hashes),
                        Pairs(payload.deletes, before.tags, before.hashes), p);
    } else {
      NothingUpdated(before.tables, p);
    }
  }

  lemma NothingUpdated(t: Tables<Mapping>, p: Mapping)
    ensures Updated(t, t, p, false, false)
  {
  }

  /** After a stretch of the log a pair is current exactly when some update added it and neither that one nor a
      later one deleted it, and deleted exactly when some update deleted it and no later one added it for good.
      Nothing is pending or petitioned. */
  lemma {:induction false} ReplayedPair(w: World, order: seq<Rank>, p: Mapping)
    requires AllInLog(w, order)
    ensures p in ReplayLog(w, order).tables.current <==> LastAdded(w, order, p)
    ensures p in ReplayLog(w, order).tables.deleted <==> LastDeleted(w, order, p)
    ensures p !in ReplayLog(w, order).tables.pending && p !in ReplayLog(w, order).tables.petitioned
  {
    if order != [] {
      ReplayStep(w, order, p);
      var m := |order| - 1;
      ReplayedPair(w, order[..m], p);
      hide ReplayLog, AddsPair, DeletesPair;
      LastAddedSnoc(w, order, p);
      LastDeletedSnoc(w, order, p);
    }
  }

  lemma EarlierPair(w: World, order: seq<Rank>, i: nat, p: Mapping)
    requires AllInLog(w, order) && i < |order| - 1 && AllInLog(w, order[..|order| - 1])
    ensures AddsPair(w, order[..|order| - 1], i, p) == AddsPair(w, order, i, p)
    ensures DeletesPair(w, order[..|order| - 1], i, p) == DeletesPair(w, order, i, p)
  {
    assert order[..|order| - 1][..i] == order[..i];
    hide Gives, ReplayLog;
  }

  lemma LastAddedSnoc(w: World, order: seq<Rank>, p: Mapping)
    requires AllInLog(w, order) && order != [] && AllInLog(w, order[..|order| - 1])
    ensures var m := |order| - 1;
            LastAdded(w, order, p) <==>
              !DeletesPair(w, order, m, p) && (AddsPair(w, order, m, p) || LastAdded(w, order[..m], p))
  {
    hide AddsPair, DeletesPair, AllInLog;
    var m := |order| - 1;
    forall i | 0 <= i < m
      ensures AddsPair(w, order[..m], i, p) == AddsPair(w, order, i, p)
      ensures DeletesPair(w, order[..m], i, p) == DeletesPair(w, order, i, p)
    {
      EarlierPair(w, order, i, p);
    }
    if LastAdded(w, order, p) {
      var i :|
        0 <= i < |order| && AddsPair(w, order, i, p) && forall j | i <= j < |order| :: !DeletesPair(w, order, j, p);
      if i < m {
        assert forall j | i <= j < m :: !DeletesPair(w, order[..m], j, p);
        assert AddsPair(w, order[..m], i, p);
      }
    }
    if !DeletesPair(w, order, m, p) && LastAdded(w, order[..m], p) {
      var i :|
        0 <= i < m && AddsPair(w, order[..m], i, p) && forall j | i <= j < m :: !DeletesPair(w, order[..m], j, p);
      assert forall j | i <= j < |order| :: !DeletesPair(w, order, j, p) by {
        forall j | i <= j < |order| ensures !DeletesPair(w, order, j, p) {
          if j < m { assert !DeletesPair(w, order[..m], j, p); }
        }
      }
      assert AddsPair(w, order, i, p);
    }
  }

  lemma LastDeletedSnoc(w: World, order: seq<Rank>, p: Mapping)
    requires AllInLog(w, order) && order != [] && AllInLog(w, order[..|order| - 1])
    ensures var m := |order| - 1;
            LastDeleted(w, order, p) <==>
              DeletesPair(w, order, m, p) || (!AddsPair(w, order, m, p) && LastDeleted(w, order[..m], p))
  {
    hide AddsPair, DeletesPair, AllInLog;
    var m := |order| - 1;
    forall i | 0 <= i < m
      ensures AddsPair(w, order[..m], i, p) == AddsPair(w, order, i, p)
      ensures DeletesPair(w, order[..m], i, p) == DeletesPair(w, order, i, p)
    {
      EarlierPair(w, order, i, p);
    }
    if LastDeleted(w, order, p) {
      var i :| 0 <= i < |order| && DeletesPair(w, order, i, p)
               && forall j | i < j < |order| :: AddsPair(w, order, j, p) ==> DeletesPair(w, order, j, p);
      if i < m {
        assert forall j | i < j < m :: AddsPair(w, order[..m], j, p) ==> DeletesPair(w, order[..m], j, p);
        assert DeletesPair(w, order[..m], i, p);
      }
    }
    if !AddsPair(w, order, m, p) && LastDeleted(w, order[..m], p) {
      var i :| 0 <= i < m && DeletesPair(w, order[..m], i, p)
               && forall j | i < j < m :: AddsPair(w, order[..m], j, p) ==> DeletesPair(w, order[..m], j, p);
      forall j | i < j < |order| && AddsPair(w, order, j, p) ensures DeletesPair(w, order, j, p) {
        assert j < m && AddsPair(w, order[..m], j, p);
      }
      assert DeletesPair(w, order, i, p);
    }
  }

  // ----- Definitions before use -----

  predicate DefinesTag(w: World, d: UpdateId, serviceTagId: int) {
    d in w.log && w.log[d].payload.DefinitionsUpdate? && serviceTagId in w.log[d].payload.tags
  }

  predicate DefinesHash(w: World, d: UpdateId, serviceHashId: int) {
    d in w.log && w.log[d].payload.DefinitionsUpdate? && serviceHashId in w.log[d].payload.hashes
  }

  ghost predicate RowDefined(w: World, row: MappingRow, index: nat) {
    && (exists d :: DefinesTag(w, d, row.serviceTagId) && w.log[d].index <= index)
    && forall i | 0 <= i < |row.serviceHashIds| ::
         exists d :: DefinesHash(w, d, row.serviceHashIds[i]) && w.log[d].index <= index
  }

  /** Every mapping of the update uses only ids that some definitions update of the same or a smaller index
      defines, and every hash the update defines is well formed. */
  ghost predicate UpdateDefined(w: World, id: UpdateId)
    requires id in w.log
  {
    match w.log[id].payload
    case DefinitionsUpdate(_, _) => ValidHashes(w.log[id].payload)
    case MappingsUpdate(adds, deletes) =>
      && (forall row | row in adds :: RowDefined(w, row, w.log[id].index))
      && (forall row | row in deletes :: RowDefined(w, row, w.log[id].index))
  }

  ghost predicate WellDefined(w: World) {
    forall id | id in w.log :: UpdateDefined(w, id)
  }

  /** A replica knows every definition of every update it has applied. */
  lemma {:induction false} ReplayKeepsDefinitions(w: World, order: seq<Rank>, d: Rank)
    requires forall r | r in order :: r.id in w.log
    requires d in order && w.log[d.id].payload.DefinitionsUpdate?
    ensures w.log[d.id].payload.tags.Keys <= ReplayLog(w, order).tags.Keys
    ensures w.log[d.id].payload.hashes.Keys <= ReplayLog(w, order).hashes.Keys
    decreases |order|
  {
    var init, last := order[..|order| - 1], order[|order| - 1];
    assert order == init + [last];
    var p := w.log[last.id].payload;
    if d == last {
      assert TagNames(w.cases, p.tags).Keys == p.tags.Keys;
    } else {
      assert d in init;
      ReplayKeepsDefinitions(w, init, d);
    }
  }

  /** A replica knows nothing but the definitions of the updates it has applied. */
  lemma {:induction false} ReplayDefinesNoMore(w: World, order: seq<Rank>, x: int)
    requires forall r | r in order :: r.id in w.log
    ensures x in ReplayLog(w, order).tags ==> exists r :: r in order && DefinesTag(w, r.id, x)
    ensures x in ReplayLog(w, order).hashes ==> exists r :: r in order && DefinesHash(w, r.id, x)
  {
    if order != [] {
      var init, last := order[..|order| - 1], order[|order| - 1];
      assert order == init + [last];
      ReplayDefinesNoMore(w, init, x);
      assert forall r | r in init :: r in order;
      var p := w.log[last.id].payload;
      if p.DefinitionsUpdate? {
        assert TagNames(w.cases, p.tags).Keys == p.tags.Keys;
        assert x in p.tags ==> DefinesTag(w, last.id, x);
        assert x in p.hashes ==> DefinesHash(w, last.id, x);
      }
    }
  }

  /** Just before an update's turn, a row of it resolves exactly when its ids are defined by its index. */
  lemma RowResolves(w: World, order: seq<Rank>, known: nat, id: UpdateId, row: MappingRow)
    requires id in w.log && w.log[id].payload.MappingsUpdate? && order + [RankOf(w, id)] <= LogOrder(w, known)
    requires forall r | r in order :: r.id in w.log && r == RankOf(w, r.id)
    ensures Resolves(row, ReplayLog(w, order).tags, ReplayLog(w, order).hashes) <==> RowDefined(w, row, w.log[id].index)
  {
    var replica := ReplayLog(w, order);
    TagResolves(w, order, known, id, row.serviceTagId);
    forall i | 0 <= i < |row.serviceHashIds|
      ensures row.serviceHashIds[i] in replica.hashes
         <==> exists e :: DefinesHash(w, e, row.serviceHashIds[i]) && w.log[e].index <= w.log[id].index
    {
      HashResolves(w, order, known, id, row.serviceHashIds[i]);
    }
  }

  lemma TagResolves(w: World, order: seq<Rank>, known: nat, id: UpdateId, x: int)
    requires id in w.log && w.log[id].payload.MappingsUpdate? && order + [RankOf(w, id)] <= LogOrder(w, known)
    requires forall r | r in order :: r.id in w.log && r == RankOf(w, r.id)
    ensures x in ReplayLog(w, order).tags <==> exists d :: DefinesTag(w, d, x) && w.log[d].index <= w.log[id].index
  {
    if d :| DefinesTag(w, d, x) && w.log[d].index <= w.log[id].index {
      EarlierDefinitionApplied(w, order, known, id, d);
      assert x in w.log[d].payload.tags.Keys;
    }
    if x in ReplayLog(w, order).tags {
      ReplayDefinesNoMore(w, order, x);
      var r :| r in order && DefinesTag(w, r.id, x);
      AppliedIsEarlier(w, order, known, id, r);
    }
  }

  lemma HashResolves(w: World, order: seq<Rank>, known: nat, id: UpdateId, x: int)
    requires id in w.log && w.log[id].payload.MappingsUpdate? && order + [RankOf(w, id)] <= LogOrder(w, known)
    requires forall r | r in order :: r.id in w.log && r == RankOf(w, r.id)
    ensures x in ReplayLog(w, order).hashes <==> exists d :: DefinesHash(w, d, x) && w.log[d].index <= w.log[id].index
  {
    if d :| DefinesHash(w, d, x) && w.log[d].index <= w.log[id].index {
      EarlierDefinitionApplied(w, order, known, id, d);
      assert x in w.log[d].payload.hashes.Keys;
    }
    if x in ReplayLog(w, order).hashes {
      ReplayDefinesNoMore(w, order, x);
      var r :| r in order && DefinesHash(w, r.id, x);
      AppliedIsEarlier(w, order, known, id, r);
    }
  }

  lemma AppliedIsEarlier(w: World, order: seq<Rank>, known: nat, id: UpdateId, r: Rank)
    requires id in w.log && order + [RankOf(w, id)] <= LogOrder(w, known) && r in order
    requires r.id in w.log && r == RankOf(w, r.id)
    ensures w.log[r.id].index <= w.log[id].index
  {
    var i :| 0 <= i < |order| && order[i] == r;
    var whole := LogOrder(w, known);
    assert whole[|order|] == (order + [RankOf(w, id)])[|order|] == RankOf(w, id);
    assert Less(whole[i], whole[|order|]);
  }

  lemma EarlierDefinitionApplied(w: World, order: seq<Rank>, known: nat, id: UpdateId, d: UpdateId)
    requires id in w.log && w.log[id].payload.MappingsUpdate? && order + [RankOf(w, id)] <= LogOrder(w, known)
    requires d in w.log && w.log[d].payload.DefinitionsUpdate? && w.log[d].index <= w.log[id].index
    requires forall r | r in order :: r.id in w.log && r == RankOf(w, r.id)
    ensures RankOf(w, d) in order
    ensures w.log[d].payload.tags.Keys <= ReplayLog(w, order).tags.Keys
    ensures w.log[d].payload.hashes.Keys <= ReplayLog(w, order).hashes.Keys
  {
    var next := order + [RankOf(w, id)];
    PrefixIsDownClosed(next, LogRanks(w, known));
    assert RankOf(w, id) in Elements(next);
    assert RankOf(w, id) in LogRanks(w, known);
    assert RankOf(w, d) in LogRanks(w, known);
    assert Less(RankOf(w, d), RankOf(w, id));
    assert RankOf(w, d) in Elements(next);
    ReplayKeepsDefinitions(w, order, RankOf(w, d));
  }

  /** The first processable update comes right after the applied ones in the log. */
  lemma FirstProcessable(w: World, t: UpdateTables, known: nat, applied: seq<Rank>)
    requires MirrorInv(w, t, known, applied) && Processable(t) != []
    ensures var r := Processable(t)[0];
            r.id in w.log && r == RankOf(w, r.id) && applied + [r] <= LogOrder(w, known)
    ensures forall r | r in applied :: r.id in w.log && r == RankOf(w, r.id)
  {
    var todo := Processable(t);
    ProcessableContinuesLog(w, t, known, applied);
    assert todo[0] in Elements(todo);
    assert IsStored(w, t, todo[0].id);
    assert applied + todo == applied + [todo[0]] + todo[1..];
    forall r | r in applied ensures r.id in w.log && r == RankOf(w, r.id) {
      assert IsStored(w, t, r.id);
    }
  }

  lemma RowsResolve(w: World, order: seq<Rank>, known: nat, id: UpdateId, rows: seq<MappingRow>)
    requires id in w.log && w.log[id].payload.MappingsUpdate? && order + [RankOf(w, id)] <= LogOrder(w, known)
    requires forall r | r in order :: r.id in w.log && r == RankOf(w, r.id)
    ensures Resolvable(rows, ReplayLog(w, order).tags, ReplayLog(w, order).hashes)
       <==> forall row | row in rows :: RowDefined(w, row, w.log[id].index)
  {
    hide RowDefined, Resolves;
    forall row | row in rows
      ensures Resolves(row, ReplayLog(w, order).tags, ReplayLog(w, order).hashes) <==>
                RowDefined(w, row, w.log[id].index)
    {
      RowResolves(w, order, known, id, row);
    }
  }

  lemma FirstIsApplicableIff(w: World, t: UpdateTables, known: nat, content: Content, history: seq<Event>)
    requires MirrorInv(w, t, known, Applied(history)) && HistoryInv(w, content, history)
    requires Processable(t) != []
    ensures var id := Processable(t)[0].id;
            id in w.log && (Obstacle(content, w.log[id].payload).None? <==> UpdateDefined(w, id))
  {
    hide MirrorInv, Represents, Resolvable, RowDefined, LogOrder, Processable, Less;
    FirstProcessable(w, t, known, Applied(history));
    var id := Processable(t)[0].id;
    var p := w.log[id].payload;
    if p.MappingsUpdate? {
      ReplayOfRemote(w, history);
      RowsResolve(w, Applied(history), known, id, p.adds);
      RowsResolve(w, Applied(history), known, id, p.deletes);
      PairsRepresent(content, ReplayAll(w.cases, history), p.adds);
      PairsRepresent(content, ReplayAll(w.cases, history), p.deletes);
    }
  }

  /** When the holder of the lease comes to apply an update, it finds every definition it needs exactly when
      the log defines all of the update's ids at its own or a smaller index: what was downloaded before, in
      what order and over how many runs makes no difference. */
  lemma ApplicableIffDefined(w: World, names: Names, steps: seq<Step>, token: Token)
    requires ValidNames(names)
    requires var s := Exec(w, Start(names), steps);
             && Has(s, token) && Active(s.store, token)
             && s.workers[token].pc.Applying? && s.workers[token].pc.todo != []
    ensures var s := Exec(w, Start(names), steps);
            var id := s.workers[token].pc.todo[0].id;
            id in w.log && (Obstacle(s.store.content, w.log[id].payload).None? <==> UpdateDefined(w, id))
  {
    hide Exec, LeaseInv, CountInv, MirrorInv, HistoryInv, Obstacle, UpdateDefined, Next;
    var s := Exec(w, Start(names), steps);
    Reachable(w, names, steps);
    FirstIsApplicableIff(w, s.store.updates, s.known, s.store.content, s.history);
  }

  /** So when the whole log is well defined, every application step of the holder of the lease goes through:
      no reachable step ever misses a tag or hash definition. */
  lemma DefinitionsBeforeUse(w: World, names: Names, steps: seq<Step>, token: Token, interned: Names)
    requires ValidNames(names) && WellDefined(w)
    requires var s := Exec(w, Start(names), steps);
             && Has(s, token) && Active(s.store, token)
             && s.workers[token].pc.Applying? && s.workers[token].pc.todo != []
    ensures var s := Exec(w, Start(names), steps);
            var r := s.workers[token].pc.todo[0];
            && r.id in w.log && Obstacle(s.store.content, w.log[r.id].payload).None?
            && (Interned(s.store.content.names, NeededHashes(w.log[r.id].payload),
                         NeededTags(w.cases, w.log[r.id].payload), interned) ==>
                  var t := Next(w, s, ApplyNext(token, interned));
                  && token in t.workers && t.workers[token].pc.Applying?
                  && Applied(t.history) == Applied(s.history) + [r])
  {
    hide Exec, LeaseInv, CountInv, MirrorInv, HistoryInv, DoApply, Interned, Obstacle, UpdateDefined;
    var s := Exec(w, Start(names), steps);
    Reachable(w, names, steps);
    ApplicableIffDefined(w, names, steps, token);
    var r := s.workers[token].pc.todo[0];
    if Interned(s.store.content.names, NeededHashes(w.log[r.id].payload), NeededTags(w.cases, w.log[r.id].payload),
                interned) {
      ApplyStep(w, s, token, interned);
    }
  }
}
