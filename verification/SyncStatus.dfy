/** What the update tables and the status say about the log: coverage of the published updates, counters
    that match the tables, and what a finished run and a complete status mean. */
module SyncStatus {
  import opened Tags
  import opened Interning
  import opened MappingTables
  import opened UpdateOrder
  import opened Repository
  import opened Replay
  import opened SyncSystem
  import opened SyncInvariants
  import opened SyncTheorems

  // ----- Coverage and counters -----

  /** The registered updates are exactly those of the last answer; each still waits for its body or has it
      stored, with the body and mime the log gives; nothing else is waiting or stored. */
  lemma Coverage(w: World, names: Names, steps: seq<Step>)
    requires ValidNames(names)
    ensures var s := Exec(w, Start(names), steps);
            var t := s.store.updates;
            && t.registered == Visible(w, s.known)
            && t.unregistered <= t.registered.Keys
            && (forall id | id in t.registered :: id in t.unregistered || IsStored(w, t, id))
            && (forall k | k in t.stored :: k.0 in t.registered && k.0 in w.log && k.1 == KindOf(w.log[k.0].payload)
                  && t.stored[k].body == w.log[k.0].payload && t.stored[k].mime == MimeOf(w.log[k.0].payload))
  {
    hide Exec, LeaseInv, CountInv, HistoryInv, WorkerInv;
    var s := Exec(w, Start(names), steps);
    Reachable(w, names, steps);
    forall k | k in s.store.updates.stored
      ensures k.0 in s.store.updates.registered && k.0 in w.log && k.1 == KindOf(w.log[k.0].payload)
      ensures s.store.updates.stored[k].body == w.log[k.0].payload
      ensures s.store.updates.stored[k].mime == MimeOf(w.log[k.0].payload)
    {
      assert RowOk(w, s.store.updates, Elements(Applied(s.history)), k);
    }
  }

  lemma DonePartition(stored: map<(UpdateId, ContentType), StoredUpdate>)
    ensures |Done(stored, Definitions)| + |Done(stored, Mappings)| + |Unprocessed(stored)| == |stored|
  {
    var d, m, u := Done(stored, Definitions), Done(stored, Mappings), Unprocessed(stored);
    assert d + m + u == stored.Keys;
    assert |d + m| == |d| + |m|;
    assert |(d + m) + u| == |d + m| + |u|;
  }

  /** The persisted counters are those of the tables, and add up; the number of applied updates is the number
      counted as done. */
  lemma CountersMatch(w: World, names: Names, steps: seq<Step>)
    requires ValidNames(names)
    ensures var s := Exec(w, Start(names), steps);
            var sync, stored := s.store.sync, s.store.updates.stored;
            && sync.downloaded == |stored|
            && sync.definitionsDone == |Done(stored, Definitions)| && sync.contentDone == |Done(stored, Mappings)|
            && sync.definitionsDone + sync.contentDone + |Unprocessed(stored)| == sync.downloaded
            && sync.definitionsDone + sync.contentDone == |Applied(s.history)|
  {
    hide Exec, LeaseInv, HistoryInv, WorkerInv;
    var s := Exec(w, Start(names), steps);
    Reachable(w, names, steps);
    DonePartition(s.store.updates.stored);
    AppliedCount(w, s.store.updates, s.known, Applied(s.history));
  }

  function KeyOf(w: World, r: Rank): (UpdateId, ContentType)
    requires r.id in w.log
  {
    (r.id, KindOf(w.log[r.id].payload))
  }

  /** The rows marked processed are those of the applied updates. */
  lemma DoneRows(w: World, t: UpdateTables, known: nat, applied: seq<Rank>, k: (UpdateId, ContentType))
    requires MirrorInv(w, t, known, applied)
    ensures (k in t.stored && t.stored[k].processed)
       <==> (k.0 in w.log && k.1 == KindOf(w.log[k.0].payload) && RankOf(w, k.0) in Elements(applied))
  {
    if k in t.stored {
      assert RowOk(w, t, Elements(applied), k);
    } else if k.0 in w.log && RankOf(w, k.0) in Elements(applied) {
      assert IsStored(w, t, RankOf(w, k.0).id);
    }
  }

  predicate AreLogRanks(w: World, ranks: set<Rank>) {
    forall r | r in ranks :: r.id in w.log && r == RankOf(w, r.id)
  }

  function KeysOf(w: World, ranks: set<Rank>): set<(UpdateId, ContentType)>
    requires AreLogRanks(w, ranks)
  {
    set r | r in ranks :: KeyOf(w, r)
  }

  lemma AppliedKeys(w: World, t: UpdateTables, known: nat, applied: seq<Rank>)
    requires MirrorInv(w, t, known, applied)
    ensures AreLogRanks(w, Elements(applied))
    ensures KeysOf(w, Elements(applied)) == Done(t.stored, Definitions) + Done(t.stored, Mappings)
  {
    var ranks := Elements(applied);
    forall r | r in ranks ensures r.id in w.log && r == RankOf(w, r.id) {
      assert IsStored(w, t, r.id);
    }
    hide MirrorInv;
    forall k ensures k in KeysOf(w, ranks) <==> k in t.stored && t.stored[k].processed {
      DoneRows(w, t, known, applied, k);
      if k.0 in w.log && RankOf(w, k.0) in ranks { assert KeyOf(w, RankOf(w, k.0)) in KeysOf(w, ranks); }
    }
  }

  lemma AppliedCount(w: World, t: UpdateTables, known: nat, applied: seq<Rank>)
    requires MirrorInv(w, t, known, applied)
    ensures |applied| == |Done(t.stored, Definitions)| + |Done(t.stored, Mappings)|
  {
    AppliedKeys(w, t, known, applied);
    ImageSize(w, Elements(applied));
    PrefixIsDownClosed(applied, LogRanks(w, known));
    DistinctElements(applied);
    assert |Done(t.stored, Definitions) + Done(t.stored, Mappings)|
        == |Done(t.stored, Definitions)| + |Done(t.stored, Mappings)|;
  }

  lemma {:induction false} ImageSize(w: World, ranks: set<Rank>)
    requires AreLogRanks(w, ranks)
    ensures |KeysOf(w, ranks)| == |ranks|
    decreases |ranks|
  {
    var keys := KeysOf(w, ranks);
    if ranks == {} {
      assert keys == {};
    } else {
      var x :| x in ranks;
      var rest := ranks - {x};
      ImageSize(w, rest);
      assert KeyOf(w, x) in keys;
      assert keys == KeysOf(w, rest) + {KeyOf(w, x)};
    }
  }

  // ----- Nothing left to do -----

  /** When no body is missing and none is unprocessed, the whole known log has been applied, and only then
      can nothing be unprocessed once nothing is missing. */
  lemma DrainedIffAllApplied(w: World, t: UpdateTables, known: nat, applied: seq<Rank>)
    requires MirrorInv(w, t, known, applied) && t.unregistered == {}
    ensures Unprocessed(t.stored) == {} <==> applied == LogOrder(w, known)
  {
    PrefixIsDownClosed(applied, LogRanks(w, known));
    if Unprocessed(t.stored) == {} {
      forall r | r in LogRanks(w, known) ensures r in Elements(applied) {
        assert r.id in t.registered;
        assert IsStored(w, t, r.id);
        var k := (r.id, KindOf(w.log[r.id].payload));
        assert k !in Unprocessed(t.stored);
        assert RowOk(w, t, Elements(applied), k);
      }
      assert Elements(applied) == LogRanks(w, known);
    }
    if applied == LogOrder(w, known) {
      forall k | k in t.stored ensures t.stored[k].processed {
        assert RowOk(w, t, Elements(applied), k);
        assert RankOf(w, k.0) in LogRanks(w, known);
        assert RankOf(w, k.0) in Elements(applied);
      }
    }
  }

  /** A run that ends in success has drained both backlogs: every known update is stored and applied, in
      order, the slice is past the last known index, and the service is idle without an error. */
  lemma SuccessDrains(w: World, names: Names, steps: seq<Step>, token: Token)
    requires ValidNames(names)
    requires var s := Exec(w, Start(names), steps);
             Has(s, token) && Active(s.store, token) && s.workers[token].pc == Drained
    ensures var t := Next(w, Exec(w, Start(names), steps), Complete(token));
            && t.store.updates.unregistered == {} && Unprocessed(t.store.updates.stored) == {}
            && Applied(t.history) == LogOrder(w, t.known)
            && t.store.sync.phase == Idle && t.store.sync.lastError == None
            && t.store.sync.metadataSlice == NextIndex(Visible(w, t.known))
            && t.store.sync.lastMappingCount == Some(|t.store.content.mappings.current|)
  {
    hide Exec, CountInv, HistoryInv;
    var s := Exec(w, Start(names), steps);
    Reachable(w, names, steps);
    DrainedIffAllApplied(w, s.store.updates, s.known, Applied(s.history));
  }

  /** The status is complete exactly when the service is idle without an error, no body is missing, every
      known update has been applied and there has been anything to apply or to ask from. */
  lemma CompleteIffAllApplied(w: World, names: Names, steps: seq<Step>)
    requires ValidNames(names)
    ensures var s := Exec(w, Start(names), steps);
            IsComplete(s.store) <==>
              && s.store.sync.phase == Idle && s.store.sync.lastError == None
              && s.store.updates.unregistered == {}
              && Applied(s.history) == LogOrder(w, s.known)
              && (s.store.sync.metadataSlice > 0 || Applied(s.history) != [])
  {
    hide Exec, HistoryInv, WorkerInv;
    var s := Exec(w, Start(names), steps);
    Reachable(w, names, steps);
    if s.store.updates.unregistered == {} {
      DrainedIffAllApplied(w, s.store.updates, s.known, Applied(s.history));
    }
    CountersMatch(w, names, steps);
  }

  // ----- The mapping tables -----

  lemma NextStaysConsistent(w: World, s: Sys, step: Step)
    requires Consistent(s.store.content.mappings)
    ensures Consistent(Next(w, s, step).store.content.mappings)
    ensures Remembered(s.store.content.mappings) <= Remembered(Next(w, s, step).store.content.mappings)
  {
    hide NextIndex, Processable, RegisterTables, StoreTables, Supported, Obstacle, InIdOrder, Items,
      Interned, IsMetadata, FailureText, StagedPairs, CleanTags, NotEmpty, NamesExtend, ValidNames, EncodeMap,
      TagNames, Pairs;
  }

  /** In every reachable state current is disjoint from deleted and pending, petitioned lies inside current,
      and no pair that was ever current, pending or deleted has been forgotten. */
  lemma {:induction false} MappingsStayConsistent(w: World, names: Names, steps: seq<Step>, n: nat)
    requires n <= |steps|
    ensures Consistent(Exec(w, Start(names), steps).store.content.mappings)
    ensures Remembered(Exec(w, Start(names), steps[..n]).store.content.mappings)
         <= Remembered(Exec(w, Start(names), steps).store.content.mappings)
    decreases |steps|
  {
    hide Next, Consistent, Remembered;
    if steps == [] {
      assert Consistent(Start(names).store.content.mappings) by { NothingIsConsistent<(int, int)>(); }
    } else {
      var init := steps[..|steps| - 1];
      MappingsStayConsistent(w, names, init, if n < |steps| then n else n - 1);
      NextStaysConsistent(w, Exec(w, Start(names), init), steps[|steps| - 1]);
      if n < |steps| { assert init[..n] == steps[..n]; } else { assert steps[..n] == steps; }
    }
  }

  lemma NothingIsConsistent<P>()
    ensures Consistent(MappingTables.Empty<P>())
  {
  }
}
