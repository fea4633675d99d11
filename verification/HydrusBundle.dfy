/** The writable bundle: the tables of the PTR service as fields, and the transaction bodies that update
    them in place.  Every method leaves the state its transaction function gives. */
module HydrusBundle {
  import opened Tags
  import opened Interning
  import opened MappingTables
  import opened UpdateOrder
  import opened Repository

  type Rows = map<(UpdateId, ContentType), StoredUpdate>

  /** Some definitions written: those of done are there, and nothing else has changed. */
  ghost predicate Written(before: map<int, int>, after: map<int, int>, idOf: map<string, int>, done: map<int, string>) {
    KnownValues(idOf, done) && after == before + EncodeMap(idOf, done)
  }

  lemma WriteOne(before: map<int, int>, after: map<int, int>, idOf: map<string, int>, more: map<string, int>,
                 done: map<int, string>, key: int, name: string)
    requires Written(before, after, idOf, done) && Extends(idOf, more) && name in more
    ensures Written(before, after[key := more[name]], more, done[key := name])
  {
    assert forall k | k in done :: done[k] in idOf;
  }

  predicate AreIds(names: seq<string>, idOf: map<string, int>, ids: seq<int>) {
    |ids| == |names| && forall i | 0 <= i < |names| :: names[i] in idOf && ids[i] == idOf[names[i]]
  }

  /** Exactly the given names were added, and every other name kept its id. */
  ghost predicate Grown(before: map<string, int>, after: map<string, int>, names: set<string>) {
    Extends(before, after) && after.Keys == before.Keys + names
  }

  lemma NothingGrown(names: map<string, int>)
    ensures Grown(names, names, {})
  {
  }

  lemma NothingWritten(written: map<int, int>, idOf: map<string, int>)
    ensures Written(written, written, idOf, map[])
  {
    assert EncodeMap(idOf, map[]) == map[];
  }

  lemma GrownStep(before: map<string, int>, middle: map<string, int>, after: map<string, int>,
                  names: set<string>, name: string)
    requires Grown(before, middle, names) && Grown(middle, after, {name})
    ensures Grown(before, after, names + {name})
  {
  }

  lemma ValuesOfUpdate(done: map<int, string>, key: int, name: string)
    requires key !in done
    ensures done[key := name].Values == done.Values + {name}
  {
    var more := done[key := name];
    assert more - {key} == done;
    assert more[key] == name;
  }

  /** The entries a loop over a map has already visited. */
  function Seen(defined: map<int, string>, rest: set<(int, string)>): map<int, string> {
    map k | k in defined && (k, defined[k]) !in rest :: defined[k]
  }

  lemma SeenAtEnds(defined: map<int, string>)
    ensures Seen(defined, defined.Items) == map[] && Seen(defined, {}) == defined
    ensures Seen(defined, defined.Items).Values == {}
  {
  }

  lemma SeenOne(defined: map<int, string>, rest: set<(int, string)>, it: (int, string))
    requires it in rest && rest <= defined.Items
    ensures it.0 in defined && defined[it.0] == it.1 && it.0 !in Seen(defined, rest)
    ensures Seen(defined, rest - {it}) == Seen(defined, rest)[it.0 := it.1]
    ensures Seen(defined, rest - {it}).Values == Seen(defined, rest).Values + {it.1}
  {
    ValuesOfUpdate(Seen(defined, rest), it.0, it.1);
  }

  lemma NotWellFormed(defined: map<int, string>, key: int)
    requires key in defined && !ValidHash(defined[key])
    ensures !WellFormed(defined)
  {
  }

  lemma TagNamesOfUpdate(cases: CaseTable, m: map<int, string>, key: int, raw: string)
    requires key !in m
    ensures key !in TagNames(cases, m)
    ensures TagNames(cases, m[key := raw]) == TagNames(cases, m)[key := DefinitionTagName(cases, raw)]
  {
    hide DefinitionTagName;
  }

  lemma SeenTagNames(cases: CaseTable, defined: map<int, string>, rest: set<(int, string)>, it: (int, string))
    requires it in rest && rest <= defined.Items
    ensures var before, after := TagNames(cases, Seen(defined, rest)), TagNames(cases, Seen(defined, rest - {it}));
            && it.0 !in before && after == before[it.0 := DefinitionTagName(cases, it.1)]
            && after.Values == before.Values + {DefinitionTagName(cases, it.1)}
  {
    hide DefinitionTagName, TagNames, Seen;
    SeenOne(defined, rest, it);
    TagNamesOfUpdate(cases, Seen(defined, rest), it.0, it.1);
    ValuesOfUpdate(TagNames(cases, Seen(defined, rest)), it.0, DefinitionTagName(cases, it.1));
  }

  /** Slice, counters and the mapping count are as they were. */
  predicate SameProgress(before: SyncState, after: SyncState) {
    && after.metadataSlice == before.metadataSlice && after.lastMappingCount == before.lastMappingCount
    && SameCounters(before, after)
  }

  predicate SameCounters(before: SyncState, after: SyncState) {
    && after.downloaded == before.downloaded
    && after.definitionsDone == before.definitionsDone && after.contentDone == before.contentDone
  }

  /** No run holds the lease, and no retry waits. */
  predicate AtRest(sync: SyncState) {
    sync.phase == Idle && !sync.running && sync.token == None && sync.retryAt == 0 && sync.retryAttempt == 0
  }

  /** The slice is one past the largest registered index, or 0 when nothing is registered. */
  predicate JustPast(slice: nat, registered: map<UpdateId, nat>) {
    && (forall id | id in registered :: registered[id] < slice)
    && (slice > 0 ==> exists id :: id in registered && registered[id] == slice - 1)
  }

  /** A repository tag's local id is the one a search finds for its clean form, or for the placeholder when
      nothing is left of it. */
  predicate DefinedAs(m: Master, cases: CaseTable, raw: string, id: int) {
    Find(m, if NotEmpty(Clean(cases, raw)) then Clean(cases, raw) else INVALID_REPOSITORY_TAG) == Some(id)
  }

  lemma WrittenTag(m: Master, cases: CaseTable, before: map<int, int>, after: map<int, int>, defined: map<int, string>,
                   k: int)
    requires Written(before, after, TagIds(m), TagNames(cases, defined))
    ensures k in defined ==> k in after && DefinedAs(m, cases, defined[k], after[k])
    ensures k !in defined ==> (k in after <==> k in before) && (k in after ==> after[k] == before[k])
  {
    hide DefinitionTagName, TagIds, Find, Clean, NotEmpty, Split, Combine;
    if k in defined {
      var name := DefinitionTagName(cases, defined[k]);
      DefinitionTagNameIsStored(cases, defined[k]);
      DefinitionTagNameIsNormal(cases, defined[k]);
      assert TagNames(cases, defined)[k] == name;
      TagIdsFinds(m, name);
    }
  }

  /** Each defined hash has its local id under its repository id; other repository ids are as they were. */
  ghost predicate HashesDefined(idOf: map<string, int>, before: map<int, int>, after: map<int, int>,
                          defined: map<int, string>)
  {
    && (forall k | k in defined :: k in after && defined[k] in idOf && after[k] == idOf[defined[k]])
    && forall k: int | k !in defined :: (k in after <==> k in before) && (k in after ==> after[k] == before[k])
  }

  /** The same for tags, each under its clean form or the placeholder. */
  ghost predicate TagsDefined(m: Master, cases: CaseTable, before: map<int, int>, after: map<int, int>,
                        defined: map<int, string>)
  {
    && (forall k | k in defined :: k in after && DefinedAs(m, cases, defined[k], after[k]))
    && forall k: int | k !in defined :: (k in after <==> k in before) && (k in after ==> after[k] == before[k])
  }

  lemma WrittenHashes(idOf: map<string, int>, before: map<int, int>, after: map<int, int>, defined: map<int, string>)
    requires Written(before, after, idOf, defined)
    ensures HashesDefined(idOf, before, after, defined)
  {
  }

  lemma WrittenTags(m: Master, cases: CaseTable, before: map<int, int>, after: map<int, int>,
                    defined: map<int, string>)
    requires Written(before, after, TagIds(m), TagNames(cases, defined))
    ensures TagsDefined(m, cases, before, after, defined)
  {
    hide Written, DefinedAs;
    forall k: int
      ensures k in defined ==> k in after && DefinedAs(m, cases, defined[k], after[k])
      ensures k !in defined ==> (k in after <==> k in before) && (k in after ==> after[k] == before[k])
    {
      WrittenTag(m, cases, before, after, defined, k);
    }
  }

  /** What applying an update writes: its definitions, or what its rows do to the pairs they name. */
  ghost predicate ContentWritten(m: Master, cases: CaseTable, before: Content, after: Content, p: Payload) {
    match p
    case DefinitionsUpdate(hashes, tags) =>
      && after.mappings == before.mappings
      && HashesDefined(after.names.hashes, before.hashMap, after.hashMap, hashes)
      && TagsDefined(m, cases, before.tagMap, after.tagMap, tags)
    case MappingsUpdate(adds, deletes) =>
      && after.(mappings := before.mappings) == before
      && RowsApplied(before.mappings, after.mappings, adds, deletes, before.tagMap, before.hashMap)
  }

  /** Exactly the stored body under the key is marked as processed. */
  predicate Marked(before: Rows, after: Rows, key: (UpdateId, ContentType)) {
    && after.Keys == before.Keys
    && forall k | k in before ::
         if k == key then after[k] == StoredUpdate(true, before[k].mime, before[k].body) else after[k] == before[k]
  }

  /** Some staged tag, in its clean form, and some requested hash have the ids of the pair. */
  predicate IsRequested(m: Master, cases: CaseTable, idOf: map<string, int>, tags: seq<string>,
                        requested: seq<string>, p: (int, int))
  {
    exists i, j | 0 <= i < |tags| && 0 <= j < |requested| ::
      Find(m, Clean(cases, tags[i])) == Some(p.0) && requested[j] in idOf && idOf[requested[j]] == p.1
  }

  ghost predicate RequestStaged(m: Master, cases: CaseTable, idOf: map<string, int>, before: Tables<(int, int)>,
                                after: Tables<(int, int)>, tags: seq<string>, requested: seq<string>)
  {
    && (forall i | 0 <= i < |tags| :: Find(m, Clean(cases, tags[i])).Some?)
    && (forall j | 0 <= j < |requested| :: requested[j] in idOf)
    && forall p: (int, int) ::
         if IsRequested(m, cases, idOf, tags, requested, p) then StagedIn(before, after, p)
         else Untouched(before, after, p)
  }

  lemma RequestIsStaged(m: Master, cases: CaseTable, idOf: map<string, int>, t: Tables<(int, int)>,
                        tags: seq<string>, requested: seq<string>)
    requires forall i | 0 <= i < |tags| :: Clean(cases, tags[i]) in TagIds(m)
    requires forall j | 0 <= j < |requested| :: requested[j] in idOf
    ensures var pairs := StagedPairs(CleanTags(cases, tags), requested, TagIds(m), idOf);
            RequestStaged(m, cases, idOf, t, Stage(t, pairs), tags, requested)
  {
    var ids := TagIds(m);
    var pairs := StagedPairs(CleanTags(cases, tags), requested, ids, idOf);
    forall i | 0 <= i < |tags| ensures Find(m, Clean(cases, tags[i])) == Some(ids[Clean(cases, tags[i])]) {
      CleanIsNormal(cases, tags[i]);
      TagIdsFinds(m, Clean(cases, tags[i]));
    }
    hide Clean, Find, TagIds, Stage;
    forall p: (int, int)
      ensures p in pairs <==> IsRequested(m, cases, idOf, tags, requested, p)
      ensures if p in pairs then StagedIn(t, Stage(t, pairs), p) else Untouched(t, Stage(t, pairs), p)
    {
      StageMoves(t, pairs, p);
      RequestedPairs(m, cases, ids, idOf, tags, requested, p);
    }
  }

  lemma RequestedPairs(m: Master, cases: CaseTable, ids: map<string, int>, idOf: map<string, int>, tags: seq<string>,
                       requested: seq<string>, p: (int, int))
    requires forall i | 0 <= i < |tags| ::
               Clean(cases, tags[i]) in ids && Find(m, Clean(cases, tags[i])) == Some(ids[Clean(cases, tags[i])])
    ensures p in StagedPairs(CleanTags(cases, tags), requested, ids, idOf)
       <==> IsRequested(m, cases, idOf, tags, requested, p)
  {
    hide Clean, Find;
    if IsRequested(m, cases, idOf, tags, requested, p) {
      var i, j :| 0 <= i < |tags| && 0 <= j < |requested|
                  && Find(m, Clean(cases, tags[i])) == Some(p.0) && requested[j] in idOf && idOf[requested[j]] == p.1;
      assert tags[i] in tags && Clean(cases, tags[i]) in CleanTags(cases, tags) && requested[j] in requested;
      assert p == (ids[Clean(cases, tags[i])], idOf[requested[j]]);
    }
    if p in StagedPairs(CleanTags(cases, tags), requested, ids, idOf) {
      var t, h :| t in CleanTags(cases, tags) && t in ids && h in requested && h in idOf && p == (ids[t], idOf[h]);
      var tag :| tag in tags && t == Clean(cases, tag);
      var i :| 0 <= i < |tags| && tags[i] == tag;
      var j :| 0 <= j < |requested| && requested[j] == h;
      assert Find(m, Clean(cases, tags[i])) == Some(p.0);
    }
  }

  /** Why a stored update was not applied. */
  datatype ApplyError = RunOver | MalformedHash(key: int) | Undefined(missing: MappingError)

  /** The error names a malformed hash of the update, or the first of its ids that is not defined. */
  ghost predicate Stops(c: Content, p: Payload, error: ApplyError) {
    match error
    case RunOver => false
    case MalformedHash(key) => p.DefinitionsUpdate? && key in p.hashes && !ValidHash(p.hashes[key])
    case Undefined(missing) =>
      && p.MappingsUpdate?
      && FirstMiss(if Resolvable(p.adds, c.tagMap, c.hashMap) then p.deletes else p.adds, missing, c.tagMap, c.hashMap)
  }

  class Bundle {
    var sync: SyncState
    var registered: map<UpdateId, nat>
    var unregistered: set<UpdateId>
    var stored: Rows
    var hashes: IdTable<string>
    var hashMap: map<int, int>
    var tagMap: map<int, int>
    const master: MasterTags
    const mappings: ServiceTables

    ghost predicate Valid()
      reads this, master
    {
      ValidTable(hashes) && Interning.Valid(master.Value())
    }

    function KnownNames(): Names
      reads this, master
    {
      Names(hashes.idOf, TagIds(master.Value()))
    }

    function Updates(): UpdateTables
      reads this
    {
      UpdateTables(registered, unregistered, stored)
    }

    function State(): Store
      reads this, master, mappings
    {
      Store(sync, Updates(), Content(KnownNames(), hashMap, tagMap, mappings.Value()))
    }

    constructor (hashes: IdTable<string>, master: MasterTags)
      requires ValidTable(hashes) && Interning.Valid(master.Value())
      ensures Valid() && this.master == master && fresh(mappings)
      ensures State() == Initial(KnownNames())
    {
      sync, registered, unregistered, stored := INITIAL_SYNC, map[], {}, map[];
      this.hashes, hashMap, tagMap := hashes, map[], map[];
      this.master := master;
      mappings := new ServiceTables();
    }

    // ----- The lease -----

    method BeginSync(token: Token) returns (ok: bool)
      modifies this`sync
      ensures ok == Begin(old(State()), token).Committed?
      ensures State() == After(old(State()), Begin(old(State()), token))
      ensures ok <==> !old(sync.running)
      ensures ok ==> sync.running && sync.token == Some(token) && sync.phase == Syncing && sync.lastError == None
      ensures ok ==> sync.retryAt == 0 && sync.retryAttempt == old(sync.retryAttempt) && SameProgress(old(sync), sync)
    {
      if sync.running {
        return false;
      }
      sync := sync.(phase := Syncing, running := true, token := Some(token), retryAt := 0, lastError := None);
      return true;
    }

    method FinishSync(token: Token, countMappings: bool) returns (ok: bool)
      modifies this`sync
      ensures ok == Active(old(State()), token)
      ensures State() == After(old(State()), Finish(old(State()), token, countMappings))
      ensures ok <==> old(sync.running && sync.token == Some(token))
      ensures ok ==> AtRest(sync) && sync.lastError == None && JustPast(sync.metadataSlice, registered)
      ensures ok ==> SameCounters(old(sync), sync)
      ensures ok ==> sync.lastMappingCount ==
                       if countMappings then Some(|mappings.current|) else old(sync.lastMappingCount)
    {
      if !(sync.running && sync.token == Some(token)) {
        return false;
      }
      var nextUpdateIndex := NextIndex(registered);
      if countMappings {
        sync := sync.(lastMappingCount := Some(|mappings.current|));
      }
      sync := sync.(phase := Idle, running := false, token := None, metadataSlice := nextUpdateIndex,
                    retryAt := 0, retryAttempt := 0, lastError := None);
      return true;
    }

    method FinishFailure(token: Token, text: string) returns (ok: bool)
      modifies this`sync
      ensures ok == Active(old(State()), token)
      ensures State() == After(old(State()), Fail(old(State()), token, text))
      ensures ok <==> old(sync.running && sync.token == Some(token))
      ensures ok ==> AtRest(sync) && SameProgress(old(sync), sync)
      ensures ok ==> sync.lastError == Some(if TrimSpace(text) == "" then "PTR sync failed" else TrimSpace(text))
    {
      if !(sync.running && sync.token == Some(token)) {
        return false;
      }
      var trimmed := TrimSpace(text);
      sync := sync.(phase := Idle, running := false, token := None, retryAt := 0, retryAttempt := 0,
                    lastError := Some(if trimmed == "" then "PTR sync failed" else trimmed));
      return true;
    }

    method SetThrottled(token: Token, retryAt: int, retryAttempt: int) returns (ok: bool)
      modifies this`sync
      ensures ok == Active(old(State()), token)
      ensures State() == After(old(State()), Throttle(old(State()), token, retryAt, retryAttempt))
      ensures ok <==> old(sync.running && sync.token == Some(token))
      ensures ok ==> sync.phase == Retrying && !sync.running && sync.token == None && sync.lastError == None
      ensures ok ==> sync.retryAt == retryAt && sync.retryAttempt == (if retryAttempt < 1 then 1 else retryAttempt)
      ensures ok ==> SameProgress(old(sync), sync)
    {
      if !(sync.running && sync.token == Some(token)) {
        return false;
      }
      var attempt := if retryAttempt < 1 then 1 else retryAttempt;
      sync := sync.(phase := Retrying, running := false, token := None,
                    retryAt := retryAt, retryAttempt := attempt, lastError := None);
      return true;
    }

    method RecoverFoundation()
      modifies this`sync
      ensures State() == Recover(old(State()))
      ensures !old(sync.running) && old(sync.token) == None
              && (old(sync.phase) == Retrying || (old(sync.phase) == Idle && old(sync.lastError) == None)) ==>
                sync == old(sync)
      ensures old(sync.running) || old(sync.token).Some? || old(sync.phase) == Syncing
              || (old(sync.phase) == Idle && old(sync.lastError).Some?) ==>
                AtRest(sync) && sync.lastError == None && SameProgress(old(sync), sync)
    {
      var clean := sync.phase == Retrying || (sync.phase == Idle && sync.lastError == None);
      if clean && !sync.running && sync.token == None {
        return;
      }
      sync := sync.(phase := Idle, running := false, token := None, retryAt := 0, retryAttempt := 0, lastError := None);
    }

    // ----- Metadata -----

    /** Forgets stored bodies of updates that are not kept. */
    method Prune(keep: set<UpdateId>)
      modifies this`stored
      ensures stored == map k | k in old(stored) && k.0 in keep :: old(stored)[k]
    {
      var stale := set k | k in stored && k.0 !in keep;
      while stale != {}
        invariant stale == set k | k in stored && k.0 !in keep
        invariant forall k | k in old(stored) && k.0 in keep :: k in stored
        invariant forall k | k in stored :: k in old(stored) && stored[k] == old(stored)[k]
        decreases |stale|
      {
        var k :| k in stale;
        stored := stored - {k};
        stale := stale - {k};
      }
      assert forall k | k in stored :: k.0 in keep by {
        forall k | k in stored ensures k.0 in keep { assert k !in stale; }
      }
    }

    /** The stored bodies of one kind that have been applied. */
    function DoneOf(kind: ContentType): set<(UpdateId, ContentType)>
      reads this
    {
      set k | k in stored && k.1 == kind && stored[k].processed
    }

    method CountDownloads()
      modifies this`sync
      ensures State() == CountDownloaded(old(State()))
      ensures sync == old(sync).(downloaded := |stored|)
    {
      sync := sync.(downloaded := |stored|);
    }

    method CountProcessed()
      modifies this`sync
      ensures State() == CountDone(old(State()))
      ensures sync == old(sync).(definitionsDone := |DoneOf(Definitions)|, contentDone := |DoneOf(Mappings)|)
    {
      sync := sync.(definitionsDone := |Done(stored, Definitions)|, contentDone := |Done(stored, Mappings)|);
      assert Done(stored, Definitions) == DoneOf(Definitions) && Done(stored, Mappings) == DoneOf(Mappings);
    }

    method PersistMetadata(token: Token, rows: seq<(nat, UpdateId)>, replace: bool) returns (ok: bool)
      modifies this`sync, this`registered, this`unregistered, this`stored
      ensures ok == Active(old(State()), token)
      ensures State() == After(old(State()), Persist(old(State()), token, rows, replace))
      ensures ok <==> old(sync.running && sync.token == Some(token))
      ensures ok ==> RowsPersisted(old(Updates()), Updates(), rows, replace)
      ensures ok ==> sync == old(sync).(downloaded := |stored|, definitionsDone := |DoneOf(Definitions)|,
                                        contentDone := |DoneOf(Mappings)|)
    {
      if !(sync.running && sync.token == Some(token)) {
        return false;
      }
      hide RowsPersisted, DoneOf, RegisterTables;
      RegisterRows(rows, replace);
      CountDownloads();
      CountProcessed();
      return true;
    }

    /** The row statements of a metadata answer. */
    method RegisterRows(rows: seq<(nat, UpdateId)>, replace: bool)
      modifies this`registered, this`unregistered, this`stored
      ensures Updates() == RegisterTables(old(Updates()), rows, replace)
      ensures RowsPersisted(old(Updates()), Updates(), rows, replace)
    {
      hide RowsPersisted;
      RegisteredByRow(Updates(), rows, replace);
      var future := FutureIds(rows);
      if replace {
        registered, unregistered := map[], {};
        Prune(future);
      }
      InsertUpdates(rows);
      unregistered := unregistered + future;
    }

    method FutureIds(rows: seq<(nat, UpdateId)>) returns (ids: set<UpdateId>)
      ensures ids == RowIds(rows)
    {
      ids := {};
      for i := 0 to |rows|
        invariant ids == RowIds(rows[..i])
      {
        ids := ids + {rows[i].1};
        RowIdsSnoc(rows, i);
      }
      assert rows[..|rows|] == rows;
    }

    method InsertUpdates(rows: seq<(nat, UpdateId)>)
      modifies this`registered
      ensures registered == Register(old(registered), rows)
    {
      for i := 0 to |rows|
        invariant registered == Register(old(registered), rows[..i])
      {
        var (index, id) := rows[i];
        assert rows[..i + 1][..i] == rows[..i];
        if id !in registered {
          registered := registered[id := index];
        }
      }
      assert rows[..|rows|] == rows;
    }

    method ListPendingHashes(token: Token) returns (ids: Option<seq<UpdateId>>)
      ensures ids == if Active(State(), token) then Some(InIdOrder(State().updates.unregistered)) else None
      ensures ids.Some? ==>
        && (forall i, j | 0 <= i < j < |ids.value| :: ids.value[i] < ids.value[j])
        && multiset(ids.value) == multiset(unregistered)
    {
      if !(sync.running && sync.token == Some(token)) {
        return None;
      }
      InIdOrderLists(unregistered);
      return Some(InIdOrder(unregistered));
    }

    // ----- Downloaded bodies -----

    /** Stores a batch of bodies, or none of it when one of them is of a kind that is not supported. */
    method FinalizeDownloads(token: Token, items: seq<Item>) returns (ok: bool)
      modifies this`sync, this`unregistered, this`stored
      ensures ok == Finalize(old(State()), token, items).Committed?
      ensures State() == After(old(State()), Finalize(old(State()), token, items))
      ensures ok <==> items == [] || (old(sync.running && sync.token == Some(token))
                                      && forall i | 0 <= i < |items| :: items[i].mime == 28 || items[i].mime == 29)
      ensures ok && items != [] ==>
                ItemsStored(old(Updates()), Updates(), items) && sync == old(sync).(downloaded := |stored|)
    {
      if items == [] {
        return true;
      }
      if !(sync.running && sync.token == Some(token)) {
        return false;
      }
      hide Active, ItemsStored;
      var savedStored, savedUnregistered := stored, unregistered;
      for i := 0 to |items|
        invariant sync == old(sync)
        invariant Supported(items[..i]) && stored == StoreItems(savedStored, items[..i])
        invariant unregistered == savedUnregistered - ItemIds(items[..i])
      {
        var contentType := ContentTypeForMime(items[i].mime);
        if contentType == None {
          stored, unregistered := savedStored, savedUnregistered;
          assert !Supported(items) && items[i].mime != 28 && items[i].mime != 29;
          return false;
        }
        var key := (items[i].id, contentType.value);
        stored := stored[key := StoredUpdate(key in stored && stored[key].processed, items[i].mime, items[i].body)];
        unregistered := unregistered - {items[i].id};
        assert items[..i + 1] == items[..i] + [items[i]];
        assert items[..i + 1][..i] == items[..i];
        ItemIdsSnoc(items, i);
      }
      assert items[..|items|] == items;
      assert forall i | 0 <= i < |items| :: ContentTypeForMime(items[i].mime).Some?;
      StoredByItem(old(Updates()), items);
      CountDownloads();
      return true;
    }

    // ----- Processing -----

    /** The smallest registered index that still waits for a body. */
    method MinBlockedIndex() returns (blocked: Option<nat>)
      ensures forall index :: Blocked(Updates(), index) <==> blocked.Some? && blocked.value <= index
    {
      var waiting := set id | id in registered && id in unregistered :: Rank(registered[id], 0, id);
      assert forall id | id in registered && id in unregistered :: Rank(registered[id], 0, id) in waiting;
      if waiting == {} {
        return None;
      }
      return Some(Least(waiting).index);
    }

    method ListProcessableUpdates(token: Token) returns (order: Option<seq<Rank>>)
      ensures order == if Active(State(), token) then Some(Processable(State().updates)) else None
      ensures order.Some? ==> forall r :: r in order.value <==>
                && 0 <= r.kind <= 1
                && ReadyToApply(Updates(), r.id, if r.kind == 0 then Definitions else Mappings, r.index)
      ensures order.Some? ==> forall i, j | 0 <= i < j < |order.value| ::
                var a, b := order.value[i], order.value[j];
                a.index < b.index || (a.index == b.index && (a.kind < b.kind || (a.kind == b.kind && a.id < b.id)))
    {
      ProcessableListed(Updates());
      if !(sync.running && sync.token == Some(token)) {
        return None;
      }
      var blocked := MinBlockedIndex();
      var ranks := set k | k in stored && !stored[k].processed && k.0 in registered
                           && (blocked == None || registered[k.0] < blocked.value)
                   :: Rank(registered[k.0], KindRank(k.1), k.0);
      assert ranks == ProcessableRanks(Updates());
      return Some(Sorted(ranks));
    }

    method EnsureHashId(hash: string)
      requires Valid()
      modifies this`hashes
      ensures Valid() && Grown(old(hashes.idOf), hashes.idOf, {hash})
    {
      InsertIsValid(hashes, hash);
      if hash !in hashes.idOf {
        hashes := IdTable(hashes.idOf[hash := hashes.top + 1], hashes.top + 1);
      }
    }

    /** Interns every hash of a batch of definitions, or finds one that is malformed. */
    method EnsureHashIds(defined: map<int, string>) returns (malformed: Option<int>)
      requires Valid()
      modifies this`hashes
      ensures Valid()
      ensures malformed == None <==> WellFormed(defined)
      ensures malformed.Some? ==> malformed.value in defined && !ValidHash(defined[malformed.value])
      ensures malformed == None ==> Grown(old(hashes.idOf), hashes.idOf, defined.Values)
    {
      hide ValidHash, Grown;
      assert Grown(hashes.idOf, hashes.idOf, {}) by { NothingGrown(hashes.idOf); }
      var rest := defined.Items;
      SeenAtEnds(defined);
      while rest != {}
        invariant Valid() && rest <= defined.Items
        invariant WellFormed(Seen(defined, rest))
        invariant Grown(old(hashes.idOf), hashes.idOf, Seen(defined, rest).Values)
        decreases |rest|
      {
        var it :| it in rest;
        SeenOne(defined, rest, it);
        if !ValidHash(it.1) {
          NotWellFormed(defined, it.0);
          return Some(it.0);
        }
        ghost var before := hashes.idOf;
        EnsureHashId(it.1);
        GrownStep(old(hashes.idOf), before, hashes.idOf, Seen(defined, rest).Values, it.1);
        rest := rest - {it};
      }
      return None;
    }

    method WriteHashDefinitions(defined: map<int, string>)
      requires KnownValues(hashes.idOf, defined)
      modifies this`hashMap
      ensures hashMap == old(hashMap) + EncodeMap(hashes.idOf, defined)
      ensures HashesDefined(hashes.idOf, old(hashMap), hashMap, defined)
    {
      var rest := defined.Items;
      SeenAtEnds(defined);
      while rest != {}
        invariant rest <= defined.Items
        invariant Written(old(hashMap), hashMap, hashes.idOf, Seen(defined, rest))
        decreases |rest|
      {
        var it :| it in rest;
        SeenOne(defined, rest, it);
        WriteOne(old(hashMap), hashMap, hashes.idOf, hashes.idOf, Seen(defined, rest), it.0, it.1);
        hashMap := hashMap[it.0 := hashes.idOf[it.1]];
        rest := rest - {it};
      }
      WrittenHashes(hashes.idOf, old(hashMap), hashMap, defined);
    }

    method EnsureDefinitionTag(cases: CaseTable, raw: string) returns (id: int)
      requires Valid()
      modifies master
      ensures Valid()
      ensures Injective(KnownNames().tags)
      ensures Grown(old(KnownNames().tags), KnownNames().tags, {DefinitionTagName(cases, raw)})
      ensures id == KnownNames().tags[DefinitionTagName(cases, raw)]
    {
      ghost var name := DefinitionTagName(cases, raw);
      DefinitionTagNameIsNormal(cases, raw);
      EnsureCleanTagIds(master.Value(), name);
      var found := master.EnsureTagID(cases, raw);
      if found == None {
        found := master.EnsureTagID(cases, INVALID_REPOSITORY_TAG);
      }
      TagIdsFinds(master.Value(), name);
      id := found.value;
    }

    method WriteTagDefinition(cases: CaseTable, key: int, raw: string, ghost base: map<int, int>,
                              ghost seen: map<int, string>)
      requires Valid() && Written(base, tagMap, KnownNames().tags, seen)
      modifies this`tagMap, master
      ensures Valid()
      ensures Injective(KnownNames().tags)
      ensures Grown(old(KnownNames().tags), KnownNames().tags, {DefinitionTagName(cases, raw)})
      ensures Written(base, tagMap, KnownNames().tags, seen[key := DefinitionTagName(cases, raw)])
    {
      hide DefinitionTagName, TagIds, Interning.Valid, Written, Injective;
      ghost var before := KnownNames().tags;
      var id := EnsureDefinitionTag(cases, raw);
      WriteOne(base, tagMap, before, KnownNames().tags, seen, key, DefinitionTagName(cases, raw));
      tagMap := tagMap[key := id];
    }

    /** Interns and writes every tag of a batch of definitions; a tag of which cleaning leaves nothing is
        replaced by a fixed one. */
    method WriteTagDefinitions(cases: CaseTable, defined: map<int, string>)
      requires Valid()
      modifies this`tagMap, master
      ensures Valid()
      ensures Injective(KnownNames().tags)
      ensures Grown(old(KnownNames().tags), KnownNames().tags, TagNames(cases, defined).Values)
      ensures Written(old(tagMap), tagMap, KnownNames().tags, TagNames(cases, defined))
      ensures TagsDefined(master.Value(), cases, old(tagMap), tagMap, defined)
    {
      hide DefinitionTagName, TagIds, Interning.Valid, Grown, Written, Injective, TagsDefined;
      var rest := defined.Items;
      SeenAtEnds(defined);
      TagIdsAreInjective(master.Value());
      NothingGrown(KnownNames().tags);
      assert Written(tagMap, tagMap, KnownNames().tags, map[]) by { NothingWritten(tagMap, KnownNames().tags); }
      assert TagNames(cases, map[]) == map[];
      while rest != {}
        invariant Valid() && rest <= defined.Items
        invariant Injective(KnownNames().tags)
        invariant Grown(old(KnownNames().tags), KnownNames().tags, TagNames(cases, Seen(defined, rest)).Values)
        invariant Written(old(tagMap), tagMap, KnownNames().tags, TagNames(cases, Seen(defined, rest)))
        decreases |rest|
      {
        var it :| it in rest;
        SeenTagNames(cases, defined, rest, it);
        ghost var before, seen := KnownNames().tags, TagNames(cases, Seen(defined, rest));
        WriteTagDefinition(cases, it.0, it.1, old(tagMap), seen);
        GrownStep(old(KnownNames().tags), before, KnownNames().tags, seen.Values, DefinitionTagName(cases, it.1));
        rest := rest - {it};
      }
      WrittenTags(master.Value(), cases, old(tagMap), tagMap, defined);
    }

    /** Interns and writes a whole definitions update, unless one of its hashes is malformed. */
    method ApplyDefinitions(cases: CaseTable, definedHashes: map<int, string>, definedTags: map<int, string>)
      returns (malformed: Option<int>)
      requires Valid()
      modifies this`hashes, this`hashMap, this`tagMap, master
      ensures Valid()
      ensures malformed == None <==> WellFormed(definedHashes)
      ensures malformed.Some? ==> malformed.value in definedHashes && !ValidHash(definedHashes[malformed.value])
      ensures malformed == None ==>
        && Interned(old(KnownNames()), definedHashes.Values, TagNames(cases, definedTags).Values, KnownNames())
        && Written(old(hashMap), hashMap, KnownNames().hashes, definedHashes)
        && Written(old(tagMap), tagMap, KnownNames().tags, TagNames(cases, definedTags))
        && HashesDefined(hashes.idOf, old(hashMap), hashMap, definedHashes)
        && TagsDefined(master.Value(), cases, old(tagMap), tagMap, definedTags)
    {
      hide DefinitionTagName, TagIds, Interning.Valid, ValidHash, HashesDefined, TagsDefined;
      malformed := EnsureHashIds(definedHashes);
      if malformed != None {
        return;
      }
      assert KnownValues(hashes.idOf, definedHashes) by {
        assert forall k | k in definedHashes :: definedHashes[k] in definedHashes.Values;
      }
      WriteHashDefinitions(definedHashes);
      WriteTagDefinitions(cases, definedTags);
    }

    /** Applies one stored update: its content, its processed mark and the counters, or nothing at all; the error
        then says why. */
    method ApplyProcessable(cases: CaseTable, token: Token, id: UpdateId, p: Payload)
      returns (error: Option<ApplyError>)
      requires Valid()
      modifies this, master, mappings
      ensures Valid()
      ensures error == Some(RunOver) <==> !Active(old(State()), token)
      ensures error == None <==> Active(old(State()), token) && Obstacle(old(State().content), p).None?
      ensures error.Some? && error != Some(RunOver) ==> Stops(old(State().content), p, error.value)
      ensures error.Some? ==> State() == old(State())
      ensures error == None ==>
        && Interned(old(State().content.names), NeededHashes(p), NeededTags(cases, p), State().content.names)
        && ApplyUpdate(cases, old(State()), token, id, p, State().content.names) == Committed(State())
        && ContentWritten(master.Value(), cases, old(State().content), State().content, p)
        && registered == old(registered) && unregistered == old(unregistered)
        && Marked(old(stored), stored, (id, if p.DefinitionsUpdate? then Definitions else Mappings))
        && sync == old(sync).(definitionsDone := |DoneOf(Definitions)|, contentDone := |DoneOf(Mappings)|)
    {
      if !(sync.running && sync.token == Some(token)) {
        return Some(RunOver);
      }
      error := ApplyContentOf(cases, p);
      if error != None {
        return;
      }
      hide Interned, TagIds, Interning.Valid, ApplyContent, Obstacle, NeededTags, NeededHashes, Stops, ContentWritten,
           DoneOf;
      hide MarkProcessed, Marked;
      MarkApplied((id, KindOf(p)));
    }

    /** The processed mark of one body, and the counters. */
    method MarkApplied(key: (UpdateId, ContentType))
      modifies this`sync, this`stored
      ensures stored == MarkProcessed(old(stored), key) && Marked(old(stored), stored, key)
      ensures sync == old(sync).(definitionsDone := |DoneOf(Definitions)|, contentDone := |DoneOf(Mappings)|)
      ensures State() == CountDone(old(State()).(updates := Updates()))
    {
      if key in stored {
        stored := stored[key := stored[key].(processed := true)];
      }
      CountProcessed();
    }

    /** The content of an update, written whole or rolled back. */
    method ApplyContentOf(cases: CaseTable, p: Payload) returns (error: Option<ApplyError>)
      requires Valid()
      modifies this`hashes, this`hashMap, this`tagMap, master, mappings
      ensures Valid()
      ensures error == None <==> Obstacle(old(State().content), p).None?
      ensures error.Some? ==> State() == old(State()) && Stops(old(State().content), p, error.value)
      ensures error == None ==>
        && Interned(old(State().content.names), NeededHashes(p), NeededTags(cases, p), State().content.names)
        && NeededHashes(p) <= State().content.names.hashes.Keys
        && NeededTags(cases, p) <= State().content.names.tags.Keys
        && State().content == ApplyContent(cases, old(State().content), p, State().content.names)
        && ContentWritten(master.Value(), cases, old(State().content), State().content, p)
    {
      hide TagIds, Interning.Valid, TagNames, WellFormed, FirstMiss, ValidHash, HashesDefined, TagsDefined, RowsApplied;
      var savedHashes, savedHashMap, savedTagMap := hashes, hashMap, tagMap;
      var savedMaster, savedMappings := master.Value(), mappings.Value();
      error := None;
      if p.DefinitionsUpdate? {
        var malformed := ApplyDefinitions(cases, p.hashes, p.tags);
        error := if malformed.Some? then Some(MalformedHash(malformed.value)) else None;
      } else {
        NamesAreValid();
        var miss := mappings.ApplyMappings(p.adds, p.deletes, tagMap, hashMap);
        error := if miss.Some? then Some(Undefined(miss.value)) else None;
      }
      if error != None {
        hashes, hashMap, tagMap := savedHashes, savedHashMap, savedTagMap;
        master.Restore(savedMaster);
        mappings.Restore(savedMappings);
      }
    }

    // ----- Local staging and commit -----

    /** Stages every tag on every hash; the result is the number of pending rows inserted. */
    method StagePending(cases: CaseTable, tags: seq<string>, requested: seq<string>) returns (added: Option<nat>)
      requires Valid()
      modifies this`hashes, master, mappings
      ensures Valid()
      ensures added.Some? ==>
        && Interned(old(State().content.names), {}, CleanTags(cases, tags), State().content.names)
        && StageMappings(cases, old(State()), tags, requested, State().content.names) == Committed(State())
        && added.value == |State().content.mappings.pending| - |old(State().content.mappings.pending)|
        && RequestStaged(master.Value(), cases, hashes.idOf, old(mappings.Value()), mappings.Value(), tags, requested)
        && hashes == old(hashes)
      ensures added.None? ==>
        && State() == old(State())
        && (tags == [] || requested == [] || (exists h :: h in requested && h !in old(State().content.names.hashes))
            || exists t :: t in tags && !NotEmpty(Clean(cases, t)))
    {
      if tags == [] || requested == [] {
        return None;
      }
      var hashIds := KnownHashIds(requested);
      if hashIds == None {
        return None;
      }
      hide TagIds, Interning.Valid, Clean, NotEmpty, Grown, CleanTags, StagedPairs, Stage, AreIds, RequestStaged;
      var savedMaster, savedMappings := master.Value(), mappings.Value();
      var ok, count := StageTags(cases, tags, requested, hashIds.value);
      if !ok {
        master.Restore(savedMaster);
        mappings.Restore(savedMappings);
        return None;
      }
      NamesAreValid();
      GrownInterned(old(KnownNames()), KnownNames(), CleanTags(cases, tags));
      assert RequestStaged(master.Value(), cases, hashes.idOf, savedMappings, mappings.Value(), tags, requested) by {
        StagedAreKnown(cases, old(KnownNames().tags), KnownNames().tags, tags);
        RequestIsStaged(master.Value(), cases, hashes.idOf, savedMappings, tags, requested);
      }
      return Some(count);
    }

    /** Stages one tag after the other; the rows already written when one is refused are left for the caller
        to roll back. */
    method StageTags(cases: CaseTable, tags: seq<string>, ghost requested: seq<string>, hashIds: seq<int>)
      returns (ok: bool, count: nat)
      requires Valid() && AreIds(requested, hashes.idOf, hashIds)
      modifies master, mappings
      ensures Valid()
      ensures ok <==> forall tag | tag in tags :: NotEmpty(Clean(cases, tag))
      ensures ok ==> StagedSoFar(old(KnownNames().tags), old(mappings.Value()), CleanTags(cases, tags), requested)
      ensures ok ==> count == |mappings.pending| - |old(mappings.pending)|
    {
      hide TagIds, Interning.Valid, Clean, NotEmpty, CleanTags, StagedSoFar, AreIds;
      ghost var tags0, tables0 := KnownNames().tags, mappings.Value();
      ok, count := true, 0;
      NothingStaged(cases, requested);
      for i := 0 to |tags|
        invariant Valid() && count == |mappings.pending| - |tables0.pending|
        invariant forall k | 0 <= k < i :: NotEmpty(Clean(cases, tags[k]))
        invariant StagedSoFar(tags0, tables0, CleanTags(cases, tags[..i]), requested)
      {
        var n := StageOneTag(cases, tags[i], requested, hashIds, tags0, tables0, CleanTags(cases, tags[..i]));
        if n == None {
          assert tags[i] in tags;
          return false, 0;
        }
        count := count + n.value;
        CleanTagsSnoc(cases, tags, i);
      }
      assert tags[..|tags|] == tags;
    }

    /** The given clean tags, and no other, have been interned and staged on the requested hashes. */
    ghost predicate StagedSoFar(tags0: map<string, int>, tables0: Tables<(int, int)>, staged: set<string>,
                                requested: seq<string>)
      reads this, master, mappings
    {
      && Grown(tags0, KnownNames().tags, staged)
      && mappings.Value() == Stage(tables0, StagedPairs(staged, requested, KnownNames().tags, hashes.idOf))
    }

    lemma NothingStaged(cases: CaseTable, requested: seq<string>)
      ensures StagedSoFar(KnownNames().tags, mappings.Value(), CleanTags(cases, []), requested)
    {
      assert CleanTags(cases, []) == {};
    }

    method StageOneTag(cases: CaseTable, tag: string, ghost requested: seq<string>, hashIds: seq<int>,
                       ghost tags0: map<string, int>, ghost tables0: Tables<(int, int)>, ghost staged: set<string>)
      returns (added: Option<nat>)
      requires Valid() && AreIds(requested, hashes.idOf, hashIds)
      requires StagedSoFar(tags0, tables0, staged, requested)
      modifies master, mappings
      ensures Valid()
      ensures added.Some? <==> NotEmpty(Clean(cases, tag))
      ensures added.Some? ==> StagedSoFar(tags0, tables0, staged + {Clean(cases, tag)}, requested)
      ensures added.Some? ==> added.value == |mappings.pending| - |old(mappings.pending)|
    {
      hide TagIds, Interning.Valid, Clean, NotEmpty, Grown, StagedPairs, AreIds;
      ghost var before := KnownNames().tags;
      ghost var pairs := StagedPairs(staged, requested, before, hashes.idOf);
      var id := EnsureStagedTag(cases, tag);
      if id == None {
        return None;
      }
      var n := mappings.StageTag(id.value, hashIds);
      StagedStep(tags0, before, KnownNames().tags, staged, Clean(cases, tag), requested, hashes.idOf, hashIds);
      StagesCompose(tables0, pairs, RowPairs(id.value, hashIds));
      GrownStep(tags0, before, KnownNames().tags, staged, Clean(cases, tag));
      return Some(n);
    }

    method KnownHashIds(requested: seq<string>) returns (ids: Option<seq<int>>)
      ensures ids.Some? <==> forall h | h in requested :: h in hashes.idOf
      ensures ids.Some? ==> AreIds(requested, hashes.idOf, ids.value)
    {
      var found := [];
      for i := 0 to |requested|
        invariant |found| == i
        invariant forall k | 0 <= k < i :: requested[k] in hashes.idOf && found[k] == hashes.idOf[requested[k]]
      {
        if requested[i] !in hashes.idOf {
          return None;
        }
        found := found + [hashes.idOf[requested[i]]];
      }
      return Some(found);
    }

    method EnsureStagedTag(cases: CaseTable, raw: string) returns (id: Option<int>)
      requires Valid()
      modifies master
      ensures Valid() && Injective(KnownNames().tags)
      ensures id.Some? <==> NotEmpty(Clean(cases, raw))
      ensures id.Some? ==> Grown(old(KnownNames().tags), KnownNames().tags, {Clean(cases, raw)})
      ensures id.Some? ==> Clean(cases, raw) in KnownNames().tags && id.value == KnownNames().tags[Clean(cases, raw)]
      ensures id.None? ==> master.Value() == old(master.Value())
    {
      CleanIsNormal(cases, raw);
      EnsureCleanTagIds(master.Value(), Clean(cases, raw));
      id := master.EnsureTagID(cases, raw);
      TagIdsFinds(master.Value(), Clean(cases, raw));
      TagIdsAreInjective(master.Value());
    }

    /** Applies a successful upload; the result is the number of mappings committed. */
    method CommitSuccess() returns (committed: nat)
      modifies mappings
      ensures State() == CommitMappings(old(State()))
      ensures forall p :: CommittedIn(old(mappings.Value()), mappings.Value(), p)
      ensures committed == |old(State().content.mappings.pending)|
    {
      committed := mappings.CommitPending();
    }

    lemma NamesAreValid()
      requires Valid()
      ensures ValidNames(KnownNames())
    {
      TagIdsAreInjective(master.Value());
    }
  }

  lemma StagedAreKnown(cases: CaseTable, before: map<string, int>, after: map<string, int>, tags: seq<string>)
    requires Grown(before, after, CleanTags(cases, tags))
    ensures forall i | 0 <= i < |tags| :: Clean(cases, tags[i]) in after
  {
    hide Clean;
    forall i | 0 <= i < |tags| ensures Clean(cases, tags[i]) in after {
      assert tags[i] in tags;
    }
  }

  lemma CleanTagsSnoc(cases: CaseTable, tags: seq<string>, i: nat)
    requires i < |tags|
    ensures CleanTags(cases, tags[..i + 1]) == CleanTags(cases, tags[..i]) + {Clean(cases, tags[i])}
  {
    hide Clean;
    assert tags[..i + 1] == tags[..i] + [tags[i]];
    assert forall tag :: tag in tags[..i + 1] <==> tag in tags[..i] || tag == tags[i];
    assert tags[i] in tags[..i + 1];
  }

  /** Staging one more tag on the requested hashes. */
  lemma StagedStep(first: map<string, int>, before: map<string, int>, after: map<string, int>, staged: set<string>,
                   tag: string, requested: seq<string>, hashOf: map<string, int>, hashIds: seq<int>)
    requires Grown(first, before, staged) && Grown(before, after, {tag})
    requires AreIds(requested, hashOf, hashIds)
    ensures StagedPairs(staged + {tag}, requested, after, hashOf)
         == StagedPairs(staged, requested, before, hashOf) + RowPairs(after[tag], hashIds)
  {
    var all := StagedPairs(staged + {tag}, requested, after, hashOf);
    var some, row := StagedPairs(staged, requested, before, hashOf), RowPairs(after[tag], hashIds);
    forall q | q in row ensures q in all {
      var i :| 0 <= i < |hashIds| && hashIds[i] == q.1;
      assert requested[i] in requested && q == (after[tag], hashOf[requested[i]]);
    }
    forall q | q in some ensures q in all {
      var t, h :| t in staged && t in before && h in requested && h in hashOf && q == (before[t], hashOf[h]);
      assert after[t] == before[t];
    }
    forall q | q in all ensures q in some + row {
      var t, h :| t in staged + {tag} && t in after && h in requested && h in hashOf && q == (after[t], hashOf[h]);
      if t in staged {
        assert t in before && after[t] == before[t];
      } else {
        var i :| 0 <= i < |requested| && requested[i] == h;
        assert hashIds[i] == q.1;
      }
    }
  }

  lemma GrownInterned(before: Names, after: Names, tags: set<string>)
    requires before.hashes == after.hashes && Grown(before.tags, after.tags, tags) && ValidNames(after)
    ensures Interned(before, {}, tags, after)
  {
  }

  lemma RowIdsSnoc(rows: seq<(nat, UpdateId)>, i: nat)
    requires i < |rows|
    ensures RowIds(rows[..i + 1]) == RowIds(rows[..i]) + {rows[i].1}
  {
    assert rows[..i + 1] == rows[..i] + [rows[i]];
    assert forall row :: row in rows[..i + 1] <==> row in rows[..i] || row == rows[i];
    assert rows[i] in rows[..i + 1];
  }

  lemma ItemIdsSnoc(items: seq<Item>, i: nat)
    requires i < |items|
    ensures ItemIds(items[..i + 1]) == ItemIds(items[..i]) + {items[i].id}
  {
    assert items[..i + 1] == items[..i] + [items[i]];
    assert forall item :: item in items[..i + 1] <==> item in items[..i] || item == items[i];
    assert items[i] in items[..i + 1];
  }
}
