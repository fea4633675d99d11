/** The persisted state of the PTR service and the transactions on it, as functions from one state to the
    next.  A transaction that fails is rolled back: it leaves no trace. */
module Repository {
  import opened Tags
  import opened Interning
  import opened MappingTables
  import opened UpdateOrder

  /** An update file is known by the local id of its hash; such ids are never reassigned. */
  type UpdateId = int
  type Token = nat

  datatype ContentType = Definitions | Mappings

  /** The decoded content of an update file. */
  datatype Payload =
    | DefinitionsUpdate(hashes: map<int, string>, tags: map<int, string>)
    | MappingsUpdate(adds: seq<MappingRow>, deletes: seq<MappingRow>)

  function KindOf(p: Payload): ContentType {
    if p.DefinitionsUpdate? then Definitions else Mappings
  }

  function KindRank(kind: ContentType): nat {
    if kind == Definitions then 0 else 1
  }

  const DEFINITIONS_MIME := 28
  const CONTENT_MIME := 29

  function MimeOf(p: Payload): int {
    if p.DefinitionsUpdate? then DEFINITIONS_MIME else CONTENT_MIME
  }

  function ContentTypeForMime(mime: int): Option<ContentType> {
    if mime == DEFINITIONS_MIME then Some(Definitions)
    else if mime == CONTENT_MIME then Some(Mappings)
    else None
  }

  datatype Phase = Idle | Syncing | Retrying

  datatype SyncState = SyncState(
    phase: Phase,
    running: bool,
    token: Option<Token>,
    metadataSlice: nat,
    downloaded: nat,
    definitionsDone: nat,
    contentDone: nat,
    retryAt: int,
    retryAttempt: int,
    lastError: Option<string>,
    lastMappingCount: Option<nat>)

  datatype StoredUpdate = StoredUpdate(processed: bool, mime: int, body: Payload)

  /** Ids of interned file hashes and of interned clean tags. */
  datatype Names = Names(hashes: map<string, int>, tags: map<string, int>)

  /** Which updates the log has, which bodies have still to be downloaded, and the bodies stored. */
  datatype UpdateTables = UpdateTables(
    registered: map<UpdateId, nat>,                          // repository_updates, unique by hash id
    unregistered: set<UpdateId>,                             // repository_unregistered_updates
    stored: map<(UpdateId, ContentType), StoredUpdate>)      // repository_updates_processed

  /** What applied updates have written: definitions and mappings, over the interned names. */
  datatype Content = Content(
    names: Names,
    hashMap: map<int, int>,                                  // repository_hash_id_map
    tagMap: map<int, int>,                                   // repository_tag_id_map
    mappings: Tables<(int, int)>)

  datatype Store = Store(sync: SyncState, updates: UpdateTables, content: Content)

  const INITIAL_SYNC := SyncState(Idle, false, None, 0, 0, 0, 0, 0, 0, None, None)

  /** The state the foundation transaction creates for a service that does not exist yet. */
  function Initial(names: Names): Store {
    Store(INITIAL_SYNC, UpdateTables(map[], {}, map[]), Content(names, map[], map[], MappingTables.Empty()))
  }

  datatype Reason =
    | AlreadyRunning | RunNotActive | UnsupportedMime | InvalidHash | MissingDefinition
    | EmptyRequest | EmptyTag | UnknownHash

  datatype Outcome = Committed(store: Store) | RolledBack(reason: Reason)

  /** What the database holds once the transaction is over. */
  function After(s: Store, outcome: Outcome): Store {
    if outcome.Committed? then outcome.store else s
  }

  // ----- The lease -----

  predicate Active(s: Store, token: Token) {
    s.sync.running && s.sync.token == Some(token)
  }

  function Begin(s: Store, token: Token): Outcome {
    if s.sync.running then RolledBack(AlreadyRunning)
    else Committed(s.(sync := s.sync.(phase := Syncing, running := true, token := Some(token),
                                      retryAt := 0, lastError := None)))
  }

  /** The registered updates by index. */
  function Indexed(updates: map<UpdateId, nat>): set<Rank> {
    set id | id in updates :: Rank(updates[id], 0, id)
  }

  /** One more than the largest update index, or 0 when there is none. */
  function NextIndex(updates: map<UpdateId, nat>): (n: nat)
    ensures forall id | id in updates :: updates[id] < n
    ensures n > 0 ==> exists id :: id in updates && updates[id] == n - 1
  {
    var order := Sorted(Indexed(updates));
    if order == [] then
      assert Elements(order) == {};
      assert forall id | id in updates :: Rank(updates[id], 0, id) in Indexed(updates);
      0
    else
      var last := order[|order| - 1];
      assert last in Elements(order);
      assert forall id | id in updates :: Rank(updates[id], 0, id) in Elements(order);
      last.index + 1
  }

  function Finish(s: Store, token: Token, countMappings: bool): Outcome {
    if !Active(s, token) then RolledBack(RunNotActive)
    else Committed(s.(sync := s.sync.(
      phase := Idle, running := false, token := None, metadataSlice := NextIndex(s.updates.registered),
      retryAt := 0, retryAttempt := 0, lastError := None,
      lastMappingCount := if countMappings then Some(|s.content.mappings.current|) else s.sync.lastMappingCount)))
  }

  function FailureText(text: string): string {
    if TrimSpace(text) == "" then "PTR sync failed" else TrimSpace(text)
  }

  function Fail(s: Store, token: Token, text: string): Outcome {
    if !Active(s, token) then RolledBack(RunNotActive)
    else Committed(s.(sync := s.sync.(
      phase := Idle, running := false, token := None,
      retryAt := 0, retryAttempt := 0, lastError := Some(FailureText(text)))))
  }

  function Throttle(s: Store, token: Token, retryAt: int, attempt: int): Outcome {
    if !Active(s, token) then RolledBack(RunNotActive)
    else Committed(s.(sync := s.sync.(
      phase := Retrying, running := false, token := None,
      retryAt := retryAt, retryAttempt := if attempt < 1 then 1 else attempt, lastError := None)))
  }

  /** Start-up recovery: a retry that is waiting and a clean idle state are kept, all else becomes idle. */
  function Recover(s: Store): Store {
    if (s.sync.phase == Retrying || (s.sync.phase == Idle && s.sync.lastError == None))
       && !s.sync.running && s.sync.token == None
    then s
    else s.(sync := s.sync.(phase := Idle, running := false, token := None,
                            retryAt := 0, retryAttempt := 0, lastError := None))
  }

  // ----- Counters -----

  function Done(stored: map<(UpdateId, ContentType), StoredUpdate>, kind: ContentType): set<(UpdateId, ContentType)> {
    set k | k in stored && stored[k].processed && k.1 == kind
  }

  function Unprocessed(stored: map<(UpdateId, ContentType), StoredUpdate>): set<(UpdateId, ContentType)> {
    set k | k in stored && !stored[k].processed
  }

  function CountDownloaded(s: Store): Store {
    s.(sync := s.sync.(downloaded := |s.updates.stored|))
  }

  function CountDone(s: Store): Store {
    s.(sync := s.sync.(definitionsDone := |Done(s.updates.stored, Definitions)|,
                       contentDone := |Done(s.updates.stored, Mappings)|))
  }

  // ----- Registering metadata -----

  /** INSERT OR IGNORE of (index, id) rows: an id that is already registered keeps its index. */
  function Register(updates: map<UpdateId, nat>, rows: seq<(nat, UpdateId)>): map<UpdateId, nat> {
    if rows == [] then updates
    else
      var before := Register(updates, rows[..|rows| - 1]);
      var (index, id) := rows[|rows| - 1];
      if id in before then before else before[id := index]
  }

  function RowIds(rows: seq<(nat, UpdateId)>): set<UpdateId> {
    set row | row in rows :: row.1
  }

  /** Some row names the id. */
  predicate Lists(rows: seq<(nat, UpdateId)>, id: UpdateId) {
    exists i :: 0 <= i < |rows| && rows[i].1 == id
  }

  /** The first row that names the id has this index. */
  predicate FirstIndex(rows: seq<(nat, UpdateId)>, id: UpdateId, index: nat) {
    exists i :: 0 <= i < |rows| && rows[i] == (index, id) && forall j | 0 <= j < i :: rows[j].1 != id
  }

  /** An id keeps its index, or gets that of the first row that names it. */
  lemma {:induction false} RegisterKeepsFirst(updates: map<UpdateId, nat>, rows: seq<(nat, UpdateId)>, id: UpdateId)
    ensures id in Register(updates, rows) <==> id in updates || Lists(rows, id)
    ensures id in updates ==> Register(updates, rows)[id] == updates[id]
    ensures id !in updates && id in Register(updates, rows) ==> FirstIndex(rows, id, Register(updates, rows)[id])
  {
    if rows != [] {
      var init, last := rows[..|rows| - 1], rows[|rows| - 1];
      RegisterKeepsFirst(updates, init, id);
      var before := Register(updates, init);
      if id !in updates && id in before {
        var i :| 0 <= i < |init| && init[i] == (before[id], id) && forall j | 0 <= j < i :: init[j].1 != id;
        assert rows[i] == (before[id], id) && rows[i].1 == id && forall j | 0 <= j < i :: rows[j] == init[j];
      } else if id !in before && last.1 == id {
        assert rows[|init|].1 == id;
        assert forall j | 0 <= j < |init| :: init[j].1 != id && rows[j] == init[j];
      } else if id !in before {
        assert forall i | 0 <= i < |rows| :: if i < |init| then rows[i] == init[i] else rows[i] == last;
      }
    }
  }

  /** Replacing the metadata forgets stored bodies the answer does not list. */
  function RegisterTables(t: UpdateTables, rows: seq<(nat, UpdateId)>, replace: bool): UpdateTables {
    if replace then
      UpdateTables(Register(map[], rows), RowIds(rows), map k | k in t.stored && k.0 in RowIds(rows) :: t.stored[k])
    else
      UpdateTables(Register(t.registered, rows), t.unregistered + RowIds(rows), t.stored)
  }

  /** Registering an answer, id by id: listed ids are registered under the index of their first row, unless they
      are added to the registered ones and are there already; they wait for a body; and bodies stay unless the
      answer replaces the metadata and does not list them. */
  ghost predicate RowsPersisted(before: UpdateTables, after: UpdateTables, rows: seq<(nat, UpdateId)>, replace: bool) {
    && (forall id: UpdateId :: id in after.registered <==> Lists(rows, id) || (!replace && id in before.registered))
    && (forall id: UpdateId | id in after.registered ::
          if !replace && id in before.registered then after.registered[id] == before.registered[id]
          else FirstIndex(rows, id, after.registered[id]))
    && (forall id: UpdateId ::
          id in after.unregistered <==> Lists(rows, id) || (!replace && id in before.unregistered))
    && (forall k: (UpdateId, ContentType) ::
          k in after.stored <==> k in before.stored && (replace ==> Lists(rows, k.0)))
    && forall k: (UpdateId, ContentType) | k in after.stored :: after.stored[k] == before.stored[k]
  }

  lemma RegisteredByRow(t: UpdateTables, rows: seq<(nat, UpdateId)>, replace: bool)
    ensures RowsPersisted(t, RegisterTables(t, rows, replace), rows, replace)
  {
    forall id: UpdateId ensures id in RowIds(rows) <==> Lists(rows, id) {
      if Lists(rows, id) {
        var i :| 0 <= i < |rows| && rows[i].1 == id;
        assert rows[i] in rows;
      }
    }
    var base := if replace then map[] else t.registered;
    forall id: UpdateId
      ensures id in Register(base, rows) <==> id in base || Lists(rows, id)
      ensures id in base ==> Register(base, rows)[id] == base[id]
      ensures id !in base && id in Register(base, rows) ==> FirstIndex(rows, id, Register(base, rows)[id])
    {
      RegisterKeepsFirst(base, rows, id);
    }
    hide Register, RowIds, Lists, FirstIndex;
  }

  function Persist(s: Store, token: Token, rows: seq<(nat, UpdateId)>, replace: bool): Outcome {
    if !Active(s, token) then RolledBack(RunNotActive)
    else Committed(CountDone(CountDownloaded(s.(updates := RegisterTables(s.updates, rows, replace)))))
  }

  // ----- Storing downloaded bodies -----

  /** The update hashes still to download, by hash id. */
  function InIdOrder(ids: set<UpdateId>): seq<UpdateId> {
    var order := Sorted(set id | id in ids :: Rank(0, 0, id));
    seq(|order|, i requires 0 <= i < |order| => order[i].id)
  }

  /** Each of the ids once, the smallest first. */
  lemma InIdOrderLists(ids: set<UpdateId>)
    ensures multiset(InIdOrder(ids)) == multiset(ids)
    ensures forall i, j | 0 <= i < j < |InIdOrder(ids)| :: InIdOrder(ids)[i] < InIdOrder(ids)[j]
  {
    var ranks := set id | id in ids :: Rank(0, 0, id);
    var order := Sorted(ranks);
    var list := InIdOrder(ids);
    forall i | 0 <= i < |order| ensures order[i] == Rank(0, 0, order[i].id) && order[i].id in ids {
      assert order[i] in Elements(order);
    }
    forall i, j | 0 <= i < j < |list| ensures list[i] < list[j] {
      assert Less(order[i], order[j]);
    }
    IncreasingMultiset(list);
    forall id ensures id in list <==> id in ids {
      if id in ids {
        assert Rank(0, 0, id) in Elements(order);
        var i :| 0 <= i < |order| && order[i] == Rank(0, 0, id);
        assert list[i] == id;
      }
    }
  }

  lemma {:induction false} IncreasingMultiset(list: seq<UpdateId>)
    requires forall i, j | 0 <= i < j < |list| :: list[i] < list[j]
    ensures forall id :: multiset(list)[id] == if id in list then 1 else 0
  {
    if list != [] {
      var init, last := list[..|list| - 1], list[|list| - 1];
      IncreasingMultiset(init);
      assert list == init + [last];
      assert last !in init;
    }
  }

  datatype Item = Item(id: UpdateId, mime: int, body: Payload)

  predicate Supported(items: seq<Item>) {
    forall i | 0 <= i < |items| :: ContentTypeForMime(items[i].mime).Some?
  }

  function StoreItem(stored: map<(UpdateId, ContentType), StoredUpdate>, item: Item)
    : map<(UpdateId, ContentType), StoredUpdate>
    requires ContentTypeForMime(item.mime).Some?
  {
    var key := (item.id, ContentTypeForMime(item.mime).value);
    stored[key := StoredUpdate(key in stored && stored[key].processed, item.mime, item.body)]
  }

  function StoreItems(stored: map<(UpdateId, ContentType), StoredUpdate>, items: seq<Item>)
    : map<(UpdateId, ContentType), StoredUpdate>
    requires Supported(items)
  {
    if items == [] then stored
    else StoreItem(StoreItems(stored, items[..|items| - 1]), items[|items| - 1])
  }

  function ItemIds(items: seq<Item>): set<UpdateId> {
    set item | item in items :: item.id
  }

  function StoreTables(t: UpdateTables, items: seq<Item>): UpdateTables
    requires Supported(items)
  {
    t.(stored := StoreItems(t.stored, items), unregistered := t.unregistered - ItemIds(items))
  }

  /** The item is stored under the key: 28 is the mime of definitions, 29 that of mappings. */
  predicate StoredUnder(item: Item, key: (UpdateId, ContentType)) {
    item.id == key.0 && item.mime == if key.1 == Definitions then 28 else 29
  }

  /** The last item for the key is the one stored. */
  predicate LastItem(items: seq<Item>, key: (UpdateId, ContentType), mime: int, body: Payload) {
    exists i ::
      && 0 <= i < |items| && StoredUnder(items[i], key) && items[i].mime == mime && items[i].body == body
      && forall j | i < j < |items| :: !StoredUnder(items[j], key)
  }

  predicate SomeItem(items: seq<Item>, key: (UpdateId, ContentType)) {
    exists i :: 0 <= i < |items| && StoredUnder(items[i], key)
  }

  /** What is under one key: the last item for it, with the processed mark kept, or what was there before. */
  predicate KeyStored(before: map<(UpdateId, ContentType), StoredUpdate>,
                      after: map<(UpdateId, ContentType), StoredUpdate>, items: seq<Item>, k: (UpdateId, ContentType))
  {
    if SomeItem(items, k) then
      && k in after && after[k].processed == (k in before && before[k].processed)
      && LastItem(items, k, after[k].mime, after[k].body)
    else
      (k in after <==> k in before) && (k in after ==> after[k] == before[k])
  }

  /** A batch of bodies stored, key by key; its items no longer wait. */
  ghost predicate ItemsStored(before: UpdateTables, after: UpdateTables, items: seq<Item>) {
    && after.registered == before.registered
    && (forall id: UpdateId ::
          id in after.unregistered <==> id in before.unregistered && forall i | 0 <= i < |items| :: items[i].id != id)
    && forall k: (UpdateId, ContentType) :: KeyStored(before.stored, after.stored, items, k)
  }

  lemma {:induction false} ItemStored(stored: map<(UpdateId, ContentType), StoredUpdate>, items: seq<Item>,
                                      k: (UpdateId, ContentType))
    requires Supported(items)
    ensures KeyStored(stored, StoreItems(stored, items), items, k)
  {
    if items != [] {
      var n := |items| - 1;
      ItemStored(stored, items[..n], k);
      StoreItemAt(StoreItems(stored, items[..n]), items[n], k);
      assert items == items[..n] + [items[n]];
      hide StoreItem, StoredUnder, KeyStored;
      OneMoreItem(stored, StoreItems(stored, items[..n]), StoreItems(stored, items), items[..n], items[n], k);
    }
  }

  lemma StoreItemAt(stored: map<(UpdateId, ContentType), StoredUpdate>, item: Item, k: (UpdateId, ContentType))
    requires ContentTypeForMime(item.mime).Some?
    ensures var after := StoreItem(stored, item);
            if StoredUnder(item, k) then
              k in after && after[k] == StoredUpdate(k in stored && stored[k].processed, item.mime, item.body)
            else
              (k in after <==> k in stored) && (k in after ==> after[k] == stored[k])
  {
  }

  lemma OneMoreItem(before: map<(UpdateId, ContentType), StoredUpdate>,
                    middle: map<(UpdateId, ContentType), StoredUpdate>,
                    after: map<(UpdateId, ContentType), StoredUpdate>, init: seq<Item>, last: Item,
                    k: (UpdateId, ContentType))
    requires KeyStored(before, middle, init, k)
    requires if StoredUnder(last, k) then
               k in after && after[k] == StoredUpdate(k in middle && middle[k].processed, last.mime, last.body)
             else
               (k in after <==> k in middle) && (k in after ==> after[k] == middle[k])
    ensures KeyStored(before, after, init + [last], k)
  {
    var items := init + [last];
    assert items[|init|] == last && forall i | 0 <= i < |init| :: items[i] == init[i];
    if StoredUnder(last, k) {
      assert StoredUnder(items[|init|], k);
      assert LastItem(items, k, last.mime, last.body);
    } else if SomeItem(init, k) {
      var m :| 0 <= m < |init| && StoredUnder(init[m], k) && init[m].mime == middle[k].mime
               && init[m].body == middle[k].body && forall j | m < j < |init| :: !StoredUnder(init[j], k);
      hide StoredUnder;
      assert StoredUnder(items[m], k);
      assert LastItem(items, k, after[k].mime, after[k].body);
    } else {
      hide StoredUnder;
      assert !SomeItem(items, k);
    }
  }

  lemma StoredByItem(t: UpdateTables, items: seq<Item>)
    requires Supported(items)
    ensures ItemsStored(t, StoreTables(t, items), items)
  {
    forall id: UpdateId ensures id in ItemIds(items) <==> exists i :: 0 <= i < |items| && items[i].id == id {
      if i :| 0 <= i < |items| && items[i].id == id {
        assert items[i] in items;
      }
    }
    hide ItemIds, StoreItems, KeyStored;
    forall k: (UpdateId, ContentType) ensures KeyStored(t.stored, StoreItems(t.stored, items), items, k) {
      ItemStored(t.stored, items, k);
    }
  }

  function Finalize(s: Store, token: Token, items: seq<Item>): Outcome {
    if items == [] then Committed(s)
    else if !Active(s, token) then RolledBack(RunNotActive)
    else if !Supported(items) then RolledBack(UnsupportedMime)
    else Committed(CountDownloaded(s.(updates := StoreTables(s.updates, items))))
  }

  // ----- Applying updates in order -----

  /** Some update of this index or an earlier one has still to be downloaded. */
  predicate Blocked(t: UpdateTables, index: int) {
    exists id :: id in t.unregistered && id in t.registered && t.registered[id] <= index
  }

  function ProcessableRanks(t: UpdateTables): set<Rank> {
    set k | k in t.stored && !t.stored[k].processed && k.0 in t.registered && !Blocked(t, t.registered[k.0])
      :: Rank(t.registered[k.0], KindRank(k.1), k.0)
  }

  /** The work of a processing pass, in order. */
  function Processable(t: UpdateTables): seq<Rank> {
    Sorted(ProcessableRanks(t))
  }

  /** The stored body of this kind is still to be applied, and no body of its index or an earlier one is missing. */
  predicate ReadyToApply(t: UpdateTables, id: UpdateId, kind: ContentType, index: int) {
    && (id, kind) in t.stored && !t.stored[(id, kind)].processed && id in t.registered && t.registered[id] == index
    && forall other | other in t.unregistered && other in t.registered :: index < t.registered[other]
  }

  /** What is processable, and in which order: by index, definitions before mappings, and by hash id. */
  lemma ProcessableListed(t: UpdateTables)
    ensures forall r: Rank :: r in Processable(t) <==>
              && 0 <= r.kind <= 1
              && ReadyToApply(t, r.id, if r.kind == 0 then Definitions else Mappings, r.index)
    ensures forall i, j | 0 <= i < j < |Processable(t)| ::
              var a, b := Processable(t)[i], Processable(t)[j];
              a.index < b.index || (a.index == b.index && (a.kind < b.kind || (a.kind == b.kind && a.id < b.id)))
  {
    var order := Processable(t);
    forall r: Rank ensures r in order <==> r in ProcessableRanks(t) {
      assert r in order <==> r in Elements(order);
    }
    forall r: Rank | r in ProcessableRanks(t)
      ensures 0 <= r.kind <= 1 && ReadyToApply(t, r.id, if r.kind == 0 then Definitions else Mappings, r.index)
    {
      var k :| k in t.stored && !t.stored[k].processed && k.0 in t.registered && !Blocked(t, t.registered[k.0])
               && r == Rank(t.registered[k.0], KindRank(k.1), k.0);
      assert k == (k.0, k.1);
    }
    forall r: Rank | 0 <= r.kind <= 1 && ReadyToApply(t, r.id, if r.kind == 0 then Definitions else Mappings, r.index)
      ensures r in ProcessableRanks(t)
    {
      var k := (r.id, if r.kind == 0 then Definitions else Mappings);
      assert k in t.stored && r == Rank(t.registered[k.0], KindRank(k.1), k.0);
    }
    forall i, j | 0 <= i < j < |order| ensures Less(order[i], order[j]) {}
  }

  /** Lower-case hexadecimal text of a whole, positive number of bytes. */
  predicate ValidHash(hash: string) {
    hash != "" && |hash| % 2 == 0 && forall c | c in hash :: '0' <= c <= '9' || 'a' <= c <= 'f'
  }

  predicate WellFormed(hashes: map<int, string>) {
    forall k | k in hashes :: ValidHash(hashes[k])
  }

  predicate ValidHashes(p: Payload) {
    p.DefinitionsUpdate? ==> WellFormed(p.hashes)
  }

  function NeededHashes(p: Payload): set<string> {
    if p.DefinitionsUpdate? then p.hashes.Values else {}
  }

  function NeededTags(cases: CaseTable, p: Payload): set<string> {
    if p.DefinitionsUpdate? then TagNames(cases, p.tags).Values else {}
  }

  /** The names under which a batch of tag definitions is stored. */
  function TagNames(cases: CaseTable, tags: map<int, string>): map<int, string> {
    map k | k in tags :: DefinitionTagName(cases, tags[k])
  }

  predicate KnownValues(idOf: map<string, int>, m: map<int, string>) {
    forall k | k in m :: m[k] in idOf
  }

  /** The local ids of the names a definition map gives. */
  function EncodeMap(idOf: map<string, int>, m: map<int, string>): map<int, int>
    requires KnownValues(idOf, m)
  {
    map k | k in m :: idOf[m[k]]
  }

  lemma NeededAreKnown(cases: CaseTable, p: Payload, names: Names)
    requires p.DefinitionsUpdate? && NeededHashes(p) <= names.hashes.Keys && NeededTags(cases, p) <= names.tags.Keys
    ensures KnownValues(names.hashes, p.hashes) && KnownValues(names.tags, TagNames(cases, p.tags))
  {
    assert forall k | k in p.hashes :: p.hashes[k] in p.hashes.Values;
    var tags := TagNames(cases, p.tags);
    assert forall k | k in tags :: tags[k] in tags.Values;
  }

  predicate ValidNames(names: Names) {
    Injective(names.hashes) && Injective(names.tags)
  }

  predicate NamesExtend(before: Names, after: Names) {
    Extends(before.hashes, after.hashes) && Extends(before.tags, after.tags)
  }

  /** Interning the given names led from one set of name tables to the other.  The order in which new
      names are met, and with it the ids they get, is left open. */
  predicate Interned(before: Names, hashes: set<string>, tags: set<string>, after: Names) {
    && NamesExtend(before, after) && ValidNames(after)
    && after.hashes.Keys == before.hashes.Keys + hashes
    && after.tags.Keys == before.tags.Keys + tags
  }

  function MarkProcessed(stored: map<(UpdateId, ContentType), StoredUpdate>, key: (UpdateId, ContentType))
    : map<(UpdateId, ContentType), StoredUpdate>
  {
    if key in stored then stored[key := stored[key].(processed := true)] else stored
  }

  function Define(cases: CaseTable, c: Content, p: Payload, names: Names): Content
    requires p.DefinitionsUpdate? && NeededHashes(p) <= names.hashes.Keys && NeededTags(cases, p) <= names.tags.Keys
  {
    NeededAreKnown(cases, p, names);
    Content(names,
            c.hashMap + EncodeMap(names.hashes, p.hashes),
            c.tagMap + EncodeMap(names.tags, TagNames(cases, p.tags)),
            c.mappings)
  }

  /** Why an update cannot be applied, if it cannot. */
  function Obstacle(c: Content, p: Payload): Option<Reason> {
    if p.DefinitionsUpdate? then
      if ValidHashes(p) then None else Some(InvalidHash)
    else
      if Resolvable(p.adds, c.tagMap, c.hashMap) && Resolvable(p.deletes, c.tagMap, c.hashMap) then None
      else Some(MissingDefinition)
  }

  function ApplyContent(cases: CaseTable, c: Content, p: Payload, names: Names): Content
    requires NeededHashes(p) <= names.hashes.Keys && NeededTags(cases, p) <= names.tags.Keys
  {
    if p.DefinitionsUpdate? then Define(cases, c, p, names)
    else c.(mappings := RemoteUpdate(c.mappings, Pairs(p.adds, c.tagMap, c.hashMap),
                                     Pairs(p.deletes, c.tagMap, c.hashMap)))
  }

  /** One update file applied in its own transaction: its content, its processed mark and the counters. */
  function ApplyUpdate(cases: CaseTable, s: Store, token: Token, id: UpdateId, p: Payload, names: Names): Outcome
    requires NeededHashes(p) <= names.hashes.Keys && NeededTags(cases, p) <= names.tags.Keys
  {
    if !Active(s, token) then RolledBack(RunNotActive)
    else if Obstacle(s.content, p).Some? then RolledBack(Obstacle(s.content, p).value)
    else Committed(CountDone(s.(content := ApplyContent(cases, s.content, p, names),
                                updates := s.updates.(stored := MarkProcessed(s.updates.stored, (id, KindOf(p)))))))
  }

  // ----- Local staging and commit -----

  function CleanTags(cases: CaseTable, tags: seq<string>): set<string> {
    set tag | tag in tags :: Clean(cases, tag)
  }

  function StagedPairs<T(==), H(==)>(tags: set<string>, hashes: seq<string>,
                                     tagOf: map<string, T>, hashOf: map<string, H>): set<(T, H)> {
    set t, h | t in tags && t in tagOf && h in hashes && h in hashOf :: (tagOf[t], hashOf[h])
  }

  function StageMappings(cases: CaseTable, s: Store, tags: seq<string>, hashes: seq<string>, names: Names): Outcome {
    if tags == [] || hashes == [] then RolledBack(EmptyRequest)
    else if exists h :: h in hashes && h !in s.content.names.hashes then RolledBack(UnknownHash)
    else if exists t :: t in tags && !NotEmpty(Clean(cases, t)) then RolledBack(EmptyTag)
    else
      var pairs := StagedPairs(CleanTags(cases, tags), hashes, names.tags, names.hashes);
      Committed(s.(content := s.content.(names := names, mappings := Stage(s.content.mappings, pairs))))
  }

  function CommitMappings(s: Store): Store {
    s.(content := s.content.(mappings := Commit(s.content.mappings)))
  }

  // ----- The status a client sees -----

  predicate IsComplete(s: Store) {
    && s.sync.phase == Idle && !s.sync.running && s.sync.lastError == None
    && s.updates.unregistered == {} && Unprocessed(s.updates.stored) == {}
    && (s.sync.metadataSlice > 0 || s.sync.downloaded > 0 || s.sync.definitionsDone > 0 || s.sync.contentDone > 0)
  }
}
