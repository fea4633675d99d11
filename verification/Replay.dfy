/** The reference the stored tables are measured against: the log replayed in one go, in terms of tag text
    and file hashes, without ids, batches or interruptions. */
module Replay {
  import opened Tags
  import opened Interning
  import opened MappingTables
  import opened UpdateOrder
  import opened Repository

  /** A (clean tag, file hash) pair. */
  type Mapping = (string, string)

  /** What a client that applied a history holds: the repository's definitions and its mapping tables. */
  datatype Replica = Replica(hashes: map<int, string>, tags: map<int, string>, tables: Tables<Mapping>)

  const EMPTY_REPLICA := Replica(map[], map[], MappingTables.Empty())

  /** What happened to the PTR tables, in order: updates of the log, and local staging and commits. */
  datatype Event =
    | Remote(rank: Rank, payload: Payload)
    | Staged(pairs: set<Mapping>)
    | LocalCommit

  function ReplayUpdate(cases: CaseTable, r: Replica, p: Payload): Replica {
    match p
    case DefinitionsUpdate(hashes, tags) =>
      r.(hashes := r.hashes + hashes,
         tags := r.tags + TagNames(cases, tags))
    case MappingsUpdate(adds, deletes) =>
      r.(tables := RemoteUpdate(r.tables, Pairs(adds, r.tags, r.hashes), Pairs(deletes, r.tags, r.hashes)))
  }

  function ReplayEvent(cases: CaseTable, r: Replica, e: Event): Replica {
    match e
    case Remote(_, p) => ReplayUpdate(cases, r, p)
    case Staged(pairs) => r.(tables := Stage(r.tables, pairs))
    case LocalCommit => r.(tables := Commit(r.tables))
  }

  function ReplayAll(cases: CaseTable, history: seq<Event>): Replica {
    if history == [] then EMPTY_REPLICA
    else ReplayEvent(cases, ReplayAll(cases, history[..|history| - 1]), history[|history| - 1])
  }

  /** The places in the log of the updates in a history. */
  function Applied(history: seq<Event>): seq<Rank> {
    if history == [] then []
    else
      var before := Applied(history[..|history| - 1]);
      var e := history[|history| - 1];
      if e.Remote? then before + [e.rank] else before
  }

  lemma ReplayAppend(cases: CaseTable, history: seq<Event>, e: Event)
    ensures ReplayAll(cases, history + [e]) == ReplayEvent(cases, ReplayAll(cases, history), e)
    ensures Applied(history + [e]) == if e.Remote? then Applied(history) + [e.rank] else Applied(history)
  {
    assert (history + [e])[..|history|] == history;
  }

  // ----- How a replica is represented in the store -----

  predicate Known(names: Names, pairs: set<Mapping>) {
    forall p | p in pairs :: p.0 in names.tags && p.1 in names.hashes
  }

  function EncodePairs(names: Names, pairs: set<Mapping>): set<(int, int)>
    requires Known(names, pairs)
  {
    set p | p in pairs :: (names.tags[p.0], names.hashes[p.1])
  }

  predicate KnownTables(names: Names, t: Tables<Mapping>) {
    Known(names, t.current) && Known(names, t.deleted) && Known(names, t.pending) && Known(names, t.petitioned)
  }

  function EncodeTables(names: Names, t: Tables<Mapping>): Tables<(int, int)>
    requires KnownTables(names, t)
  {
    Tables(EncodePairs(names, t.current), EncodePairs(names, t.deleted),
           EncodePairs(names, t.pending), EncodePairs(names, t.petitioned))
  }

  /** The store's definition and mapping tables hold exactly the replica, name by name. */
  predicate Represents(s: Content, r: Replica) {
    && ValidNames(s.names)
    && KnownValues(s.names.hashes, r.hashes) && KnownValues(s.names.tags, r.tags)
    && KnownTables(s.names, r.tables)
    && s.hashMap == EncodeMap(s.names.hashes, r.hashes)
    && s.tagMap == EncodeMap(s.names.tags, r.tags)
    && s.mappings == EncodeTables(s.names, r.tables)
  }

  /** Encoding loses nothing: a store represents at most one replica. */
  lemma RepresentedReplicaIsUnique(s: Content, a: Replica, b: Replica)
    requires Represents(s, a) && Represents(s, b)
    ensures a == b
  {
    MapsDetermined(s.names.hashes, a.hashes, b.hashes);
    MapsDetermined(s.names.tags, a.tags, b.tags);
    PairsDetermined(s.names, a.tables.current, b.tables.current);
    PairsDetermined(s.names, a.tables.deleted, b.tables.deleted);
    PairsDetermined(s.names, a.tables.pending, b.tables.pending);
    PairsDetermined(s.names, a.tables.petitioned, b.tables.petitioned);
  }

  lemma MapsDetermined(idOf: map<string, int>, a: map<int, string>, b: map<int, string>)
    requires Injective(idOf) && KnownValues(idOf, a) && KnownValues(idOf, b)
    requires EncodeMap(idOf, a) == EncodeMap(idOf, b)
    ensures a == b
  {
    assert EncodeMap(idOf, a).Keys == a.Keys && EncodeMap(idOf, b).Keys == b.Keys;
    forall k | k in a ensures a[k] == b[k] {
      assert EncodeMap(idOf, a)[k] == EncodeMap(idOf, b)[k];
    }
  }

  lemma EncodedMember(names: Names, pairs: set<Mapping>, p: Mapping)
    requires ValidNames(names) && Known(names, pairs) && p.0 in names.tags && p.1 in names.hashes
    ensures (names.tags[p.0], names.hashes[p.1]) in EncodePairs(names, pairs) <==> p in pairs
  {
    if (names.tags[p.0], names.hashes[p.1]) in EncodePairs(names, pairs) {
      var q :| q in pairs && (names.tags[q.0], names.hashes[q.1]) == (names.tags[p.0], names.hashes[p.1]);
      assert q == p;
    }
  }

  lemma PairsDetermined(names: Names, a: set<Mapping>, b: set<Mapping>)
    requires ValidNames(names) && Known(names, a) && Known(names, b)
    requires EncodePairs(names, a) == EncodePairs(names, b)
    ensures a == b
  {
    forall p | p in a + b ensures p in a <==> p in b {
      EncodedMember(names, a, p);
      EncodedMember(names, b, p);
    }
  }

  // ----- The set operations commute with encoding -----

  lemma EncodeUnion(names: Names, a: set<Mapping>, b: set<Mapping>)
    requires Known(names, a) && Known(names, b)
    ensures Known(names, a + b) && EncodePairs(names, a + b) == EncodePairs(names, a) + EncodePairs(names, b)
  {
  }

  lemma EncodeDifference(names: Names, a: set<Mapping>, b: set<Mapping>)
    requires ValidNames(names) && Known(names, a) && Known(names, b)
    ensures Known(names, a - b) && EncodePairs(names, a - b) == EncodePairs(names, a) - EncodePairs(names, b)
  {
    forall q | q in EncodePairs(names, a) ensures q in EncodePairs(names, a - b) <==> q !in EncodePairs(names, b) {
      var p :| p in a && q == (names.tags[p.0], names.hashes[p.1]);
      EncodedMember(names, a - b, p);
      EncodedMember(names, b, p);
    }
  }

  lemma EncodeRemoteUpdate(names: Names, t: Tables<Mapping>, a: set<Mapping>, d: set<Mapping>)
    requires ValidNames(names) && KnownTables(names, t) && Known(names, a) && Known(names, d)
    ensures KnownTables(names, RemoteUpdate(t, a, d))
    ensures EncodeTables(names, RemoteUpdate(t, a, d))
         == RemoteUpdate(EncodeTables(names, t), EncodePairs(names, a), EncodePairs(names, d))
  {
    EncodeUnion(names, t.current, a);
    EncodeDifference(names, t.current + a, d);
    EncodeDifference(names, t.deleted, a);
    EncodeUnion(names, t.deleted - a, d);
    EncodeDifference(names, t.pending, a);
    EncodeDifference(names, t.petitioned, d);
  }

  lemma EncodeStage(names: Names, t: Tables<Mapping>, a: set<Mapping>)
    requires ValidNames(names) && KnownTables(names, t) && Known(names, a)
    ensures KnownTables(names, Stage(t, a))
    ensures EncodeTables(names, Stage(t, a)) == Stage(EncodeTables(names, t), EncodePairs(names, a))
  {
    EncodeDifference(names, t.deleted, a);
    EncodeDifference(names, a, t.current);
    EncodeUnion(names, t.pending, a - t.current);
    EncodeDifference(names, t.petitioned, a);
  }

  lemma EncodeCommit(names: Names, t: Tables<Mapping>)
    requires ValidNames(names) && KnownTables(names, t)
    ensures KnownTables(names, Commit(t))
    ensures EncodeTables(names, Commit(t)) == Commit(EncodeTables(names, t))
  {
    EncodeUnion(names, t.current, t.pending);
    EncodeDifference(names, t.deleted, t.pending);
    EncodeDifference(names, t.petitioned, t.pending);
  }

  // ----- The transactions keep the representation -----

  lemma EncodePairsExtend(before: Names, after: Names, pairs: set<Mapping>)
    requires NamesExtend(before, after) && Known(before, pairs)
    ensures Known(after, pairs) && EncodePairs(after, pairs) == EncodePairs(before, pairs)
  {
    assert forall p | p in pairs :: after.tags[p.0] == before.tags[p.0] && after.hashes[p.1] == before.hashes[p.1];
  }

  lemma EncodeMapExtend(before: map<string, int>, after: map<string, int>, m: map<int, string>)
    requires Extends(before, after) && KnownValues(before, m)
    ensures KnownValues(after, m) && EncodeMap(after, m) == EncodeMap(before, m)
  {
    forall k | k in m ensures m[k] in after && after[m[k]] == before[m[k]] {
      assert m[k] in before;
    }
  }

  lemma EncodeMapAppend(idOf: map<string, int>, m: map<int, string>, more: map<int, string>)
    requires KnownValues(idOf, m) && KnownValues(idOf, more)
    ensures KnownValues(idOf, m + more)
    ensures EncodeMap(idOf, m + more) == EncodeMap(idOf, m) + EncodeMap(idOf, more)
  {
  }

  /** Interning further names, by whomever, changes nothing that is stored. */
  lemma RepresentsAfterInterning(s: Content, r: Replica, names: Names)
    requires Represents(s, r) && NamesExtend(s.names, names) && ValidNames(names)
    ensures Represents(s.(names := names), r)
  {
    EncodeMapExtend(s.names.hashes, names.hashes, r.hashes);
    EncodeMapExtend(s.names.tags, names.tags, r.tags);
    EncodePairsExtend(s.names, names, r.tables.current);
    EncodePairsExtend(s.names, names, r.tables.deleted);
    EncodePairsExtend(s.names, names, r.tables.pending);
    EncodePairsExtend(s.names, names, r.tables.petitioned);
  }

  lemma DefineNamed(s: Content, r: Replica, names: Names, hashes: map<int, string>, tags: map<int, string>)
    requires Represents(s, r) && s.names == names
    requires KnownValues(names.hashes, hashes) && KnownValues(names.tags, tags)
    ensures Represents(s.(hashMap := s.hashMap + EncodeMap(names.hashes, hashes),
                          tagMap := s.tagMap + EncodeMap(names.tags, tags)),
                       r.(hashes := r.hashes + hashes, tags := r.tags + tags))
  {
    EncodeMapAppend(names.hashes, r.hashes, hashes);
    EncodeMapAppend(names.tags, r.tags, tags);
  }

  lemma DefineRepresents(cases: CaseTable, s: Content, r: Replica, p: Payload, names: Names)
    requires Represents(s, r) && p.DefinitionsUpdate?
    requires Interned(s.names, NeededHashes(p), NeededTags(cases, p), names)
    ensures Represents(Define(cases, s, p, names), ReplayUpdate(cases, r, p))
  {
    RepresentsAfterInterning(s, r, names);
    NeededAreKnown(cases, p, names);
    DefineNamed(s.(names := names), r, names, p.hashes, TagNames(cases, p.tags));
  }

  /** A row list resolves in the store exactly when it resolves in the replica, to the same pairs. */
  lemma PairsRepresent(s: Content, r: Replica, rows: seq<MappingRow>)
    requires Represents(s, r)
    ensures Resolvable(rows, s.tagMap, s.hashMap) <==> Resolvable(rows, r.tags, r.hashes)
    ensures Known(s.names, Pairs(rows, r.tags, r.hashes))
    ensures Pairs(rows, s.tagMap, s.hashMap) == EncodePairs(s.names, Pairs(rows, r.tags, r.hashes))
  {
    assert s.tagMap.Keys == r.tags.Keys && s.hashMap.Keys == r.hashes.Keys;
    var names := Pairs(rows, r.tags, r.hashes);
    forall q | q in Pairs(rows, s.tagMap, s.hashMap) ensures q in EncodePairs(s.names, names) {
      var row, x :| row in rows && row.serviceTagId in s.tagMap && x in row.serviceHashIds && x in s.hashMap
                    && q == (s.tagMap[row.serviceTagId], s.hashMap[x]);
      assert (r.tags[row.serviceTagId], r.hashes[x]) in names;
    }
    forall q | q in EncodePairs(s.names, names) ensures q in Pairs(rows, s.tagMap, s.hashMap) {
      var p :| p in names && q == (s.names.tags[p.0], s.names.hashes[p.1]);
      var row, x :| row in rows && row.serviceTagId in r.tags && x in row.serviceHashIds && x in r.hashes
                    && p == (r.tags[row.serviceTagId], r.hashes[x]);
      assert q == (s.tagMap[row.serviceTagId], s.hashMap[x]);
    }
  }

  /** Applying an update to the store applies it to the replica. */
  lemma ApplyRepresents(cases: CaseTable, c: Content, r: Replica, p: Payload, names: Names)
    requires Represents(c, r) && Interned(c.names, NeededHashes(p), NeededTags(cases, p), names)
    ensures Represents(ApplyContent(cases, c, p, names), ReplayUpdate(cases, r, p))
  {
    if p.DefinitionsUpdate? {
      DefineRepresents(cases, c, r, p, names);
    } else {
      PairsRepresent(c, r, p.adds);
      PairsRepresent(c, r, p.deletes);
      EncodeRemoteUpdate(c.names, r.tables, Pairs(p.adds, r.tags, r.hashes), Pairs(p.deletes, r.tags, r.hashes));
    }
  }

  /** The pairs a staging request stands for, by name. */
  function StagedNames(cases: CaseTable, tags: seq<string>, hashes: seq<string>): set<Mapping> {
    set t, h | t in CleanTags(cases, tags) && h in hashes :: (t, h)
  }

  lemma StageRepresents(cases: CaseTable, s: Store, r: Replica, tags: seq<string>, hashes: seq<string>, names: Names)
    requires Represents(s.content, r) && Interned(s.content.names, {}, CleanTags(cases, tags), names)
    requires StageMappings(cases, s, tags, hashes, names).Committed?
    ensures Represents(StageMappings(cases, s, tags, hashes, names).store.content,
                       r.(tables := Stage(r.tables, StagedNames(cases, tags, hashes))))
  {
    RepresentsAfterInterning(s.content, r, names);
    var cleaned := CleanTags(cases, tags);
    var pairs := StagedNames(cases, tags, hashes);
    assert Known(names, pairs);
    EncodeStage(names, r.tables, pairs);
    var ids := StagedPairs(cleaned, hashes, names.tags, names.hashes);
    forall q | q in ids ensures q in EncodePairs(names, pairs) {
      var t, h :| t in cleaned && t in names.tags && h in hashes && h in names.hashes
                  && q == (names.tags[t], names.hashes[h]);
      assert (t, h) in pairs;
    }
    forall q | q in EncodePairs(names, pairs) ensures q in ids {
      var p :| p in pairs && q == (names.tags[p.0], names.hashes[p.1]);
    }
    assert ids == EncodePairs(names, pairs);
  }
}
