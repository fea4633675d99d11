/** What the storage and display lookups of a tag service collect for a group of files, from the caches of
    one file service or from the mapping tables, and that both give the same answer. */
module TagReads {
  import opened Interning
  import opened MappingTables
  import opened UpdateOrder
  import opened SetLoops
  import opened TagLookup

  /** One tag service: its mapping tables, the mapping caches that exist for it, by file service, and its
      sibling and ancestor lookups. */
  datatype TagService = TagService(
    mappings: Tables<Row>,
    currentCache: map<FileService, set<Row>>,
    deletedCache: map<FileService, set<Row>>,
    pendingCache: map<FileService, set<Row>>,
    displayCurrentCache: map<FileService, set<Row>>,
    displayPendingCache: map<FileService, set<Row>>,
    ideals: map<TagId, TagId>,
    ancestors: map<TagId, set<TagId>>)

  // ----- What the answer should be -----

  function TagsOf(rows: set<Row>, h: HashId): set<TagId> {
    set r | r in rows && r.1 == h :: r.0
  }

  function Ideal(svc: TagService, t: TagId): TagId {
    if t in svc.ideals then svc.ideals[t] else t
  }

  /** The ideal of a tag and all of that tag's ancestors. */
  function Implied(svc: TagService, t: TagId): set<TagId> {
    {Ideal(svc, t)} + if Ideal(svc, t) in svc.ancestors then svc.ancestors[Ideal(svc, t)] else {}
  }

  function ImpliedAll(svc: TagService, tags: set<TagId>): set<TagId> {
    set t, i | t in tags && i in Implied(svc, t) :: i
  }

  /** The stored tags of a file. */
  function Storage(svc: TagService, h: HashId): StatusSets {
    StatusSets(TagsOf(svc.mappings.current, h), TagsOf(svc.mappings.pending, h),
               TagsOf(svc.mappings.deleted, h), TagsOf(svc.mappings.petitioned, h))
  }

  /** The tags shown for a file: current and pending tags as their ideals with all ancestors. */
  function Display(svc: TagService, h: HashId): StatusSets {
    var s := Storage(svc, h);
    StatusSets(ImpliedAll(svc, s.current), ImpliedAll(svc, s.pending), s.deleted, s.petitioned)
  }

  /** A tag is shown in place of a stored one: it is the stored tag's ideal by the sibling rows, or the stored tag
      itself without such a row, or one of the ancestors of that. */
  predicate ShownFor(svc: TagService, stored: TagId, shown: TagId) {
    var i := if stored in svc.ideals then svc.ideals[stored] else stored;
    shown == i || (i in svc.ancestors && shown in svc.ancestors[i])
  }

  /** The rows of the file in the four mapping tables. */
  ghost predicate IsStored(svc: TagService, h: HashId, s: StatusSets) {
    && (forall t: TagId :: t in s.current <==> (t, h) in svc.mappings.current)
    && (forall t: TagId :: t in s.pending <==> (t, h) in svc.mappings.pending)
    && (forall t: TagId :: t in s.deleted <==> (t, h) in svc.mappings.deleted)
    && (forall t: TagId :: t in s.petitioned <==> (t, h) in svc.mappings.petitioned)
  }

  /** What some current or pending row of the file shows, and its deleted and petitioned rows as they are. */
  ghost predicate IsShown(svc: TagService, h: HashId, s: StatusSets) {
    && (forall x: TagId :: x in s.current <==> exists t :: (t, h) in svc.mappings.current && ShownFor(svc, t, x))
    && (forall x: TagId :: x in s.pending <==> exists t :: (t, h) in svc.mappings.pending && ShownFor(svc, t, x))
    && (forall t: TagId :: t in s.deleted <==> (t, h) in svc.mappings.deleted)
    && (forall t: TagId :: t in s.petitioned <==> (t, h) in svc.mappings.petitioned)
  }

  /** The answer, tag by tag. */
  lemma AnswerByRows(svc: TagService, h: HashId)
    ensures IsStored(svc, h, Storage(svc, h)) && IsShown(svc, h, Display(svc, h))
  {
    forall rows, t: TagId ensures t in TagsOf(rows, h) <==> (t, h) in rows {
      if (t, h) in rows {
        var r := (t, h);
        assert r in rows && r.1 == h;
      }
    }
    hide TagsOf;
    forall rows, x: TagId
      ensures x in ImpliedAll(svc, TagsOf(rows, h)) <==> exists t :: (t, h) in rows && ShownFor(svc, t, x)
    {
      ImpliedByRow(svc, rows, h, x);
    }
  }

  lemma ImpliedByRow(svc: TagService, rows: set<Row>, h: HashId, x: TagId)
    requires forall t: TagId :: t in TagsOf(rows, h) <==> (t, h) in rows
    ensures x in ImpliedAll(svc, TagsOf(rows, h)) <==> exists t :: (t, h) in rows && ShownFor(svc, t, x)
  {
    hide TagsOf;
    assert forall t :: x in Implied(svc, t) <==> ShownFor(svc, t, x);
    hide Implied, ShownFor;
    if x in ImpliedAll(svc, TagsOf(rows, h)) {
      var t :| t in TagsOf(rows, h) && x in Implied(svc, t);
      assert (t, h) in rows;
    }
  }

  // ----- Caches that agree with the tables -----

  predicate Holds(m: Memberships, s: FileService, h: HashId) {
    h in m.services && s in m.services[h]
  }

  function Restricted(rows: set<Row>, m: Memberships, s: FileService): set<Row> {
    set r | r in rows && Holds(m, s, r.1)
  }

  function DisplayRows(svc: TagService, rows: set<Row>, m: Memberships, s: FileService): set<Row> {
    set r, i | r in rows && Holds(m, s, r.1) && i in Implied(svc, r.0) :: (i, r.1)
  }

  /** Every cache that exists holds what it stands for. */
  predicate CachesAgree(svc: TagService, m: Memberships) {
    && (forall s | s in svc.currentCache :: svc.currentCache[s] == Restricted(svc.mappings.current, m, s))
    && (forall s | s in svc.deletedCache :: svc.deletedCache[s] == Restricted(svc.mappings.deleted, m, s))
    && (forall s | s in svc.pendingCache :: svc.pendingCache[s] == Restricted(svc.mappings.pending, m, s))
    && (forall s | s in svc.displayCurrentCache ::
          svc.displayCurrentCache[s] == DisplayRows(svc, svc.mappings.current, m, s))
    && (forall s | s in svc.displayPendingCache ::
          svc.displayPendingCache[s] == DisplayRows(svc, svc.mappings.pending, m, s))
  }

  // ----- What a lookup through one file service collects -----

  function Source(cache: map<FileService, set<Row>>, table: set<Row>, s: FileService, useFallback: bool): set<Row> {
    if !useFallback && s in cache then cache[s] else table
  }

  function StorageVia(svc: TagService, s: FileService, useFallback: bool, h: HashId): StatusSets {
    StatusSets(TagsOf(Source(svc.currentCache, svc.mappings.current, s, useFallback), h),
               TagsOf(Source(svc.pendingCache, svc.mappings.pending, s, useFallback), h),
               TagsOf(Source(svc.deletedCache, svc.mappings.deleted, s, useFallback), h),
               TagsOf(svc.mappings.petitioned, h))
  }

  /** The displayed tags under one status: those of the cache, or what the stored tags imply. */
  function StatusVia(svc: TagService, cache: map<FileService, set<Row>>, s: FileService, useFallback: bool,
                     stored: set<TagId>, h: HashId): set<TagId>
  {
    if !useFallback && s in cache then TagsOf(cache[s], h) else ImpliedAll(svc, stored)
  }

  function DisplayVia(svc: TagService, s: FileService, useFallback: bool, h: HashId): StatusSets {
    var stored := StorageVia(svc, s, useFallback, h);
    StatusSets(StatusVia(svc, svc.displayCurrentCache, s, useFallback, stored.current, h),
               StatusVia(svc, svc.displayPendingCache, s, useFallback, stored.pending, h),
               stored.deleted, stored.petitioned)
  }

  /** The rows of the file in the caches of a service, where those may be used and exist, and in the tables. */
  ghost predicate ReadVia(svc: TagService, s: FileService, useFallback: bool, h: HashId, found: StatusSets) {
    && (forall t: TagId :: t in found.current <==>
          (t, h) in if !useFallback && s in svc.currentCache then svc.currentCache[s] else svc.mappings.current)
    && (forall t: TagId :: t in found.pending <==>
          (t, h) in if !useFallback && s in svc.pendingCache then svc.pendingCache[s] else svc.mappings.pending)
    && (forall t: TagId :: t in found.deleted <==>
          (t, h) in if !useFallback && s in svc.deletedCache then svc.deletedCache[s] else svc.mappings.deleted)
    && (forall t: TagId :: t in found.petitioned <==> (t, h) in svc.mappings.petitioned)
  }

  /** The rows of the file in the display caches of a service, where those may be used and exist, and otherwise what
      its stored tags show. */
  ghost predicate ShownVia(svc: TagService, s: FileService, useFallback: bool, h: HashId, stored: StatusSets,
                           shown: StatusSets)
  {
    && (forall x: TagId :: x in shown.current <==>
          if !useFallback && s in svc.displayCurrentCache then (x, h) in svc.displayCurrentCache[s]
          else exists t :: t in stored.current && ShownFor(svc, t, x))
    && (forall x: TagId :: x in shown.pending <==>
          if !useFallback && s in svc.displayPendingCache then (x, h) in svc.displayPendingCache[s]
          else exists t :: t in stored.pending && ShownFor(svc, t, x))
    && shown.deleted == stored.deleted && shown.petitioned == stored.petitioned
  }

  lemma ReadByRows(svc: TagService, s: FileService, useFallback: bool, h: HashId)
    ensures ReadVia(svc, s, useFallback, h, StorageVia(svc, s, useFallback, h))
    ensures ShownVia(svc, s, useFallback, h, StorageVia(svc, s, useFallback, h), DisplayVia(svc, s, useFallback, h))
  {
    forall rows, t: TagId ensures t in TagsOf(rows, h) <==> (t, h) in rows {
      if (t, h) in rows {
        var r := (t, h);
        assert r in rows && r.1 == h;
      }
    }
    forall tags: set<TagId>, x: TagId
      ensures x in ImpliedAll(svc, tags) <==> exists t :: t in tags && ShownFor(svc, t, x)
    {
      ImpliedByTag(svc, tags, x);
    }
    hide TagsOf, ImpliedAll, ShownFor;
  }

  lemma ImpliedByTag(svc: TagService, tags: set<TagId>, x: TagId)
    ensures x in ImpliedAll(svc, tags) <==> exists t :: t in tags && ShownFor(svc, t, x)
  {
    assert forall t :: x in Implied(svc, t) <==> ShownFor(svc, t, x);
    hide Implied, ShownFor;
  }

  lemma RestrictedTags(rows: set<Row>, m: Memberships, s: FileService, h: HashId)
    requires Holds(m, s, h)
    ensures TagsOf(Restricted(rows, m, s), h) == TagsOf(rows, h)
  {
    var some, all := TagsOf(Restricted(rows, m, s), h), TagsOf(rows, h);
    forall t | t in all ensures t in some {
      assert (t, h) in Restricted(rows, m, s);
    }
  }

  lemma DisplayRowTags(svc: TagService, rows: set<Row>, m: Memberships, s: FileService, h: HashId)
    requires Holds(m, s, h)
    ensures TagsOf(DisplayRows(svc, rows, m, s), h) == ImpliedAll(svc, TagsOf(rows, h))
  {
    var shown, implied := TagsOf(DisplayRows(svc, rows, m, s), h), ImpliedAll(svc, TagsOf(rows, h));
    forall i | i in shown ensures i in implied {
      assert (i, h) in DisplayRows(svc, rows, m, s);
      var r, j :| r in rows && Holds(m, s, r.1) && j in Implied(svc, r.0) && (i, h) == (j, r.1);
      assert r.0 in TagsOf(rows, h);
    }
    forall i | i in implied ensures i in shown {
      var t :| t in TagsOf(rows, h) && i in Implied(svc, t);
      assert (t, h) in rows;
      assert (i, h) in DisplayRows(svc, rows, m, s);
    }
  }

  /** For a file the service holds, looking through its caches and looking at the tables give the same. */
  lemma CachedAnswerIsUncached(svc: TagService, m: Memberships, s: FileService, useFallback: bool, h: HashId)
    requires CachesAgree(svc, m) && (useFallback || Holds(m, s, h))
    ensures StorageVia(svc, s, useFallback, h) == Storage(svc, h)
    ensures DisplayVia(svc, s, useFallback, h) == Display(svc, h)
  {
    if !useFallback {
      RestrictedTags(svc.mappings.current, m, s, h);
      RestrictedTags(svc.mappings.pending, m, s, h);
      RestrictedTags(svc.mappings.deleted, m, s, h);
      DisplayRowTags(svc, svc.mappings.current, m, s, h);
      DisplayRowTags(svc, svc.mappings.pending, m, s, h);
    }
  }

  // ----- The lookups as they run -----

  function OnFiles(rows: set<Row>, hashes: set<HashId>): set<Row> {
    set r | r in rows && r.1 in hashes
  }

  /** The tags of some rows have been added to what was collected before, under one status. */
  ghost predicate Collected(before: ByHash, after: ByHash, status: Status, rows: set<Row>) {
    && (forall h :: Get(after, h) == AddAll(Get(before, h), status, TagsOf(rows, h)))
    && (forall h | h in after :: h in before || exists t :: (t, h) in rows)
  }

  lemma NothingCollected(m: ByHash, status: Status)
    ensures Collected(m, m, status, {})
  {
  }

  lemma OneMoreRow(before: ByHash, middle: ByHash, status: Status, seen: set<Row>, r: Row)
    requires Collected(before, middle, status, seen)
    ensures Collected(before, middle[r.1 := AddAll(Get(middle, r.1), status, {r.0})], status, seen + {r})
  {
    var after := middle[r.1 := AddAll(Get(middle, r.1), status, {r.0})];
    forall h ensures Get(after, h) == AddAll(Get(before, h), status, TagsOf(seen + {r}, h)) {
      MoreTags(seen, r, h);
    }
    forall h | h in after ensures h in before || exists t :: (t, h) in seen + {r} {
      if h == r.1 { assert (r.0, h) in seen + {r}; }
      else if h !in before {
        var t :| (t, h) in seen;
        assert (t, h) in seen + {r};
      }
    }
  }

  lemma MoreTags(seen: set<Row>, r: Row, h: HashId)
    ensures TagsOf(seen + {r}, h) == TagsOf(seen, h) + if h == r.1 then {r.0} else {}
  {
    forall t | t in TagsOf(seen, h) ensures t in TagsOf(seen + {r}, h) {
      assert (t, h) in seen + {r};
    }
    if h == r.1 { assert r in seen + {r}; }
  }

  method CollectTagIdsFromTable(rows: set<Row>, hashes: set<HashId>, status: Status, before: ByHash)
    returns (after: ByHash)
    ensures Collected(before, after, status, OnFiles(rows, hashes))
  {
    hide Collected, OnFiles, Splits;
    var rest := OnFiles(rows, hashes);
    ghost var seen: set<Row> := {};
    after := before;
    SplitsEnds(rest, {});
    NothingCollected(before, status);
    while rest != {}
      invariant Splits(seen, rest, OnFiles(rows, hashes))
      invariant Collected(before, after, status, seen)
      decreases |rest|
    {
      var r :| r in rest;
      SplitsMore(seen, rest, OnFiles(rows, hashes), r);
      OneMoreRow(before, after, status, seen, r);
      after := after[r.1 := AddAll(Get(after, r.1), status, {r.0})];
      seen, rest := seen + {r}, rest - {r};
    }
    SplitsEnds(OnFiles(rows, hashes), seen);
  }

  lemma SelectedTags(rows: set<Row>, hashes: set<HashId>, h: HashId)
    ensures TagsOf(OnFiles(rows, hashes), h) == if h in hashes then TagsOf(rows, h) else {}
  {
    if h in hashes {
      forall t | t in TagsOf(rows, h) ensures t in TagsOf(OnFiles(rows, hashes), h) {
        assert (t, h) in OnFiles(rows, hashes);
      }
    }
  }

  lemma CollectedAt(before: ByHash, after: ByHash, status: Status, rows: set<Row>, hashes: set<HashId>, h: HashId)
    requires Collected(before, after, status, OnFiles(rows, hashes)) && h in hashes
    ensures Get(after, h) == AddAll(Get(before, h), status, TagsOf(rows, h))
  {
    SelectedTags(rows, hashes, h);
  }

  lemma CollectedKeys(before: ByHash, after: ByHash, status: Status, rows: set<Row>, hashes: set<HashId>)
    requires Collected(before, after, status, OnFiles(rows, hashes)) && before.Keys <= hashes
    ensures after.Keys <= hashes
  {
  }

  method LookupStorage(svc: TagService, group: set<HashId>, s: FileService, useFallback: bool) returns (result: ByHash)
    ensures result.Keys <= group
    ensures forall h | h in group :: Get(result, h) == StorageVia(svc, s, useFallback, h)
    ensures forall h | h in group :: ReadVia(svc, s, useFallback, h, Get(result, h))
  {
    hide Collected, TagsOf, ReadVia;
    var current := if !useFallback && s in svc.currentCache then svc.currentCache[s] else svc.mappings.current;
    var deleted := if !useFallback && s in svc.deletedCache then svc.deletedCache[s] else svc.mappings.deleted;
    var pending := if !useFallback && s in svc.pendingCache then svc.pendingCache[s] else svc.mappings.pending;
    var a := CollectTagIdsFromTable(current, group, Current, map[]);
    var b := CollectTagIdsFromTable(deleted, group, Deleted, a);
    var c := CollectTagIdsFromTable(pending, group, Pending, b);
    result := CollectTagIdsFromTable(svc.mappings.petitioned, group, Petitioned, c);
    CollectedKeys(map[], a, Current, current, group);
    CollectedKeys(a, b, Deleted, deleted, group);
    CollectedKeys(b, c, Pending, pending, group);
    CollectedKeys(c, result, Petitioned, svc.mappings.petitioned, group);
    forall h | h in group ensures Get(result, h) == StorageVia(svc, s, useFallback, h) {
      CollectedAt(map[], a, Current, current, group, h);
      CollectedAt(a, b, Deleted, deleted, group, h);
      CollectedAt(b, c, Pending, pending, group, h);
      CollectedAt(c, result, Petitioned, svc.mappings.petitioned, group, h);
    }
    AllReadByRows(svc, group, s, useFallback, result);
  }

  lemma AllReadByRows(svc: TagService, group: set<HashId>, s: FileService, useFallback: bool, result: ByHash)
    requires forall h | h in group :: Get(result, h) == StorageVia(svc, s, useFallback, h)
    ensures forall h | h in group :: ReadVia(svc, s, useFallback, h, Get(result, h))
  {
    hide ReadVia, StorageVia;
    forall h | h in group ensures ReadVia(svc, s, useFallback, h, Get(result, h)) {
      ReadByRows(svc, s, useFallback, h);
    }
  }

  // ----- Display tags -----

  /** The ideal of each of some tags: every tag starts as its own ideal, and the sibling rows override that. */
  method LookupIdeals(svc: TagService, tags: set<TagId>) returns (ideals: map<TagId, TagId>)
    ensures ideals.Keys == tags && forall t | t in tags :: ideals[t] == Ideal(svc, t)
  {
    ideals := map t | t in tags :: t;
    var bad := svc.ideals.Keys * tags;
    hide Ideal, IdealsBut;
    NoIdealsYet(svc, tags);
    while bad != {}
      invariant IdealsBut(svc, tags, bad, ideals)
      decreases |bad|
    {
      var t :| t in bad;
      MoreIdeals(svc, tags, bad, ideals, t);
      ideals := ideals[t := svc.ideals[t]];
      bad := bad - {t};
    }
    AllIdeals(svc, tags, ideals);
  }

  /** Every tag has its ideal, except for the bad ones that still stand for themselves. */
  predicate IdealsBut(svc: TagService, tags: set<TagId>, bad: set<TagId>, ideals: map<TagId, TagId>) {
    && bad <= svc.ideals.Keys * tags && ideals.Keys == tags
    && forall t | t in tags :: ideals[t] == if t in bad then t else Ideal(svc, t)
  }

  lemma NoIdealsYet(svc: TagService, tags: set<TagId>)
    ensures IdealsBut(svc, tags, svc.ideals.Keys * tags, map t | t in tags :: t)
  {
  }

  lemma MoreIdeals(svc: TagService, tags: set<TagId>, bad: set<TagId>, ideals: map<TagId, TagId>, t: TagId)
    requires IdealsBut(svc, tags, bad, ideals) && t in bad
    ensures t in svc.ideals && IdealsBut(svc, tags, bad - {t}, ideals[t := svc.ideals[t]])
  {
  }

  lemma AllIdeals(svc: TagService, tags: set<TagId>, ideals: map<TagId, TagId>)
    requires IdealsBut(svc, tags, {}, ideals)
    ensures ideals.Keys == tags && forall t | t in tags :: ideals[t] == Ideal(svc, t)
  {
  }

  predicate ImpliedFor(svc: TagService, implied: map<TagId, set<TagId>>, tags: set<TagId>) {
    implied.Keys == tags && forall t | t in tags :: implied[t] == Implied(svc, t)
  }

  lemma ImpliedForMore(svc: TagService, implied: map<TagId, set<TagId>>, tags: set<TagId>, t: TagId)
    requires ImpliedFor(svc, implied, tags)
    ensures ImpliedFor(svc, implied[t := Implied(svc, t)], tags + {t})
    ensures ImpliedFor(svc, map[], {})
  {
    hide Implied;
  }

  lemma ImpliedIsShown(svc: TagService, implied: map<TagId, set<TagId>>, tags: set<TagId>)
    requires ImpliedFor(svc, implied, tags)
    ensures implied.Keys == tags && forall t, x | t in tags :: x in implied[t] <==> ShownFor(svc, t, x)
  {
  }

  /** The implied tags of each of some tags: its ideal and the ancestors of that. */
  method LookupDisplayImplications(svc: TagService, tags: set<TagId>) returns (implied: map<TagId, set<TagId>>)
    ensures ImpliedFor(svc, implied, tags)
    ensures implied.Keys == tags && forall t, x | t in tags :: x in implied[t] <==> ShownFor(svc, t, x)
  {
    var ideals := LookupIdeals(svc, tags);
    implied := map[];
    var rest := tags;
    ghost var seen: set<TagId> := {};
    SplitsEnds(tags, {});
    assert ImpliedFor(svc, implied, seen);
    hide Ideal, Splits, ImpliedFor;
    while rest != {}
      invariant Splits(seen, rest, tags) && ImpliedFor(svc, implied, seen)
      decreases |rest|
    {
      var t :| t in rest;
      SplitsMore(seen, rest, tags, t);
      ImpliedForMore(svc, implied, seen, t);
      var ancestors := if ideals[t] in svc.ancestors then svc.ancestors[ideals[t]] else {};
      implied := implied[t := {ideals[t]} + ancestors];
      seen, rest := seen + {t}, rest - {t};
    }
    SplitsEnds(tags, seen);
    ImpliedIsShown(svc, implied, tags);
  }

  function TagsUnder(s: StatusSets, status: Status): set<TagId> {
    match status
    case Current => s.current
    case Pending => s.pending
    case Deleted => s.deleted
    case Petitioned => s.petitioned
  }

  /** All tags stored under one status. */
  function AllTags(storage: ByHash, status: Status): set<TagId> {
    set h, t | h in storage && t in TagsUnder(storage[h], status) :: t
  }

  /** The implied tags of what is stored under a status are added to what is displayed. */
  ghost predicate Displayed(svc: TagService, storage: ByHash, status: Status, before: ByHash, after: ByHash,
                            done: set<HashId>)
  {
    && (forall h :: Get(after, h) == AddAll(Get(before, h), status,
                                            if h in done then ImpliedAll(svc, TagsUnder(Get(storage, h), status))
                                            else {}))
    && after.Keys <= before.Keys + storage.Keys
  }

  method AddImpliedTags(svc: TagService, implied: map<TagId, set<TagId>>, ghost known: set<TagId>, tags: set<TagId>)
    returns (all: set<TagId>)
    requires ImpliedFor(svc, implied, known) && tags <= known
    ensures all == ImpliedAll(svc, tags)
  {
    all := {};
    var rest := tags;
    ghost var seen: set<TagId> := {};
    SplitsEnds(tags, {});
    while rest != {}
      invariant Splits(seen, rest, tags) && all == ImpliedAll(svc, seen)
      decreases |rest|
    {
      var t :| t in rest;
      SplitsMore(seen, rest, tags, t);
      all := all + implied[t];
      ImpliedMore(svc, seen, t);
      seen, rest := seen + {t}, rest - {t};
    }
    SplitsEnds(tags, seen);
  }

  lemma ImpliedMore(svc: TagService, tags: set<TagId>, t: TagId)
    ensures ImpliedAll(svc, tags + {t}) == ImpliedAll(svc, tags) + Implied(svc, t)
  {
    hide Implied;
    assert t in tags + {t};
    forall i | i in ImpliedAll(svc, tags) ensures i in ImpliedAll(svc, tags + {t}) {
      var u :| u in tags && i in Implied(svc, u);
      assert u in tags + {t};
    }
  }

  lemma NothingDisplayed(svc: TagService, storage: ByHash, status: Status, before: ByHash)
    ensures Displayed(svc, storage, status, before, before, {})
  {
  }

  lemma DisplayedMore(svc: TagService, storage: ByHash, status: Status, before: ByHash, after: ByHash,
                      seen: set<HashId>, h: HashId)
    requires Displayed(svc, storage, status, before, after, seen) && h in storage && h !in seen
    ensures var all := ImpliedAll(svc, TagsUnder(storage[h], status));
            && Displayed(svc, storage, status, before, after[h := AddAll(Get(after, h), status, all)], seen + {h})
            && (all == {} ==> Displayed(svc, storage, status, before, after, seen + {h}))
  {
    hide ImpliedAll;
  }

  lemma TagsAreListed(storage: ByHash, status: Status, h: HashId)
    requires h in storage
    ensures TagsUnder(storage[h], status) <= AllTags(storage, status)
  {
  }

  method AddDisplayImplications(svc: TagService, storage: ByHash, status: Status, before: ByHash)
    returns (after: ByHash)
    ensures Displayed(svc, storage, status, before, after, storage.Keys)
  {
    hide Displayed, Splits, ImpliedAll, Implied, AllTags, AddAll, TagsUnder;
    var implied := LookupDisplayImplications(svc, AllTags(storage, status));
    after := before;
    var rest := storage.Keys;
    ghost var seen: set<HashId> := {};
    SplitsEnds(rest, {});
    NothingDisplayed(svc, storage, status, before);
    while rest != {}
      invariant Splits(seen, rest, storage.Keys)
      invariant Displayed(svc, storage, status, before, after, seen)
      decreases |rest|
    {
      var h :| h in rest;
      SplitsMore(seen, rest, storage.Keys, h);
      TagsAreListed(storage, status, h);
      var all := AddImpliedTags(svc, implied, AllTags(storage, status), TagsUnder(storage[h], status));
      DisplayedMore(svc, storage, status, before, after, seen, h);
      if all != {} {
        after := after[h := AddAll(Get(after, h), status, all)];
      }
      seen, rest := seen + {h}, rest - {h};
    }
    SplitsEnds(storage.Keys, seen);
  }

  lemma DisplayedAt(svc: TagService, storage: ByHash, status: Status, before: ByHash, after: ByHash, h: HashId)
    requires Displayed(svc, storage, status, before, after, storage.Keys)
    ensures Get(after, h) == AddAll(Get(before, h), status, ImpliedAll(svc, TagsUnder(Get(storage, h), status)))
    ensures after.Keys <= before.Keys + storage.Keys
  {
    if h !in storage {
      assert TagsUnder(NO_TAGS, status) == {};
      assert ImpliedAll(svc, {}) == {};
    }
  }

  lemma DisplayedKeys(svc: TagService, storage: ByHash, status: Status, before: ByHash, after: ByHash)
    requires Displayed(svc, storage, status, before, after, storage.Keys)
    ensures after.Keys <= before.Keys + storage.Keys
  {
  }

  /** The deleted and petitioned tags of some files have been added to what is displayed. */
  ghost predicate Copied(storage: ByHash, before: ByHash, after: ByHash, done: set<HashId>) {
    && (forall h :: Get(after, h) == if h in done then WithStored(Get(before, h), Get(storage, h)) else Get(before, h))
    && after.Keys <= before.Keys + storage.Keys
  }

  function WithStored(s: StatusSets, stored: StatusSets): StatusSets {
    AddAll(AddAll(s, Deleted, stored.deleted), Petitioned, stored.petitioned)
  }

  lemma CopiedMore(storage: ByHash, before: ByHash, after: ByHash, done: set<HashId>, h: HashId)
    requires Copied(storage, before, after, done) && h in storage && h !in done
    ensures Copied(storage, before, after[h := WithStored(Get(after, h), storage[h])], done + {h})
  {
    hide WithStored;
  }

  lemma NothingCopied(storage: ByHash, before: ByHash)
    ensures Copied(storage, before, before, {})
  {
  }

  /** Deleted and petitioned tags are displayed as they are stored. */
  method CopyStored(storage: ByHash, before: ByHash) returns (after: ByHash)
    ensures Copied(storage, before, after, storage.Keys)
  {
    hide Copied, Splits, AddAll;
    after := before;
    var rest := storage.Keys;
    ghost var seen: set<HashId> := {};
    SplitsEnds(rest, {});
    NothingCopied(storage, before);
    while rest != {}
      invariant Splits(seen, rest, storage.Keys) && Copied(storage, before, after, seen)
      decreases |rest|
    {
      var h :| h in rest;
      SplitsMore(seen, rest, storage.Keys, h);
      CopiedMore(storage, before, after, seen, h);
      after := after[h := AddAll(AddAll(Get(after, h), Deleted, storage[h].deleted), Petitioned,
                                 storage[h].petitioned)];
      seen, rest := seen + {h}, rest - {h};
    }
    SplitsEnds(storage.Keys, seen);
  }

  lemma CopiedAt(storage: ByHash, before: ByHash, after: ByHash, h: HashId)
    requires Copied(storage, before, after, storage.Keys)
    ensures Get(after, h) == WithStored(Get(before, h), Get(storage, h))
  {
    assert h !in storage ==> WithStored(Get(before, h), NO_TAGS) == Get(before, h);
  }

  lemma CopiedKeys(storage: ByHash, before: ByHash, after: ByHash)
    requires Copied(storage, before, after, storage.Keys)
    ensures after.Keys <= before.Keys + storage.Keys
  {
  }

  /** The part of a display lookup for one status: the rows of the cache when it may be used and exists, and
      otherwise what the stored tags imply. */
  method DisplayStatus(svc: TagService, group: set<HashId>, s: FileService, useFallback: bool, storage: ByHash,
                       cache: map<FileService, set<Row>>, status: Status, before: ByHash) returns (after: ByHash)
    requires storage.Keys <= group && before.Keys <= group
    ensures after.Keys <= group
    ensures forall h | h in group ::
              Get(after, h) == AddAll(Get(before, h), status,
                                      StatusVia(svc, cache, s, useFallback, TagsUnder(Get(storage, h), status), h))
  {
    hide Collected, Displayed, ImpliedAll, TagsOf;
    if !useFallback && s in cache {
      after := CollectTagIdsFromTable(cache[s], group, status, before);
      CollectedKeys(before, after, status, cache[s], group);
      forall h | h in group ensures Get(after, h) == AddAll(Get(before, h), status, TagsOf(cache[s], h)) {
        CollectedAt(before, after, status, cache[s], group, h);
      }
    } else {
      after := AddDisplayImplications(svc, storage, status, before);
      DisplayedKeys(svc, storage, status, before, after);
      forall h
        ensures Get(after, h) == AddAll(Get(before, h), status, ImpliedAll(svc, TagsUnder(Get(storage, h), status)))
      {
        DisplayedAt(svc, storage, status, before, after, h);
      }
    }
  }

  method LookupDisplay(svc: TagService, group: set<HashId>, s: FileService, useFallback: bool, storage: ByHash)
    returns (result: ByHash)
    requires storage.Keys <= group
    requires forall h | h in group :: Get(storage, h) == StorageVia(svc, s, useFallback, h)
    ensures result.Keys <= group
    ensures forall h | h in group :: Get(result, h) == DisplayVia(svc, s, useFallback, h)
    ensures forall h | h in group :: ShownVia(svc, s, useFallback, h, Get(storage, h), Get(result, h))
  {
    forall h ensures ShownVia(svc, s, useFallback, h, StorageVia(svc, s, useFallback, h),
                              DisplayVia(svc, s, useFallback, h))
    {
      ReadByRows(svc, s, useFallback, h);
    }
    hide ShownVia, StatusVia, StorageVia, Copied, WithStored, AddAll, DisplayVia, TagsUnder;
    var a := DisplayStatus(svc, group, s, useFallback, storage, svc.displayCurrentCache, Current, map[]);
    var b := DisplayStatus(svc, group, s, useFallback, storage, svc.displayPendingCache, Pending, a);
    result := CopyStored(storage, b);
    CopiedKeys(storage, b, result);
    forall h | h in group ensures Get(result, h) == DisplayVia(svc, s, useFallback, h) {
      CopiedAt(storage, b, result, h);
      DisplayOfParts(svc, s, useFallback, h);
    }
  }

  /** What is shown for a file, one status added after the other. */
  lemma DisplayOfParts(svc: TagService, s: FileService, useFallback: bool, h: HashId)
    ensures var stored := StorageVia(svc, s, useFallback, h);
            var current := AddAll(NO_TAGS, Current,
                                  StatusVia(svc, svc.displayCurrentCache, s, useFallback, TagsUnder(stored, Current),
                                            h));
            var both := AddAll(current, Pending,
                               StatusVia(svc, svc.displayPendingCache, s, useFallback, TagsUnder(stored, Pending), h));
            WithStored(both, stored) == DisplayVia(svc, s, useFallback, h)
  {
    hide StatusVia, StorageVia;
  }

  // ----- The whole request -----

  /** One lookup: a tag service and the group of files of one file service. */
  datatype Job = Job(service: nat, files: FileService)

  /** The service id files without a cached service are filed under. */
  function FallbackOf(combined: Option<FileService>): FileService {
    if combined.Some? then combined.value else FileService(0)
  }

  function UsesTables(combined: Option<FileService>, s: FileService): bool {
    combined.None? || s == combined.value
  }

  function MergeAll(a: ByHash, b: ByHash): ByHash {
    map h | h in a.Keys + b.Keys :: Merge(Get(a, h), Get(b, h))
  }

  lemma MergedAt(a: ByHash, b: ByHash, h: HashId)
    ensures Get(MergeAll(a, b), h) == Merge(Get(a, h), Get(b, h))
  {
    hide Merge;
    MergeNothing(Get(a, h));
    MergeNothing(Get(b, h));
  }

  lemma MergeNothing(a: StatusSets)
    ensures Merge(a, NO_TAGS) == a && Merge(NO_TAGS, a) == a
  {
  }

  /** The jobs done so far have been answered, as the tables would answer them. */
  predicate Answered(services: seq<TagService>, m: Memberships, requested: set<HashId>, fallback: FileService,
                     done: set<Job>, storage: seq<ByHash>, display: seq<ByHash>)
  {
    && |storage| == |services| && |display| == |services|
    && forall i, h | 0 <= i < |services| && h in requested ::
         AnsweredFor(services[i], h, Job(i, GroupOf(m, requested, fallback, h)) in done, storage[i], display[i])
  }

  predicate AnsweredFor(svc: TagService, h: HashId, answered: bool, storage: ByHash, display: ByHash) {
    && Get(storage, h) == (if answered then Storage(svc, h) else NO_TAGS)
    && Get(display, h) == (if answered then Display(svc, h) else NO_TAGS)
  }

  /** A file is looked up through the tables, or through a service that holds it. */
  lemma GroupHolds(m: Memberships, requested: set<HashId>, combined: Option<FileService>, h: HashId)
    requires FallbackOf(combined) !in m.cached
    ensures var s := GroupOf(m, requested, FallbackOf(combined), h); UsesTables(combined, s) || Holds(m, s, h)
  {
    if CachedHolders(m, h) != {} {
      PreferencesExist(m, requested, h);
      var s :| s in CachedHolders(m, h) && Least(Preferences(m, requested, h)) == Preference(m, requested, s);
    }
  }

  method RunJob(svc: TagService, ghost m: Memberships, ghost requested: set<HashId>, combined: Option<FileService>,
                s: FileService, group: set<HashId>)
    returns (storage: ByHash, display: ByHash)
    requires CachesAgree(svc, m) && FallbackOf(combined) !in m.cached
    requires group == Group(m, requested, FallbackOf(combined), s)
    ensures storage.Keys <= group && display.Keys <= group
    ensures forall h | h in group :: AnsweredFor(svc, h, true, storage, display)
  {
    hide CachesAgree, StorageVia, DisplayVia, GroupOf, Storage, Display;
    var useCombinedFallback := UsesTables(combined, s);
    storage := LookupStorage(svc, group, s, useCombinedFallback);
    display := LookupDisplay(svc, group, s, useCombinedFallback, storage);
    forall h | h in group ensures AnsweredFor(svc, h, true, storage, display) {
      GroupHolds(m, requested, combined, h);
      CachedAnswerIsUncached(svc, m, s, useCombinedFallback, h);
    }
  }

  lemma MergeJob(services: seq<TagService>, m: Memberships, requested: set<HashId>, fallback: FileService,
                 done: set<Job>,
                 storage: seq<ByHash>, display: seq<ByHash>, job: Job, s: ByHash, d: ByHash)
    requires Answered(services, m, requested, fallback, done, storage, display)
    requires job.service < |services| && job !in done
    requires var group := Group(m, requested, fallback, job.files);
             && s.Keys <= group && d.Keys <= group
             && forall h | h in group :: AnsweredFor(services[job.service], h, true, s, d)
    ensures var i := job.service;
            Answered(services, m, requested, fallback, done + {job},
                     storage[i := MergeAll(storage[i], s)], display[i := MergeAll(display[i], d)])
  {
    hide GroupOf, Storage, Display;
    var k := job.service;
    var storageAfter, displayAfter := storage[k := MergeAll(storage[k], s)], display[k := MergeAll(display[k], d)];
    forall i, h | 0 <= i < |services| && h in requested
      ensures AnsweredFor(services[i], h, Job(i, GroupOf(m, requested, fallback, h)) in done + {job},
                          storageAfter[i], displayAfter[i])
    {
      assert AnsweredFor(services[i], h, Job(i, GroupOf(m, requested, fallback, h)) in done, storage[i], display[i]);
      if i == k {
        MergedAt(storage[k], s, h);
        MergedAt(display[k], d, h);
        MergeNothing(Get(storage[k], h));
        MergeNothing(Get(display[k], h));
        MergeNothing(Get(s, h));
        MergeNothing(Get(d, h));
        if h in Group(m, requested, fallback, job.files) {
          assert AnsweredFor(services[k], h, true, s, d);
        } else {
          assert Get(s, h) == NO_TAGS && Get(d, h) == NO_TAGS;
        }
      }
    }
  }

  /** The jobs, one for each tag service and each group. */
  function Jobs(n: nat, groups: map<FileService, set<HashId>>): set<Job> {
    set i: nat, s | i < n && s in groups :: Job(i, s)
  }

  /** Runs one job for each tag service and each group, in any order, and merges what they find. */
  method RunJobs(services: seq<TagService>, m: Memberships, requested: set<HashId>, combined: Option<FileService>,
                 groups: map<FileService, set<HashId>>)
    returns (storage: seq<ByHash>, display: seq<ByHash>)
    requires FallbackOf(combined) !in m.cached && groups == Groups(m, requested, FallbackOf(combined))
    requires forall i | 0 <= i < |services| :: CachesAgree(services[i], m)
    ensures Answered(services, m, requested, FallbackOf(combined), Jobs(|services|, groups), storage, display)
  {
    var fallback := FallbackOf(combined);
    storage := seq(|services|, i => map[]);
    display := seq(|services|, i => map[]);
    var rest := Jobs(|services|, groups);
    ghost var done: set<Job> := {};
    SplitsEnds(rest, {});
    assert Answered(services, m, requested, fallback, done, storage, display);
    hide Answered, Splits, CachesAgree;
    while rest != {}
      invariant Splits(done, rest, Jobs(|services|, groups))
      invariant |storage| == |services| && |display| == |services|
      invariant Answered(services, m, requested, fallback, done, storage, display)
      decreases |rest|
    {
      var job :| job in rest;
      SplitsMore(done, rest, Jobs(|services|, groups), job);
      var i := job.service;
      var s, d := RunJob(services[i], m, requested, combined, job.files, groups[job.files]);
      MergeJob(services, m, requested, fallback, done, storage, display, job, s, d);
      storage, display := storage[i := MergeAll(storage[i], s)], display[i := MergeAll(display[i], d)];
      done, rest := done + {job}, rest - {job};
    }
    SplitsEnds(Jobs(|services|, groups), done);
  }

  /** Cohort independence: whatever other files are asked for, whichever caches exist and in whichever order
      the workers finish, the tags of a file are those its rows in the mapping tables give. */
  method LookupFileTags(services: seq<TagService>, m: Memberships, requested: set<HashId>,
                        combined: Option<FileService>)
    returns (storage: seq<ByHash>, display: seq<ByHash>)
    requires FallbackOf(combined) !in m.cached
    requires forall i | 0 <= i < |services| :: CachesAgree(services[i], m)
    ensures |storage| == |services| && |display| == |services|
    ensures forall i, h | 0 <= i < |services| && h in requested ::
              Get(storage[i], h) == Storage(services[i], h) && Get(display[i], h) == Display(services[i], h)
    ensures forall i, h | 0 <= i < |services| && h in requested ::
              IsStored(services[i], h, Get(storage[i], h)) && IsShown(services[i], h, Get(display[i], h))
  {
    hide CachesAgree, Storage, Display, IsStored, IsShown, IsGrouping, Jobs, Groups, AnsweredFor;
    var fallback := FallbackOf(combined);
    var groups := GroupHashIdsByTagCachedFileServiceId(m, requested, fallback);
    storage, display := RunJobs(services, m, requested, combined, groups);
    AllAnswered(services, m, requested, fallback, storage, display);
    AnswersByRows(services, requested, storage, display);
  }

  lemma AnswersByRows(services: seq<TagService>, requested: set<HashId>, storage: seq<ByHash>, display: seq<ByHash>)
    requires |storage| == |services| && |display| == |services|
    requires forall i, h | 0 <= i < |services| && h in requested ::
               Get(storage[i], h) == Storage(services[i], h) && Get(display[i], h) == Display(services[i], h)
    ensures forall i, h | 0 <= i < |services| && h in requested ::
              IsStored(services[i], h, Get(storage[i], h)) && IsShown(services[i], h, Get(display[i], h))
  {
    hide Storage, Display, IsStored, IsShown;
    forall i, h | 0 <= i < |services| && h in requested
      ensures IsStored(services[i], h, Get(storage[i], h)) && IsShown(services[i], h, Get(display[i], h))
    {
      AnswerByRows(services[i], h);
    }
  }

  lemma AllAnswered(services: seq<TagService>, m: Memberships, requested: set<HashId>, fallback: FileService,
                    storage: seq<ByHash>, display: seq<ByHash>)
    requires Answered(services, m, requested, fallback, Jobs(|services|, Groups(m, requested, fallback)),
                      storage, display)
    ensures forall i, h | 0 <= i < |services| && h in requested ::
              Get(storage[i], h) == Storage(services[i], h) && Get(display[i], h) == Display(services[i], h)
  {
    hide GroupOf, Storage, Display;
    forall i, h | 0 <= i < |services| && h in requested
      ensures Get(storage[i], h) == Storage(services[i], h) && Get(display[i], h) == Display(services[i], h)
    {
      var s := GroupOf(m, requested, fallback, h);
      assert s in Groups(m, requested, fallback);
      assert Job(i, s) in Jobs(|services|, Groups(m, requested, fallback));
      assert AnsweredFor(services[i], h, true, storage[i], display[i]);
    }
  }
}
