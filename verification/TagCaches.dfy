/** Adding tags locally: the mapping tables and the specific mapping caches are written together.  The
    current, pending and display-current caches keep agreeing with the tables; the deleted and the
    display-pending caches do so under a condition that can fail. */
module TagCaches {
  import opened MappingTables
  import opened SetLoops
  import opened TagLookup
  import opened TagReads

  type Caches = map<FileService, set<Row>>

  function PlusHeld(cache: Caches, m: Memberships, pairs: set<Row>): Caches {
    map s | s in cache :: cache[s] + Restricted(pairs, m, s)
  }

  function MinusHeld(cache: Caches, m: Memberships, pairs: set<Row>): Caches {
    map s | s in cache :: cache[s] - Restricted(pairs, m, s)
  }

  function PlusShown(svc: TagService, cache: Caches, m: Memberships, pairs: set<Row>): Caches {
    map s | s in cache :: cache[s] + DisplayRows(svc, pairs, m, s)
  }

  function MinusShown(svc: TagService, cache: Caches, m: Memberships, pairs: set<Row>): Caches {
    map s | s in cache :: cache[s] - DisplayRows(svc, pairs, m, s)
  }

  /** The tables and caches of a service after some pairs have been added. */
  function Added(svc: TagService, m: Memberships, pairs: set<Row>): TagService {
    svc.(mappings := LocalAdd(svc.mappings, pairs),
         currentCache := PlusHeld(svc.currentCache, m, pairs),
         pendingCache := MinusHeld(svc.pendingCache, m, pairs),
         displayCurrentCache := PlusShown(svc, svc.displayCurrentCache, m, pairs),
         displayPendingCache := MinusShown(svc, svc.displayPendingCache, m, pairs))
  }

  /** Caches exist only for services of a kind that has caches. */
  predicate CachesOnlyFor(svc: TagService, m: Memberships) {
    && svc.currentCache.Keys <= m.cached && svc.pendingCache.Keys <= m.cached
    && svc.displayCurrentCache.Keys <= m.cached && svc.displayPendingCache.Keys <= m.cached
  }

  // ----- Which caches still agree -----

  predicate CurrentAgrees(svc: TagService, m: Memberships) {
    forall s | s in svc.currentCache :: svc.currentCache[s] == Restricted(svc.mappings.current, m, s)
  }

  predicate PendingAgrees(svc: TagService, m: Memberships) {
    forall s | s in svc.pendingCache :: svc.pendingCache[s] == Restricted(svc.mappings.pending, m, s)
  }

  predicate DeletedAgrees(svc: TagService, m: Memberships) {
    forall s | s in svc.deletedCache :: svc.deletedCache[s] == Restricted(svc.mappings.deleted, m, s)
  }

  predicate DisplayCurrentAgrees(svc: TagService, m: Memberships) {
    forall s | s in svc.displayCurrentCache ::
      svc.displayCurrentCache[s] == DisplayRows(svc, svc.mappings.current, m, s)
  }

  predicate DisplayPendingAgrees(svc: TagService, m: Memberships) {
    forall s | s in svc.displayPendingCache ::
      svc.displayPendingCache[s] == DisplayRows(svc, svc.mappings.pending, m, s)
  }

  lemma DisplayRowsUnion(svc: TagService, after: TagService, a: set<Row>, b: set<Row>, m: Memberships, s: FileService)
    requires after.ideals == svc.ideals && after.ancestors == svc.ancestors
    ensures DisplayRows(after, a + b, m, s) == DisplayRows(svc, a, m, s) + DisplayRows(svc, b, m, s)
  {
    forall t ensures Implied(after, t) == Implied(svc, t) {}
    hide Implied, Holds;
    forall x | x in DisplayRows(svc, a, m, s) + DisplayRows(svc, b, m, s) ensures x in DisplayRows(after, a + b, m, s) {
      var r, i :| r in a + b && Holds(m, s, r.1) && i in Implied(svc, r.0) && x == (i, r.1);
    }
  }

  /** Adding pairs keeps the current, pending and display-current caches of every file service in agreement
      with the tables. */
  lemma AddKeepsAgreement(svc: TagService, m: Memberships, pairs: set<Row>)
    requires CurrentAgrees(svc, m) && PendingAgrees(svc, m) && DisplayCurrentAgrees(svc, m)
    ensures var after := Added(svc, m, pairs);
            CurrentAgrees(after, m) && PendingAgrees(after, m) && DisplayCurrentAgrees(after, m)
  {
    var after := Added(svc, m, pairs);
    hide Implied, Holds;
    forall s | s in after.displayCurrentCache
      ensures after.displayCurrentCache[s] == DisplayRows(after, after.mappings.current, m, s)
    {
      DisplayRowsUnion(svc, after, svc.mappings.current, pairs, m, s);
    }
  }

  /** The deleted cache is not written: it stays in agreement exactly when no added pair of a file that a
      cached service holds had been deleted. */
  lemma DeletedCacheAgreesIff(svc: TagService, m: Memberships, pairs: set<Row>)
    requires DeletedAgrees(svc, m)
    ensures DeletedAgrees(Added(svc, m, pairs), m)
       <==> forall s, p | s in svc.deletedCache && p in pairs && Holds(m, s, p.1) :: p !in svc.mappings.deleted
  {
    var after := Added(svc, m, pairs);
    hide Holds;
    if DeletedAgrees(after, m) {
      forall s, p | s in svc.deletedCache && p in pairs && Holds(m, s, p.1) ensures p !in svc.mappings.deleted {
        assert p !in Restricted(after.mappings.deleted, m, s);
        assert svc.deletedCache[s] == after.deletedCache[s] == Restricted(after.mappings.deleted, m, s);
      }
    }
  }

  /** Some pair that stays pending implies, on the same file, a tag an added pair implies. */
  predicate SharesImplication(svc: TagService, m: Memberships, pairs: set<Row>, s: FileService) {
    exists p, q | p in pairs && q in svc.mappings.pending - pairs ::
      p.1 == q.1 && Holds(m, s, q.1) && Implied(svc, p.0) * Implied(svc, q.0) != {}
  }

  /** The display-pending cache loses every implication of the added tags: it stays in agreement exactly when
      no tag that stays pending on the same file shares one of them. */
  lemma DisplayPendingAgreesIff(svc: TagService, m: Memberships, pairs: set<Row>)
    requires DisplayPendingAgrees(svc, m)
    ensures DisplayPendingAgrees(Added(svc, m, pairs), m)
       <==> forall s | s in svc.displayPendingCache :: !SharesImplication(svc, m, pairs, s)
  {
    var after := Added(svc, m, pairs);
    forall s | s in svc.displayPendingCache
      ensures after.displayPendingCache[s] == DisplayRows(after, after.mappings.pending, m, s)
         <==> !SharesImplication(svc, m, pairs, s)
    {
      DisplayPendingOf(svc, m, pairs, s);
    }
  }

  /** A displayed row that both an added pair and a pair that stays pending give is a shared implication. */
  lemma SharedRow(svc: TagService, m: Memberships, pairs: set<Row>, s: FileService, x: Row)
    requires x in DisplayRows(svc, svc.mappings.pending - pairs, m, s) && x in DisplayRows(svc, pairs, m, s)
    ensures SharesImplication(svc, m, pairs, s)
  {
    var q, i :| q in svc.mappings.pending - pairs && Holds(m, s, q.1) && i in Implied(svc, q.0) && x == (i, q.1);
    var p, j :| p in pairs && Holds(m, s, p.1) && j in Implied(svc, p.0) && x == (j, p.1);
    assert i in Implied(svc, p.0) * Implied(svc, q.0);
  }

  lemma DisplayPendingOf(svc: TagService, m: Memberships, pairs: set<Row>, s: FileService)
    ensures DisplayRows(svc, svc.mappings.pending, m, s) - DisplayRows(svc, pairs, m, s)
         == DisplayRows(Added(svc, m, pairs), svc.mappings.pending - pairs, m, s)
       <==> !SharesImplication(svc, m, pairs, s)
  {
    var rest := svc.mappings.pending - pairs;
    var kept, added := DisplayRows(svc, rest, m, s), DisplayRows(svc, pairs, m, s);
    DisplayRowsUnion(svc, Added(svc, m, pairs), rest, {}, m, s);
    assert rest + {} == rest && DisplayRows(svc, {}, m, s) == {};
    DisplayRowsUnion(svc, svc, rest, pairs, m, s);
    DisplayRowsUnion(svc, svc, svc.mappings.pending, pairs, m, s);
    assert rest + pairs == svc.mappings.pending + pairs;
    assert kept <= DisplayRows(svc, svc.mappings.pending, m, s) by {
      DisplayRowsUnion(svc, svc, rest, svc.mappings.pending, m, s);
      assert rest + svc.mappings.pending == svc.mappings.pending;
    }
    if kept !! added {
      if SharesImplication(svc, m, pairs, s) { SharedIsDisplayed(svc, m, pairs, s); }
    } else {
      var x :| x in kept && x in added;
      SharedRow(svc, m, pairs, s, x);
    }
  }

  lemma SharedIsDisplayed(svc: TagService, m: Memberships, pairs: set<Row>, s: FileService)
    requires SharesImplication(svc, m, pairs, s)
    ensures exists x :: x in DisplayRows(svc, svc.mappings.pending - pairs, m, s) && x in DisplayRows(svc, pairs, m, s)
  {
    var p, q :| p in pairs && q in svc.mappings.pending - pairs
                && p.1 == q.1 && Holds(m, s, q.1) && Implied(svc, p.0) * Implied(svc, q.0) != {};
    var i :| i in Implied(svc, p.0) * Implied(svc, q.0);
    assert (i, q.1) in DisplayRows(svc, svc.mappings.pending - pairs, m, s);
    assert (i, p.1) in DisplayRows(svc, pairs, m, s);
  }

  /** Together: once all caches agree, adding pairs keeps all of them in agreement, and with it the answers of the
      read path, exactly when both conditions hold. */
  lemma AllAgreeIff(svc: TagService, m: Memberships, pairs: set<Row>)
    requires CachesAgree(svc, m)
    ensures CachesAgree(Added(svc, m, pairs), m)
       <==> && (forall s, p | s in svc.deletedCache && p in pairs && Holds(m, s, p.1) :: p !in svc.mappings.deleted)
            && (forall s | s in svc.displayPendingCache :: !SharesImplication(svc, m, pairs, s))
  {
    AgreeOneByOne(svc, m);
    AgreeOneByOne(Added(svc, m, pairs), m);
    hide CachesAgree, CurrentAgrees, PendingAgrees, DeletedAgrees, DisplayCurrentAgrees, DisplayPendingAgrees, Added,
         SharesImplication, Holds;
    AddKeepsAgreement(svc, m, pairs);
    DeletedCacheAgreesIff(svc, m, pairs);
    DisplayPendingAgreesIff(svc, m, pairs);
  }

  lemma AgreeOneByOne(svc: TagService, m: Memberships)
    ensures CachesAgree(svc, m)
       <==> CurrentAgrees(svc, m) && PendingAgrees(svc, m) && DeletedAgrees(svc, m)
            && DisplayCurrentAgrees(svc, m) && DisplayPendingAgrees(svc, m)
  {
    hide Restricted, DisplayRows;
  }

  // ----- Writes past the caches -----

  /** No file that a cached service holds has a pair in one table and not in the other. */
  predicate SameHeld(cache: Caches, m: Memberships, a: set<Row>, b: set<Row>) {
    forall s, p | s in cache && p in (a - b) + (b - a) :: !Holds(m, s, p.1)
  }

  /** On every file that a cached service holds the two tables imply the same tags. */
  predicate SameShown(svc: TagService, cache: Caches, m: Memberships, a: set<Row>, b: set<Row>) {
    forall s | s in cache :: DisplayRows(svc, a, m, s) == DisplayRows(svc, b, m, s)
  }

  /** Remote updates, staging and commits write no cache.  Caches that agree go on to agree exactly when the step
      changes no stored pair, and no displayed tag, of a file that a service with the cache holds. */
  lemma UnwrittenCachesAgreeIff(svc: TagService, m: Memberships, op: Op<Row>)
    requires CachesAgree(svc, m)
    ensures var before, after := svc.mappings, Do(svc.mappings, op);
            CachesAgree(svc.(mappings := after), m) <==>
              && SameHeld(svc.currentCache, m, before.current, after.current)
              && SameHeld(svc.deletedCache, m, before.deleted, after.deleted)
              && SameHeld(svc.pendingCache, m, before.pending, after.pending)
              && SameShown(svc, svc.displayCurrentCache, m, before.current, after.current)
              && SameShown(svc, svc.displayPendingCache, m, before.pending, after.pending)
  {
    var before, after := svc.mappings, Do(svc.mappings, op);
    var next := svc.(mappings := after);
    RestrictedAlike(svc.currentCache, m, before.current, after.current);
    RestrictedAlike(svc.deletedCache, m, before.deleted, after.deleted);
    RestrictedAlike(svc.pendingCache, m, before.pending, after.pending);
    forall rows, s ensures DisplayRows(next, rows, m, s) == DisplayRows(svc, rows, m, s) {
      SameDisplay(svc, next, rows, m, s);
    }
    hide Do, Restricted, DisplayRows, SameHeld;
  }

  lemma RestrictedAlike(cache: Caches, m: Memberships, a: set<Row>, b: set<Row>)
    ensures SameHeld(cache, m, a, b) <==> forall s | s in cache :: Restricted(a, m, s) == Restricted(b, m, s)
  {
    hide Holds;
    if forall s | s in cache :: Restricted(a, m, s) == Restricted(b, m, s) {
      forall s, p | s in cache && p in (a - b) + (b - a) ensures !Holds(m, s, p.1) {
        assert p in Restricted(a, m, s) <==> p in Restricted(b, m, s);
      }
    }
  }

  lemma SameDisplay(svc: TagService, next: TagService, rows: set<Row>, m: Memberships, s: FileService)
    requires next.ideals == svc.ideals && next.ancestors == svc.ancestors
    ensures DisplayRows(next, rows, m, s) == DisplayRows(svc, rows, m, s)
  {
    forall t ensures Implied(next, t) == Implied(svc, t) {}
    hide Implied, Holds;
  }

  // ----- Both conditions can fail -----

  /** A service with one deleted pair and a deleted cache of it: adding the pair leaves the cache row behind. */
  lemma DeletedCacheGoesStale(t: TagId, h: HashId, s: FileService)
    ensures var m := Memberships(map[h := {s}], {s});
            var svc := TagService(Tables({}, {(t, h)}, {}, {}),
                                  map[], map[s := {(t, h)}], map[], map[], map[], map[], map[]);
            DeletedAgrees(svc, m) && !DeletedAgrees(Added(svc, m, {(t, h)}), m)
  {
    var m := Memberships(map[h := {s}], {s});
    var svc := TagService(Tables({}, {(t, h)}, {}, {}), map[], map[s := {(t, h)}], map[], map[], map[], map[], map[]);
    assert Holds(m, s, h);
    HeldPair(m, s, (t, h));
    assert DeletedAgrees(svc, m);
    DeletedCacheAgreesIff(svc, m, {(t, h)});
    var p := (t, h);
    assert s in svc.deletedCache && p in {(t, h)} && Holds(m, s, p.1) && p in svc.mappings.deleted;
  }

  /** A remote update that adds a pair of a cached file leaves its row out of the current cache. */
  lemma UnwrittenCacheGoesStale(t: TagId, h: HashId, s: FileService)
    ensures var m := Memberships(map[h := {s}], {s});
            var svc := TagService(MappingTables.Empty(), map[s := {}], map[], map[], map[], map[], map[], map[]);
            CachesAgree(svc, m)
            && !CachesAgree(svc.(mappings := Do(svc.mappings, RemoteOp({(t, h)}, {}))), m)
  {
    var m := Memberships(map[h := {s}], {s});
    var svc := TagService(MappingTables.Empty(), map[s := {}], map[], map[], map[], map[], map[], map[]);
    var after := Do(svc.mappings, RemoteOp({(t, h)}, {}));
    assert Holds(m, s, h) && (t, h) in after.current;
    assert Restricted(svc.mappings.current, m, s) == {};
    assert (t, h) in Restricted(after.current, m, s);
  }

  /** Two pending tags with the same ideal: adding one takes the ideal, which the other still implies, out of
      the display-pending cache. */
  lemma DisplayPendingGoesStale(t: TagId, u: TagId, h: HashId, s: FileService)
    requires t != u
    ensures var m := Memberships(map[h := {s}], {s});
            var svc := TagService(Tables({}, {}, {(t, h), (u, h)}, {}), map[], map[], map[], map[], map[s := {(u, h)}],
                                  map[t := u], map[]);
            DisplayPendingAgrees(svc, m) && !DisplayPendingAgrees(Added(svc, m, {(t, h)}), m)
  {
    var m := Memberships(map[h := {s}], {s});
    var svc := TagService(Tables({}, {}, {(t, h), (u, h)}, {}), map[], map[], map[], map[], map[s := {(u, h)}],
                          map[t := u], map[]);
    assert Implied(svc, t) == {u} && Implied(svc, u) == {u};
    assert (t, h) in svc.mappings.pending && Holds(m, s, h);
    assert DisplayRows(svc, svc.mappings.pending, m, s) == {(u, h)};
    DisplayPendingAgreesIff(svc, m, {(t, h)});
    assert SharesImplication(svc, m, {(t, h)}, s) by {
      assert (u, h) in svc.mappings.pending - {(t, h)};
      assert u in Implied(svc, t) * Implied(svc, u);
      assert (t, h).1 == (u, h).1;
    }
  }

  // ----- The writes as they run -----

  /** One row more, or one row fewer, in the caches of some file services. */
  function WithRows(cache: Caches, services: set<FileService>, rows: set<Row>): Caches {
    map s | s in cache :: if s in services then cache[s] + rows else cache[s]
  }

  function WithoutRows(cache: Caches, services: set<FileService>, rows: set<Row>): Caches {
    map s | s in cache :: if s in services then cache[s] - rows else cache[s]
  }

  /** The tags a tag implies, on one file. */
  function ImpliedRows(implied: set<TagId>, h: HashId): set<Row> {
    set i | i in implied :: (i, h)
  }

  /** The tables after a pair has been added and the caches of some file services written. */
  function Touched(svc: TagService, services: set<FileService>, t: TagId, implied: set<TagId>, h: HashId): TagService {
    svc.(currentCache := WithRows(svc.currentCache, services, {(t, h)}),
         pendingCache := WithoutRows(svc.pendingCache, services, {(t, h)}),
         displayCurrentCache := WithRows(svc.displayCurrentCache, services, ImpliedRows(implied, h)),
         displayPendingCache := WithoutRows(svc.displayPendingCache, services, ImpliedRows(implied, h)))
  }

  lemma WithRowsMore(cache: Caches, services: set<FileService>, s: FileService, rows: set<Row>)
    ensures WithRows(cache, {}, rows) == cache
    ensures WithRows(WithRows(cache, services, rows), {s}, rows) == WithRows(cache, services + {s}, rows)
    ensures WithRows(cache, {s}, rows) == if s in cache then cache[s := cache[s] + rows] else cache
  {
    var once := WithRows(cache, services, rows);
    forall f | f in cache
      ensures WithRows(once, {s}, rows)[f] == WithRows(cache, services + {s}, rows)[f]
    {
    }
  }

  lemma WithoutRowsMore(cache: Caches, services: set<FileService>, s: FileService, rows: set<Row>)
    ensures WithoutRows(cache, {}, rows) == cache
    ensures WithoutRows(WithoutRows(cache, services, rows), {s}, rows) == WithoutRows(cache, services + {s}, rows)
    ensures WithoutRows(cache, {s}, rows) == if s in cache then cache[s := cache[s] - rows] else cache
  {
    var once := WithoutRows(cache, services, rows);
    forall f | f in cache
      ensures WithoutRows(once, {s}, rows)[f] == WithoutRows(cache, services + {s}, rows)[f]
    {
    }
  }

  lemma TouchedMore(svc: TagService, services: set<FileService>, s: FileService, t: TagId, implied: set<TagId>,
                    h: HashId)
    ensures Touched(Touched(svc, services, t, implied, h), {s}, t, implied, h) ==
            Touched(svc, services + {s}, t, implied, h)
    ensures Touched(svc, {}, t, implied, h) == svc
  {
    WithRowsMore(svc.currentCache, services, s, {(t, h)});
    WithoutRowsMore(svc.pendingCache, services, s, {(t, h)});
    WithRowsMore(svc.displayCurrentCache, services, s, ImpliedRows(implied, h));
    WithoutRowsMore(svc.displayPendingCache, services, s, ImpliedRows(implied, h));
    hide WithRows, WithoutRows, ImpliedRows;
  }

  lemma HeldPair(m: Memberships, s: FileService, p: Row)
    ensures Restricted({p}, m, s) == if Holds(m, s, p.1) then {p} else {}
  {
  }

  lemma HeldImplied(svc: TagService, m: Memberships, s: FileService, p: Row)
    ensures DisplayRows(svc, {p}, m, s) == if Holds(m, s, p.1) then ImpliedRows(Implied(svc, p.0), p.1) else {}
  {
    hide Implied;
    if Holds(m, s, p.1) {
      forall x | x in ImpliedRows(Implied(svc, p.0), p.1) ensures x in DisplayRows(svc, {p}, m, s) {
        assert p in {p} && x == (x.0, p.1);
      }
    }
  }

  lemma PairInHolders(cache: Caches, m: Memberships, t: TagId, h: HashId)
    requires cache.Keys <= m.cached
    ensures WithRows(cache, CachedHolders(m, h), {(t, h)}) == PlusHeld(cache, m, {(t, h)})
    ensures WithoutRows(cache, CachedHolders(m, h), {(t, h)}) == MinusHeld(cache, m, {(t, h)})
  {
    hide Restricted;
    forall s | s in cache
      ensures cache[s] + Restricted({(t, h)}, m, s)
           == if s in CachedHolders(m, h) then cache[s] + {(t, h)} else cache[s]
      ensures cache[s] - Restricted({(t, h)}, m, s)
           == if s in CachedHolders(m, h) then cache[s] - {(t, h)} else cache[s]
    {
      HeldPair(m, s, (t, h));
    }
    hide Holds, CachedHolders;
  }

  lemma ImplicationsInHolders(svc: TagService, cache: Caches, m: Memberships, t: TagId, h: HashId)
    requires cache.Keys <= m.cached
    ensures WithRows(cache, CachedHolders(m, h), ImpliedRows(Implied(svc, t), h)) == PlusShown(svc, cache, m, {(t, h)})
    ensures WithoutRows(cache, CachedHolders(m, h), ImpliedRows(Implied(svc, t), h)) ==
            MinusShown(svc, cache, m, {(t, h)})
  {
    hide DisplayRows, ImpliedRows, Implied;
    var rows := ImpliedRows(Implied(svc, t), h);
    forall s | s in cache
      ensures cache[s] + DisplayRows(svc, {(t, h)}, m, s)
           == if s in CachedHolders(m, h) then cache[s] + rows else cache[s]
      ensures cache[s] - DisplayRows(svc, {(t, h)}, m, s)
           == if s in CachedHolders(m, h) then cache[s] - rows else cache[s]
    {
      HeldImplied(svc, m, s, (t, h));
    }
    hide Holds, CachedHolders;
  }

  /** Touching the caches of every cached service that holds the file is adding the pair. */
  lemma TouchedAll(svc: TagService, m: Memberships, t: TagId, h: HashId)
    requires CachesOnlyFor(svc, m)
    ensures Touched(svc, CachedHolders(m, h), t, Implied(svc, t), h).(mappings := LocalAdd(svc.mappings, {(t, h)}))
         == Added(svc, m, {(t, h)})
  {
    PairInHolders(svc.currentCache, m, t, h);
    PairInHolders(svc.pendingCache, m, t, h);
    ImplicationsInHolders(svc, svc.displayCurrentCache, m, t, h);
    ImplicationsInHolders(svc, svc.displayPendingCache, m, t, h);
    hide WithRows, WithoutRows, PlusHeld, MinusHeld, PlusShown, MinusShown, Implied, ImpliedRows, CachedHolders;
  }

  lemma RestrictedUnion(a: set<Row>, b: set<Row>, m: Memberships, s: FileService)
    ensures Restricted(a + b, m, s) == Restricted(a, m, s) + Restricted(b, m, s)
    ensures Restricted({}, m, s) == {}
  {
  }

  lemma HeldTwice(cache: Caches, m: Memberships, a: set<Row>, b: set<Row>)
    ensures PlusHeld(PlusHeld(cache, m, a), m, b) == PlusHeld(cache, m, a + b)
    ensures MinusHeld(MinusHeld(cache, m, a), m, b) == MinusHeld(cache, m, a + b)
    ensures PlusHeld(cache, m, {}) == cache && MinusHeld(cache, m, {}) == cache
  {
    hide Restricted;
    forall s | s in cache
      ensures cache[s] + Restricted(a, m, s) + Restricted(b, m, s) == cache[s] + Restricted(a + b, m, s)
      ensures cache[s] - Restricted(a, m, s) - Restricted(b, m, s) == cache[s] - Restricted(a + b, m, s)
      ensures cache[s] + Restricted({}, m, s) == cache[s] == cache[s] - Restricted({}, m, s)
    {
      RestrictedUnion(a, b, m, s);
    }
  }

  lemma ShownTwice(svc: TagService, once: TagService, cache: Caches, m: Memberships, a: set<Row>, b: set<Row>)
    requires once.ideals == svc.ideals && once.ancestors == svc.ancestors
    ensures PlusShown(once, PlusShown(svc, cache, m, a), m, b) == PlusShown(svc, cache, m, a + b)
    ensures MinusShown(once, MinusShown(svc, cache, m, a), m, b) == MinusShown(svc, cache, m, a + b)
    ensures PlusShown(svc, cache, m, {}) == cache && MinusShown(svc, cache, m, {}) == cache
  {
    hide DisplayRows;
    forall s | s in cache
      ensures cache[s] + DisplayRows(svc, a, m, s) + DisplayRows(once, b, m, s) ==
              cache[s] + DisplayRows(svc, a + b, m, s)
      ensures cache[s] - DisplayRows(svc, a, m, s) - DisplayRows(once, b, m, s) ==
              cache[s] - DisplayRows(svc, a + b, m, s)
      ensures cache[s] + DisplayRows(svc, {}, m, s) == cache[s] == cache[s] - DisplayRows(svc, {}, m, s)
    {
      ShownUnion(svc, once, a, b, m, s);
    }
  }

  lemma ShownUnion(svc: TagService, once: TagService, a: set<Row>, b: set<Row>, m: Memberships, s: FileService)
    requires once.ideals == svc.ideals && once.ancestors == svc.ancestors
    ensures DisplayRows(svc, a + b, m, s) == DisplayRows(svc, a, m, s) + DisplayRows(once, b, m, s)
    ensures DisplayRows(svc, {}, m, s) == {}
  {
    DisplayRowsUnion(svc, svc, a, b, m, s);
    DisplayRowsUnion(svc, once, b, {}, m, s);
    assert b + {} == b;
  }

  /** Adding pairs in two goes is adding them in one. */
  lemma AddedTwice(svc: TagService, m: Memberships, a: set<Row>, b: set<Row>)
    ensures Added(Added(svc, m, a), m, b) == Added(svc, m, a + b)
    ensures Added(svc, m, {}) == svc
  {
    var once := Added(svc, m, a);
    HeldTwice(svc.currentCache, m, a, b);
    HeldTwice(svc.pendingCache, m, a, b);
    ShownTwice(svc, once, svc.displayCurrentCache, m, a, b);
    ShownTwice(svc, once, svc.displayPendingCache, m, a, b);
    hide PlusHeld, MinusHeld, PlusShown, MinusShown;
    assert LocalAdd(LocalAdd(svc.mappings, a), b) == LocalAdd(svc.mappings, a + b);
    assert LocalAdd(svc.mappings, {}) == svc.mappings;
  }

  /** A row is one of the pairs being added, for a file the service holds. */
  predicate IsHeldPair(m: Memberships, tags: set<TagId>, hashes: set<HashId>, s: FileService, row: Row) {
    row.0 in tags && row.1 in hashes && row.1 in m.services && s in m.services[row.1]
  }

  /** A row shows one of the pairs being added, for a file the service holds. */
  predicate ShowsHeldPair(svc: TagService, m: Memberships, tags: set<TagId>, hashes: set<HashId>, s: FileService,
                          row: Row)
  {
    row.1 in hashes && row.1 in m.services && s in m.services[row.1] && exists t :: t in tags && ShownFor(svc, t, row.0)
  }

  /** The pairs are current and under no other status; other pairs keep their places. */
  ghost predicate TablesAdded(before: Tables<Row>, after: Tables<Row>, tags: set<TagId>, hashes: set<HashId>) {
    && (forall row: Row :: row in after.current <==> row in before.current || (row.0 in tags && row.1 in hashes))
    && (forall row: Row :: row in after.pending <==> row in before.pending && !(row.0 in tags && row.1 in hashes))
    && (forall row: Row :: row in after.deleted <==> row in before.deleted && !(row.0 in tags && row.1 in hashes))
    && (forall row: Row :: row in after.petitioned <==> row in before.petitioned && !(row.0 in tags && row.1 in hashes))
  }

  /** The caches of the services that hold the files gain the pairs, and lose them as pending, with all they show;
      the deleted caches stay. */
  ghost predicate CachesAdded(before: TagService, after: TagService, m: Memberships, tags: set<TagId>,
                              hashes: set<HashId>)
  {
    && after.deletedCache == before.deletedCache
    && after.currentCache.Keys == before.currentCache.Keys && after.pendingCache.Keys == before.pendingCache.Keys
    && after.displayCurrentCache.Keys == before.displayCurrentCache.Keys
    && after.displayPendingCache.Keys == before.displayPendingCache.Keys
    && (forall s, row: Row | s in after.currentCache ::
          row in after.currentCache[s] <==> row in before.currentCache[s] || IsHeldPair(m, tags, hashes, s, row))
    && (forall s, row: Row | s in after.pendingCache ::
          row in after.pendingCache[s] <==> row in before.pendingCache[s] && !IsHeldPair(m, tags, hashes, s, row))
    && (forall s, row: Row | s in after.displayCurrentCache ::
          row in after.displayCurrentCache[s] <==>
            row in before.displayCurrentCache[s] || ShowsHeldPair(before, m, tags, hashes, s, row))
    && (forall s, row: Row | s in after.displayPendingCache ::
          row in after.displayPendingCache[s] <==>
            row in before.displayPendingCache[s] && !ShowsHeldPair(before, m, tags, hashes, s, row))
  }

  /** What adding every tag to every file writes, row by row. */
  lemma AddedByRows(svc: TagService, m: Memberships, tags: set<TagId>, hashes: set<HashId>)
    ensures var after := Added(svc, m, AllPairs(tags, hashes));
            TablesAdded(svc.mappings, after.mappings, tags, hashes) && CachesAdded(svc, after, m, tags, hashes)
  {
    var pairs := AllPairs(tags, hashes);
    forall row: Row ensures row in pairs <==> row.0 in tags && row.1 in hashes {
      assert row == (row.0, row.1);
    }
    forall s, row: Row ensures row in Restricted(pairs, m, s) <==> IsHeldPair(m, tags, hashes, s, row) {
      HeldByRow(pairs, m, tags, hashes, s, row);
    }
    forall s, row: Row ensures row in DisplayRows(svc, pairs, m, s) <==> ShowsHeldPair(svc, m, tags, hashes, s, row) {
      ShownByRow(svc, pairs, m, tags, hashes, s, row);
    }
    hide AllPairs, Restricted, DisplayRows, IsHeldPair, ShowsHeldPair;
  }

  lemma HeldByRow(pairs: set<Row>, m: Memberships, tags: set<TagId>, hashes: set<HashId>, s: FileService, row: Row)
    requires row in pairs <==> row.0 in tags && row.1 in hashes
    ensures row in Restricted(pairs, m, s) <==> IsHeldPair(m, tags, hashes, s, row)
  {
  }

  lemma ShownByRow(svc: TagService, pairs: set<Row>, m: Memberships, tags: set<TagId>, hashes: set<HashId>,
                   s: FileService, row: Row)
    requires forall p: Row :: p in pairs <==> p.0 in tags && p.1 in hashes
    ensures row in DisplayRows(svc, pairs, m, s) <==> ShowsHeldPair(svc, m, tags, hashes, s, row)
  {
    assert forall t, x :: x in Implied(svc, t) <==> ShownFor(svc, t, x);
    hide Implied, ShownFor;
    if row in DisplayRows(svc, pairs, m, s) {
      var r, i :| r in pairs && Holds(m, s, r.1) && i in Implied(svc, r.0) && row == (i, r.1);
      assert r.0 in tags && ShownFor(svc, r.0, row.0);
    }
    if ShowsHeldPair(svc, m, tags, hashes, s, row) {
      var t :| t in tags && ShownFor(svc, t, row.0);
      assert (t, row.1) in pairs && row == (row.0, row.1);
    }
  }

  class TagServiceStore {
    var current: set<Row>
    var deleted: set<Row>
    var pending: set<Row>
    var petitioned: set<Row>
    var currentCache: Caches
    const deletedCache: Caches
    var pendingCache: Caches
    var displayCurrentCache: Caches
    var displayPendingCache: Caches
    const ideals: map<TagId, TagId>
    const ancestors: map<TagId, set<TagId>>

    function Value(): TagService
      reads this
    {
      TagService(Tables(current, deleted, pending, petitioned), currentCache, deletedCache, pendingCache,
                 displayCurrentCache, displayPendingCache, ideals, ancestors)
    }

    constructor (svc: TagService)
      ensures Value() == svc
    {
      current, deleted, pending, petitioned :=
        svc.mappings.current, svc.mappings.deleted, svc.mappings.pending, svc.mappings.petitioned;
      currentCache, deletedCache, pendingCache := svc.currentCache, svc.deletedCache, svc.pendingCache;
      displayCurrentCache, displayPendingCache := svc.displayCurrentCache, svc.displayPendingCache;
      ideals, ancestors := svc.ideals, svc.ancestors;
    }

    method SetCurrentTagMapping(t: TagId, h: HashId)
      modifies this
      ensures Value() == old(Value()).(mappings := LocalAdd(old(Value()).mappings, {(t, h)}))
    {
      var p := (t, h);
      deleted := deleted - {p};
      pending := pending - {p};
      petitioned := petitioned - {p};
      current := current + {p};
    }

    /** The caches of one file service, each written when it exists. */
    method SetSpecificCurrentTagCaches(s: FileService, t: TagId, implied: set<TagId>, h: HashId)
      modifies this
      ensures Value() == Touched(old(Value()), {s}, t, implied, h)
    {
      WithRowsMore(currentCache, {}, s, {(t, h)});
      WithoutRowsMore(pendingCache, {}, s, {(t, h)});
      WithRowsMore(displayCurrentCache, {}, s, ImpliedRows(implied, h));
      WithoutRowsMore(displayPendingCache, {}, s, ImpliedRows(implied, h));
      hide WithRows, WithoutRows, ImpliedRows;
      if s in currentCache {
        currentCache := currentCache[s := currentCache[s] + {(t, h)}];
      }
      if s in pendingCache {
        pendingCache := pendingCache[s := pendingCache[s] - {(t, h)}];
      }
      if s in displayCurrentCache {
        displayCurrentCache := displayCurrentCache[s := displayCurrentCache[s] + ImpliedRows(implied, h)];
      }
      if s in displayPendingCache {
        displayPendingCache := displayPendingCache[s := displayPendingCache[s] - ImpliedRows(implied, h)];
      }
    }

    /** Adds one pair: the mapping tables, then the caches of every cached service that holds the file. */
    method AddPair(m: Memberships, t: TagId, implied: set<TagId>, h: HashId)
      requires CachesOnlyFor(Value(), m) && implied == Implied(Value(), t)
      modifies this
      ensures Value() == Added(old(Value()), m, {(t, h)})
    {
      TouchedAll(Value(), m, t, h);
      SetCurrentTagMapping(t, h);
      ghost var mapped := Value();
      var rest := CachedHolders(m, h);
      ghost var seen: set<FileService> := {};
      SplitsEnds(rest, {});
      TouchedMore(mapped, {}, FileService(0), t, implied, h);
      hide Touched, Splits;
      while rest != {}
        invariant Splits(seen, rest, CachedHolders(m, h))
        invariant Value() == Touched(mapped, seen, t, implied, h)
        decreases |rest|
      {
        var s :| s in rest;
        SplitsMore(seen, rest, CachedHolders(m, h), s);
        SetSpecificCurrentTagCaches(s, t, implied, h);
        TouchedMore(mapped, seen, s, t, implied, h);
        seen, rest := seen + {s}, rest - {s};
      }
      SplitsEnds(CachedHolders(m, h), seen);
    }

    /** Adds every tag to every file.  The tables and caches are those of adding all the pairs at once. */
    method AddTags(m: Memberships, tags: set<TagId>, hashes: set<HashId>)
      requires CachesOnlyFor(Value(), m)
      modifies this
      ensures Value() == Added(old(Value()), m, AllPairs(tags, hashes))
      ensures TablesAdded(old(Value()).mappings, Value().mappings, tags, hashes)
      ensures CachesAdded(old(Value()), Value(), m, tags, hashes)
    {
      AddedByRows(Value(), m, tags, hashes);
      ghost var before := Value();
      var rest := tags;
      ghost var seen: set<TagId> := {};
      SplitsEnds(tags, {});
      AddedTwice(before, m, {}, {});
      NoPairs(hashes);
      hide Added, AllPairs, Splits, TablesAdded, CachesAdded;
      while rest != {}
        invariant Splits(seen, rest, tags)
        invariant Value() == Added(before, m, AllPairs(seen, hashes))
        decreases |rest|
      {
        var t :| t in rest;
        SplitsMore(seen, rest, tags, t);
        CachesStayFor(before, m, AllPairs(seen, hashes));
        AddTag(m, t, hashes);
        AddedTwice(before, m, AllPairs(seen, hashes), TagPairs(t, hashes));
        MorePairs(seen, t, hashes);
        seen, rest := seen + {t}, rest - {t};
      }
      SplitsEnds(tags, seen);
    }

    method AddTag(m: Memberships, t: TagId, hashes: set<HashId>)
      requires CachesOnlyFor(Value(), m)
      modifies this
      ensures Value() == Added(old(Value()), m, TagPairs(t, hashes))
    {
      ghost var before := Value();
      var ideal := if t in ideals then ideals[t] else t;
      var implied := {ideal} + if ideal in ancestors then ancestors[ideal] else {};
      var rest := hashes;
      ghost var seen: set<HashId> := {};
      SplitsEnds(hashes, {});
      AddedTwice(before, m, {}, {});
      NoPairs(hashes);
      while rest != {}
        invariant Splits(seen, rest, hashes)
        invariant Value() == Added(before, m, TagPairs(t, seen))
        decreases |rest|
      {
        var h :| h in rest;
        SplitsMore(seen, rest, hashes, h);
        CachesStayFor(before, m, TagPairs(t, seen));
        AddPair(m, t, implied, h);
        AddedTwice(before, m, TagPairs(t, seen), {(t, h)});
        MoreTagPairs(t, seen, h);
        seen, rest := seen + {h}, rest - {h};
        hide Added, TagPairs, Splits;
      }
      SplitsEnds(hashes, seen);
    }
  }

  function TagPairs(t: TagId, hashes: set<HashId>): set<Row> {
    set h | h in hashes :: (t, h)
  }

  function AllPairs(tags: set<TagId>, hashes: set<HashId>): set<Row> {
    set t, h | t in tags && h in hashes :: (t, h)
  }

  lemma NoPairs(hashes: set<HashId>)
    ensures AllPairs({}, hashes) == {} && forall t :: TagPairs(t, {}) == {}
  {
  }

  lemma MorePairs(tags: set<TagId>, t: TagId, hashes: set<HashId>)
    ensures AllPairs(tags + {t}, hashes) == AllPairs(tags, hashes) + TagPairs(t, hashes)
  {
  }

  lemma MoreTagPairs(t: TagId, hashes: set<HashId>, h: HashId)
    ensures TagPairs(t, hashes + {h}) == TagPairs(t, hashes) + {(t, h)}
  {
  }

  lemma CachesStayFor(svc: TagService, m: Memberships, pairs: set<Row>)
    requires CachesOnlyFor(svc, m)
    ensures CachesOnlyFor(Added(svc, m, pairs), m)
    ensures forall t :: Implied(Added(svc, m, pairs), t) == Implied(svc, t)
  {
  }
}
