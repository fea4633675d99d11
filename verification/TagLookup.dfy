/** The tag read path: which mapping cache answers for which file, what the storage and display lookups
    collect, and that the answer for a file is the one the mapping tables give, whatever else was asked. */
module TagLookup {
  import opened SetLoops
  import opened UpdateOrder

  datatype HashId = HashId(id: int)
  datatype TagId = TagId(id: int)
  datatype FileService = FileService(id: int)

  type Row = (TagId, HashId)

  datatype Status = Current | Pending | Deleted | Petitioned

  /** The tags of one file by status. */
  datatype StatusSets = StatusSets(current: set<TagId>, pending: set<TagId>, deleted: set<TagId>,
                                   petitioned: set<TagId>)

  const NO_TAGS := StatusSets({}, {}, {}, {})

  function AddAll(s: StatusSets, status: Status, tags: set<TagId>): StatusSets {
    match status
    case Current => s.(current := s.current + tags)
    case Pending => s.(pending := s.pending + tags)
    case Deleted => s.(deleted := s.deleted + tags)
    case Petitioned => s.(petitioned := s.petitioned + tags)
  }

  function Merge(a: StatusSets, b: StatusSets): StatusSets {
    StatusSets(a.current + b.current, a.pending + b.pending, a.deleted + b.deleted, a.petitioned + b.petitioned)
  }

  type ByHash = map<HashId, StatusSets>

  function Get(m: ByHash, h: HashId): StatusSets {
    if h in m then m[h] else NO_TAGS
  }

  // ----- Grouping the requested files by cached file service -----

  /** Which file services currently hold a file, and which kinds of service have mapping caches. */
  datatype Memberships = Memberships(services: map<HashId, set<FileService>>, cached: set<FileService>)

  function CachedHolders(m: Memberships, h: HashId): set<FileService> {
    if h in m.services then m.services[h] * m.cached else {}
  }

  /** The requested files a service holds. */
  function HeldBy(m: Memberships, requested: set<HashId>, s: FileService): set<HashId> {
    set h | h in requested && s in CachedHolders(m, h)
  }

  /** Services with more of the requested files come first, and among equals the smaller id. */
  function Preference(m: Memberships, requested: set<HashId>, s: FileService): Rank {
    Rank(-|HeldBy(m, requested, s)|, 0, s.id)
  }

  function Preferences(m: Memberships, requested: set<HashId>, h: HashId): set<Rank> {
    set s | s in CachedHolders(m, h) :: Preference(m, requested, s)
  }

  /** The service whose caches answer for a file: of those that hold it the one preferred most, or the
      fallback when none does. */
  function GroupOf(m: Memberships, requested: set<HashId>, fallback: FileService, h: HashId): FileService {
    if CachedHolders(m, h) == {} then fallback
    else
      PreferencesExist(m, requested, h);
      FileService(Least(Preferences(m, requested, h)).id)
  }

  lemma PreferencesExist(m: Memberships, requested: set<HashId>, h: HashId)
    requires CachedHolders(m, h) != {}
    ensures Preferences(m, requested, h) != {}
  {
    var s :| s in CachedHolders(m, h);
    assert Preference(m, requested, s) in Preferences(m, requested, h);
  }

  /** All services that hold a requested file, by preference. */
  function Candidates(m: Memberships, requested: set<HashId>): set<Rank> {
    set h, s | h in requested && s in CachedHolders(m, h) :: Preference(m, requested, s)
  }

  /** A file belongs to the first candidate that holds it. */
  lemma GroupIsFirstHolder(m: Memberships, requested: set<HashId>, fallback: FileService, order: seq<Rank>, k: nat,
                           h: HashId)
    requires order == Sorted(Candidates(m, requested)) && k < |order|
             && h in HeldBy(m, requested, FileService(order[k].id))
    ensures GroupOf(m, requested, fallback, h) == FileService(order[k].id)
       <==> forall j | 0 <= j < k :: h !in HeldBy(m, requested, FileService(order[j].id))
  {
    var prefs := Preferences(m, requested, h);
    PreferencesExist(m, requested, h);
    var least := Least(prefs);
    forall j | 0 <= j < |order|
      ensures order[j] == Preference(m, requested, FileService(order[j].id))
      ensures h in HeldBy(m, requested, FileService(order[j].id)) <==> order[j] in prefs
    {
      assert order[j] in Elements(order);
    }
    assert least in Elements(order) by {
      var s :| s in CachedHolders(m, h) && least == Preference(m, requested, s);
      assert least in Candidates(m, requested);
    }
    var i :| 0 <= i < |order| && order[i] == least;
    assert order[k] in prefs;
    assert h in HeldBy(m, requested, FileService(order[i].id));
    assert forall j, n | 0 <= j < n < |order| :: Less(order[j], order[n]);
    assert forall j | 0 <= j < |order| && order[j] in prefs :: least == order[j] || Less(least, order[j]);
    assert i <= k;
    if i == k {
      assert order[k].id == least.id;
    } else {
      assert order[i].id != order[k].id;
    }
  }

  function Group(m: Memberships, requested: set<HashId>, fallback: FileService, s: FileService): set<HashId> {
    set h | h in requested && GroupOf(m, requested, fallback, h) == s
  }

  /** The groups: every requested file is in exactly one, that of the service it is looked up through. */
  function Groups(m: Memberships, requested: set<HashId>, fallback: FileService): map<FileService, set<HashId>> {
    map s | s in (set h | h in requested :: GroupOf(m, requested, fallback, h)) :: Group(m, requested, fallback, s)
  }

  /** The services that hold a requested file, and the requested files each of them holds. */
  function Holders(m: Memberships, requested: set<HashId>): map<FileService, set<HashId>> {
    map s | s in (set h, s | h in requested && s in CachedHolders(m, h) :: s) :: HeldBy(m, requested, s)
  }

  lemma HoldersOfMore(m: Memberships, requested: set<HashId>, h: HashId, seen: set<FileService>, s: FileService,
                      held: map<FileService, set<HashId>>)
    requires h !in requested && s in CachedHolders(m, h) && s !in seen
    requires HoldersPartly(m, requested, h, seen, held)
    ensures HoldersPartly(m, requested, h, seen + {s}, held[s := (if s in held then held[s] else {}) + {h}])
  {
  }

  /** The holders of some files, and of one more file as far as its services have been visited. */
  predicate HoldersPartly(m: Memberships, requested: set<HashId>, h: HashId, seen: set<FileService>,
                          held: map<FileService, set<HashId>>)
  {
    && held.Keys == Holders(m, requested).Keys + seen
    && forall s | s in held :: held[s] == HeldBy(m, requested, s) + if s in seen then {h} else {}
  }

  lemma HeldByMore(m: Memberships, requested: set<HashId>, h: HashId, s: FileService)
    ensures HeldBy(m, requested + {h}, s) == HeldBy(m, requested, s) + if s in CachedHolders(m, h) then {h} else {}
  {
  }

  lemma HoldersComplete(m: Memberships, requested: set<HashId>, h: HashId, held: map<FileService, set<HashId>>)
    requires HoldersPartly(m, requested, h, CachedHolders(m, h), held)
    ensures held == Holders(m, requested + {h})
  {
    hide CachedHolders, HeldBy;
    var all := Holders(m, requested + {h});
    assert all.Keys == held.Keys by {
      assert (set g, s | g in requested + {h} && s in CachedHolders(m, g) :: s)
          == (set g, s | g in requested && s in CachedHolders(m, g) :: s) + CachedHolders(m, h);
    }
    forall s | s in held ensures held[s] == all[s] {
      HeldByMore(m, requested, h, s);
    }
  }

  lemma HoldersStart(m: Memberships, requested: set<HashId>, h: HashId)
    ensures HoldersPartly(m, requested, h, {}, Holders(m, requested))
  {
  }

  method AddHolders(m: Memberships, ghost done: set<HashId>, h: HashId, before: map<FileService, set<HashId>>)
    returns (held: map<FileService, set<HashId>>)
    requires before == Holders(m, done) && h !in done
    ensures held == Holders(m, done + {h})
  {
    held := before;
    HoldersStart(m, done, h);
    hide Holders, HoldersPartly, CachedHolders, Splits;
    var rest := CachedHolders(m, h);
    ghost var seen: set<FileService> := {};
    SplitsEnds(rest, {});
    while rest != {}
      invariant Splits(seen, rest, CachedHolders(m, h))
      invariant HoldersPartly(m, done, h, seen, held)
      decreases |rest|
    {
      var s :| s in rest;
      SplitsMore(seen, rest, CachedHolders(m, h), s);
      HoldersOfMore(m, done, h, seen, s, held);
      held := held[s := (if s in held then held[s] else {}) + {h}];
      seen, rest := seen + {s}, rest - {s};
    }
    SplitsEnds(CachedHolders(m, h), seen);
    HoldersComplete(m, done, h, held);
  }

  method CollectHolders(m: Memberships, requested: set<HashId>) returns (held: map<FileService, set<HashId>>)
    ensures held == Holders(m, requested)
  {
    held := map[];
    assert held == Holders(m, {});
    hide Holders, Splits;
    var rest := requested;
    ghost var done: set<HashId> := {};
    SplitsEnds(requested, {});
    while rest != {}
      invariant Splits(done, rest, requested)
      invariant held == Holders(m, done)
      decreases |rest|
    {
      var h :| h in rest;
      SplitsMore(done, rest, requested, h);
      held := AddHolders(m, done, h, held);
      done, rest := done + {h}, rest - {h};
    }
    SplitsEnds(requested, done);
  }

  // ----- Making the groups disjoint -----

  /** The files that belong to the first n candidates. */
  function Assigned(m: Memberships, requested: set<HashId>, order: seq<Rank>, n: nat): set<HashId>
    requires n <= |order|
  {
    set k, h | 0 <= k < n && h in HeldBy(m, requested, FileService(order[k].id)) :: h
  }

  /** The groups of the first n candidates, without the empty ones. */
  ghost predicate AssignedTo(m: Memberships, requested: set<HashId>, fallback: FileService, order: seq<Rank>, n: nat,
                             result: map<FileService, set<HashId>>)
    requires n <= |order|
  {
    && (forall s :: s in result <==>
          exists k | 0 <= k < n :: s == FileService(order[k].id) && Group(m, requested, fallback, s) != {})
    && forall s | s in result :: result[s] == Group(m, requested, fallback, s)
  }

  /** What the next candidate holds and no earlier one does is its group. */
  lemma NextGroup(m: Memberships, requested: set<HashId>, fallback: FileService, order: seq<Rank>, n: nat)
    requires order == Sorted(Candidates(m, requested)) && n < |order| && fallback !in m.cached
    ensures HeldBy(m, requested, FileService(order[n].id)) - Assigned(m, requested, order, n)
         == Group(m, requested, fallback, FileService(order[n].id))
  {
    hide GroupOf, Assigned, HeldBy, Candidates, Sorted;
    var s := FileService(order[n].id);
    HeldAreRequested(m, requested, s);
    forall h | h in requested
      ensures h in HeldBy(m, requested, s) - Assigned(m, requested, order, n) <==>
                GroupOf(m, requested, fallback, h) == s
    {
      NextGroupTakes(m, requested, fallback, order, n, h);
    }
  }

  lemma HeldAreRequested(m: Memberships, requested: set<HashId>, s: FileService)
    ensures HeldBy(m, requested, s) <= requested
  {
  }

  /** A file goes to the next candidate exactly when that candidate holds it and no earlier one does. */
  lemma NextGroupTakes(m: Memberships, requested: set<HashId>, fallback: FileService, order: seq<Rank>, n: nat,
                       h: HashId)
    requires order == Sorted(Candidates(m, requested)) && n < |order| && fallback !in m.cached && h in requested
    ensures var s := FileService(order[n].id);
            (GroupOf(m, requested, fallback, h) == s)
              == (h in HeldBy(m, requested, s) && h !in Assigned(m, requested, order, n))
  {
    hide GroupOf, HeldBy, Candidates, Sorted;
    if h in HeldBy(m, requested, FileService(order[n].id)) {
      GroupIsFirstHolder(m, requested, fallback, order, n, h);
    } else {
      NotHeldNotGrouped(m, requested, fallback, order, n, h);
    }
  }

  lemma AssignedMore(m: Memberships, requested: set<HashId>, order: seq<Rank>, n: nat)
    requires n < |order|
    ensures Assigned(m, requested, order, n + 1)
         == Assigned(m, requested, order, n) + HeldBy(m, requested, FileService(order[n].id))
  {
    hide HeldBy;
  }

  /** A candidate that does not hold a file does not get it. */
  lemma NotHeldNotGrouped(m: Memberships, requested: set<HashId>, fallback: FileService, order: seq<Rank>, n: nat,
                          h: HashId)
    requires order == Sorted(Candidates(m, requested)) && n < |order| && fallback !in m.cached
    requires h in requested && h !in HeldBy(m, requested, FileService(order[n].id))
    ensures GroupOf(m, requested, fallback, h) != FileService(order[n].id)
  {
    assert order[n] in Elements(order);
    var g, s :| g in requested && s in CachedHolders(m, g) && order[n] == Preference(m, requested, s);
    if CachedHolders(m, h) != {} {
      PreferencesExist(m, requested, h);
      var t :| t in CachedHolders(m, h) && Least(Preferences(m, requested, h)) == Preference(m, requested, t);
    }
  }

  lemma AssignStep(m: Memberships, requested: set<HashId>, fallback: FileService, order: seq<Rank>, n: nat,
                   result: map<FileService, set<HashId>>)
    requires order == Sorted(Candidates(m, requested)) && n < |order| && fallback !in m.cached
    requires AssignedTo(m, requested, fallback, order, n, result)
    ensures var s := FileService(order[n].id);
            var group := Group(m, requested, fallback, s);
            AssignedTo(m, requested, fallback, order, n + 1, if group == {} then result else result[s := group])
  {
    hide Group, Candidates, Sorted;
    var s := FileService(order[n].id);
    var after := if Group(m, requested, fallback, s) == {} then result
                 else result[s := Group(m, requested, fallback, s)];
    forall t ensures t in after
                <==> exists k | 0 <= k < n + 1 ::
                       t == FileService(order[k].id) && Group(m, requested, fallback, t) != {}
    {
      if t == s && Group(m, requested, fallback, s) != {} {
        assert t == FileService(order[n].id);
      }
    }
  }

  /** Some candidate holds a file exactly when it has a cached holder; that candidate's group gets it. */
  lemma AllAssigned(m: Memberships, requested: set<HashId>, fallback: FileService, h: HashId)
    requires fallback !in m.cached && h in requested
    ensures var order := Sorted(Candidates(m, requested));
            && (h in Assigned(m, requested, order, |order|) <==> GroupOf(m, requested, fallback, h) != fallback)
            && (h in Assigned(m, requested, order, |order|) ==>
                  exists k | 0 <= k < |order| :: GroupOf(m, requested, fallback, h) == FileService(order[k].id))
  {
    var order := Sorted(Candidates(m, requested));
    if CachedHolders(m, h) != {} {
      PreferencesExist(m, requested, h);
      var least := Least(Preferences(m, requested, h));
      var s :| s in CachedHolders(m, h) && least == Preference(m, requested, s);
      assert least in Elements(order) by { assert least in Candidates(m, requested); }
      var k :| 0 <= k < |order| && order[k] == least;
      assert FileService(order[k].id) == s;
      assert h in HeldBy(m, requested, FileService(order[k].id));
    }
  }

  /** What no candidate takes is the fallback's group. */
  lemma UnmappedGroup(m: Memberships, requested: set<HashId>, fallback: FileService)
    requires fallback !in m.cached
    ensures var order := Sorted(Candidates(m, requested));
            requested - Assigned(m, requested, order, |order|) == Group(m, requested, fallback, fallback)
  {
    hide GroupOf, Assigned, Candidates;
    forall h | h in requested
      ensures var order := Sorted(Candidates(m, requested));
              h in Assigned(m, requested, order, |order|) <==> GroupOf(m, requested, fallback, h) != fallback
    {
      AllAssigned(m, requested, fallback, h);
    }
  }

  lemma CandidateIsCached(m: Memberships, requested: set<HashId>, order: seq<Rank>, k: nat)
    requires order == Sorted(Candidates(m, requested)) && k < |order|
    ensures FileService(order[k].id) in m.cached
  {
    assert order[k] in Elements(order);
  }

  lemma GroupKeys(m: Memberships, requested: set<HashId>, fallback: FileService, s: FileService)
    ensures s in Groups(m, requested, fallback) <==> Group(m, requested, fallback, s) != {}
  {
    if s in Groups(m, requested, fallback) {
      var h :| h in requested && GroupOf(m, requested, fallback, h) == s;
      assert h in Group(m, requested, fallback, s);
    }
    if Group(m, requested, fallback, s) != {} {
      var h :| h in Group(m, requested, fallback, s);
      assert h in requested && GroupOf(m, requested, fallback, h) == s;
    }
  }

  lemma AssignedKeys(m: Memberships, requested: set<HashId>, fallback: FileService,
                     result: map<FileService, set<HashId>>,
                     s: FileService)
    requires fallback !in m.cached
    requires var order := Sorted(Candidates(m, requested)); AssignedTo(m, requested, fallback, order, |order|, result)
    ensures s in result <==> s != fallback && Group(m, requested, fallback, s) != {}
  {
    var order := Sorted(Candidates(m, requested));
    if s in result {
      var k :| 0 <= k < |order| && s == FileService(order[k].id);
      CandidateIsCached(m, requested, order, k);
    } else if s != fallback && Group(m, requested, fallback, s) != {} {
      var h :| h in Group(m, requested, fallback, s);
      AllAssigned(m, requested, fallback, h);
    }
  }

  lemma GroupsComplete(m: Memberships, requested: set<HashId>, fallback: FileService,
                       result: map<FileService, set<HashId>>)
    requires fallback !in m.cached
    requires var order := Sorted(Candidates(m, requested)); AssignedTo(m, requested, fallback, order, |order|, result)
    ensures var order := Sorted(Candidates(m, requested));
            var unmapped := requested - Assigned(m, requested, order, |order|);
            Groups(m, requested, fallback) == if unmapped == {} then result else result[fallback := unmapped]
  {
    var order := Sorted(Candidates(m, requested));
    UnmappedGroup(m, requested, fallback);
    var unmapped := Group(m, requested, fallback, fallback);
    assert forall s | s in result :: result[s] == Group(m, requested, fallback, s);
    assert forall s | s in Groups(m, requested, fallback) ::
             Groups(m, requested, fallback)[s] == Group(m, requested, fallback, s);
    hide AssignedTo, Assigned, Candidates, GroupOf, Groups, Group;
    forall s
      ensures s in Groups(m, requested, fallback) <==> s in result || (s == fallback && unmapped != {})
      ensures s == fallback ==> s !in result
    {
      GroupKeys(m, requested, fallback, s);
      AssignedKeys(m, requested, fallback, result, s);
    }
    SameGroups(Groups(m, requested, fallback), result, fallback, unmapped);
  }

  lemma SameGroups(all: map<FileService, set<HashId>>, result: map<FileService, set<HashId>>,
                   fallback: FileService, unmapped: set<HashId>)
    requires fallback !in result
    requires forall s :: s in all <==> s in result || (s == fallback && unmapped != {})
    requires forall s | s in all :: all[s] == if s == fallback then unmapped else result[s]
    ensures all == if unmapped == {} then result else result[fallback := unmapped]
  {
    var whole := if unmapped == {} then result else result[fallback := unmapped];
    assert all.Keys == whole.Keys;
  }

  lemma NoneAssigned(m: Memberships, requested: set<HashId>, fallback: FileService, order: seq<Rank>)
    ensures Assigned(m, requested, order, 0) == {} && AssignedTo(m, requested, fallback, order, 0, map[])
  {
  }

  /** How many of the requested files a service holds. */
  function HeldCount(m: Memberships, requested: set<HashId>, s: FileService): nat {
    |set h | h in requested && h in m.services && s in m.services[h]|
  }

  /** A service with caches holds the file, and of these services it holds the most of the requested files or,
      among equals, has the smallest id. */
  predicate AnswersFor(m: Memberships, requested: set<HashId>, h: HashId, s: FileService) {
    && h in m.services && s in m.services[h] && s in m.cached
    && forall b | b in m.services[h] && b in m.cached && b != s ::
         var (mine, theirs) := (HeldCount(m, requested, s), HeldCount(m, requested, b));
         mine > theirs || (mine == theirs && s.id < b.id)
  }

  /** Every requested file is in the group of the service that answers for it, or of the fallback when no service
      with caches holds it, and the groups have no other files. */
  ghost predicate IsGrouping(m: Memberships, requested: set<HashId>, fallback: FileService,
                             groups: map<FileService, set<HashId>>)
  {
    && (forall s | s in groups :: groups[s] != {} && groups[s] <= requested)
    && forall h, s | h in requested ::
         s in groups && h in groups[s] <==>
           AnswersFor(m, requested, h, s)
           || (s == fallback && (h in m.services ==> m.services[h] * m.cached == {}))
  }

  lemma HeldCounted(m: Memberships, requested: set<HashId>, s: FileService)
    requires s in m.cached
    ensures |HeldBy(m, requested, s)| == HeldCount(m, requested, s)
  {
    assert HeldBy(m, requested, s) == set h | h in requested && h in m.services && s in m.services[h];
  }

  /** Which group a file is in, from the memberships alone. */
  lemma GroupByMemberships(m: Memberships, requested: set<HashId>, fallback: FileService, h: HashId, s: FileService)
    requires fallback !in m.cached && h in requested
    ensures GroupOf(m, requested, fallback, h) == s
       <==> AnswersFor(m, requested, h, s) || (s == fallback && CachedHolders(m, h) == {})
  {
    hide GroupOf;
    if s in CachedHolders(m, h) {
      GroupIsPreferred(m, requested, fallback, h, s);
      forall b | b in CachedHolders(m, h) ensures |HeldBy(m, requested, b)| == HeldCount(m, requested, b) {
        HeldCounted(m, requested, b);
      }
      assert GroupOf(m, requested, fallback, h) == s
        <==> forall b | b in CachedHolders(m, h) && b != s ::
               Less(Preference(m, requested, s), Preference(m, requested, b));
    } else if CachedHolders(m, h) != {} {
      var b :| b in CachedHolders(m, h);
      GroupIsPreferred(m, requested, fallback, h, b);
    } else {
      NoHolderFallback(m, requested, fallback, h);
    }
  }

  lemma NoHolderFallback(m: Memberships, requested: set<HashId>, fallback: FileService, h: HashId)
    requires CachedHolders(m, h) == {}
    ensures GroupOf(m, requested, fallback, h) == fallback
  {
  }

  /** The greedy pass: candidates by preference, each taking what no earlier one has, and the rest to the
      fallback.  It yields the groups of the closed form. */
  method GroupHashIdsByTagCachedFileServiceId(m: Memberships, requested: set<HashId>, fallback: FileService)
    returns (result: map<FileService, set<HashId>>)
    requires fallback !in m.cached
    ensures result == Groups(m, requested, fallback)
    ensures IsGrouping(m, requested, fallback, result)
  {
    hide Holders, Candidates, Assigned, AssignedTo, Group, Groups, HeldBy, IsGrouping;
    var held := CollectHolders(m, requested);
    CandidatesOfHolders(m, requested);
    var order := Sorted(set s | s in held :: Rank(-|held[s]|, 0, s.id));
    result := map[];
    var seen: set<HashId> := {};
    NoneAssigned(m, requested, fallback, order);
    for i := 0 to |order|
      invariant seen == Assigned(m, requested, order, i)
      invariant AssignedTo(m, requested, fallback, order, i, result)
    {
      var s := FileService(order[i].id);
      HeldCandidate(m, requested, order, i);
      var nonOverlapping := held[s] - seen;
      NextGroup(m, requested, fallback, order, i);
      AssignedMore(m, requested, order, i);
      AssignStep(m, requested, fallback, order, i, result);
      assert seen + held[s] == seen + nonOverlapping;
      if nonOverlapping != {} {
        result := result[s := nonOverlapping];
        seen := seen + nonOverlapping;
      }
    }
    GroupsComplete(m, requested, fallback, result);
    var unmapped := requested - seen;
    if unmapped != {} {
      result := result[fallback := unmapped];
    }
    GroupsByMemberships(m, requested, fallback);
  }

  lemma GroupsByMemberships(m: Memberships, requested: set<HashId>, fallback: FileService)
    requires fallback !in m.cached
    ensures IsGrouping(m, requested, fallback, Groups(m, requested, fallback))
  {
    var groups := Groups(m, requested, fallback);
    forall s ensures s in groups <==> Group(m, requested, fallback, s) != {} {
      GroupKeys(m, requested, fallback, s);
    }
    forall h, s | h in requested
      ensures s in groups && h in groups[s] <==> GroupOf(m, requested, fallback, h) == s
      ensures GroupOf(m, requested, fallback, h) == s
         <==> AnswersFor(m, requested, h, s) || (s == fallback && CachedHolders(m, h) == {})
    {
      GroupByMemberships(m, requested, fallback, h, s);
      assert h in Group(m, requested, fallback, s) <==> GroupOf(m, requested, fallback, h) == s;
    }
    hide AnswersFor, GroupOf;
  }

  lemma CandidatesOfHolders(m: Memberships, requested: set<HashId>)
    ensures var held := Holders(m, requested);
            (set s | s in held :: Rank(-|held[s]|, 0, s.id)) == Candidates(m, requested)
  {
    var held := Holders(m, requested);
    var ranks := set s | s in held :: Rank(-|held[s]|, 0, s.id);
    forall r | r in Candidates(m, requested) ensures r in ranks {
      var h, s :| h in requested && s in CachedHolders(m, h) && r == Preference(m, requested, s);
      assert s in held;
    }
    forall r | r in ranks ensures r in Candidates(m, requested) {
      var s :| s in held && r == Rank(-|held[s]|, 0, s.id);
      var h :| h in requested && s in CachedHolders(m, h);
      assert r == Preference(m, requested, s);
    }
  }

  lemma HeldCandidate(m: Memberships, requested: set<HashId>, order: seq<Rank>, i: nat)
    requires order == Sorted(Candidates(m, requested)) && i < |order|
    ensures var s := FileService(order[i].id);
            s in Holders(m, requested) && Holders(m, requested)[s] == HeldBy(m, requested, s)
  {
    assert order[i] in Elements(order);
  }

  /** Through which service a file is looked up does depend on what else is asked for: alone it is the one with
      the smaller id, with a second file that only the other holds it is that other. */
  lemma GroupDependsOnCohort(h: HashId, g: HashId, a: FileService, b: FileService, fallback: FileService)
    requires h != g && a.id < b.id
    ensures var m := Memberships(map[h := {a, b}, g := {b}], {a, b});
            GroupOf(m, {h}, fallback, h) == a && GroupOf(m, {h, g}, fallback, h) == b
  {
    var m := Memberships(map[h := {a, b}, g := {b}], {a, b});
    assert CachedHolders(m, h) == {a, b} && CachedHolders(m, g) == {b};
    assert HeldBy(m, {h}, a) == {h} && HeldBy(m, {h}, b) == {h};
    assert HeldBy(m, {h, g}, a) == {h} && HeldBy(m, {h, g}, b) == {h, g};
    PreferencesExist(m, {h}, h);
    PreferencesExist(m, {h, g}, h);
    assert Preference(m, {h}, a) == Rank(-1, 0, a.id) && Preference(m, {h}, b) == Rank(-1, 0, b.id);
    assert Preference(m, {h, g}, a) == Rank(-1, 0, a.id) && Preference(m, {h, g}, b) == Rank(-2, 0, b.id);
    assert Preferences(m, {h}, h) == {Rank(-1, 0, a.id), Rank(-1, 0, b.id)} by {
      assert Preference(m, {h}, a) in Preferences(m, {h}, h) && Preference(m, {h}, b) in Preferences(m, {h}, h);
    }
    assert Preferences(m, {h, g}, h) == {Rank(-1, 0, a.id), Rank(-2, 0, b.id)} by {
      assert Preference(m, {h, g}, a) in Preferences(m, {h, g}, h)
             && Preference(m, {h, g}, b) in Preferences(m, {h, g}, h);
    }
  }

  /** Of the services that hold a file, the group is that of a preferred one. */
  lemma GroupIsPreferred(m: Memberships, requested: set<HashId>, fallback: FileService, h: HashId, s: FileService)
    requires s in CachedHolders(m, h)
    ensures GroupOf(m, requested, fallback, h) in CachedHolders(m, h)
    ensures GroupOf(m, requested, fallback, h) == s
       <==> forall b | b in CachedHolders(m, h) && b != s ::
             Less(Preference(m, requested, s), Preference(m, requested, b))
  {
    PreferencesExist(m, requested, h);
    var prefs := Preferences(m, requested, h);
    var least := Least(prefs);
    var a :| a in CachedHolders(m, h) && least == Preference(m, requested, a);
    assert a == FileService(a.id) == GroupOf(m, requested, fallback, h);
    forall b | b in CachedHolders(m, h) ensures Preference(m, requested, b) in prefs {}
    if a != s {
      assert Less(least, Preference(m, requested, s));
    }
  }

  /** Every file that some service holding h holds is held by a as well. */
  predicate HoldsAllTheirs(m: Memberships, h: HashId, a: FileService) {
    forall b, g | b in CachedHolders(m, h) && g in m.services && b in CachedHolders(m, g) :: a in CachedHolders(m, g)
  }

  /** A file is looked up through the same service in every cohort exactly when, of the services that hold it, the
      one with the smallest id holds all files that any other of them holds. */
  lemma CohortIndependentIff(m: Memberships, fallback: FileService, h: HashId, a: FileService)
    requires a in CachedHolders(m, h) && forall b | b in CachedHolders(m, h) :: a.id <= b.id
    ensures GroupOf(m, {h}, fallback, h) == a
    ensures (forall requested: set<HashId> | h in requested :: GroupOf(m, requested, fallback, h) == a)
       <==> HoldsAllTheirs(m, h, a)
  {
    hide GroupOf, Preference, CachedHolders;
    SmallestWins(m, {h}, fallback, h, a);
    if HoldsAllTheirs(m, h, a) {
      forall requested: set<HashId> | h in requested ensures GroupOf(m, requested, fallback, h) == a {
        SmallestWins(m, requested, fallback, h, a);
      }
    } else {
      var b, g :| b in CachedHolders(m, h) && g in m.services && b in CachedHolders(m, g) && a !in CachedHolders(m, g);
      LosesWith(m, fallback, h, a, b, g);
    }
  }

  lemma SmallestWins(m: Memberships, requested: set<HashId>, fallback: FileService, h: HashId, a: FileService)
    requires a in CachedHolders(m, h) && (forall b | b in CachedHolders(m, h) :: a.id <= b.id) && h in requested
    requires HoldsAllTheirs(m, h, a) || requested == {h}
    ensures GroupOf(m, requested, fallback, h) == a
  {
    hide GroupOf;
    forall b | b in CachedHolders(m, h) && b != a
      ensures Less(Preference(m, requested, a), Preference(m, requested, b))
    {
      assert HeldBy(m, requested, b) <= HeldBy(m, requested, a);
      SubsetSize(HeldBy(m, requested, b), HeldBy(m, requested, a));
      assert a.id != b.id;
    }
    GroupIsPreferred(m, requested, fallback, h, a);
  }

  lemma {:induction false} SubsetSize(a: set<HashId>, b: set<HashId>)
    requires a <= b
    ensures |a| <= |b|
  {
    assert b == a + (b - a);
  }

  lemma LosesWith(m: Memberships, fallback: FileService, h: HashId, a: FileService, b: FileService, g: HashId)
    requires a in CachedHolders(m, h) && b in CachedHolders(m, h)
    requires b in CachedHolders(m, g) && a !in CachedHolders(m, g)
    ensures GroupOf(m, {h, g}, fallback, h) != a
  {
    hide GroupOf;
    assert HeldBy(m, {h, g}, a) == {h} && HeldBy(m, {h, g}, b) == {h, g} && h != g;
    assert |{h, g}| == 2;
    GroupIsPreferred(m, {h, g}, fallback, h, a);
    assert !Less(Preference(m, {h, g}, a), Preference(m, {h, g}, b));
  }
}
