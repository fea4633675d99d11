/** What importing and trashing a file mean, table by table and row by row, and which requests are refused. */
module FileRows {
  import opened Interning
  import opened FileLife

  // ----- Which services a plan names -----

  /** The service at this place, and no other, is of the kind. */
  predicate OnlyAt(services: seq<Service>, kind: Kind, i: nat)
    requires i < |services|
  {
    services[i].kind == kind && forall j | 0 <= j < |services| && j != i :: services[j].kind != kind
  }

  /** The only service of its kind. */
  predicate IsOnly(services: seq<Service>, kind: Kind, s: Service) {
    exists i :: 0 <= i < |services| && OnlyAt(services, kind, i) && services[i] == s
  }

  predicate HasNone(services: seq<Service>, kind: Kind) {
    forall i | 0 <= i < |services| :: services[i].kind != kind
  }

  predicate HasSeveral(services: seq<Service>, kind: Kind) {
    exists i, j :: 0 <= i < j < |services| && services[i].kind == kind && services[j].kind == kind
  }

  lemma NoneOfMore(init: seq<Service>, last: Service, kind: Kind)
    ensures HasNone(init + [last], kind) <==> HasNone(init, kind) && last.kind != kind
  {
    var services := init + [last];
    assert services[|init|] == last && forall i | 0 <= i < |init| :: services[i] == init[i];
  }

  lemma SeveralOfMore(init: seq<Service>, last: Service, kind: Kind)
    ensures HasSeveral(init + [last], kind) <==> HasSeveral(init, kind) || (!HasNone(init, kind) && last.kind == kind)
  {
    var services := init + [last];
    assert services[|init|] == last && forall i | 0 <= i < |init| :: services[i] == init[i];
    if HasSeveral(services, kind) {
      var i, j :| 0 <= i < j < |services| && services[i].kind == kind && services[j].kind == kind;
      assert init[i].kind == kind && (j < |init| ==> init[j].kind == kind);
    }
    if HasSeveral(init, kind) {
      var i, j :| 0 <= i < j < |init| && init[i].kind == kind && init[j].kind == kind;
      assert services[i] == init[i] && services[j] == init[j];
    }
    if !HasNone(init, kind) && last.kind == kind {
      var i :| 0 <= i < |init| && init[i].kind == kind;
      assert services[i] == init[i] && services[|init|] == last;
    }
  }

  lemma OnlyAtMore(init: seq<Service>, last: Service, kind: Kind, i: nat)
    requires i <= |init|
    ensures OnlyAt(init + [last], kind, i) <==>
              if last.kind == kind then i == |init| && HasNone(init, kind) else i < |init| && OnlyAt(init, kind, i)
  {
    var services := init + [last];
    assert services[|init|] == last && forall k | 0 <= k < |init| :: services[k] == init[k];
  }

  lemma OnlyOfMore(init: seq<Service>, last: Service, kind: Kind, s: Service)
    ensures IsOnly(init + [last], kind, s) <==>
              if last.kind == kind then HasNone(init, kind) && s == last else IsOnly(init, kind, s)
  {
    forall i: nat | i <= |init|
      ensures OnlyAt(init + [last], kind, i) <==>
                if last.kind == kind then i == |init| && HasNone(init, kind) else i < |init| && OnlyAt(init, kind, i)
    {
      OnlyAtMore(init, last, kind, i);
    }
    hide OnlyAt, HasNone;
    if last.kind == kind && HasNone(init, kind) {
      assert OnlyAt(init + [last], kind, |init|);
    }
  }

  lemma {:induction false} FoundByKind(services: seq<Service>, kind: Kind)
    ensures FindUnique(services, kind) == NoService <==> HasNone(services, kind)
    ensures FindUnique(services, kind) == SeveralServices <==> HasSeveral(services, kind)
    ensures forall s :: FindUnique(services, kind) == OneService(s) <==> IsOnly(services, kind, s)
  {
    if services != [] {
      hide HasNone, HasSeveral, IsOnly;
      var init, last := services[..|services| - 1], services[|services| - 1];
      assert services == init + [last];
      FoundByKind(init, kind);
      NoneOfMore(init, last, kind);
      SeveralOfMore(init, last, kind);
      forall s
        ensures IsOnly(services, kind, s) <==>
                  if last.kind == kind then HasNone(init, kind) && s == last else IsOnly(init, kind, s)
      {
        OnlyOfMore(init, last, kind, s);
      }
    }
  }

  /** The first service with the key. */
  predicate IsFirstWithKey(services: seq<Service>, key: string, s: Service) {
    exists i ::
      && 0 <= i < |services| && services[i] == s && s.key == key
      && forall j | 0 <= j < i :: services[j].key != key
  }

  lemma {:induction false} FoundByKey(services: seq<Service>, key: string, s: Service)
    ensures FindByKey(services, key) == Some(s) <==> IsFirstWithKey(services, key, s)
  {
    if services != [] {
      var rest := services[1..];
      FoundByKey(rest, key, s);
      if services[0].key == key {
        assert IsFirstWithKey(services, key, services[0]);
      } else {
        if IsFirstWithKey(rest, key, s) {
          var i :| 0 <= i < |rest| && rest[i] == s && s.key == key && forall j | 0 <= j < i :: rest[j].key != key;
          assert services[i + 1] == s && forall j | 0 < j < i + 1 :: services[j] == rest[j - 1];
        }
        if IsFirstWithKey(services, key, s) {
          var i :| 0 <= i < |services| && services[i] == s && s.key == key
                   && forall j | 0 <= j < i :: services[j].key != key;
          assert rest[i - 1] == s && forall j | 0 <= j < i - 1 :: rest[j] == services[j + 1];
        }
      }
    }
  }

  /** The service asked for by its key, which must be a local or an update domain; without a key the only local
      domain. */
  predicate IsTarget(cfg: Config, key: string, target: Service) {
    if key == "" then IsOnly(cfg.services, LocalDomain, target)
    else IsFirstWithKey(cfg.services, key, target) && (target.kind == LocalDomain || target.kind == UpdateDomain)
  }

  /** An optional service is planned when it is the only one of its kind and has a table. */
  predicate IsOptional(cfg: Config, kind: Kind, timed: bool, ms: seq<Membership>) {
    && !HasSeveral(cfg.services, kind)
    && if exists s :: s in cfg.currentTables && IsOnly(cfg.services, kind, s)
       then |ms| == 1 && ms[0].timed == timed && ms[0].service in cfg.currentTables
            && IsOnly(cfg.services, kind, ms[0].service)
       else ms == []
  }

  /** An update domain is planned alone, without the inbox; a local domain with the storage, and with the combined
      services that exist, of which only the local one gets the time. */
  ghost predicate IsPlan(cfg: Config, key: string, plan: Plan) {
    exists target ::
      && IsTarget(cfg, key, target) && target in cfg.currentTables
      && if target.kind == UpdateDomain then plan == Plan([Membership(target, true)], false)
         else
           exists storage, local, all ::
             && IsOnly(cfg.services, LocalStorage, storage) && storage in cfg.currentTables
             && IsOptional(cfg, CombinedLocal, true, local) && IsOptional(cfg, CombinedFile, false, all)
             && plan == Plan([Membership(target, true), Membership(storage, true)] + local + all, true)
  }

  lemma OptionalIff(cfg: Config, kind: Kind, timed: bool, ms: seq<Membership>)
    ensures WithOptional(cfg, kind, timed, false) == Some(ms) <==> IsOptional(cfg, kind, timed, ms)
  {
    FoundByKind(cfg.services, kind);
    hide FindUnique, HasSeveral, IsOnly;
    if |ms| == 1 {
      assert ms == [Membership(ms[0].service, ms[0].timed)];
    }
  }

  lemma TargetIff(cfg: Config, key: string, target: Service)
    ensures TargetService(cfg, key) == Some(target) <==> IsTarget(cfg, key, target)
  {
    FoundByKind(cfg.services, LocalDomain);
    FoundByKey(cfg.services, key, target);
    if FindByKey(cfg.services, key).Some? {
      FoundByKey(cfg.services, key, FindByKey(cfg.services, key).value);
    }
    hide FindUnique, FindByKey, IsFirstWithKey, IsOnly;
  }

  /** Which plan an import has, if it has one. */
  lemma PlanIff(cfg: Config, key: string, plan: Plan)
    ensures PlanFor(cfg, key) == Some(plan) <==> IsPlan(cfg, key, plan)
  {
    forall target ensures TargetService(cfg, key) == Some(target) <==> IsTarget(cfg, key, target) {
      TargetIff(cfg, key, target);
    }
    FoundByKind(cfg.services, LocalStorage);
    forall ms
      ensures WithOptional(cfg, CombinedLocal, true, false) == Some(ms) <==> IsOptional(cfg, CombinedLocal, true, ms)
    {
      OptionalIff(cfg, CombinedLocal, true, ms);
    }
    forall ms
      ensures WithOptional(cfg, CombinedFile, false, false) == Some(ms) <==> IsOptional(cfg, CombinedFile, false, ms)
    {
      OptionalIff(cfg, CombinedFile, false, ms);
    }
    hide TargetService, FindUnique, WithOptional, IsTarget, IsOptional, IsOnly;
  }

  // ----- Importing -----

  /** What importing writes beside the file's own rows: its pixel hash, its transparency and its urls. */
  ghost predicate ExtrasWritten(cfg: Config, before: Files, after: Files, f: FileId, p: Prepared) {
    && (if cfg.hasPixels && p.pixelHash != "" then
          && p.pixelHash in after.hashes.idOf
          && after.pixels == before.pixels + {(f, FileId(after.hashes.idOf[p.pixelHash]))}
        else after.pixels == before.pixels)
    && after.transparent == before.transparent
                            + (if cfg.hasTransparency && p.transparency == Some(true) then {f} else {})
    && after.urls == before.urls + (if cfg.hasUrls then p.urls else {})
    && forall g, u :: (g, u) in after.urlMap <==> (g, u) in before.urlMap || (cfg.hasUrls && g == f && u in p.urls)
  }

  /** Hashes keep their ids, and new ones get ids larger than any before. */
  predicate HashesAdded(before: IdTable<string>, after: IdTable<string>, added: set<string>) {
    && after.idOf.Keys == before.idOf.Keys + added && Extends(before.idOf, after.idOf) && before.top <= after.top
    && forall h | h in after.idOf && h !in before.idOf :: before.top < after.idOf[h] <= after.top
  }

  function PixelHashes(cfg: Config, p: Prepared): set<string> {
    if cfg.hasPixels && p.pixelHash != "" then {p.pixelHash} else {}
  }

  /** The rows of a file in the planned services, the timed ones with the time. */
  ghost predicate Joined(before: map<(Service, FileId), Option<int>>, after: map<(Service, FileId), Option<int>>,
                         f: FileId, ms: seq<Membership>, importedAt: int)
  {
    && (forall i | 0 <= i < |ms| ::
          (ms[i].service, f) in after && after[(ms[i].service, f)] == if ms[i].timed then Some(importedAt) else None)
    && forall k: (Service, FileId) | k.1 != f || forall i | 0 <= i < |ms| :: ms[i].service != k.0 ::
         (k in after <==> k in before) && (k in after ==> after[k] == before[k])
  }

  /** A file's first import, table by table. */
  ghost predicate ImportedAnew(cfg: Config, before: Files, after: Files, f: FileId, p: Prepared, plan: Plan) {
    && p.hash in after.hashes.idOf && f == FileId(after.hashes.idOf[p.hash])
    && HashesAdded(before.hashes, after.hashes, {p.hash} + PixelHashes(cfg, p))
    && after.info == before.info[f := p.info]
    && after.modified == (if p.modifiedAt.Some? then before.modified[f := p.modifiedAt.value] else before.modified)
    && after.inbox == before.inbox + (if plan.createInbox then {f} else {})
    && after.deleted == before.deleted
    && Joined(before.current, after.current, f, plan.memberships, p.importedAt)
    && ExtrasWritten(cfg, before, after, f, p)
  }

  /** A file imported again: only what comes beside its own rows is written. */
  ghost predicate ImportedAgain(cfg: Config, before: Files, after: Files, f: FileId, p: Prepared) {
    && p.hash in before.hashes.idOf && f == FileId(before.hashes.idOf[p.hash]) && f in before.info
    && HashesAdded(before.hashes, after.hashes, PixelHashes(cfg, p))
    && after.info == before.info && after.modified == before.modified && after.inbox == before.inbox
    && after.current == before.current && after.deleted == before.deleted
    && ExtrasWritten(cfg, before, after, f, p)
  }

  /** A stored row contradicts the prepared import. */
  ghost predicate Differs(cfg: Config, s: Files, f: FileId, p: Prepared, plan: Plan) {
    || f !in s.info || s.info[f] != p.info
    || (p.modifiedAt.Some? && (f !in s.modified || s.modified[f] != p.modifiedAt.value))
    || (p.modifiedAt.None? && f in s.modified)
    || (exists i | 0 <= i < |plan.memberships| ::
          var k := (plan.memberships[i].service, f);
          k !in s.current || s.current[k].Some? != plan.memberships[i].timed)
    || (cfg.hasPixels && exists a, b :: (f, a) in s.pixels && (f, b) in s.pixels && a != b)
    || (cfg.hasPixels && p.pixelHash != ""
        && exists a :: (f, a) in s.pixels && !(p.pixelHash in s.hashes.idOf && a == FileId(s.hashes.idOf[p.pixelHash])))
    || (cfg.hasTransparency && p.transparency == Some(false) && f in s.transparent)
  }

  /** A row that a first import inserts is there already. */
  predicate Taken(s: Files, f: FileId, p: Prepared, plan: Plan) {
    || (plan.createInbox && f in s.inbox) || (p.modifiedAt.Some? && f in s.modified)
    || exists i | 0 <= i < |plan.memberships| :: (plan.memberships[i].service, f) in s.current
  }

  lemma DiffersIff(cfg: Config, s: Files, f: FileId, p: Prepared, plan: Plan)
    ensures MatchesExisting(cfg, s, f, p, plan) <==> !Differs(cfg, s, f, p, plan)
  {
    forall a ensures a in PixelsOf(s, f) <==> (f, a) in s.pixels {
      if (f, a) in s.pixels {
        var q := (f, a);
        assert q in s.pixels && q.0 == f;
      }
    }
    hide PixelsOf;
    assert (forall i | 0 <= i < |plan.memberships| :: MembershipMatches(s, f, plan.memberships[i]))
      <==> !exists i | 0 <= i < |plan.memberships| ::
             var k := (plan.memberships[i].service, f);
             k !in s.current || s.current[k].Some? != plan.memberships[i].timed;
  }

  lemma InsertAdds(t: IdTable<string>, hash: string)
    ensures HashesAdded(t, Insert(t, hash), {hash})
  {
  }

  lemma AddedTwice(a: IdTable<string>, b: IdTable<string>, c: IdTable<string>, some: set<string>, more: set<string>)
    requires HashesAdded(a, b, some) && HashesAdded(b, c, more)
    ensures HashesAdded(a, c, some + more)
  {
  }

  lemma ExtraRowsWritten(cfg: Config, s: Files, f: FileId, p: Prepared)
    ensures var t := WithUrls(cfg, WithAuxiliary(cfg, s, f, p), f, p);
            ExtrasWritten(cfg, s, t, f, p) && HashesAdded(s.hashes, t.hashes, PixelHashes(cfg, p))
  {
    InsertAdds(s.hashes, p.pixelHash);
    forall g, u ensures (g, u) in UrlRows(f, p.urls) <==> g == f && u in p.urls {}
    hide UrlRows, Insert;
  }

  lemma JoinedMore(before: map<(Service, FileId), Option<int>>, middle: map<(Service, FileId), Option<int>>, f: FileId,
                   init: seq<Membership>, last: Membership, importedAt: int)
    requires Joined(before, middle, f, init, importedAt)
    requires forall i | 0 <= i < |init| :: init[i].service != last.service
    ensures Joined(before, middle[(last.service, f) := if last.timed then Some(importedAt) else None], f, init + [last],
                   importedAt)
  {
    var ms := init + [last];
    assert ms[|init|] == last && forall i | 0 <= i < |init| :: ms[i] == init[i];
    forall k: (Service, FileId) | k.1 != f || forall i | 0 <= i < |ms| :: ms[i].service != k.0
      ensures k != (last.service, f) && (k.1 != f || forall i | 0 <= i < |init| :: init[i].service != k.0)
    {
      if k.1 == f {
        assert ms[|init|].service != k.0;
        assert forall i | 0 <= i < |init| :: init[i].service == ms[i].service;
      }
    }
  }

  lemma {:induction false} MembershipsJoined(s: Files, f: FileId, ms: seq<Membership>, importedAt: int)
    requires forall i, j | 0 <= i < j < |ms| :: ms[i].service.kind != ms[j].service.kind
    ensures var t := WithMemberships(s, f, ms, importedAt);
            t == s.(current := t.current) && Joined(s.current, t.current, f, ms, importedAt)
  {
    if ms != [] {
      var init, last := ms[..|ms| - 1], ms[|ms| - 1];
      MembershipsJoined(s, f, init, importedAt);
      hide Joined;
      assert ms == init + [last];
      assert forall i | 0 <= i < |init| :: init[i] == ms[i] && ms[i].service != last.service;
      JoinedMore(s.current, WithMemberships(s, f, init, importedAt).current, f, init, last, importedAt);
    }
  }

  /** The file's own rows are written between the rows beside them, in other tables. */
  lemma NewImportTables(cfg: Config, s: Files, f: FileId, p: Prepared, plan: Plan)
    requires CanInsert(s, f, p, plan)
    requires forall i, j | 0 <= i < j < |plan.memberships| ::
               plan.memberships[i].service.kind != plan.memberships[j].service.kind
    ensures var z := s.(info := s.info[f := p.info]);
            var e := WithUrls(cfg, WithAuxiliary(cfg, z, f, p), f, p);
            var r := ImportNew(cfg, s, f, p, plan);
            && r.Imported?
            && r.files == e.(inbox := s.inbox + if plan.createInbox then {f} else {},
                             modified := if p.modifiedAt.Some? then s.modified[f := p.modifiedAt.value] else s.modified,
                             current := r.files.current)
            && e.info == z.info && e.deleted == s.deleted
            && Joined(s.current, r.files.current, f, plan.memberships, p.importedAt)
  {
    var a := WithAuxiliary(cfg, s.(info := s.info[f := p.info]), f, p);
    var b := if plan.createInbox then a.(inbox := a.inbox + {f}) else a;
    var c := if p.modifiedAt.Some? then b.(modified := b.modified[f := p.modifiedAt.value]) else b;
    MembershipsJoined(c, f, plan.memberships, p.importedAt);
    hide Joined, WithMemberships;
  }

  lemma NewRowsWritten(cfg: Config, s: Files, f: FileId, p: Prepared, plan: Plan)
    requires f == FileId(Insert(s.hashes, p.hash).idOf[p.hash]) && PlanFor(cfg, p.serviceKey) == Some(plan)
    requires CanInsert(s, f, p, plan)
    ensures var r := ImportNew(cfg, s.(hashes := Insert(s.hashes, p.hash)), f, p, plan);
            r.Imported? && ImportedAnew(cfg, s, r.files, f, p, plan)
  {
    var h := s.(hashes := Insert(s.hashes, p.hash));
    var z := h.(info := s.info[f := p.info]);
    var e := WithUrls(cfg, WithAuxiliary(cfg, z, f, p), f, p);
    PlanServicesDiffer(cfg, p.serviceKey);
    NewImportTables(cfg, h, f, p, plan);
    ExtraRowsWritten(cfg, z, f, p);
    InsertAdds(s.hashes, p.hash);
    AddedTwice(s.hashes, z.hashes, e.hashes, {p.hash}, PixelHashes(cfg, p));
    assert Insert(s.hashes, p.hash).idOf[p.hash] == e.hashes.idOf[p.hash];
    hide PlanFor, Insert, HashesAdded, Joined, WithAuxiliary, WithUrls, ImportNew;
    assert ExtrasWritten(cfg, s, ImportNew(cfg, h, f, p, plan).files, f, p);
  }

  /** The file has been imported before. */
  predicate Known(s: Files, hash: string) {
    hash in s.hashes.idOf && FileId(s.hashes.idOf[hash]) in s.info
  }

  /** The id of the hash, or the next one. */
  function IdFor(s: Files, hash: string): FileId {
    FileId(if hash in s.hashes.idOf then s.hashes.idOf[hash] else s.hashes.top + 1)
  }

  /** Nothing is planned for the import, a known file differs from it, or a row of a new one is taken. */
  ghost predicate ImportIsRefused(cfg: Config, s: Files, p: Prepared) {
    forall plan | IsPlan(cfg, p.serviceKey, plan) ::
      if Known(s, p.hash) then Differs(cfg, s, IdFor(s, p.hash), p, plan) else Taken(s, IdFor(s, p.hash), p, plan)
  }

  /** An import is refused, writes a known file's additions, or writes a new file's rows. */
  ghost predicate ImportWrites(cfg: Config, before: Files, after: Files, p: Prepared, f: FileId, already: bool) {
    && (already <==> Known(before, p.hash))
    && if already then ImportedAgain(cfg, before, after, f, p)
       else exists plan :: IsPlan(cfg, p.serviceKey, plan) && ImportedAnew(cfg, before, after, f, p, plan)
  }

  lemma KnownImport(cfg: Config, s: Files, p: Prepared, plan: Plan)
    requires Known(s, p.hash) && PlanFor(cfg, p.serviceKey) == Some(plan)
    ensures var r, f := Import(cfg, s, p), IdFor(s, p.hash);
            && (r.ImportRefused? <==> Differs(cfg, s, f, p, plan))
            && (r.Imported? ==> r.id == f && r.already && ImportedAgain(cfg, s, r.files, f, p))
  {
    var f := IdFor(s, p.hash);
    DiffersIff(cfg, s, f, p, plan);
    ExtraRowsWritten(cfg, s, f, p);
    hide PlanFor, MatchesExisting, Differs, ImportNew, HashesAdded, ExtrasWritten;
  }

  lemma NewImport(cfg: Config, s: Files, p: Prepared, plan: Plan)
    requires !Known(s, p.hash) && PlanFor(cfg, p.serviceKey) == Some(plan)
    ensures var r, f := Import(cfg, s, p), IdFor(s, p.hash);
            && (r.ImportRefused? <==> Taken(s, f, p, plan))
            && (r.Imported? ==> r.id == f && !r.already && ImportedAnew(cfg, s, r.files, f, p, plan))
  {
    var f, h := IdFor(s, p.hash), s.(hashes := Insert(s.hashes, p.hash));
    assert f == FileId(Insert(s.hashes, p.hash).idOf[p.hash]);
    assert CanInsert(s, f, p, plan) <==> !Taken(s, f, p, plan);
    assert Import(cfg, s, p) == ImportNew(cfg, h, f, p, plan);
    assert CanInsert(h, f, p, plan) <==> CanInsert(s, f, p, plan);
    assert ImportNew(cfg, h, f, p, plan).Imported? <==> CanInsert(h, f, p, plan);
    hide PlanFor, MatchesExisting, Taken, ImportNew, CanInsert, Import;
    if CanInsert(s, f, p, plan) {
      NewRowsWritten(cfg, s, f, p, plan);
      assert ImportNew(cfg, h, f, p, plan).id == f && !ImportNew(cfg, h, f, p, plan).already by {
        NewImportIs(cfg, h, f, p, plan);
      }
    }
  }

  lemma NewImportIs(cfg: Config, s: Files, f: FileId, p: Prepared, plan: Plan)
    requires CanInsert(s, f, p, plan)
    ensures ImportNew(cfg, s, f, p, plan).Imported?
    ensures ImportNew(cfg, s, f, p, plan).id == f && !ImportNew(cfg, s, f, p, plan).already
  {
  }

  /** When an import is refused, and what it writes otherwise. */
  lemma ImportByRows(cfg: Config, s: Files, p: Prepared)
    ensures Import(cfg, s, p).ImportRefused? <==> ImportIsRefused(cfg, s, p)
    ensures Import(cfg, s, p).Imported? ==>
              ImportWrites(cfg, s, Import(cfg, s, p).files, p, Import(cfg, s, p).id, Import(cfg, s, p).already)
  {
    forall plan ensures IsPlan(cfg, p.serviceKey, plan) <==> PlanFor(cfg, p.serviceKey) == Some(plan) {
      PlanIff(cfg, p.serviceKey, plan);
    }
    if PlanFor(cfg, p.serviceKey).Some? {
      var plan := PlanFor(cfg, p.serviceKey).value;
      if Known(s, p.hash) {
        KnownImport(cfg, s, p, plan);
      } else {
        NewImport(cfg, s, p, plan);
      }
      hide Import, IsPlan, PlanFor, Differs, Taken, ImportedAgain, ImportedAnew, Known;
    }
  }

  // ----- Trashing -----

  predicate HasTime(current: map<(Service, FileId), Option<int>>, s: Service, f: FileId) {
    (s, f) in current && current[(s, f)].Some?
  }

  /** The import time in the first service of the kind that has one. */
  predicate TimeOfKind(services: seq<Service>, current: map<(Service, FileId), Option<int>>, f: FileId, kind: Kind,
                       time: Option<int>)
  {
    exists i ::
      && 0 <= i < |services| && services[i].kind == kind && HasTime(current, services[i], f)
      && current[(services[i], f)] == time
      && forall j | 0 <= j < i && services[j].kind == kind :: !HasTime(current, services[j], f)
  }

  predicate NoTimeOfKind(services: seq<Service>, current: map<(Service, FileId), Option<int>>, f: FileId, kind: Kind) {
    forall i | 0 <= i < |services| && services[i].kind == kind :: !HasTime(current, services[i], f)
  }

  lemma {:induction false} FirstTimeIs(services: seq<Service>, files: Files, f: FileId, kind: Kind)
    ensures var time := FirstTime(services, files, f, kind);
            if time.Some? then TimeOfKind(services, files.current, f, kind, time)
            else NoTimeOfKind(services, files.current, f, kind)
  {
    if services != [] {
      var rest := services[1..];
      var current, time := files.current, FirstTime(services, files, f, kind);
      FirstTimeIs(rest, files, f, kind);
      assert forall j | 0 <= j < |rest| :: rest[j] == services[j + 1];
      if services[0].kind == kind && HasTime(current, services[0], f) {
        assert TimeOfKind(services, current, f, kind, time);
      } else if time.Some? {
        var i :| 0 <= i < |rest| && rest[i].kind == kind && HasTime(current, rest[i], f)
                 && current[(rest[i], f)] == time
                 && forall j | 0 <= j < i && rest[j].kind == kind :: !HasTime(current, rest[j], f);
        assert services[i + 1] == rest[i];
        forall j | 0 <= j < i + 1 && services[j].kind == kind ensures !HasTime(current, services[j], f) {
          if j > 0 { assert services[j] == rest[j - 1]; }
        }
      } else {
        forall j | 0 <= j < |services| && services[j].kind == kind ensures !HasTime(current, services[j], f) {
          if j > 0 { assert services[j] == rest[j - 1]; }
        }
      }
    }
  }

  /** The time of the combined local service, else of a local domain, else of the storage, else none. */
  predicate IsOriginal(services: seq<Service>, current: map<(Service, FileId), Option<int>>, f: FileId,
                       time: Option<int>)
  {
    || TimeOfKind(services, current, f, CombinedLocal, time)
    || (&& NoTimeOfKind(services, current, f, CombinedLocal)
        && (|| TimeOfKind(services, current, f, LocalDomain, time)
            || (&& NoTimeOfKind(services, current, f, LocalDomain)
                && (|| TimeOfKind(services, current, f, LocalStorage, time)
                    || (NoTimeOfKind(services, current, f, LocalStorage) && time == None)))))
  }

  lemma OriginalIs(services: seq<Service>, files: Files, f: FileId)
    ensures IsOriginal(services, files.current, f, OriginalImport(services, files, f, PREFERRED))
  {
    FirstTimeIs(services, files, f, CombinedLocal);
    FirstTimeIs(services, files, f, LocalDomain);
    FirstTimeIs(services, files, f, LocalStorage);
    hide FirstTime, TimeOfKind, NoTimeOfKind;
    assert OriginalImport(services, files, f, []) == None;
    assert [LocalStorage][1..] == [] && [LocalDomain, LocalStorage][1..] == [LocalStorage];
    assert OriginalImport(services, files, f, [LocalStorage]) == FirstTime(services, files, f, LocalStorage);
    assert PREFERRED[1..] == [LocalDomain, LocalStorage];
    assert OriginalImport(services, files, f, PREFERRED[1..])
        == if FirstTime(services, files, f, LocalDomain).Some? then FirstTime(services, files, f, LocalDomain)
           else FirstTime(services, files, f, LocalStorage);
  }

  /** The kinds of service a trashed file leaves. */
  predicate IsLeft(kind: Kind) {
    kind in {LocalDomain, LocalStorage, CombinedLocal, CombinedFile}
  }

  /** The current rows: the file leaves its local, storage and combined services and enters the trash now. */
  ghost predicate CurrentMoved(before: map<(Service, FileId), Option<int>>, after: map<(Service, FileId), Option<int>>,
                               trash: Service, f: FileId, now: int)
  {
    && (forall k: (Service, FileId) ::
          k in after <==> k == (trash, f) || (k in before && !(k.1 == f && IsLeft(k.0.kind))))
    && forall k | k in after :: after[k] == if k == (trash, f) then Some(now) else before[k]
  }

  /** The deleted rows: the combined local service remembers when the file was deleted and first imported, the
      combined file service that it was deleted; a known import time is kept. */
  ghost predicate DeletedNoted(cfg: Config, s: Files, after: map<(Service, FileId), DeletedRow>, f: FileId, now: int) {
    forall k: (Service, FileId) ::
      if k.1 == f && IsOnly(cfg.services, CombinedLocal, k.0) && k.0 in cfg.deletedTables then
        && k in after && after[k].deletedAt == Some(now)
        && if k in s.deleted && s.deleted[k].importedAt.Some? then after[k].importedAt == s.deleted[k].importedAt
           else IsOriginal(cfg.services, s.current, f, after[k].importedAt)
      else if k.1 == f && IsOnly(cfg.services, CombinedFile, k.0) && k.0 in cfg.deletedTables then
        k in after && after[k] == DeletedRow(None, if k in s.deleted then s.deleted[k].importedAt else None)
      else
        (k in after <==> k in s.deleted) && (k in after ==> after[k] == s.deleted[k])
  }

  /** A file moved to the trash, table by table. */
  ghost predicate MovedToTrash(cfg: Config, before: Files, after: Files, f: FileId, now: int) {
    && after == before.(current := after.current, deleted := after.deleted)
    && (exists trash ::
          IsOnly(cfg.services, Trash, trash) && trash in cfg.currentTables
          && CurrentMoved(before.current, after.current, trash, f, now))
    && DeletedNoted(cfg, before, after.deleted, f, now)
  }

  /** No such file; or it is not in the trash yet and cannot be put there: the trash is missing or ambiguous, there is
      nothing to remove it from, or a combined service is ambiguous. */
  ghost predicate TrashIsRefused(cfg: Config, s: Files, f: FileId) {
    || f.n <= 0 || f !in s.info
    || (&& (forall k | k in s.current && k.1 == f :: k.0.kind != Trash)
        && (|| (forall trash | trash in cfg.currentTables :: !IsOnly(cfg.services, Trash, trash))
            || (forall k | k in s.current && k.1 == f :: !IsLeft(k.0.kind))
            || HasSeveral(cfg.services, CombinedLocal) || HasSeveral(cfg.services, CombinedFile)))
  }

  lemma RemovalsIff(s: Files, f: FileId, k: (Service, FileId))
    requires k in s.current && k.1 == f
    ensures k.0 in Removals(s, f) <==> IsLeft(k.0.kind)
  {
  }

  lemma NoRemovals(s: Files, f: FileId)
    ensures Removals(s, f) == {} <==> forall k | k in s.current && k.1 == f :: !IsLeft(k.0.kind)
  {
    forall k | k in s.current && k.1 == f ensures k.0 in Removals(s, f) <==> IsLeft(k.0.kind) {
      RemovalsIff(s, f, k);
    }
    if Removals(s, f) != {} {
      var x :| x in Removals(s, f);
      var k :| k in s.current && k.1 == f && Removable(k.0.kind) && x == k.0;
      assert k in s.current && IsLeft(k.0.kind);
    }
  }

  lemma CurrentIsMoved(s: Files, trash: Service, f: FileId, now: int)
    ensures var kept := map k | k in s.current && !(k.1 == f && k.0 in Removals(s, f)) :: s.current[k];
            CurrentMoved(s.current, kept[(trash, f) := Some(now)], trash, f, now)
  {
    forall k | k in s.current && k.1 == f ensures k.0 in Removals(s, f) <==> IsLeft(k.0.kind) {
      RemovalsIff(s, f, k);
    }
    hide Removals, IsLeft;
  }

  lemma DeletedIsNoted(cfg: Config, s: Files, f: FileId, now: int)
    requires FindUnique(cfg.services, CombinedLocal) != SeveralServices
    requires FindUnique(cfg.services, CombinedFile) != SeveralServices
    ensures var local, all := FindUnique(cfg.services, CombinedLocal), FindUnique(cfg.services, CombinedFile);
            var original := OriginalImport(cfg.services, s, f, PREFERRED);
            var deleted := WithDeleted(cfg, WithDeleted(cfg, s.deleted, local, f, DeletedRow(Some(now), original)),
                                       all, f, DeletedRow(None, None));
            DeletedNoted(cfg, s, deleted, f, now)
  {
    OriginalIs(cfg.services, s, f);
    FoundByKind(cfg.services, CombinedLocal);
    FoundByKind(cfg.services, CombinedFile);
    hide OriginalImport, IsOriginal, IsOnly, HasNone, HasSeveral, FindUnique;
  }

  lemma TrashRefusedByRows(cfg: Config, s: Files, f: FileId, now: int)
    ensures TrashFile(cfg, s, f, now).TrashRefused? <==> TrashIsRefused(cfg, s, f)
  {
    FoundByKind(cfg.services, Trash);
    FoundByKind(cfg.services, CombinedLocal);
    FoundByKind(cfg.services, CombinedFile);
    NoRemovals(s, f);
    assert IsTrashed(s, f) <==> !forall k | k in s.current && k.1 == f :: k.0.kind != Trash;
    hide Removals, IsLeft, FindUnique, IsOnly, HasNone, HasSeveral, OriginalImport, WithDeleted, IsTrashed;
  }

  /** When trashing is refused, and what it changes otherwise. */
  lemma TrashByRows(cfg: Config, s: Files, f: FileId, now: int)
    ensures TrashFile(cfg, s, f, now).TrashRefused? <==> TrashIsRefused(cfg, s, f)
    ensures TrashFile(cfg, s, f, now).Trashed? ==>
              var t, removed := TrashFile(cfg, s, f, now).files, TrashFile(cfg, s, f, now).removedFromRecent;
              && (removed <==> forall k | k in s.current && k.1 == f :: k.0.kind != Trash)
              && if removed then MovedToTrash(cfg, s, t, f, now) else t == s
  {
    TrashRefusedByRows(cfg, s, f, now);
    assert IsTrashed(s, f) <==> !forall k | k in s.current && k.1 == f :: k.0.kind != Trash;
    hide TrashIsRefused, Removals, IsLeft, FindUnique, IsOnly, OriginalImport, WithDeleted, CurrentMoved, DeletedNoted,
         IsTrashed;
    if TrashFile(cfg, s, f, now).Trashed? && !IsTrashed(s, f) {
      FoundByKind(cfg.services, Trash);
      var trash := FindUnique(cfg.services, Trash).service;
      CurrentIsMoved(s, trash, f, now);
      DeletedIsNoted(cfg, s, f, now);
    }
  }
}
