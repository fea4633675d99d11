/** Importing files into and trashing them out of the local file services: the tables both transactions
    write, what the two decide and what they leave behind. */
module FileLife {
  import opened Interning

  datatype FileId = FileId(n: int)

  datatype Kind = LocalDomain | UpdateDomain | LocalStorage | CombinedLocal | CombinedFile | Trash | OtherKind

  datatype Service = Service(id: int, kind: Kind, key: string)

  /** The services that are defined and the tables and features that exist; fixed while files come and go. */
  datatype Config = Config(services: seq<Service>, currentTables: set<Service>, deletedTables: set<Service>,
                           hasPixels: bool, hasTransparency: bool, hasUrls: bool)

  /** A files_info row without its id. */
  datatype Info = Info(size: int, mime: int, width: Option<int>, height: Option<int>, duration: Option<int>,
                       numFrames: Option<int>, hasAudio: Option<int>, numWords: Option<int>)

  /** A prepared import, normalized; an empty pixel hash or service key is an absent one. */
  datatype Prepared = Prepared(hash: string, info: Info, pixelHash: string, transparency: Option<bool>,
                               importedAt: int, modifiedAt: Option<int>, urls: set<string>, serviceKey: string)

  datatype DeletedRow = DeletedRow(deletedAt: Option<int>, importedAt: Option<int>)

  datatype Files = Files(
    hashes: IdTable<string>,
    info: map<FileId, Info>,
    modified: map<FileId, int>,
    inbox: set<FileId>,
    current: map<(Service, FileId), Option<int>>,
    deleted: map<(Service, FileId), DeletedRow>,
    pixels: set<(FileId, FileId)>,
    transparent: set<FileId>,
    urls: set<string>,
    urlMap: set<(FileId, string)>)

  const NO_FILES := Files(IdTable(map[], 0), map[], map[], {}, map[], map[], {}, {}, {}, {})

  // ----- The import plan -----

  /** Membership of one service to be written, with the import time or without. */
  datatype Membership = Membership(service: Service, timed: bool)

  datatype Plan = Plan(memberships: seq<Membership>, createInbox: bool)

  datatype Found = NoService | OneService(service: Service) | SeveralServices

  function FindUnique(services: seq<Service>, kind: Kind): (f: Found)
    ensures f.OneService? ==> f.service in services && f.service.kind == kind
  {
    if services == [] then NoService
    else
      var before := FindUnique(services[..|services| - 1], kind);
      var last := services[|services| - 1];
      if last.kind != kind then before else if before == NoService then OneService(last) else SeveralServices
  }

  function FindByKey(services: seq<Service>, key: string): (s: Option<Service>)
    ensures s.Some? ==> s.value in services
  {
    if services == [] then None
    else if services[0].key == key then Some(services[0])
    else FindByKey(services[1..], key)
  }

  function TargetService(cfg: Config, key: string): (s: Option<Service>)
    ensures s.Some? ==> s.value.kind == LocalDomain || s.value.kind == UpdateDomain
  {
    if key != "" then
      match FindByKey(cfg.services, key)
      case Some(s) => if s.kind == LocalDomain || s.kind == UpdateDomain then Some(s) else None
      case None => None
    else
      match FindUnique(cfg.services, LocalDomain)
      case OneService(s) => Some(s)
      case _ => None
  }

  function WithOptional(cfg: Config, kind: Kind, timed: bool, required: bool): Option<seq<Membership>> {
    match FindUnique(cfg.services, kind)
    case SeveralServices => None
    case NoService => Some([])
    case OneService(s) =>
      if s in cfg.currentTables then Some([Membership(s, timed)]) else if required then None else Some([])
  }

  function PlanFor(cfg: Config, key: string): (p: Option<Plan>) {
    match TargetService(cfg, key)
    case None => None
    case Some(target) =>
      if target !in cfg.currentTables then None
      else if target.kind == UpdateDomain then Some(Plan([Membership(target, true)], false))
      else
        match FindUnique(cfg.services, LocalStorage)
        case OneService(storage) =>
          if storage !in cfg.currentTables then None
          else
            (match (WithOptional(cfg, CombinedLocal, true, false), WithOptional(cfg, CombinedFile, false, false))
             case (Some(local), Some(all)) =>
               Some(Plan([Membership(target, true), Membership(storage, true)] + local + all, true))
             case _ => None)
        case _ => None
  }

  /** The services of a plan are of different kinds, none of them the trash. */
  lemma PlanServicesDiffer(cfg: Config, key: string)
    requires PlanFor(cfg, key).Some?
    ensures var ms := PlanFor(cfg, key).value.memberships;
            && (forall i, j | 0 <= i < j < |ms| :: ms[i].service.kind != ms[j].service.kind)
            && (forall i | 0 <= i < |ms| :: ms[i].service.kind != Trash)
  {
  }

  // ----- Importing -----

  datatype ImportOutcome = Imported(files: Files, id: FileId, already: bool) | ImportRefused

  /** What the current tables say of a file and a planned membership. */
  predicate MembershipMatches(files: Files, f: FileId, m: Membership) {
    (m.service, f) in files.current && (files.current[(m.service, f)].Some? <==> m.timed)
  }

  function PixelsOf(files: Files, f: FileId): set<FileId> {
    set p | p in files.pixels && p.0 == f :: p.1
  }

  /** At most one pixel hash is stored, and it is the expected one if there is one to expect. */
  predicate PixelsMatch(files: Files, f: FileId, pixelHash: string) {
    && (forall a, b | a in PixelsOf(files, f) && b in PixelsOf(files, f) :: a == b)
    && (pixelHash != "" ==>
          forall a | a in PixelsOf(files, f) ::
            pixelHash in files.hashes.idOf && a == FileId(files.hashes.idOf[pixelHash]))
  }

  predicate MatchesExisting(cfg: Config, files: Files, f: FileId, p: Prepared, plan: Plan) {
    && f in files.info && files.info[f] == p.info
    && (if p.modifiedAt.Some? then f in files.modified && files.modified[f] == p.modifiedAt.value
        else f !in files.modified)
    && (forall i | 0 <= i < |plan.memberships| :: MembershipMatches(files, f, plan.memberships[i]))
    && (cfg.hasPixels ==> PixelsMatch(files, f, p.pixelHash))
    && (cfg.hasTransparency && p.transparency == Some(false) ==> f !in files.transparent)
  }

  function WithPixels(cfg: Config, files: Files, f: FileId, p: Prepared): Files {
    if cfg.hasPixels && p.pixelHash != "" then
      var hashes := Insert(files.hashes, p.pixelHash);
      files.(hashes := hashes, pixels := files.pixels + {(f, FileId(hashes.idOf[p.pixelHash]))})
    else files
  }

  function WithTransparency(cfg: Config, files: Files, f: FileId, p: Prepared): Files {
    if cfg.hasTransparency && p.transparency == Some(true) then files.(transparent := files.transparent + {f})
    else files
  }

  function WithAuxiliary(cfg: Config, files: Files, f: FileId, p: Prepared): Files {
    WithTransparency(cfg, WithPixels(cfg, files, f, p), f, p)
  }

  /** The url rows of a file. */
  function UrlRows(f: FileId, urls: set<string>): set<(FileId, string)> {
    set u | u in urls :: (f, u)
  }

  function WithUrls(cfg: Config, files: Files, f: FileId, p: Prepared): Files {
    if cfg.hasUrls then
      files.(urls := files.urls + p.urls, urlMap := files.urlMap + UrlRows(f, p.urls))
    else files
  }

  function WithMemberships(files: Files, f: FileId, ms: seq<Membership>, importedAt: int): Files {
    if ms == [] then files
    else
      var m := ms[|ms| - 1];
      var before := WithMemberships(files, f, ms[..|ms| - 1], importedAt);
      before.(current := before.current[(m.service, f) := if m.timed then Some(importedAt) else None])
  }

  /** The rows of a new file can be inserted: none of their keys is taken. */
  predicate CanInsert(files: Files, f: FileId, p: Prepared, plan: Plan) {
    && (plan.createInbox ==> f !in files.inbox)
    && (p.modifiedAt.Some? ==> f !in files.modified)
    && forall i | 0 <= i < |plan.memberships| :: (plan.memberships[i].service, f) !in files.current
  }

  function ImportNew(cfg: Config, files: Files, f: FileId, p: Prepared, plan: Plan): ImportOutcome {
    if !CanInsert(files, f, p, plan) then ImportRefused
    else
      var a := WithAuxiliary(cfg, files.(info := files.info[f := p.info]), f, p);
      var b := if plan.createInbox then a.(inbox := a.inbox + {f}) else a;
      var c := if p.modifiedAt.Some? then b.(modified := b.modified[f := p.modifiedAt.value]) else b;
      var d := WithMemberships(c, f, plan.memberships, p.importedAt);
      Imported(WithUrls(cfg, d, f, p), f, false)
  }

  function Import(cfg: Config, files: Files, p: Prepared): ImportOutcome {
    match PlanFor(cfg, p.serviceKey)
    case None => ImportRefused
    case Some(plan) =>
      var hashes := Insert(files.hashes, p.hash);
      var f := FileId(hashes.idOf[p.hash]);
      if f in files.info && p.hash in files.hashes.idOf then
        if MatchesExisting(cfg, files, f, p, plan)
        then Imported(WithUrls(cfg, WithAuxiliary(cfg, files, f, p), f, p), f, true)
        else ImportRefused
      else ImportNew(cfg, files.(hashes := hashes), f, p, plan)
  }

  // ----- Trashing -----

  datatype TrashOutcome = Trashed(files: Files, removedFromRecent: bool) | TrashRefused

  predicate Removable(kind: Kind) {
    kind == LocalDomain || kind == LocalStorage || kind == CombinedLocal || kind == CombinedFile
  }

  predicate IsTrashed(files: Files, f: FileId) {
    exists k :: k in files.current && k.1 == f && k.0.kind == Trash
  }

  function Removals(files: Files, f: FileId): set<Service> {
    set k | k in files.current && k.1 == f && Removable(k.0.kind) :: k.0
  }

  /** The import time to remember: that of the combined local service, else of a local one, else of storage. */
  function OriginalImport(services: seq<Service>, files: Files, f: FileId, kinds: seq<Kind>): Option<int> {
    if kinds == [] then None
    else
      var first := FirstTime(services, files, f, kinds[0]);
      if first.Some? then first else OriginalImport(services, files, f, kinds[1..])
  }

  function FirstTime(services: seq<Service>, files: Files, f: FileId, kind: Kind): Option<int> {
    if services == [] then None
    else if services[0].kind == kind && (services[0], f) in files.current && files.current[(services[0], f)].Some? then
      files.current[(services[0], f)]
    else FirstTime(services[1..], files, f, kind)
  }

  const PREFERRED := [CombinedLocal, LocalDomain, LocalStorage]

  function Upserted(deleted: map<(Service, FileId), DeletedRow>, s: Service, f: FileId, row: DeletedRow)
    : map<(Service, FileId), DeletedRow>
  {
    var kept := if (s, f) in deleted && deleted[(s, f)].importedAt.Some? then deleted[(s, f)].importedAt
                else row.importedAt;
    deleted[(s, f) := DeletedRow(row.deletedAt, kept)]
  }

  function WithDeleted(cfg: Config, deleted: map<(Service, FileId), DeletedRow>, found: Found, f: FileId,
                       row: DeletedRow)
    : map<(Service, FileId), DeletedRow>
  {
    if found.OneService? && found.service in cfg.deletedTables then Upserted(deleted, found.service, f, row)
    else deleted
  }

  function TrashFile(cfg: Config, files: Files, f: FileId, now: int): TrashOutcome {
    if f.n <= 0 || f !in files.info then TrashRefused
    else if IsTrashed(files, f) then Trashed(files, false)
    else
      match FindUnique(cfg.services, Trash)
      case OneService(trash) =>
        var local, all := FindUnique(cfg.services, CombinedLocal), FindUnique(cfg.services, CombinedFile);
        if trash !in cfg.currentTables || Removals(files, f) == {} || local == SeveralServices || all == SeveralServices
        then TrashRefused
        else
          var removals := Removals(files, f);
          var kept := map k | k in files.current && !(k.1 == f && k.0 in removals) :: files.current[k];
          var original := OriginalImport(cfg.services, files, f, PREFERRED);
          var deleted := WithDeleted(cfg, WithDeleted(cfg, files.deleted, local, f, DeletedRow(Some(now), original)),
                                     all, f, DeletedRow(None, None));
          Trashed(files.(current := kept[(trash, f) := Some(now)], deleted := deleted), true)
      case _ => TrashRefused
  }

  // ----- Runs -----

  datatype Step = ImportStep(p: Prepared) | TrashStep(f: FileId, now: int)

  /** A refused step leaves no trace. */
  function Next(cfg: Config, files: Files, step: Step): Files {
    match step
    case ImportStep(p) => (match Import(cfg, files, p) case Imported(after, _, _) => after case ImportRefused => files)
    case TrashStep(f, now) =>
      match TrashFile(cfg, files, f, now)
      case Trashed(after, _) => after
      case TrashRefused => files
  }

  function Exec(cfg: Config, files: Files, steps: seq<Step>): Files {
    if steps == [] then files else Next(cfg, Exec(cfg, files, steps[..|steps| - 1]), steps[|steps| - 1])
  }

  // ----- What every run keeps -----

  /** Every table only has rows of files that have been imported. */
  predicate RowsOfFiles(s: Files) {
    && (forall k | k in s.current :: k.1 in s.info)
    && s.modified.Keys <= s.info.Keys && s.inbox <= s.info.Keys && s.transparent <= s.info.Keys
    && (forall p | p in s.pixels :: p.0 in s.info)
    && (forall u | u in s.urlMap :: u.0 in s.info)
    && (forall f | f in s.info :: f.n <= s.hashes.top)
  }

  /** A trashed file is in none of the tables it was removed from. */
  predicate TrashedIsOut(s: Files) {
    forall j, k | j in s.current && k in s.current && j.1 == k.1 && j.0.kind == Trash :: !Removable(k.0.kind)
  }

  predicate OnePixelHash(s: Files) {
    forall p, q | p in s.pixels && q in s.pixels && p.0 == q.0 :: p == q
  }

  predicate Inv(s: Files) {
    ValidTable(s.hashes) && RowsOfFiles(s) && TrashedIsOut(s) && OnePixelHash(s)
  }

  /** Rows added to the current tables are those planned for one file. */
  lemma {:induction false} MembershipsOf(s: Files, f: FileId, ms: seq<Membership>, importedAt: int)
    ensures WithMemberships(s, f, ms, importedAt) == s.(current := WithMemberships(s, f, ms, importedAt).current)
    ensures var after := WithMemberships(s, f, ms, importedAt).current;
            && (forall k | k in after :: k in s.current || k.1 == f)
            && (forall k | k in after && k !in s.current :: exists i :: 0 <= i < |ms| && k == (ms[i].service, f))
            && (forall k | k in s.current :: k in after && (k.1 != f ==> after[k] == s.current[k]))
  {
    if ms != [] {
      MembershipsOf(s, f, ms[..|ms| - 1], importedAt);
    }
  }

  /** What an import that goes through does to the tables, beside the rows of its file. */
  predicate OnlyTouches(s: Files, t: Files, f: FileId) {
    && Extends(s.hashes.idOf, t.hashes.idOf) && ValidTable(t.hashes) && s.hashes.top <= t.hashes.top
    && t.info.Keys == s.info.Keys + {f} && (forall g | g in s.info && g != f :: t.info[g] == s.info[g])
    && t.modified.Keys <= s.modified.Keys + {f}
    && (forall g | g in s.modified && g != f :: g in t.modified && t.modified[g] == s.modified[g])
    && t.inbox <= s.inbox + {f} && s.transparent <= t.transparent <= s.transparent + {f}
    && (forall k | k in s.current && k.1 != f :: k in t.current && t.current[k] == s.current[k])
    && (forall k | k in t.current && k.1 != f :: k in s.current)
    && s.pixels <= t.pixels && (forall p | p in t.pixels && p.0 != f :: p in s.pixels)
    && s.urls <= t.urls && s.urlMap <= t.urlMap && (forall u | u in t.urlMap && u.0 != f :: u in s.urlMap)
  }

  lemma TouchesTwice(s: Files, t: Files, u: Files, f: FileId)
    requires OnlyTouches(s, t, f) && OnlyTouches(t, u, f)
    ensures OnlyTouches(s, u, f)
  {
  }

  /** The steps of a new import after its auxiliary metadata. */
  function Registered(s: Files, f: FileId, p: Prepared, plan: Plan): Files {
    var b := if plan.createInbox then s.(inbox := s.inbox + {f}) else s;
    var c := if p.modifiedAt.Some? then b.(modified := b.modified[f := p.modifiedAt.value]) else b;
    WithMemberships(c, f, plan.memberships, p.importedAt)
  }

  lemma RegisteredTouches(s: Files, f: FileId, p: Prepared, plan: Plan)
    requires ValidTable(s.hashes) && f in s.info
    ensures OnlyTouches(s, Registered(s, f, p, plan), f)
    ensures Registered(s, f, p, plan).pixels == s.pixels && Registered(s, f, p, plan).info == s.info
    ensures Registered(s, f, p, plan).hashes == s.hashes
  {
    var b := if plan.createInbox then s.(inbox := s.inbox + {f}) else s;
    var c := if p.modifiedAt.Some? then b.(modified := b.modified[f := p.modifiedAt.value]) else b;
    MembershipsOf(c, f, plan.memberships, p.importedAt);
  }

  lemma UrlsTouch(cfg: Config, s: Files, f: FileId, p: Prepared)
    requires ValidTable(s.hashes) && f in s.info
    ensures OnlyTouches(s, WithUrls(cfg, s, f, p), f)
  {
  }

  /** A new import writes the rows of its file and no others. */
  lemma NewImportTouches(cfg: Config, s: Files, f: FileId, p: Prepared, plan: Plan)
    requires ValidTable(s.hashes) && CanInsert(s, f, p, plan)
    ensures ImportNew(cfg, s, f, p, plan).Imported? && OnlyTouches(s, ImportNew(cfg, s, f, p, plan).files, f)
  {
    hide OnlyTouches;
    var z := s.(info := s.info[f := p.info]);
    assert OnlyTouches(s, z, f) by { InfoTouches(s, f, p.info); }
    AuxiliaryTouchesOnly(cfg, z, f, p);
    var a := WithAuxiliary(cfg, z, f, p);
    RegisteredTouches(a, f, p, plan);
    var d := Registered(a, f, p, plan);
    UrlsTouch(cfg, d, f, p);
    TouchesTwice(s, z, a, f);
    TouchesTwice(s, a, d, f);
    TouchesTwice(s, d, WithUrls(cfg, d, f, p), f);
  }

  lemma InfoTouches(s: Files, f: FileId, info: Info)
    requires ValidTable(s.hashes)
    ensures OnlyTouches(s, s.(info := s.info[f := info]), f)
  {
  }

  lemma AuxiliaryTouchesOnly(cfg: Config, s: Files, f: FileId, p: Prepared)
    requires ValidTable(s.hashes) && f in s.info
    ensures OnlyTouches(s, WithAuxiliary(cfg, s, f, p), f)
    ensures f in WithAuxiliary(cfg, s, f, p).info && ValidTable(WithAuxiliary(cfg, s, f, p).hashes)
  {
    InsertIsValid(s.hashes, p.pixelHash);
  }

  /** The id a hash has or will get. */
  function IdOf(s: Files, hash: string): FileId {
    FileId(Insert(s.hashes, hash).idOf[hash])
  }

  lemma NewIdIsFree(s: Files, hash: string)
    requires Inv(s) && hash !in s.hashes.idOf
    ensures IdOf(s, hash) !in s.info
  {
  }

  /** What an import that finds its file already there does: at most auxiliary metadata and URLs are added. */
  lemma RepeatedImport(cfg: Config, s: Files, p: Prepared)
    requires Inv(s) && Import(cfg, s, p).Imported? && Import(cfg, s, p).already
    ensures var t, f := Import(cfg, s, p).files, Import(cfg, s, p).id;
            && f == IdOf(s, p.hash) && f in s.info && OnlyTouches(s, t, f)
            && t.current == s.current && t.info == s.info && t.modified == s.modified
            && t == WithUrls(cfg, WithAuxiliary(cfg, s, f, p), f, p)
            && (cfg.hasPixels ==> PixelsMatch(s, f, p.pixelHash)) && t.pixels == WithPixels(cfg, s, f, p).pixels
  {
    hide OnlyTouches, PixelsMatch, CanInsert, WithMemberships, PlanFor, WithAuxiliary, WithUrls, WithPixels;
    var f := IdOf(s, p.hash);
    MatchedPixels(cfg, s, f, p);
    hide MatchesExisting;
    AuxiliaryAndUrls(cfg, s, f, p);
  }

  lemma AuxiliaryAndUrls(cfg: Config, s: Files, f: FileId, p: Prepared)
    requires ValidTable(s.hashes) && f in s.info
    ensures var t := WithUrls(cfg, WithAuxiliary(cfg, s, f, p), f, p);
            && OnlyTouches(s, t, f) && t.current == s.current && t.info == s.info && t.modified == s.modified
            && t.pixels == WithPixels(cfg, s, f, p).pixels
  {
    hide OnlyTouches;
    AuxiliaryTouchesOnly(cfg, s, f, p);
    UrlsTouch(cfg, WithAuxiliary(cfg, s, f, p), f, p);
    TouchesTwice(s, WithAuxiliary(cfg, s, f, p), WithUrls(cfg, WithAuxiliary(cfg, s, f, p), f, p), f);
  }

  lemma MatchedPixels(cfg: Config, s: Files, f: FileId, p: Prepared)
    requires PlanFor(cfg, p.serviceKey).Some? && MatchesExisting(cfg, s, f, p, PlanFor(cfg, p.serviceKey).value)
    ensures cfg.hasPixels ==> PixelsMatch(s, f, p.pixelHash)
  {
  }

  /** What a first import does: a file that was not there is, with its rows; no other file is affected. */
  lemma FirstImport(cfg: Config, s: Files, p: Prepared)
    requires Inv(s) && Import(cfg, s, p).Imported? && !Import(cfg, s, p).already
    ensures var t, f := Import(cfg, s, p).files, Import(cfg, s, p).id;
            && f == IdOf(s, p.hash) && f !in s.info && PlanFor(cfg, p.serviceKey).Some?
            && OnlyTouches(s, t, f)
            && Import(cfg, s, p) == ImportNew(cfg, s.(hashes := Insert(s.hashes, p.hash)), f, p,
                                              PlanFor(cfg, p.serviceKey).value)
  {
    var f := IdOf(s, p.hash);
    var plan := PlanFor(cfg, p.serviceKey).value;
    var z := s.(hashes := Insert(s.hashes, p.hash));
    InsertIsValid(s.hashes, p.hash);
    if p.hash !in s.hashes.idOf { NewIdIsFree(s, p.hash); }
    NewImportTouches(cfg, z, f, p, plan);
    hide PlanFor, ImportNew, MatchesExisting;
    HashThenTouch(s, p.hash, Import(cfg, s, p).files, f);
  }

  lemma HashThenTouch(s: Files, hash: string, t: Files, f: FileId)
    requires ValidTable(s.hashes) && OnlyTouches(s.(hashes := Insert(s.hashes, hash)), t, f)
    ensures OnlyTouches(s, t, f)
  {
    InsertIsValid(s.hashes, hash);
  }

  /** The rows a first import writes for its file. */
  lemma NewRows(cfg: Config, s: Files, f: FileId, p: Prepared, plan: Plan)
    requires CanInsert(s, f, p, plan) && ImportNew(cfg, s, f, p, plan).Imported?
    ensures var t := ImportNew(cfg, s, f, p, plan).files;
            && (forall k | k in t.current && k !in s.current ::
                  exists i :: 0 <= i < |plan.memberships| && k == (plan.memberships[i].service, f))
            && t.pixels == WithPixels(cfg, s, f, p).pixels && t.hashes == WithPixels(cfg, s, f, p).hashes
            && f in t.info && t.info[f] == p.info
            && (if p.modifiedAt.Some? then f in t.modified && t.modified[f] == p.modifiedAt.value
                else t.modified == s.modified)
            && t.transparent == WithTransparency(cfg, s, f, p).transparent
            && t.urls == WithUrls(cfg, s, f, p).urls && t.urlMap == WithUrls(cfg, s, f, p).urlMap
  {
    var a := WithAuxiliary(cfg, s.(info := s.info[f := p.info]), f, p);
    var b := if plan.createInbox then a.(inbox := a.inbox + {f}) else a;
    var c := if p.modifiedAt.Some? then b.(modified := b.modified[f := p.modifiedAt.value]) else b;
    MembershipsOf(c, f, plan.memberships, p.importedAt);
  }

  lemma {:induction false} MembershipRows(s: Files, f: FileId, ms: seq<Membership>, importedAt: int)
    requires forall i, j | 0 <= i < j < |ms| :: ms[i].service.kind != ms[j].service.kind
    ensures forall i | 0 <= i < |ms| :: MembershipMatches(WithMemberships(s, f, ms, importedAt), f, ms[i])
  {
    if ms != [] {
      MembershipRows(s, f, ms[..|ms| - 1], importedAt);
    }
  }

  /** What trashing does: the file leaves the tables it can be removed from and enters the trash; no other
      file is affected, and nothing else of the file. */
  lemma TrashRows(cfg: Config, s: Files, f: FileId, now: int)
    requires TrashFile(cfg, s, f, now).Trashed?
    ensures var t := TrashFile(cfg, s, f, now).files;
            && t == s.(current := t.current, deleted := t.deleted) && f in s.info && IsTrashed(t, f)
            && (forall k | k in s.current && k.1 != f :: k in t.current && t.current[k] == s.current[k])
            && (forall k | k in t.current && k.1 != f :: k in s.current)
            && (forall k | k in t.current && k.1 == f && k !in s.current :: k.0.kind == Trash)
            && (IsTrashed(s, f) ==> t == s)
            && (!IsTrashed(s, f) ==> forall k | k in t.current && k.1 == f :: !Removable(k.0.kind))
  {
    hide OriginalImport, WithDeleted, Upserted;
    var t := TrashFile(cfg, s, f, now).files;
    if !IsTrashed(s, f) {
      var trash := FindUnique(cfg.services, Trash).service;
      assert (trash, f) in t.current && trash.kind == Trash;
    }
  }

  lemma TrashStepInv(cfg: Config, s: Files, f: FileId, now: int)
    requires Inv(s) && TrashFile(cfg, s, f, now).Trashed?
    ensures Inv(TrashFile(cfg, s, f, now).files)
  {
    hide TrashFile, IsTrashed;
    TrashRows(cfg, s, f, now);
    var t := TrashFile(cfg, s, f, now).files;
    forall j, k | j in t.current && k in t.current && j.1 == k.1 && j.0.kind == Trash ensures !Removable(k.0.kind) {
      if j.1 != f {
        assert j in s.current && k in s.current;
      }
    }
  }

  lemma RowsStay(s: Files, t: Files, f: FileId)
    requires RowsOfFiles(s) && OnlyTouches(s, t, f) && f.n <= t.hashes.top
    ensures RowsOfFiles(t)
  {
  }

  /** A file that is not in the trash may get rows of any kind but the trash. */
  lemma OutStays(s: Files, t: Files, f: FileId)
    requires RowsOfFiles(s) && TrashedIsOut(s) && OnlyTouches(s, t, f)
    requires forall k | k in t.current && k.1 == f :: k.0.kind != Trash
    ensures TrashedIsOut(t)
  {
    forall j, k | j in t.current && k in t.current && j.1 == k.1 && j.0.kind == Trash ensures !Removable(k.0.kind) {
      assert j in s.current && k in s.current;
    }
  }

  lemma IdWithinTop(s: Files, hash: string)
    requires ValidTable(s.hashes)
    ensures IdOf(s, hash).n <= Insert(s.hashes, hash).top
  {
    InsertIsValid(s.hashes, hash);
  }

  lemma RepeatedImportInv(cfg: Config, s: Files, p: Prepared)
    requires Inv(s) && Import(cfg, s, p).Imported? && Import(cfg, s, p).already
    ensures Inv(Import(cfg, s, p).files)
  {
    RepeatedImport(cfg, s, p);
    var t, f := Import(cfg, s, p).files, Import(cfg, s, p).id;
    assert f.n <= s.hashes.top <= t.hashes.top && ValidTable(t.hashes);
    RowsStay(s, t, f);
    OneMorePixel(cfg, s, f, p);
    hide Import, WithUrls, WithAuxiliary, OnlyTouches, RowsOfFiles, PixelsMatch;
  }

  lemma OneMorePixel(cfg: Config, s: Files, f: FileId, p: Prepared)
    requires OnePixelHash(s) && (cfg.hasPixels ==> PixelsMatch(s, f, p.pixelHash))
    ensures OnePixelHash(WithPixels(cfg, s, f, p))
  {
    var t := WithPixels(cfg, s, f, p);
    forall a, b | a in t.pixels && b in t.pixels && a.0 == b.0 ensures a == b {
      if a !in s.pixels && b in s.pixels { assert b.1 in PixelsOf(s, f); }
      if b !in s.pixels && a in s.pixels { assert a.1 in PixelsOf(s, f); }
    }
  }

  lemma FirstImportInv(cfg: Config, s: Files, p: Prepared)
    requires Inv(s) && Import(cfg, s, p).Imported? && !Import(cfg, s, p).already
    ensures Inv(Import(cfg, s, p).files)
  {
    hide Import, ImportNew, PlanFor, WithUrls, WithTransparency, WithPixels, CanInsert, PixelsMatch;
    FirstImport(cfg, s, p);
    var t, f, plan := Import(cfg, s, p).files, Import(cfg, s, p).id, PlanFor(cfg, p.serviceKey).value;
    var z := s.(hashes := Insert(s.hashes, p.hash));
    FirstRows(cfg, s, p);
    IdWithinTop(s, p.hash);
    hide OnlyTouches, RowsOfFiles, TrashedIsOut, OnePixelHash;
    RowsStay(s, t, f);
    OutStays(s, t, f);
    OneMorePixel(cfg, z, f, p);
    assert OnePixelHash(t) by { SamePixels(WithPixels(cfg, z, f, p), t); }
    assert ValidTable(t.hashes) by { TouchedTable(s, t, f); }
  }

  lemma SamePixels(s: Files, t: Files)
    requires OnePixelHash(s) && t.pixels == s.pixels
    ensures OnePixelHash(t)
  {
  }

  lemma TouchedTable(s: Files, t: Files, f: FileId)
    requires OnlyTouches(s, t, f)
    ensures ValidTable(t.hashes)
  {
  }

  /** What a first import leaves of its file: rows of the planned kinds, and the pixel hash it came with. */
  lemma FirstRows(cfg: Config, s: Files, p: Prepared)
    requires Inv(s) && Import(cfg, s, p).Imported? && !Import(cfg, s, p).already
    ensures var t, f := Import(cfg, s, p).files, Import(cfg, s, p).id;
            var z := s.(hashes := Insert(s.hashes, p.hash));
            && (forall k | k in t.current && k.1 == f :: k.0.kind != Trash)
            && PixelsOf(z, f) == {} && PixelsMatch(z, f, p.pixelHash) && OnePixelHash(z)
            && t.pixels == WithPixels(cfg, z, f, p).pixels && IdOf(s, p.hash).n <= t.hashes.top
  {
    hide Import, ImportNew, PlanFor, WithUrls, WithTransparency, WithPixels;
    FirstImport(cfg, s, p);
    var t, f, plan := Import(cfg, s, p).files, Import(cfg, s, p).id, PlanFor(cfg, p.serviceKey).value;
    var z := s.(hashes := Insert(s.hashes, p.hash));
    assert CanInsert(z, f, p, plan) by { ImportedCouldInsert(cfg, z, f, p, plan); }
    NewRows(cfg, z, f, p, plan);
    PlanServicesDiffer(cfg, p.serviceKey);
    IdWithinTop(s, p.hash);
    PixelsGrowTable(cfg, z, f, p);
    forall k | k in t.current && k.1 == f ensures k.0.kind != Trash {
      assert k !in z.current;
    }
    assert PixelsOf(z, f) == {};
  }

  lemma ImportedCouldInsert(cfg: Config, s: Files, f: FileId, p: Prepared, plan: Plan)
    requires ImportNew(cfg, s, f, p, plan).Imported?
    ensures CanInsert(s, f, p, plan)
  {
  }

  lemma PixelsGrowTable(cfg: Config, s: Files, f: FileId, p: Prepared)
    ensures s.hashes.top <= WithPixels(cfg, s, f, p).hashes.top
  {
  }

  lemma NextInv(cfg: Config, s: Files, step: Step)
    requires Inv(s)
    ensures Inv(Next(cfg, s, step))
  {
    hide Inv, Import, TrashFile;
    match step
    case ImportStep(p) =>
      if Import(cfg, s, p).Imported? {
        if Import(cfg, s, p).already { RepeatedImportInv(cfg, s, p); } else { FirstImportInv(cfg, s, p); }
      }
    case TrashStep(f, now) =>
      if TrashFile(cfg, s, f, now).Trashed? { TrashStepInv(cfg, s, f, now); }
  }

  lemma {:induction false} ExecInv(cfg: Config, s: Files, steps: seq<Step>)
    requires Inv(s)
    ensures Inv(Exec(cfg, s, steps))
  {
    hide Inv, Next;
    if steps != [] {
      ExecInv(cfg, s, steps[..|steps| - 1]);
      NextInv(cfg, Exec(cfg, s, steps[..|steps| - 1]), steps[|steps| - 1]);
    }
  }

  // ----- Trashed files stay out -----

  lemma NoFilesInv()
    ensures Inv(NO_FILES)
  {
  }

  lemma TrashIsKept(cfg: Config, s: Files, step: Step, f: FileId)
    requires Inv(s) && IsTrashed(s, f)
    ensures IsTrashed(Next(cfg, s, step), f)
  {
    var k :| k in s.current && k.1 == f && k.0.kind == Trash;
    hide Import, TrashFile;
    match step
    case ImportStep(p) =>
      if Import(cfg, s, p).Imported? {
        if Import(cfg, s, p).already { RepeatedImport(cfg, s, p); } else { FirstImport(cfg, s, p); }
        assert k in Import(cfg, s, p).files.current;
      }
    case TrashStep(g, now) =>
      if TrashFile(cfg, s, g, now).Trashed? {
        TrashRows(cfg, s, g, now);
        if g != f { assert k in TrashFile(cfg, s, g, now).files.current; }
      }
  }

  lemma {:induction false} TrashedStays(cfg: Config, s: Files, steps: seq<Step>, f: FileId)
    requires Inv(s) && IsTrashed(s, f)
    ensures Inv(Exec(cfg, s, steps)) && IsTrashed(Exec(cfg, s, steps), f)
  {
    hide Inv, Next, IsTrashed;
    ExecInv(cfg, s, steps);
    if steps != [] {
      TrashedStays(cfg, s, steps[..|steps| - 1], f);
      TrashIsKept(cfg, Exec(cfg, s, steps[..|steps| - 1]), steps[|steps| - 1], f);
    }
  }

  /** Over any run, a file that was trashed is never again in a local, storage, combined-local or
      combined-file table. */
  lemma TrashedStaysOut(cfg: Config, steps: seq<Step>, more: seq<Step>, f: FileId)
    requires IsTrashed(Exec(cfg, NO_FILES, steps), f)
    ensures var t := Exec(cfg, Exec(cfg, NO_FILES, steps), more);
            IsTrashed(t, f) && forall k | k in t.current && k.1 == f :: !Removable(k.0.kind)
  {
    hide Next, Exec;
    NoFilesInv();
    ExecInv(cfg, NO_FILES, steps);
    TrashedStays(cfg, Exec(cfg, NO_FILES, steps), more, f);
  }

  /** A trashed file cannot be imported into a local file domain again: the import is refused. */
  lemma TrashedImportIsRefused(cfg: Config, steps: seq<Step>, p: Prepared)
    requires var s := Exec(cfg, NO_FILES, steps); p.hash in s.hashes.idOf && IsTrashed(s, IdOf(s, p.hash))
    requires PlanFor(cfg, p.serviceKey).Some? && PlanFor(cfg, p.serviceKey).value.createInbox
    ensures Import(cfg, Exec(cfg, NO_FILES, steps), p).ImportRefused?
  {
    hide Next, Exec;
    var s := Exec(cfg, NO_FILES, steps);
    NoFilesInv();
    ExecInv(cfg, NO_FILES, steps);
    var f, plan := IdOf(s, p.hash), PlanFor(cfg, p.serviceKey).value;
    assert plan.memberships[0].service.kind == LocalDomain;
    assert (plan.memberships[0].service, f) !in s.current;
    assert !MembershipMatches(s, f, plan.memberships[0]);
  }

  // ----- Importing again -----

  /** The file is there with everything its prepared import asks for. */
  predicate Settled(cfg: Config, s: Files, f: FileId, p: Prepared) {
    && p.hash in s.hashes.idOf && f == FileId(s.hashes.idOf[p.hash])
    && PlanFor(cfg, p.serviceKey).Some? && MatchesExisting(cfg, s, f, p, PlanFor(cfg, p.serviceKey).value)
    && (cfg.hasPixels && p.pixelHash != "" ==>
          p.pixelHash in s.hashes.idOf && (f, FileId(s.hashes.idOf[p.pixelHash])) in s.pixels)
    && (cfg.hasTransparency && p.transparency == Some(true) ==> f in s.transparent)
    && (cfg.hasUrls ==> p.urls <= s.urls && forall u | u in p.urls :: (f, u) in s.urlMap)
  }

  /** Importing a settled file changes nothing at all. */
  lemma SettledImport(cfg: Config, s: Files, f: FileId, p: Prepared)
    requires Settled(cfg, s, f, p)
    ensures Import(cfg, s, p) == Imported(s, f, true)
  {
    hide PlanFor, MatchesExisting;
    assert f in s.info by { MatchedIsThere(cfg, s, f, p, PlanFor(cfg, p.serviceKey).value); }
    assert WithPixels(cfg, s, f, p) == s;
    assert WithTransparency(cfg, s, f, p) == s;
    assert WithUrls(cfg, s, f, p) == s;
  }

  lemma MatchedIsThere(cfg: Config, s: Files, f: FileId, p: Prepared, plan: Plan)
    requires MatchesExisting(cfg, s, f, p, plan)
    ensures f in s.info
  {
  }

  /** A step on another file leaves a file as settled as it was. */
  lemma TouchKeepsSettled(cfg: Config, s: Files, t: Files, g: FileId, f: FileId, p: Prepared)
    requires OnlyTouches(s, t, g) && g != f && Settled(cfg, s, f, p)
    ensures Settled(cfg, t, f, p)
  {
    hide PlanFor;
    assert PixelsOf(t, f) == PixelsOf(s, f) by {
      forall a | a in PixelsOf(s, f) ensures a in PixelsOf(t, f) { assert (f, a) in t.pixels; }
    }
    var plan := PlanFor(cfg, p.serviceKey).value;
    forall i | 0 <= i < |plan.memberships| ensures MembershipMatches(t, f, plan.memberships[i]) {
      assert MembershipMatches(s, f, plan.memberships[i]);
    }
  }

  /** The step is about another file. */
  predicate Elsewhere(step: Step, f: FileId, hash: string) {
    match step
    case ImportStep(q) => q.hash != hash
    case TrashStep(g, _) => g != f
  }

  lemma StepKeepsSettled(cfg: Config, s: Files, step: Step, f: FileId, p: Prepared)
    requires Inv(s) && Settled(cfg, s, f, p) && Elsewhere(step, f, p.hash)
    ensures Settled(cfg, Next(cfg, s, step), f, p)
  {
    hide Import, TrashFile, OnlyTouches, PlanFor, MatchesExisting;
    match step
    case ImportStep(q) =>
      if Import(cfg, s, q).Imported? {
        var t, g := Import(cfg, s, q).files, IdOf(s, q.hash);
        if Import(cfg, s, q).already { RepeatedImport(cfg, s, q); } else { FirstImport(cfg, s, q); }
        assert g != f by { OtherId(s, q.hash, p.hash); }
        TouchKeepsSettled(cfg, s, t, g, f, p);
      }
    case TrashStep(g, now) =>
      if TrashFile(cfg, s, g, now).Trashed? {
        TrashKeepsSettled(cfg, s, g, now, f, p);
      }
  }

  lemma OtherId(s: Files, a: string, b: string)
    requires ValidTable(s.hashes) && b in s.hashes.idOf && a != b
    ensures IdOf(s, a) != FileId(s.hashes.idOf[b])
  {
    InsertIsValid(s.hashes, a);
  }

  lemma TrashKeepsSettled(cfg: Config, s: Files, g: FileId, now: int, f: FileId, p: Prepared)
    requires Settled(cfg, s, f, p) && g != f && TrashFile(cfg, s, g, now).Trashed?
    ensures Settled(cfg, TrashFile(cfg, s, g, now).files, f, p)
  {
    TrashRows(cfg, s, g, now);
    hide TrashFile, PlanFor, IsTrashed;
    var t := TrashFile(cfg, s, g, now).files;
    assert PixelsOf(t, f) == PixelsOf(s, f);
    var plan := PlanFor(cfg, p.serviceKey).value;
    forall i | 0 <= i < |plan.memberships| ensures MembershipMatches(t, f, plan.memberships[i]) {
      assert MembershipMatches(s, f, plan.memberships[i]);
    }
  }

  lemma MorePixelsMatch(cfg: Config, s: Files, f: FileId, p: Prepared)
    requires ValidTable(s.hashes) && (cfg.hasPixels ==> PixelsMatch(s, f, p.pixelHash))
    ensures var t := WithPixels(cfg, s, f, p);
            && (cfg.hasPixels ==> PixelsMatch(t, f, p.pixelHash))
            && (cfg.hasPixels && p.pixelHash != "" ==>
                  p.pixelHash in t.hashes.idOf && (f, FileId(t.hashes.idOf[p.pixelHash])) in t.pixels)
            && Extends(s.hashes.idOf, t.hashes.idOf)
  {
    InsertIsValid(s.hashes, p.pixelHash);
    var t := WithPixels(cfg, s, f, p);
    forall a | a in PixelsOf(t, f)
      ensures a in PixelsOf(s, f) || (p.pixelHash in t.hashes.idOf && a == FileId(t.hashes.idOf[p.pixelHash]))
    {
      assert (f, a) in t.pixels;
      if (f, a) in s.pixels { assert a in PixelsOf(s, f); }
    }
  }

  lemma PixelsAlone(s: Files, t: Files, f: FileId, pixelHash: string)
    requires t.pixels == s.pixels && t.hashes == s.hashes && PixelsMatch(s, f, pixelHash)
    ensures PixelsMatch(t, f, pixelHash)
  {
    assert PixelsOf(t, f) == PixelsOf(s, f);
  }

  lemma RepeatedImportSettles(cfg: Config, s: Files, p: Prepared)
    requires Inv(s) && Import(cfg, s, p).Imported? && Import(cfg, s, p).already
    ensures Settled(cfg, Import(cfg, s, p).files, Import(cfg, s, p).id, p)
  {
    hide PlanFor, CanInsert, WithMemberships, MatchesExisting, WithAuxiliary, WithUrls, Settled;
    ExtrasSettle(cfg, s, IdOf(s, p.hash), p, PlanFor(cfg, p.serviceKey).value);
  }

  /** A file that matches its prepared import is settled once the auxiliary metadata and urls are written. */
  lemma ExtrasSettle(cfg: Config, s: Files, f: FileId, p: Prepared, plan: Plan)
    requires ValidTable(s.hashes) && p.hash in s.hashes.idOf && f == FileId(s.hashes.idOf[p.hash])
    requires PlanFor(cfg, p.serviceKey) == Some(plan) && MatchesExisting(cfg, s, f, p, plan)
    ensures Settled(cfg, WithUrls(cfg, WithAuxiliary(cfg, s, f, p), f, p), f, p)
  {
    MorePixelsMatch(cfg, s, f, p);
    var t := WithUrls(cfg, WithAuxiliary(cfg, s, f, p), f, p);
    ExtraRows(cfg, s, f, p);
    if cfg.hasPixels { PixelsAlone(WithPixels(cfg, s, f, p), t, f, p.pixelHash); }
    hide PlanFor, PixelsMatch, ValidTable, WithPixels, WithAuxiliary, WithUrls, MembershipMatches, Extends;
    forall i | 0 <= i < |plan.memberships| ensures MembershipMatches(t, f, plan.memberships[i]) {
      SameMembership(s, t, f, plan.memberships[i]);
    }
  }

  /** The rows written beside the file's own: its pixel hash, its transparency and its urls. */
  lemma ExtraRows(cfg: Config, s: Files, f: FileId, p: Prepared)
    ensures var t := WithUrls(cfg, WithAuxiliary(cfg, s, f, p), f, p);
            && t.info == s.info && t.modified == s.modified && t.current == s.current
            && t.hashes == WithPixels(cfg, s, f, p).hashes && t.pixels == WithPixels(cfg, s, f, p).pixels
            && (cfg.hasUrls ==> p.urls <= t.urls && forall u | u in p.urls :: (f, u) in t.urlMap)
            && (if cfg.hasTransparency && p.transparency == Some(true) then f in t.transparent
                else t.transparent == s.transparent)
  {
  }

  lemma SameMembership(s: Files, t: Files, f: FileId, m: Membership)
    requires t.current == s.current && MembershipMatches(s, f, m)
    ensures MembershipMatches(t, f, m)
  {
  }

  lemma FirstImportSettles(cfg: Config, s: Files, p: Prepared)
    requires Inv(s) && Import(cfg, s, p).Imported? && !Import(cfg, s, p).already
    ensures Settled(cfg, Import(cfg, s, p).files, Import(cfg, s, p).id, p)
  {
    hide Import, ImportNew, PlanFor, OnlyTouches, PixelsMatch;
    FirstImport(cfg, s, p);
    FirstRows(cfg, s, p);
    var t, f, plan := Import(cfg, s, p).files, Import(cfg, s, p).id, PlanFor(cfg, p.serviceKey).value;
    var z := s.(hashes := Insert(s.hashes, p.hash));
    InsertIsValid(s.hashes, p.hash);
    MorePixelsMatch(cfg, z, f, p);
    ImportedCouldInsert(cfg, z, f, p, plan);
    NewRows(cfg, z, f, p, plan);
    if cfg.hasPixels { PixelsAlone(WithPixels(cfg, z, f, p), t, f, p.pixelHash); }
    NewMemberships(cfg, z, f, p, plan);
  }

  lemma NewMemberships(cfg: Config, s: Files, f: FileId, p: Prepared, plan: Plan)
    requires ImportNew(cfg, s, f, p, plan).Imported? && PlanFor(cfg, p.serviceKey) == Some(plan)
    ensures var t := ImportNew(cfg, s, f, p, plan).files;
            forall i | 0 <= i < |plan.memberships| :: MembershipMatches(t, f, plan.memberships[i])
  {
    PlanServicesDiffer(cfg, p.serviceKey);
    hide PlanFor;
    var a := WithAuxiliary(cfg, s.(info := s.info[f := p.info]), f, p);
    var b := if plan.createInbox then a.(inbox := a.inbox + {f}) else a;
    var c := if p.modifiedAt.Some? then b.(modified := b.modified[f := p.modifiedAt.value]) else b;
    MembershipRows(c, f, plan.memberships, p.importedAt);
  }

  lemma {:induction false} StaysSettled(cfg: Config, s: Files, steps: seq<Step>, f: FileId, p: Prepared)
    requires Inv(s) && Settled(cfg, s, f, p)
    requires forall i | 0 <= i < |steps| :: Elsewhere(steps[i], f, p.hash)
    ensures Settled(cfg, Exec(cfg, s, steps), f, p)
  {
    hide Inv, Next, Settled, Elsewhere;
    if steps != [] {
      var init := steps[..|steps| - 1];
      StaysSettled(cfg, s, init, f, p);
      ExecInv(cfg, s, init);
      StepKeepsSettled(cfg, Exec(cfg, s, init), steps[|steps| - 1], f, p);
    }
  }

  /** Importing the same prepared file again, with only other files touched in between, returns the same id,
      says that the file was already imported, and changes nothing in any table. */
  lemma ReimportChangesNothing(cfg: Config, steps: seq<Step>, p: Prepared, between: seq<Step>)
    requires Import(cfg, Exec(cfg, NO_FILES, steps), p).Imported?
    requires forall i | 0 <= i < |between| ::
               Elsewhere(between[i], Import(cfg, Exec(cfg, NO_FILES, steps), p).id, p.hash)
    ensures var first := Import(cfg, Exec(cfg, NO_FILES, steps), p);
            var later := Exec(cfg, first.files, between);
            Import(cfg, later, p) == Imported(later, first.id, true)
  {
    hide Next, Exec, Inv, Import, Settled, Elsewhere;
    var s := Exec(cfg, NO_FILES, steps);
    NoFilesInv();
    ExecInv(cfg, NO_FILES, steps);
    var first := Import(cfg, s, p);
    if first.already {
      RepeatedImportSettles(cfg, s, p);
      RepeatedImportInv(cfg, s, p);
    } else {
      FirstImportSettles(cfg, s, p);
      FirstImportInv(cfg, s, p);
    }
    StaysSettled(cfg, first.files, between, first.id, p);
    SettledImport(cfg, Exec(cfg, first.files, between), first.id, p);
  }
}
