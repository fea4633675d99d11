/** The tables of FileLife as fields, and the two transactions that update them row by row. */
module FileTables {
  import opened Interning
  import opened FileLife
  import opened FileRows
  import opened SetLoops

  /** The tables once some of a file's urls have been written. */
  predicate UrlsWritten(before: Files, f: FileId, seen: set<string>, urls: set<string>, urlMap: set<(FileId, string)>) {
    urls == before.urls + seen && urlMap == before.urlMap + UrlRows(f, seen)
  }

  lemma NoUrlsWritten(before: Files, f: FileId)
    ensures UrlsWritten(before, f, {}, before.urls, before.urlMap)
  {
  }

  lemma MoreUrlsWritten(before: Files, f: FileId, seen: set<string>, urls: set<string>, urlMap: set<(FileId, string)>,
                        u: string)
    requires UrlsWritten(before, f, seen, urls, urlMap)
    ensures UrlsWritten(before, f, seen + {u}, urls + {u}, urlMap + {(f, u)})
  {
    assert UrlRows(f, seen + {u}) == UrlRows(f, seen) + {(f, u)};
  }

  lemma AllUrlsWritten(cfg: Config, before: Files, f: FileId, p: Prepared, urls: set<string>,
                       urlMap: set<(FileId, string)>)
    requires cfg.hasUrls && UrlsWritten(before, f, p.urls, urls, urlMap)
    ensures before.(urls := urls, urlMap := urlMap) == WithUrls(cfg, before, f, p)
  {
  }

  class FileStore {
    var hashes: IdTable<string>
    var info: map<FileId, Info>
    var modified: map<FileId, int>
    var inbox: set<FileId>
    var current: map<(Service, FileId), Option<int>>
    var deleted: map<(Service, FileId), DeletedRow>
    var pixels: set<(FileId, FileId)>
    var transparent: set<FileId>
    var urls: set<string>
    var urlMap: set<(FileId, string)>

    function Value(): Files
      reads this
    {
      Files(hashes, info, modified, inbox, current, deleted, pixels, transparent, urls, urlMap)
    }

    constructor ()
      ensures Value() == NO_FILES
    {
      hashes, info, modified, inbox, current, deleted := IdTable(map[], 0), map[], map[], {}, map[], map[];
      pixels, transparent, urls, urlMap := {}, {}, {}, {};
    }

    /** The id of a hash, inserted first when it is new. */
    method EnsureHashId(hash: string) returns (id: FileId)
      modifies this`hashes
      ensures hashes == Insert(old(hashes), hash) && id == FileId(hashes.idOf[hash])
    {
      if hash !in hashes.idOf {
        hashes := IdTable(hashes.idOf[hash := hashes.top + 1], hashes.top + 1);
      }
      id := FileId(hashes.idOf[hash]);
    }

    method EnsureAuxiliaryMetadata(cfg: Config, f: FileId, p: Prepared)
      modifies this`hashes, this`pixels, this`transparent
      ensures Value() == WithAuxiliary(cfg, old(Value()), f, p)
    {
      if cfg.hasPixels && p.pixelHash != "" {
        var pixel := EnsureHashId(p.pixelHash);
        pixels := pixels + {(f, pixel)};
      }
      if cfg.hasTransparency && p.transparency == Some(true) {
        transparent := transparent + {f};
      }
    }

    method EnsureKnownUrls(cfg: Config, f: FileId, p: Prepared)
      modifies this`urls, this`urlMap
      ensures Value() == WithUrls(cfg, old(Value()), f, p)
    {
      if !cfg.hasUrls {
        assert Value() == WithUrls(cfg, old(Value()), f, p);
        return;
      }
      hide WithUrls, UrlsWritten, UrlRows, Splits;
      var rest := p.urls;
      ghost var seen: set<string> := {};
      SplitsEnds(rest, {});
      NoUrlsWritten(Value(), f);
      while rest != {}
        invariant Splits(seen, rest, p.urls)
        invariant UrlsWritten(old(Value()), f, seen, urls, urlMap)
        decreases |rest|
      {
        var u :| u in rest;
        SplitsMore(seen, rest, p.urls, u);
        MoreUrlsWritten(old(Value()), f, seen, urls, urlMap, u);
        urls, urlMap, rest, seen := urls + {u}, urlMap + {(f, u)}, rest - {u}, seen + {u};
      }
      SplitsEnds(p.urls, seen);
      AllUrlsWritten(cfg, old(Value()), f, p, urls, urlMap);
    }

    /** Whether the stored rows of a file are those its prepared import asks for. */
    method MatchesPlan(cfg: Config, f: FileId, p: Prepared, plan: Plan) returns (ok: bool)
      ensures ok == MatchesExisting(cfg, Value(), f, p, plan)
      ensures ok <==> !Differs(cfg, Value(), f, p, plan)
    {
      hide Differs;
      DiffersIff(cfg, Value(), f, p, plan);
      if f !in info || info[f] != p.info {
        return false;
      }
      if !(if p.modifiedAt.Some? then f in modified && modified[f] == p.modifiedAt.value else f !in modified) {
        return false;
      }
      for i := 0 to |plan.memberships|
        invariant forall k | 0 <= k < i :: MembershipMatches(Value(), f, plan.memberships[k])
      {
        var m := plan.memberships[i];
        if (m.service, f) !in current || current[(m.service, f)].Some? != m.timed {
          assert !MembershipMatches(Value(), f, m);
          return false;
        }
      }
      if cfg.hasPixels && !PixelsMatch(Value(), f, p.pixelHash) {
        return false;
      }
      return !(cfg.hasTransparency && p.transparency == Some(false) && f in transparent);
    }

    method InsertMemberships(f: FileId, ms: seq<Membership>, importedAt: int)
      modifies this`current
      ensures Value() == WithMemberships(old(Value()), f, ms, importedAt)
    {
      for i := 0 to |ms|
        invariant Value() == WithMemberships(old(Value()), f, ms[..i], importedAt)
      {
        assert ms[..i + 1][..i] == ms[..i];
        current := current[(ms[i].service, f) := if ms[i].timed then Some(importedAt) else None];
      }
      assert ms[..|ms|] == ms;
    }

    /** Records one import: the file's id and whether it was there already, or nothing and no change. */
    method RecordPreparedLocalImport(cfg: Config, p: Prepared) returns (result: Option<(FileId, bool)>)
      modifies this
      ensures match Import(cfg, old(Value()), p)
              case Imported(after, id, already) => result == Some((id, already)) && Value() == after
              case ImportRefused => result == None && Value() == old(Value())
      ensures result == None <==> ImportIsRefused(cfg, old(Value()), p)
      ensures result.Some? ==> ImportWrites(cfg, old(Value()), Value(), p, result.value.0, result.value.1)
    {
      hide ImportIsRefused, ImportWrites;
      ImportByRows(cfg, Value(), p);
      var plan := PlanFor(cfg, p.serviceKey);
      if plan == None {
        return None;
      }
      hide PlanFor;
      var saved := hashes;
      var known := p.hash in hashes.idOf;
      var f := EnsureHashId(p.hash);
      if known && f in info {
        var matches := MatchesPlan(cfg, f, p, plan.value);
        if !matches {
          return None;
        }
        EnsureAuxiliaryMetadata(cfg, f, p);
        EnsureKnownUrls(cfg, f, p);
        return Some((f, true));
      }
      if !CanInsert(Value(), f, p, plan.value) {
        hashes := saved;
        return None;
      }
      InsertNew(cfg, f, p, plan.value);
      return Some((f, false));
    }

    method InsertNew(cfg: Config, f: FileId, p: Prepared, plan: Plan)
      requires CanInsert(Value(), f, p, plan)
      modifies this
      ensures ImportNew(cfg, old(Value()), f, p, plan) == Imported(Value(), f, false)
    {
      hide WithAuxiliary, WithUrls, WithMemberships;
      info := info[f := p.info];
      EnsureAuxiliaryMetadata(cfg, f, p);
      if plan.createInbox {
        inbox := inbox + {f};
      }
      if p.modifiedAt.Some? {
        modified := modified[f := p.modifiedAt.value];
      }
      InsertMemberships(f, plan.memberships, p.importedAt);
      EnsureKnownUrls(cfg, f, p);
    }

    /** Deletes a file's rows from some current tables, one table after the other. */
    method DeleteCurrent(f: FileId, removals: set<Service>)
      modifies this`current
      ensures current == map k | k in old(current) && !(k.1 == f && k.0 in removals) :: old(current)[k]
    {
      var rest := removals;
      while rest != {}
        invariant rest <= removals
        invariant current == map k | k in old(current) && !(k.1 == f && k.0 in removals - rest) :: old(current)[k]
        decreases |rest|
      {
        var s :| s in rest;
        current := current - {(s, f)};
        rest := rest - {s};
      }
    }

    /** Moves a current local file to the trash; the result says whether it was current, or nothing and no
        change when the request is refused. */
    method MoveToTrash(cfg: Config, f: FileId, now: int) returns (removedFromRecent: Option<bool>)
      modifies this
      ensures match TrashFile(cfg, old(Value()), f, now)
              case Trashed(after, removed) => removedFromRecent == Some(removed) && Value() == after
              case TrashRefused => removedFromRecent == None && Value() == old(Value())
      ensures removedFromRecent == None <==> TrashIsRefused(cfg, old(Value()), f)
      ensures removedFromRecent == Some(true) ==> MovedToTrash(cfg, old(Value()), Value(), f, now)
      ensures removedFromRecent == Some(false) ==> IsTrashed(Value(), f) && Value() == old(Value())
    {
      hide TrashIsRefused, MovedToTrash;
      TrashByRows(cfg, Value(), f, now);
      if f.n <= 0 || f !in info {
        return None;
      }
      if exists k :: k in current && k.1 == f && k.0.kind == Trash {
        return Some(false);
      }
      var trash := FindUnique(cfg.services, Trash);
      if !trash.OneService? || trash.service !in cfg.currentTables {
        return None;
      }
      var removals := Removals(Value(), f);
      if removals == {} {
        return None;
      }
      var original := OriginalImport(cfg.services, Value(), f, PREFERRED);
      var local, all := FindUnique(cfg.services, CombinedLocal), FindUnique(cfg.services, CombinedFile);
      if local == SeveralServices || all == SeveralServices {
        return None;
      }
      hide FindUnique, OriginalImport, WithDeleted, IsTrashed, Removals;
      DeleteCurrent(f, removals);
      current := current[(trash.service, f) := Some(now)];
      deleted := WithDeleted(cfg, deleted, local, f, DeletedRow(Some(now), original));
      deleted := WithDeleted(cfg, deleted, all, f, DeletedRow(None, None));
      return Some(true);
    }
  }
}
