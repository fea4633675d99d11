/** Tag interning over the three master tables: namespaces, subtags and tags. */
module Interning {
  import opened Tags

  datatype Option<+T> = None | Some(value: T)

  const NULL_NAMESPACE_ID := 1

  /** A table with an integer primary key and one unique column.  top is the largest key handed out; rows
      are never deleted, so the next key is top + 1. */
  datatype IdTable<K(==)> = IdTable(idOf: map<K, int>, top: int)

  predicate Injective<K(==)>(idOf: map<K, int>) {
    forall a, b | a in idOf && b in idOf && idOf[a] == idOf[b] :: a == b
  }

  predicate ValidTable<K(==)>(t: IdTable<K>) {
    && Injective(t.idOf)
    && t.top >= 0
    && forall k | k in t.idOf :: t.idOf[k] <= t.top
  }

  /** Rows are only ever added, and keep their key. */
  predicate Extends<K(==)>(before: map<K, int>, after: map<K, int>) {
    forall k | k in before :: k in after && after[k] == before[k]
  }

  function Insert<K(==)>(t: IdTable<K>, k: K): IdTable<K> {
    if k in t.idOf then t else IdTable(t.idOf[k := t.top + 1], t.top + 1)
  }

  lemma InsertIsValid<K>(t: IdTable<K>, k: K)
    requires ValidTable(t)
    ensures ValidTable(Insert(t, k)) && Extends(t.idOf, Insert(t, k).idOf)
    ensures Insert(t, k).idOf.Keys == t.idOf.Keys + {k}
  {
  }

  // ----- The three tables -----

  datatype Master = Master(namespaces: IdTable<string>, subtags: IdTable<string>, tags: IdTable<(int, int)>)

  predicate Valid(m: Master) {
    && ValidTable(m.namespaces) && ValidTable(m.subtags) && ValidTable(m.tags)
    && (forall row | row in m.tags.idOf :: row.0 in m.namespaces.idOf.Values && row.1 in m.subtags.idOf.Values)
  }

  /** Seeds the row of the empty namespace unless its id or its text is taken. */
  function SeedNullNamespace(t: IdTable<string>): IdTable<string> {
    if "" in t.idOf || NULL_NAMESPACE_ID in t.idOf.Values then t
    else IdTable(t.idOf["" := NULL_NAMESPACE_ID], if t.top < NULL_NAMESPACE_ID then NULL_NAMESPACE_ID else t.top)
  }

  /** Interns a clean tag: one row in each table, looked up first. */
  function EnsureClean(m: Master, clean: string): Master {
    var (namespace, subtag) := Split(clean);
    var namespaces := Insert(SeedNullNamespace(m.namespaces), namespace);
    var subtags := Insert(m.subtags, subtag);
    Master(namespaces, subtags, Insert(m.tags, (namespaces.idOf[namespace], subtags.idOf[subtag])))
  }

  /** Read-only search for a clean tag: the join of the three tables on the tag's parts. */
  function Find(m: Master, clean: string): Option<int> {
    var (namespace, subtag) := Split(clean);
    if namespace in m.namespaces.idOf && subtag in m.subtags.idOf
       && (m.namespaces.idOf[namespace], m.subtags.idOf[subtag]) in m.tags.idOf
    then Some(m.tags.idOf[(m.namespaces.idOf[namespace], m.subtags.idOf[subtag])])
    else None
  }

  /** The tag id belongs to the namespace and subtag whose rows the tag row names. */
  ghost predicate IsNameOf(m: Master, id: int, name: string) {
    exists namespace, subtag ::
      && namespace in m.namespaces.idOf && subtag in m.subtags.idOf
      && (m.namespaces.idOf[namespace], m.subtags.idOf[subtag]) in m.tags.idOf
      && m.tags.idOf[(m.namespaces.idOf[namespace], m.subtags.idOf[subtag])] == id
      && name == Combine(namespace, subtag)
  }

  lemma SeedIsValid(t: IdTable<string>)
    requires ValidTable(t)
    ensures ValidTable(SeedNullNamespace(t)) && Extends(t.idOf, SeedNullNamespace(t).idOf)
  {
    forall k | k in t.idOf ensures t.idOf[k] in t.idOf.Values {}
  }

  lemma EnsureCleanIsValid(m: Master, clean: string)
    requires Valid(m)
    ensures Valid(EnsureClean(m, clean))
    ensures Find(EnsureClean(m, clean), clean).Some?
  {
    SeedIsValid(m.namespaces);
    var (namespace, subtag) := Split(clean);
    InsertIsValid(SeedNullNamespace(m.namespaces), namespace);
    InsertIsValid(m.subtags, subtag);
    var after := EnsureClean(m, clean);
    InsertIsValid(m.tags, (after.namespaces.idOf[namespace], after.subtags.idOf[subtag]));
    ValuesExtend(m.namespaces.idOf, after.namespaces.idOf);
    ValuesExtend(m.subtags.idOf, after.subtags.idOf);
    assert after.namespaces.idOf[namespace] in after.namespaces.idOf.Values;
    assert after.subtags.idOf[subtag] in after.subtags.idOf.Values;
  }

  lemma ValuesExtend(before: map<string, int>, after: map<string, int>)
    requires Extends(before, after)
    ensures before.Values <= after.Values
  {
    forall v | v in before.Values ensures v in after.Values {
      var k :| k in before && before[k] == v;
      assert after[k] == v;
    }
  }

  /** Interning one tag leaves every other tag's search result as it was and reassigns no id. */
  lemma EnsureCleanFrame(m: Master, clean: string, other: string)
    requires Valid(m)
    requires Combine(Split(clean).0, Split(clean).1) == clean
    requires Combine(Split(other).0, Split(other).1) == other
    ensures other != clean || Find(m, other).Some? ==> Find(EnsureClean(m, clean), other) == Find(m, other)
  {
    var after := EnsureClean(m, clean);
    EnsureCleanExtends(m, clean);
    if Find(m, other) == None && Find(after, other).Some? {
      NewRowIsOfTag(m, clean, other);
    }
  }

  /** All three tables only grow. */
  predicate Grows(m: Master, after: Master) {
    && Extends(m.namespaces.idOf, after.namespaces.idOf)
    && Extends(m.subtags.idOf, after.subtags.idOf)
    && Extends(m.tags.idOf, after.tags.idOf)
  }

  lemma EnsureCleanExtends(m: Master, clean: string)
    requires Valid(m)
    ensures Grows(m, EnsureClean(m, clean))
  {
    var (namespace, subtag) := Split(clean);
    var after := EnsureClean(m, clean);
    SeedIsValid(m.namespaces);
    InsertIsValid(SeedNullNamespace(m.namespaces), namespace);
    InsertIsValid(m.subtags, subtag);
    InsertIsValid(m.tags, (after.namespaces.idOf[namespace], after.subtags.idOf[subtag]));
    hide ValidTable, Insert, SeedNullNamespace, Split;
  }

  /** The only tag that becomes findable is the one interned. */
  lemma NewRowIsOfTag(m: Master, clean: string, other: string)
    requires Valid(m)
    requires Combine(Split(clean).0, Split(clean).1) == clean
    requires Combine(Split(other).0, Split(other).1) == other
    requires Find(m, other) == None && Find(EnsureClean(m, clean), other).Some?
    ensures other == clean
  {
    EnsureCleanIsValid(m, clean);
    EnsureCleanExtends(m, clean);
    var after := EnsureClean(m, clean);
    hide Split, Combine;
    var (n, s) := Split(other);
    var row := (after.namespaces.idOf[n], after.subtags.idOf[s]);
    if row in m.tags.idOf {
      ParentsAreKnown(m, row);
    }
  }

  lemma ParentsAreKnown(m: Master, row: (int, int))
    requires Valid(m) && row in m.tags.idOf
    ensures exists n :: n in m.namespaces.idOf && m.namespaces.idOf[n] == row.0
    ensures exists s :: s in m.subtags.idOf && m.subtags.idOf[s] == row.1
  {
    assert row.0 in m.namespaces.idOf.Values && row.1 in m.subtags.idOf.Values;
  }

  /** Two tags have the same id only if they are the same tag, and the id leads back to the tag. */
  lemma FindIsInjective(m: Master, a: string, b: string)
    requires Valid(m)
    requires Combine(Split(a).0, Split(a).1) == a && Combine(Split(b).0, Split(b).1) == b
    requires Find(m, a).Some? && Find(m, b) == Find(m, a)
    ensures a == b
  {
    var (n, s) := Split(a);
    var (p, t) := Split(b);
    assert (m.namespaces.idOf[n], m.subtags.idOf[s]) == (m.namespaces.idOf[p], m.subtags.idOf[t]);
  }

  lemma IdHasOneName(m: Master, clean: string, id: int, name: string)
    requires Valid(m) && Combine(Split(clean).0, Split(clean).1) == clean
    requires Find(m, clean) == Some(id)
    ensures IsNameOf(m, id, name) <==> name == clean
  {
    var (n, s) := Split(clean);
    if IsNameOf(m, id, name) {
      var namespace, subtag :|
        && namespace in m.namespaces.idOf && subtag in m.subtags.idOf
        && (m.namespaces.idOf[namespace], m.subtags.idOf[subtag]) in m.tags.idOf
        && m.tags.idOf[(m.namespaces.idOf[namespace], m.subtags.idOf[subtag])] == id
        && name == Combine(namespace, subtag);
      assert (m.namespaces.idOf[n], m.subtags.idOf[s]) == (m.namespaces.idOf[namespace], m.subtags.idOf[subtag]);
    }
  }

  // ----- The tags found in the tables -----

  predicate Recombines(name: string) {
    Combine(Split(name).0, Split(name).1) == name
  }

  /** Every clean tag a search finds, with its id. */
  function TagIds(m: Master): map<string, int> {
    var candidates := set n, s | n in m.namespaces.idOf && s in m.subtags.idOf :: Combine(n, s);
    map name | name in candidates && Recombines(name) && Find(m, name).Some? :: Find(m, name).value
  }

  lemma TagIdsFinds(m: Master, name: string)
    requires Recombines(name)
    ensures name in TagIds(m) <==> Find(m, name).Some?
    ensures name in TagIds(m) ==> Find(m, name) == Some(TagIds(m)[name])
  {
    if Find(m, name).Some? {
      var (n, s) := Split(name);
      assert name == Combine(n, s);
    }
  }

  lemma TagIdsAreInjective(m: Master)
    requires Valid(m)
    ensures Injective(TagIds(m))
  {
    hide Valid, Find;
    forall a, b | a in TagIds(m) && b in TagIds(m) && TagIds(m)[a] == TagIds(m)[b] ensures a == b {
      TagIdsFinds(m, a);
      TagIdsFinds(m, b);
      FindIsInjective(m, a, b);
    }
  }

  /** Interning a clean tag adds that tag, keeps the id of every other and gives no id twice. */
  lemma EnsureCleanTagIds(m: Master, clean: string)
    requires Valid(m) && Recombines(clean)
    ensures Valid(EnsureClean(m, clean)) && Injective(TagIds(EnsureClean(m, clean)))
    ensures TagIds(EnsureClean(m, clean)).Keys == TagIds(m).Keys + {clean}
    ensures Extends(TagIds(m), TagIds(EnsureClean(m, clean)))
  {
    EnsureCleanIsValid(m, clean);
    hide Valid, Find, EnsureClean;
    var after := EnsureClean(m, clean);
    TagIdsAreInjective(after);
    TagIdsFinds(after, clean);
    forall name ensures name in TagIds(after) <==> name in TagIds(m) || name == clean
      ensures name in TagIds(m) ==> name in TagIds(after) && TagIds(after)[name] == TagIds(m)[name]
    {
      if Recombines(name) {
        TagIdsFinds(m, name);
        TagIdsFinds(after, name);
        EnsureCleanFrame(m, clean, name);
      }
    }
  }

  // ----- Sequences of calls -----

  /** Interns each of the raw tags in turn; a tag of which nothing is left is refused and adds nothing. */
  function EnsureAll(table: CaseTable, m: Master, raws: seq<string>): Master {
    if raws == [] then m
    else
      var before := EnsureAll(table, m, raws[..|raws| - 1]);
      var clean := Clean(table, raws[|raws| - 1]);
      if NotEmpty(clean) then EnsureClean(before, clean) else before
  }

  /** Over any sequence of calls: a search finds a clean tag exactly when it was there before or was
      interned by one of the calls, and ids already handed out are kept. */
  lemma {:induction false} EnsureAllFinds(table: CaseTable, m: Master, raws: seq<string>, clean: string)
    requires Valid(m)
    requires Combine(Split(clean).0, Split(clean).1) == clean && NotEmpty(clean)
    ensures var after := EnsureAll(table, m, raws);
            && Valid(after)
            && (Find(after, clean).Some? <==>
                  Find(m, clean).Some? || exists raw :: raw in raws && Clean(table, raw) == clean)
            && (Find(m, clean).Some? ==> Find(after, clean) == Find(m, clean))
  {
    if raws != [] {
      var init, last := raws[..|raws| - 1], raws[|raws| - 1];
      assert raws == init + [last];
      EnsureAllFinds(table, m, init, clean);
      var before := EnsureAll(table, m, init);
      var tag := Clean(table, last);
      CleanIsNormal(table, last);
      if NotEmpty(tag) {
        EnsureCleanIsValid(before, tag);
        EnsureCleanFrame(before, tag, clean);
      }
      assert (exists raw :: raw in raws && Clean(table, raw) == clean)
        <==> (exists raw :: raw in init && Clean(table, raw) == clean) || tag == clean by {
        assert forall raw :: raw in raws <==> raw in init || raw == last;
      }
    }
  }

  /** After any sequence of calls, two raw tags that were interned share an id exactly when they clean to
      the same tag, and looking the id up returns that tag and no other. */
  lemma InterningIsABijection(table: CaseTable, m: Master, raws: seq<string>, a: string, b: string)
    requires Valid(m) && a in raws && b in raws
    requires NotEmpty(Clean(table, a)) && NotEmpty(Clean(table, b))
    ensures var after := EnsureAll(table, m, raws);
            && Find(after, Clean(table, a)).Some? && Find(after, Clean(table, b)).Some?
            && (Find(after, Clean(table, a)) == Find(after, Clean(table, b)) <==> Clean(table, a) == Clean(table, b))
            && forall name :: IsNameOf(after, Find(after, Clean(table, a)).value, name) <==> name == Clean(table, a)
  {
    var after := EnsureAll(table, m, raws);
    CleanIsNormal(table, a);
    CleanIsNormal(table, b);
    EnsureAllFinds(table, m, raws, Clean(table, a));
    EnsureAllFinds(table, m, raws, Clean(table, b));
    if Find(after, Clean(table, a)) == Find(after, Clean(table, b)) {
      FindIsInjective(after, Clean(table, a), Clean(table, b));
    }
    forall name ensures IsNameOf(after, Find(after, Clean(table, a)).value, name) <==> name == Clean(table, a) {
      IdHasOneName(after, Clean(table, a), Find(after, Clean(table, a)).value, name);
    }
  }

  /** The row keeps its key if there was one, and otherwise has one larger than any key before. */
  predicate RowEnsured<K(==)>(before: IdTable<K>, after: IdTable<K>, key: K) {
    && key in after.idOf
    && if key in before.idOf then after == before
       else after.idOf[key] == after.top > before.top && after.idOf == before.idOf[key := after.top]
  }

  /** The tag has its three rows.  The empty namespace got the id 1 unless it had an id or 1 was taken; besides that
      only the rows of this tag were added. */
  ghost predicate HasItsRows(before: Master, after: Master, namespace: string, subtag: string, id: int) {
    && (exists seeded: IdTable<string> ::
          && RowEnsured(seeded, after.namespaces, namespace)
          && if "" in before.namespaces.idOf || 1 in before.namespaces.idOf.Values then seeded == before.namespaces
             else seeded.idOf == before.namespaces.idOf["" := 1] && seeded.top >= before.namespaces.top)
    && RowEnsured(before.subtags, after.subtags, subtag)
    && namespace in after.namespaces.idOf && subtag in after.subtags.idOf
    && var row := (after.namespaces.idOf[namespace], after.subtags.idOf[subtag]);
       RowEnsured(before.tags, after.tags, row) && row in after.tags.idOf && after.tags.idOf[row] == id
  }

  lemma CleanIsInterned(m: Master, clean: string)
    requires Valid(m) && Find(EnsureClean(m, clean), clean).Some?
    ensures var (namespace, subtag) := Split(clean);
            HasItsRows(m, EnsureClean(m, clean), namespace, subtag, Find(EnsureClean(m, clean), clean).value)
  {
    hide Split, Valid;
    var (namespace, subtag) := Split(clean);
    assert RowEnsured(SeedNullNamespace(m.namespaces), EnsureClean(m, clean).namespaces, namespace);
  }

  // ----- The tables as they are updated -----

  class MasterTags {
    var namespaces: IdTable<string>
    var subtags: IdTable<string>
    var tags: IdTable<(int, int)>

    function Value(): Master
      reads this
    {
      Master(namespaces, subtags, tags)
    }

    constructor (m: Master)
      ensures Value() == m
    {
      namespaces, subtags, tags := m.namespaces, m.subtags, m.tags;
    }

    /** Puts back the tables of a transaction that is rolled back. */
    method Restore(m: Master)
      modifies this
      ensures Value() == m
    {
      namespaces, subtags, tags := m.namespaces, m.subtags, m.tags;
    }

    method EnsureNamespaceID(namespace: string) returns (id: int)
      modifies this`namespaces
      ensures namespaces == Insert(old(namespaces), namespace) && id == namespaces.idOf[namespace]
    {
      if namespace !in namespaces.idOf {
        namespaces := IdTable(namespaces.idOf[namespace := namespaces.top + 1], namespaces.top + 1);
      }
      id := namespaces.idOf[namespace];
    }

    method EnsureSubtagID(subtag: string) returns (id: int)
      modifies this`subtags
      ensures subtags == Insert(old(subtags), subtag) && id == subtags.idOf[subtag]
    {
      if subtag !in subtags.idOf {
        subtags := IdTable(subtags.idOf[subtag := subtags.top + 1], subtags.top + 1);
      }
      id := subtags.idOf[subtag];
    }

    method EnsureMasterTagID(namespaceId: int, subtagId: int) returns (id: int)
      modifies this`tags
      ensures tags == Insert(old(tags), (namespaceId, subtagId)) && id == tags.idOf[(namespaceId, subtagId)]
    {
      var row := (namespaceId, subtagId);
      if row !in tags.idOf {
        tags := IdTable(tags.idOf[row := tags.top + 1], tags.top + 1);
      }
      id := tags.idOf[row];
    }

    /** The id of a raw tag, interning it first when it is new.  A tag of which cleaning leaves nothing is
        refused and no table changes. */
    method EnsureTagID(table: CaseTable, raw: string) returns (id: Option<int>)
      requires Valid(Value())
      modifies this
      ensures Valid(Value())
      ensures Value() == if NotEmpty(Clean(table, raw)) then EnsureClean(old(Value()), Clean(table, raw))
              else old(Value())
      ensures id == if NotEmpty(Clean(table, raw)) then Find(Value(), Clean(table, raw)) else None
      ensures NotEmpty(Clean(table, raw)) ==> id.Some?
      ensures id.Some? ==>
                var (namespace, subtag) := Split(Clean(table, raw));
                HasItsRows(old(Value()), Value(), namespace, subtag, id.value)
      ensures id.None? ==> namespaces == old(namespaces) && subtags == old(subtags) && tags == old(tags)
    {
      var clean := Clean(table, raw);
      if !NotEmpty(clean) {
        return None;
      }
      EnsureCleanIsValid(Value(), clean);
      CleanIsInterned(Value(), clean);
      namespaces := SeedNullNamespace(namespaces);
      var (namespace, subtag) := Split(clean);
      var namespaceId := EnsureNamespaceID(namespace);
      var subtagId := EnsureSubtagID(subtag);
      var tagId := EnsureMasterTagID(namespaceId, subtagId);
      id := Some(tagId);
    }
  }
}
