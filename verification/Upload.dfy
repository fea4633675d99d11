/** The upload of pending mappings: how the pending table is grouped, encoded for the remote and committed. */
module Upload {
  import opened Tags
  import opened Interning
  import opened MappingTables
  import opened UpdateOrder
  import opened Repository
  import opened Replay
  import opened Wire
  import opened WireMeaning
  import opened HydrusBundle
  import opened SyncSystem
  import opened SyncTheorems

  /** One tag and the hashes it is to be added to. */
  datatype Group = Group(tag: string, hashes: seq<string>)

  // ----- Grouping the pending table -----

  /** The pending rows whose hash has text, by tag id and then hash id. */
  function Rows(pending: set<(int, int)>, hashText: map<int, string>): seq<Rank> {
    Sorted(set p | p in pending && p.1 in hashText :: Rank(p.0, 0, p.1))
  }

  /** Rows as (tag id, hash text). */
  function Texts(rows: seq<Rank>, hashText: map<int, string>): seq<(int, string)>
    requires forall i | 0 <= i < |rows| :: rows[i].id in hashText
  {
    seq(|rows|, i requires 0 <= i < |rows| => (rows[i].index, hashText[rows[i].id]))
  }

  /** Every tag of the list has a list of hashes collected for it. */
  predicate Covered(order: seq<int>, byTag: map<int, seq<string>>) {
    forall i | 0 <= i < |order| :: order[i] in byTag
  }

  /** What a list of tags and the hashes collected for each of them stand for, in order. */
  function Collected(order: seq<int>, byTag: map<int, seq<string>>): seq<(int, string)>
    requires Covered(order, byTag)
  {
    if order == [] then []
    else
      var tag := order[|order| - 1];
      Collected(order[..|order| - 1], byTag)
      + seq(|byTag[tag]|, i requires 0 <= i < |byTag[tag]| => (tag, byTag[tag][i]))
  }

  lemma {:induction false} CollectedFrame(order: seq<int>, a: map<int, seq<string>>, b: map<int, seq<string>>)
    requires Covered(order, a) && Covered(order, b) && forall i | 0 <= i < |order| :: a[order[i]] == b[order[i]]
    ensures Collected(order, a) == Collected(order, b)
  {
    if order != [] {
      CollectedFrame(order[..|order| - 1], a, b);
    }
  }

  predicate Increasing(order: seq<int>) {
    forall i, j | 0 <= i < j < |order| :: order[i] < order[j]
  }

  lemma CollectMore(order: seq<int>, byTag: map<int, seq<string>>, hash: string)
    requires order != [] && Increasing(order) && Covered(order, byTag)
    ensures var tag := order[|order| - 1];
            Collected(order, byTag[tag := byTag[tag] + [hash]]) == Collected(order, byTag) + [(tag, hash)]
  {
    var init, tag := order[..|order| - 1], order[|order| - 1];
    assert forall i | 0 <= i < |init| :: init[i] == order[i] != tag;
    CollectedFrame(init, byTag, byTag[tag := byTag[tag] + [hash]]);
  }

  lemma CollectNew(order: seq<int>, byTag: map<int, seq<string>>, tag: int, hash: string)
    requires (forall i | 0 <= i < |order| :: order[i] != tag) && Covered(order, byTag)
    ensures Covered(order + [tag], byTag[tag := [hash]])
    ensures Collected(order + [tag], byTag[tag := [hash]]) == Collected(order, byTag) + [(tag, hash)]
  {
    assert (order + [tag])[..|order|] == order;
    CollectedFrame(order, byTag, byTag[tag := [hash]]);
  }

  /** The (tag, hash) pairs of a list of groups, in order. */
  function Flatten(groups: seq<Group>): seq<(string, string)> {
    if groups == [] then []
    else
      var g := groups[|groups| - 1];
      Flatten(groups[..|groups| - 1]) + seq(|g.hashes|, i requires 0 <= i < |g.hashes| => (g.tag, g.hashes[i]))
  }

  predicate AllNamed(order: seq<int>, tagText: map<int, string>) {
    forall i | 0 <= i < |order| :: order[i] in tagText
  }

  function Named(pairs: seq<(int, string)>, tagText: map<int, string>): seq<(string, string)>
    requires forall i | 0 <= i < |pairs| :: pairs[i].0 in tagText
  {
    seq(|pairs|, i requires 0 <= i < |pairs| => (tagText[pairs[i].0], pairs[i].1))
  }

  /** The groups of some tags. */
  function GroupsOf(order: seq<int>, byTag: map<int, seq<string>>, tagText: map<int, string>): (groups: seq<Group>)
    requires Covered(order, byTag) && AllNamed(order, tagText)
  {
    seq(|order|, i requires 0 <= i < |order| => Group(tagText[order[i]], byTag[order[i]]))
  }

  /** Flattening the groups gives what was collected, tag by tag. */
  lemma {:induction false} FlattenGroups(order: seq<int>, byTag: map<int, seq<string>>, tagText: map<int, string>)
    requires Covered(order, byTag) && AllNamed(order, tagText)
    ensures forall i | 0 <= i < |Collected(order, byTag)| :: Collected(order, byTag)[i].0 in tagText
    ensures Flatten(GroupsOf(order, byTag, tagText)) == Named(Collected(order, byTag), tagText)
  {
    if order != [] {
      var init := order[..|order| - 1];
      FlattenGroups(init, byTag, tagText);
      assert GroupsOf(order, byTag, tagText)[..|order| - 1] == GroupsOf(init, byTag, tagText);
    }
  }

  /** The rows' tags in the order in which they first occur, and the hashes of each. */
  ghost predicate CollectedFrom(order: seq<int>, byTag: map<int, seq<string>>, rows: seq<Rank>,
                                hashText: map<int, string>)
    requires forall i | 0 <= i < |rows| :: rows[i].id in hashText
  {
    && Covered(order, byTag) && Increasing(order)
    && Collected(order, byTag) == Texts(rows, hashText)
    && (forall k | 0 <= k < |order| :: byTag[order[k]] != [])
    && (rows != [] ==> order != [] && order[|order| - 1] == rows[|rows| - 1].index)
    && (order == [] ==> byTag == map[])
    && (forall t | t in byTag :: exists k | 0 <= k < |order| :: order[k] == t)
  }

  lemma TextsSnoc(rows: seq<Rank>, row: Rank, hashText: map<int, string>)
    requires (forall i | 0 <= i < |rows| :: rows[i].id in hashText) && row.id in hashText
    ensures Texts(rows + [row], hashText) == Texts(rows, hashText) + [(row.index, hashText[row.id])]
  {
  }

  lemma LessIndex(rows: seq<Rank>, row: Rank)
    requires rows != [] ==> Less(rows[|rows| - 1], row)
    ensures rows != [] ==> rows[|rows| - 1].index <= row.index
  {
  }

  lemma CollectStep(order: seq<int>, byTag: map<int, seq<string>>, rows: seq<Rank>, row: Rank,
                    hashText: map<int, string>)
    requires (forall i | 0 <= i < |rows| :: rows[i].id in hashText) && row.id in hashText
    requires CollectedFrom(order, byTag, rows, hashText) && (rows != [] ==> Less(rows[|rows| - 1], row))
    requires rows == [] ==> order == []
    ensures if row.index in byTag
            then CollectedFrom(order, byTag[row.index := byTag[row.index] + [hashText[row.id]]], rows + [row], hashText)
            else CollectedFrom(order + [row.index], byTag[row.index := [hashText[row.id]]], rows + [row], hashText)
  {
    var hash := hashText[row.id];
    TextsSnoc(rows, row, hashText);
    hide Collected, Texts, Less;
    assert rows != [] ==> rows[|rows| - 1].index <= row.index by { LessIndex(rows, row); }
    if row.index in byTag {
      CollectMore(order, byTag, hash);
    } else {
      CollectNew(order, byTag, row.index, hash);
    }
  }

  method CollectByTag(rows: seq<Rank>, hashText: map<int, string>)
    returns (order: seq<int>, byTag: map<int, seq<string>>)
    requires StrictlySorted(rows) && forall i | 0 <= i < |rows| :: rows[i].id in hashText
    ensures CollectedFrom(order, byTag, rows, hashText)
  {
    order, byTag := [], map[];
    for i := 0 to |rows|
      invariant CollectedFrom(order, byTag, rows[..i], hashText) && (i == 0 ==> order == [])
    {
      var tag, hash := rows[i].index, hashText[rows[i].id];
      assert rows[..i + 1] == rows[..i] + [rows[i]];
      if i > 0 { assert Less(rows[i - 1], rows[i]); }
      CollectStep(order, byTag, rows[..i], rows[i], hashText);
      hide CollectedFrom;
      if tag !in byTag {
        order, byTag := order + [tag], byTag[tag := [hash]];
      } else {
        byTag := byTag[tag := byTag[tag] + [hash]];
      }
    }
    assert rows[..|rows|] == rows;
  }

  predicate RowsNamed(rows: seq<Rank>, tagText: map<int, string>) {
    forall i | 0 <= i < |rows| :: rows[i].index in tagText
  }

  lemma RowsHaveText(pending: set<(int, int)>, hashText: map<int, string>)
    ensures forall i | 0 <= i < |Rows(pending, hashText)| :: Rows(pending, hashText)[i].id in hashText
  {
    var rows := Rows(pending, hashText);
    forall i | 0 <= i < |rows| ensures rows[i].id in hashText {
      assert rows[i] in Elements(rows);
    }
  }

  /** The pairs to upload: every pending row whose hash has text, in table order, by name. */
  function Uploaded(pending: set<(int, int)>, tagText: map<int, string>,
                    hashText: map<int, string>): seq<(string, string)>
    requires RowsNamed(Rows(pending, hashText), tagText)
  {
    RowsHaveText(pending, hashText);
    Named(Texts(Rows(pending, hashText), hashText), tagText)
  }

  /** The pairs are those of the pending rows with a hash text, each once, by tag id and then by hash id. */
  ghost predicate ListsPending(pairs: seq<(string, string)>, pending: set<(int, int)>, tagText: map<int, string>,
                               hashText: map<int, string>)
  {
    exists rows: seq<Rank> ::
      && |rows| == |pairs|
      && (forall r: Rank :: r in rows <==> r.kind == 0 && (r.index, r.id) in pending && r.id in hashText)
      && (forall i, j | 0 <= i < j < |rows| ::
            rows[i].index < rows[j].index || (rows[i].index == rows[j].index && rows[i].id < rows[j].id))
      && forall i | 0 <= i < |rows| ::
           && rows[i].index in tagText && rows[i].id in hashText
           && pairs[i] == (tagText[rows[i].index], hashText[rows[i].id])
  }

  lemma UploadedInOrder(pending: set<(int, int)>, tagText: map<int, string>, hashText: map<int, string>)
    requires RowsNamed(Rows(pending, hashText), tagText)
    ensures ListsPending(Uploaded(pending, tagText, hashText), pending, tagText, hashText)
  {
    var rows, pairs := Rows(pending, hashText), Uploaded(pending, tagText, hashText);
    RowsHaveText(pending, hashText);
    forall r: Rank ensures r in rows <==> r.kind == 0 && (r.index, r.id) in pending && r.id in hashText {
      assert r in rows <==> r in Elements(rows);
      if r.kind == 0 && (r.index, r.id) in pending && r.id in hashText {
        var p := (r.index, r.id);
        assert r == Rank(p.0, 0, p.1);
      }
    }
    forall i, j | 0 <= i < j < |rows|
      ensures rows[i].index < rows[j].index || (rows[i].index == rows[j].index && rows[i].id < rows[j].id)
    {
      assert Less(rows[i], rows[j]) && rows[i] in rows && rows[j] in rows;
    }
    hide Rows, Uploaded;
    assert |rows| == |pairs|;
  }

  /** The groups belong to different tags, in the order of their ids, and none is empty. */
  ghost predicate OneGroupPerTag(groups: seq<Group>, tagText: map<int, string>) {
    && (forall i | 0 <= i < |groups| :: groups[i].hashes != [])
    && exists order :: Increasing(order) && AllNamed(order, tagText) && |order| == |groups|
                       && forall i | 0 <= i < |order| :: groups[i].tag == tagText[order[i]]
  }

  method MakeGroups(order: seq<int>, byTag: map<int, seq<string>>, tagText: map<int, string>)
    returns (r: Option<seq<Group>>)
    requires Covered(order, byTag)
    ensures r.Some? <==> AllNamed(order, tagText)
    ensures r.Some? ==> r.value == GroupsOf(order, byTag, tagText)
  {
    var groups: seq<Group> := [];
    for i := 0 to |order|
      invariant |groups| == i
      invariant forall k | 0 <= k < i :: order[k] in tagText && groups[k] == Group(tagText[order[k]], byTag[order[k]])
    {
      if order[i] !in tagText {
        return None;
      }
      groups := groups + [Group(tagText[order[i]], byTag[order[i]])];
    }
    assert groups == GroupsOf(order, byTag, tagText);
    return Some(groups);
  }

  /** The groups of a pending table: one group a tag, none of them empty, which together list exactly the
      pending pairs, each once, in table order.  A tag without text is an error. */
  method ListPendingMappingsForCommit(pending: set<(int, int)>, tagText: map<int, string>, hashText: map<int, string>)
    returns (r: Option<seq<Group>>)
    ensures r.Some? <==> RowsNamed(Rows(pending, hashText), tagText)
    ensures r.Some? ==> Flatten(r.value) == Uploaded(pending, tagText, hashText) && OneGroupPerTag(r.value, tagText)
    ensures r.Some? ==> ListsPending(Flatten(r.value), pending, tagText, hashText)
  {
    hide ListsPending;
    var rows := Rows(pending, hashText);
    RowsHaveText(pending, hashText);
    var order, byTag := CollectByTag(rows, hashText);
    CollectedTags(order, byTag, rows, hashText, tagText);
    r := MakeGroups(order, byTag, tagText);
    if r.Some? {
      FlattenGroups(order, byTag, tagText);
      UploadedInOrder(pending, tagText, hashText);
    }
  }

  /** The tags collected are those of the rows. */
  lemma CollectedTags(order: seq<int>, byTag: map<int, seq<string>>, rows: seq<Rank>, hashText: map<int, string>,
                      tagText: map<int, string>)
    requires forall i | 0 <= i < |rows| :: rows[i].id in hashText
    requires CollectedFrom(order, byTag, rows, hashText)
    ensures AllNamed(order, tagText) <==> RowsNamed(rows, tagText)
  {
    if RowsNamed(rows, tagText) {
      forall i | 0 <= i < |order| ensures order[i] in tagText {
        var k := CollectedHas(order, byTag, i);
        assert rows[k].index == order[i];
      }
    }
    if AllNamed(order, tagText) {
      forall k | 0 <= k < |rows| ensures rows[k].index in tagText {
        var i := CollectedAt(order, byTag, k);
      }
    }
  }

  lemma {:induction false} CollectedHas(order: seq<int>, byTag: map<int, seq<string>>, i: nat) returns (k: nat)
    requires Covered(order, byTag) && i < |order| && byTag[order[i]] != []
    ensures k < |Collected(order, byTag)| && Collected(order, byTag)[k].0 == order[i]
  {
    var init := order[..|order| - 1];
    if i < |init| {
      k := CollectedHas(init, byTag, i);
    } else {
      k := |Collected(init, byTag)|;
    }
  }

  lemma {:induction false} CollectedAt(order: seq<int>, byTag: map<int, seq<string>>, k: nat) returns (i: nat)
    requires Covered(order, byTag) && k < |Collected(order, byTag)|
    ensures i < |order| && order[i] == Collected(order, byTag)[k].0
  {
    var init := order[..|order| - 1];
    if k < |Collected(init, byTag)| {
      i := CollectedAt(init, byTag, k);
    } else {
      i := |init|;
    }
  }

  // ----- The pairs uploaded are the pending ones -----

  /** Every name is found under its id. */
  predicate Inverse(idOf: map<string, int>, text: map<int, string>) {
    forall name | name in idOf :: idOf[name] in text && text[idOf[name]] == name
  }

  predicate Distinct(pairs: seq<Mapping>) {
    forall i, j | 0 <= i < j < |pairs| :: pairs[i] != pairs[j]
  }

  lemma {:induction false} DistinctSize(pairs: seq<Mapping>)
    requires Distinct(pairs)
    ensures |set p | p in pairs| == |pairs|
  {
    if pairs == [] {
      assert (set p | p in pairs) == {};
    } else {
      var init, last := pairs[..|pairs| - 1], pairs[|pairs| - 1];
      DistinctSize(init);
      assert pairs == init + [last];
      assert (set p | p in pairs) == (set p | p in init) + {last};
      assert last !in init;
    }
  }

  /** The row of a pending mapping. */
  function RowOf(names: Names, m: Mapping): Rank
    requires m.0 in names.tags && m.1 in names.hashes
  {
    Rank(names.tags[m.0], 0, names.hashes[m.1])
  }

  lemma RowsAreThePending(names: Names, pending: set<Mapping>, hashText: map<int, string>)
    requires ValidNames(names) && Known(names, pending) && Inverse(names.hashes, hashText)
    ensures Rows(EncodePairs(names, pending), hashText) == Sorted(set m | m in pending :: RowOf(names, m))
  {
    var ids := EncodePairs(names, pending);
    var rows := set p | p in ids && p.1 in hashText :: Rank(p.0, 0, p.1);
    forall m | m in pending ensures RowOf(names, m) in rows {
      assert (names.tags[m.0], names.hashes[m.1]) in ids;
    }
    assert rows == set m | m in pending :: RowOf(names, m);
  }

  /** The groups of a store's pending table list exactly the pending mappings of the replica the store
      represents, each of them once; nothing that is not pending is sent. */
  lemma UploadIsExact(c: Content, r: Replica, tagText: map<int, string>, hashText: map<int, string>)
    requires Represents(c, r) && Inverse(c.names.tags, tagText) && Inverse(c.names.hashes, hashText)
    ensures RowsNamed(Rows(c.mappings.pending, hashText), tagText)
    ensures var pairs := Uploaded(c.mappings.pending, tagText, hashText);
            && (forall m :: m in pairs <==> m in r.tables.pending)
            && Distinct(pairs) && |pairs| == |r.tables.pending|
  {
    var names, pending := c.names, r.tables.pending;
    RepresentsPending(c, r);
    hide Represents, Uploaded, Rows, EncodePairs, RowsNamed, Distinct, PairsOfRows, ValidNames, Inverse;
    UploadedPairs(names, pending, tagText, hashText);
    PairsAreThePending(names, pending, Rows(c.mappings.pending, hashText),
                       Uploaded(c.mappings.pending, tagText, hashText));
  }

  lemma RepresentsPending(c: Content, r: Replica)
    requires Represents(c, r)
    ensures ValidNames(c.names) && Known(c.names, r.tables.pending)
    ensures c.mappings.pending == EncodePairs(c.names, r.tables.pending)
  {
  }

  /** The pairs are pending mappings, and each row names its pair. */
  predicate PairsOfRows(names: Names, pending: set<Mapping>, rows: seq<Rank>, pairs: seq<Mapping>)
    requires Known(names, pending)
  {
    |pairs| == |rows| && forall i | 0 <= i < |rows| :: pairs[i] in pending && rows[i] == RowOf(names, pairs[i])
  }

  lemma UploadedPairs(names: Names, pending: set<Mapping>, tagText: map<int, string>, hashText: map<int, string>)
    requires ValidNames(names) && Known(names, pending)
    requires Inverse(names.tags, tagText) && Inverse(names.hashes, hashText)
    ensures var ids := EncodePairs(names, pending);
            && Rows(ids, hashText) == Sorted(set m | m in pending :: RowOf(names, m))
            && RowsNamed(Rows(ids, hashText), tagText)
            && PairsOfRows(names, pending, Rows(ids, hashText), Uploaded(ids, tagText, hashText))
  {
    var ids := EncodePairs(names, pending);
    var rows := Rows(ids, hashText);
    RowsAreThePending(names, pending, hashText);
    hide EncodePairs, Rows, ValidNames;
    forall i | 0 <= i < |rows| ensures exists m :: m in pending && rows[i] == RowOf(names, m) {
      assert rows[i] in Elements(rows);
    }
    var pairs := Uploaded(ids, tagText, hashText);
    forall i | 0 <= i < |pairs| ensures pairs[i] in pending && rows[i] == RowOf(names, pairs[i]) {
      var m :| m in pending && rows[i] == RowOf(names, m);
    }
  }

  lemma PairsAreThePending(names: Names, pending: set<Mapping>, rows: seq<Rank>, pairs: seq<Mapping>)
    requires ValidNames(names) && Known(names, pending)
    requires rows == Sorted(set m | m in pending :: RowOf(names, m)) && PairsOfRows(names, pending, rows, pairs)
    ensures (forall m :: m in pairs <==> m in pending) && Distinct(pairs) && |pairs| == |pending|
  {
    forall m | m in pending ensures m in pairs {
      assert RowOf(names, m) in Elements(rows);
      var i :| 0 <= i < |rows| && rows[i] == RowOf(names, m);
      assert pairs[i] == m;
    }
    forall i, j | 0 <= i < j < |pairs| ensures pairs[i] != pairs[j] {
      assert Less(rows[i], rows[j]);
    }
    DistinctSize(pairs);
    assert (set p | p in pairs) == pending;
  }

  // ----- Encoding the groups -----

  const TYPE_CONTENT := 23
  const TYPE_CLIENT_TO_SERVER_UPDATE := 40
  const CONTENT_TYPE_MAPPINGS := 0
  const CONTENT_UPDATE_PEND := 2

  datatype EncodeError = NoGroups | BlankTag | BlankHash | HashNotHex | NoHashes
  datatype Encoded = Body(json: Json) | Refused(error: EncodeError)

  function Normalized(cases: CaseTable, hash: string): string {
    ToLower(cases, TrimSpace(hash))
  }

  predicate EncodableHash(cases: CaseTable, hash: string) {
    Normalized(cases, hash) != "" && DecodeHex(Normalized(cases, hash)).Ok?
  }

  predicate Encodable(cases: CaseTable, g: Group) {
    && TrimSpace(g.tag) != "" && g.hashes != []
    && forall i | 0 <= i < |g.hashes| :: EncodableHash(cases, g.hashes[i])
  }

  function NormalizedHashes(cases: CaseTable, hashes: seq<string>): seq<string> {
    seq(|hashes|, i requires 0 <= i < |hashes| => Normalized(cases, hashes[i]))
  }

  function NormalizedGroups(cases: CaseTable, groups: seq<Group>): seq<Group> {
    seq(|groups|, i requires 0 <= i < |groups| =>
      Group(TrimSpace(groups[i].tag), NormalizedHashes(cases, groups[i].hashes)))
  }

  function TextList(texts: seq<string>): Json {
    List(seq(|texts|, i requires 0 <= i < |texts| => Text(texts[i])))
  }

  /** One group as a content tuple with an empty reason. */
  function ContentAndReason(g: Group): Json {
    List([List([Int(TYPE_CONTENT), Int(1),
                List([Int(CONTENT_TYPE_MAPPINGS), List([Text(g.tag), TextList(g.hashes)])])]),
          Text("")])
  }

  function Contents(groups: seq<Group>): Json {
    List(seq(|groups|, i requires 0 <= i < |groups| => ContentAndReason(groups[i])))
  }

  /** The request that pends the given groups. */
  function UpdateBody(groups: seq<Group>): Json {
    DictionaryTuple(["client_to_server_update"],
      [MetaHydrus(List([Int(TYPE_CLIENT_TO_SERVER_UPDATE), Int(1),
                        List([List([Int(CONTENT_UPDATE_PEND), Contents(groups)])])]))])
  }

  /** One content tuple: 23 is content, 0 are mappings; the tag, its hashes and an empty reason. */
  ghost predicate IsContent(json: Json, tag: string, hashes: seq<string>) {
    exists texts ::
      && json == List([List([Int(23), Int(1), List([Int(0), List([Text(tag), List(texts)])])]), Text("")])
      && |texts| == |hashes| && forall k | 0 <= k < |hashes| :: texts[k] == Text(hashes[k])
  }

  ghost predicate IsContentOf(cases: CaseTable, json: Json, g: Group) {
    exists hashes ::
      && IsContent(json, TrimSpace(g.tag), hashes) && |hashes| == |g.hashes|
      && forall k | 0 <= k < |hashes| :: hashes[k] == ToLower(cases, TrimSpace(g.hashes[k]))
  }

  /** The request: a dictionary, 21, with one entry, a client-to-server update, 40, of one action, 2 for pending,
      and a content tuple for each group with its tag trimmed and its hashes trimmed and in lower case. */
  ghost predicate IsPendRequest(cases: CaseTable, json: Json, groups: seq<Group>) {
    exists contents ::
      && json == List([Int(21), Int(2), List([
           List([List([Int(0), Text("client_to_server_update")]),
                 List([Int(2), List([Int(40), Int(1), List([List([Int(2), List(contents)])])])])])])])
      && |contents| == |groups| && forall i | 0 <= i < |groups| :: IsContentOf(cases, contents[i], groups[i])
  }

  lemma ContentIsContent(g: Group)
    ensures IsContent(ContentAndReason(g), g.tag, g.hashes)
  {
    var texts := TextList(g.hashes).items;
    assert ContentAndReason(g)
        == List([List([Int(23), Int(1), List([Int(0), List([Text(g.tag), List(texts)])])]), Text("")]);
  }

  lemma BodyShape(groups: seq<Group>)
    ensures UpdateBody(groups) ==
              List([Int(21), Int(2), List([
                List([List([Int(0), Text("client_to_server_update")]),
                      List([Int(2), List([Int(40), Int(1), List([List([Int(2), Contents(groups)])])])])])])])
  {
    hide Contents;
    var meta := List([Int(2), List([Int(40), Int(1), List([List([Int(2), Contents(groups)])])])]);
    assert UpdateBody(groups).items[2].items == [List([List([Int(0), Text("client_to_server_update")]), meta])];
  }

  /** The body of the normalized groups, field by field. */
  lemma BodyIsPendRequest(cases: CaseTable, groups: seq<Group>)
    ensures IsPendRequest(cases, UpdateBody(NormalizedGroups(cases, groups)), groups)
  {
    var normalized := NormalizedGroups(cases, groups);
    var contents := Contents(normalized).items;
    BodyShape(normalized);
    hide ContentAndReason, IsContentOf, UpdateBody;
    forall i | 0 <= i < |groups| ensures IsContentOf(cases, contents[i], groups[i]) {
      NormalizedContent(cases, groups[i]);
      assert contents[i] == ContentAndReason(normalized[i]);
    }
    assert Contents(normalized) == List(contents);
  }

  lemma NormalizedContent(cases: CaseTable, g: Group)
    ensures IsContentOf(cases, ContentAndReason(Group(TrimSpace(g.tag), NormalizedHashes(cases, g.hashes))), g)
  {
    hide ContentAndReason, TrimSpace, ToLower, IsContent;
    ContentIsContent(Group(TrimSpace(g.tag), NormalizedHashes(cases, g.hashes)));
  }

  method EncodeHashes(cases: CaseTable, hashes: seq<string>) returns (texts: seq<string>, error: Option<EncodeError>)
    ensures error == None <==> forall i | 0 <= i < |hashes| :: EncodableHash(cases, hashes[i])
    ensures error == None ==> texts == NormalizedHashes(cases, hashes)
  {
    texts, error := [], None;
    for i := 0 to |hashes|
      invariant error == None && |texts| == i
      invariant forall k | 0 <= k < i :: EncodableHash(cases, hashes[k]) && texts[k] == Normalized(cases, hashes[k])
    {
      var hash := Normalized(cases, hashes[i]);
      if hash == "" {
        return texts, Some(BlankHash);
      }
      if DecodeHex(hash).Err? {
        return texts, Some(HashNotHex);
      }
      texts := texts + [hash];
    }
  }

  /** The body is built exactly when there is a group and every group has a tag and valid hashes; it is then
      the body of the normalized groups. */
  method EncodeClientToServerUpdateBody(cases: CaseTable, groups: seq<Group>) returns (r: Encoded)
    ensures r.Body? <==> groups != [] && forall i | 0 <= i < |groups| :: Encodable(cases, groups[i])
    ensures r.Body? ==> r.json == UpdateBody(NormalizedGroups(cases, groups))
    ensures r.Body? ==> IsPendRequest(cases, r.json, groups)
    ensures groups == [] ==> r == Refused(NoGroups)
  {
    if groups == [] {
      return Refused(NoGroups);
    }
    var contents: seq<Json> := [];
    ghost var normalized := NormalizedGroups(cases, groups);
    for i := 0 to |groups|
      invariant |contents| == i
      invariant forall k | 0 <= k < i :: Encodable(cases, groups[k]) && contents[k] == ContentAndReason(normalized[k])
    {
      var tag := TrimSpace(groups[i].tag);
      if tag == "" {
        return Refused(BlankTag);
      }
      var texts, error := EncodeHashes(cases, groups[i].hashes);
      if error != None {
        return Refused(error.value);
      }
      if texts == [] {
        return Refused(NoHashes);
      }
      contents := contents + [ContentAndReason(Group(tag, texts))];
    }
    assert List(contents) == Contents(normalized);
    var meta := MetaHydrus(List([Int(TYPE_CLIENT_TO_SERVER_UPDATE), Int(1),
                                 List([List([Int(CONTENT_UPDATE_PEND), List(contents)])])]));
    var json := PtrSerialisableDictionary(["client_to_server_update"], [meta]);
    BodyIsPendRequest(cases, groups);
    return Body(json);
  }

  /** The groups can be read back from the body: no two lists of groups have the same one. */
  lemma BodyDeterminesGroups(a: seq<Group>, b: seq<Group>)
    requires UpdateBody(a) == UpdateBody(b)
    ensures a == b
  {
    var left := UpdateBody(a).items[2].items[0].items[1];
    var right := UpdateBody(b).items[2].items[0].items[1];
    assert left.items[1].items[2].items[0].items[1] == Contents(a);
    assert right.items[1].items[2].items[0].items[1] == Contents(b);
    assert |Contents(a).items| == |a| && |Contents(b).items| == |b|;
    forall i | 0 <= i < |a| ensures a[i] == b[i] {
      assert ContentAndReason(a[i]) == Contents(a).items[i] == Contents(b).items[i] == ContentAndReason(b[i]);
      ContentDeterminesGroup(a[i], b[i]);
    }
  }

  lemma ContentDeterminesGroup(a: Group, b: Group)
    requires ContentAndReason(a) == ContentAndReason(b)
    ensures a == b
  {
    var left, right := ContentAndReason(a).items[0].items[2].items[1], ContentAndReason(b).items[0].items[2].items[1];
    assert left.items[0] == Text(a.tag) && right.items[0] == Text(b.tag);
    assert left.items[1] == TextList(a.hashes) && right.items[1] == TextList(b.hashes);
    assert |TextList(a.hashes).items| == |a.hashes| && |TextList(b.hashes).items| == |b.hashes|;
    forall i | 0 <= i < |a.hashes| ensures a.hashes[i] == b.hashes[i] {
      assert TextList(a.hashes).items[i] == Text(a.hashes[i]);
      assert TextList(b.hashes).items[i] == Text(b.hashes[i]);
    }
  }

  /** A group of a clean tag and well-formed hashes. */
  predicate CleanGroup(cases: CaseTable, g: Group) {
    && Normal(cases, g.tag) && NotEmpty(g.tag) && g.hashes != []
    && forall i | 0 <= i < |g.hashes| :: ValidHash(g.hashes[i])
  }

  lemma NormalIsTrimmed(cases: CaseTable, tag: string)
    requires Normal(cases, tag)
    ensures TrimSpace(tag) == tag
  {
    NeatCombine(Split(tag).0, Split(tag).1);
    NeatIsTrimmed(tag);
  }

  lemma {:induction false} HexDecodes(s: string)
    requires |s| % 2 == 0 && forall c | c in s :: '0' <= c <= '9' || 'a' <= c <= 'f'
    ensures DecodeHex(s).Ok?
    decreases |s|
  {
    if s != "" {
      assert s[0] in s && s[1] in s;
      assert forall c | c in s[2..] :: c in s;
      HexDecodes(s[2..]);
    }
  }

  /** Hash text is well formed exactly when it writes some bytes, at least one, in lower-case hexadecimal. */
  lemma ValidHashIsHex(hash: string)
    ensures ValidHash(hash) <==>
              exists bytes :: bytes != [] && AreBytes(bytes) && hash == EncodeHex(bytes, LOWER_DIGITS)
  {
    if ValidHash(hash) {
      HexDecodes(hash);
      var bytes := DecodeHex(hash).value;
      HexDecodesIff(hash, bytes);
      LowerHex(hash, bytes);
      assert AreBytes(bytes);
    }
    if bytes :| bytes != [] && AreBytes(bytes) && hash == EncodeHex(bytes, LOWER_DIGITS) {
      HexIsValid(bytes);
    }
  }

  lemma LowerDigit(c: char, n: int)
    requires IsDigit(c, n) && ('0' <= c <= '9' || 'a' <= c <= 'f')
    ensures c == LOWER_DIGITS[n]
  {
  }

  lemma LowerHex(hash: string, bytes: seq<int>)
    requires HexOf(hash, bytes) && forall c | c in hash :: '0' <= c <= '9' || 'a' <= c <= 'f'
    ensures hash == EncodeHex(bytes, LOWER_DIGITS)
  {
    hide IsDigit;
    var s := EncodeHex(bytes, LOWER_DIGITS);
    forall k | 0 <= k < |hash| ensures hash[k] == s[k] {
      assert hash[k] in hash && IsByte(bytes[k / 2]);
      LowerDigit(hash[k], if k % 2 == 0 then bytes[k / 2] / 16 else bytes[k / 2] % 16);
    }
  }

  lemma HexIsValid(bytes: seq<int>)
    requires bytes != [] && AreBytes(bytes)
    ensures ValidHash(EncodeHex(bytes, LOWER_DIGITS))
  {
    var s := EncodeHex(bytes, LOWER_DIGITS);
    forall c | c in s ensures '0' <= c <= '9' || 'a' <= c <= 'f' {
      var k :| 0 <= k < |s| && s[k] == c;
      assert IsByte(bytes[k / 2]);
      var n := if k % 2 == 0 then bytes[k / 2] / 16 else bytes[k / 2] % 16;
      assert 0 <= n < 16 && c == LOWER_DIGITS[n];
    }
  }

  lemma ValidHashIsNormalized(cases: CaseTable, hash: string)
    requires ValidHash(hash)
    ensures Normalized(cases, hash) == hash && EncodableHash(cases, hash)
  {
    forall i | 0 <= i < |hash| ensures !IsSpace(hash[i]) && !IsControl(hash[i]) && hash[i] !in cases {
      assert hash[i] in hash;
    }
    NeatIsTrimmed(hash);
    assert ToLower(cases, hash) == hash;
    HexDecodes(hash);
  }

  /** Groups of clean tags and well-formed hashes are always encoded, as they are. */
  lemma CleanGroupsEncode(cases: CaseTable, groups: seq<Group>)
    requires forall i | 0 <= i < |groups| :: CleanGroup(cases, groups[i])
    ensures forall i | 0 <= i < |groups| :: Encodable(cases, groups[i])
    ensures NormalizedGroups(cases, groups) == groups
  {
    forall i | 0 <= i < |groups|
      ensures Encodable(cases, groups[i]) && NormalizedGroups(cases, groups)[i] == groups[i]
    {
      var g := groups[i];
      NormalIsTrimmed(cases, g.tag);
      forall k | 0 <= k < |g.hashes|
        ensures EncodableHash(cases, g.hashes[k]) && Normalized(cases, g.hashes[k]) == g.hashes[k]
      {
        ValidHashIsNormalized(cases, g.hashes[k]);
      }
      assert NormalizedHashes(cases, g.hashes) == g.hashes;
    }
  }

  // ----- Every reachable pending table can be uploaded -----

  predicate CleanPairs(cases: CaseTable, pairs: set<Mapping>) {
    forall p | p in pairs :: Normal(cases, p.0) && NotEmpty(p.0)
  }

  predicate StagedCleanly(cases: CaseTable, history: seq<Event>) {
    forall i | 0 <= i < |history| && history[i].Staged? :: CleanPairs(cases, history[i].pairs)
  }

  lemma {:induction false} PendingIsClean(cases: CaseTable, history: seq<Event>)
    requires StagedCleanly(cases, history)
    ensures CleanPairs(cases, ReplayAll(cases, history).tables.pending)
  {
    hide Normal, NotEmpty, TagNames, Pairs;
    if history != [] {
      PendingIsClean(cases, history[..|history| - 1]);
    }
  }

  lemma StageIsClean(w: World, s: Sys, tags: seq<string>, hashes: seq<string>, names: Names)
    requires DoStage(w, s, tags, hashes, names) != s
    ensures CleanPairs(w.cases, StagedNames(w.cases, tags, hashes))
    ensures DoStage(w, s, tags, hashes, names).history == s.history + [Staged(StagedNames(w.cases, tags, hashes))]
  {
    hide Clean, Normal, NotEmpty, StagedPairs, Stage, Interned;
    forall p | p in StagedNames(w.cases, tags, hashes) ensures Normal(w.cases, p.0) && NotEmpty(p.0) {
      var tag :| tag in tags && Clean(w.cases, tag) == p.0;
      CleanIsNormal(w.cases, tag);
    }
  }

  lemma NextStagesCleanly(w: World, s: Sys, step: Step)
    requires StagedCleanly(w.cases, s.history)
    ensures StagedCleanly(w.cases, Next(w, s, step).history)
  {
    hide Next, DoStage, CleanPairs;
    NextHistory(w, s, step);
    if step.StageLocally? {
      StageStep(w, s, step);
      if DoStage(w, s, step.tags, step.hashes, step.names) != s {
        StageIsClean(w, s, step.tags, step.hashes, step.names);
      }
    } else {
      var t := Next(w, s, step);
      forall i | 0 <= i < |t.history| && t.history[i].Staged? ensures CleanPairs(w.cases, t.history[i].pairs) {
        assert i < |s.history| && t.history[i] == s.history[i];
      }
    }
  }

  lemma StageStep(w: World, s: Sys, step: Step)
    requires step.StageLocally?
    ensures Next(w, s, step) == DoStage(w, s, step.tags, step.hashes, step.names)
  {
  }

  lemma {:induction false} RunsStageCleanly(w: World, s: Sys, steps: seq<Step>)
    requires StagedCleanly(w.cases, s.history)
    ensures StagedCleanly(w.cases, Exec(w, s, steps).history)
  {
    hide Next, StagedCleanly;
    if steps != [] {
      RunsStageCleanly(w, s, steps[..|steps| - 1]);
      NextStagesCleanly(w, Exec(w, s, steps[..|steps| - 1]), steps[|steps| - 1]);
    }
  }

  lemma {:induction false} FlattenHas(groups: seq<Group>, i: nat, k: nat)
    requires i < |groups| && k < |groups[i].hashes|
    ensures (groups[i].tag, groups[i].hashes[k]) in Flatten(groups)
  {
    var init, g := groups[..|groups| - 1], groups[|groups| - 1];
    if i < |init| {
      FlattenHas(init, i, k);
    } else {
      var tail := seq(|g.hashes|, n requires 0 <= n < |g.hashes| => (g.tag, g.hashes[n]));
      assert tail[k] in tail;
    }
  }

  /** Groups whose pairs all have clean tags and valid hashes are groups of such. */
  lemma GroupsAreClean(cases: CaseTable, groups: seq<Group>)
    requires forall m | m in Flatten(groups) :: Normal(cases, m.0) && NotEmpty(m.0) && ValidHash(m.1)
    requires forall i | 0 <= i < |groups| :: groups[i].hashes != []
    ensures forall i | 0 <= i < |groups| :: CleanGroup(cases, groups[i])
  {
    hide Normal, NotEmpty, ValidHash, Flatten;
    forall i | 0 <= i < |groups| ensures CleanGroup(cases, groups[i]) {
      GroupIsClean(cases, groups, i);
    }
  }

  lemma GroupIsClean(cases: CaseTable, groups: seq<Group>, i: nat)
    requires forall m | m in Flatten(groups) :: Normal(cases, m.0) && NotEmpty(m.0) && ValidHash(m.1)
    requires i < |groups| && groups[i].hashes != []
    ensures CleanGroup(cases, groups[i])
  {
    hide Normal, NotEmpty, ValidHash, Flatten;
    var g := groups[i];
    forall k | 0 <= k < |g.hashes| ensures Normal(cases, g.tag) && NotEmpty(g.tag) && ValidHash(g.hashes[k]) {
      FlattenHas(groups, i, k);
      assert (g.tag, g.hashes[k]) in Flatten(groups);
    }
    assert ValidHash(g.hashes[0]);
  }

  /** The texts of the tags and of the hashes interned in a store. */
  predicate TextsOf(c: Content, tagText: map<int, string>, hashText: map<int, string>) {
    && Inverse(c.names.tags, tagText) && Inverse(c.names.hashes, hashText)
    && (forall name | name in c.names.hashes :: ValidHash(name))
  }

  lemma CleanUpload(cases: CaseTable, c: Content, r: Replica, tagText: map<int, string>, hashText: map<int, string>,
                    groups: seq<Group>)
    requires Represents(c, r) && TextsOf(c, tagText, hashText) && CleanPairs(cases, r.tables.pending)
    requires forall m | m in Flatten(groups) :: m in r.tables.pending
    requires forall i | 0 <= i < |groups| :: groups[i].hashes != []
    ensures forall i | 0 <= i < |groups| :: Encodable(cases, groups[i])
    ensures NormalizedGroups(cases, groups) == groups
  {
    assert Known(c.names, r.tables.pending);
    hide Normal, NotEmpty, ValidHash, Flatten, Encodable, NormalizedGroups;
    GroupsAreClean(cases, groups);
    CleanGroupsEncode(cases, groups);
  }

  /** In every reachable state the pending mappings can be uploaded: the groups list exactly what is pending,
      each mapping once, and they are encoded as they are, so that the body determines them. */
  lemma UploadAlwaysEncodes(w: World, names: Names, steps: seq<Step>, tagText: map<int, string>,
                            hashText: map<int, string>, groups: seq<Group>)
    requires ValidNames(names) && TextsOf(Exec(w, Start(names), steps).store.content, tagText, hashText)
    requires var pending := Exec(w, Start(names), steps).store.content.mappings.pending;
             RowsNamed(Rows(pending, hashText), tagText) && Flatten(groups) == Uploaded(pending, tagText, hashText)
    requires OneGroupPerTag(groups, tagText)
    ensures var s := Exec(w, Start(names), steps);
            var pending := ReplayAll(w.cases, s.history).tables.pending;
            && (forall m :: m in Flatten(groups) <==> m in pending) && |Flatten(groups)| == |pending|
            && (forall i | 0 <= i < |groups| :: Encodable(w.cases, groups[i]))
            && NormalizedGroups(w.cases, groups) == groups
  {
    hide Exec, Next, Flatten, Uploaded, Encodable, NormalizedGroups, Rows, RowsNamed, Represents, CleanPairs;
    var s := Exec(w, Start(names), steps);
    var r := ReplayAll(w.cases, s.history);
    IncrementalSyncIsReplay(w, names, steps);
    RunsStageCleanly(w, Start(names), steps);
    PendingIsClean(w.cases, s.history);
    UploadIsExact(s.store.content, r, tagText, hashText);
    CleanUpload(w.cases, s.store.content, r, tagText, hashText, groups);
  }

  /** A pair that can be written into a body. */
  predicate PairEncodable(cases: CaseTable, m: Mapping) {
    TrimSpace(m.0) != "" && EncodableHash(cases, m.1)
  }

  predicate PairsEncodable(cases: CaseTable, pairs: seq<Mapping>) {
    forall m | m in pairs :: PairEncodable(cases, m)
  }

  lemma {:induction false} FlattenFrom(groups: seq<Group>, m: Mapping)
    requires m in Flatten(groups)
    ensures exists i: nat, k: nat :: i < |groups| && k < |groups[i].hashes| && m == (groups[i].tag, groups[i].hashes[k])
  {
    var init, g := groups[..|groups| - 1], groups[|groups| - 1];
    if m in Flatten(init) {
      FlattenFrom(init, m);
    } else {
      var tail := seq(|g.hashes|, n requires 0 <= n < |g.hashes| => (g.tag, g.hashes[n]));
      var k: nat :| k < |tail| && tail[k] == m;
      assert m == (groups[|init|].tag, groups[|init|].hashes[k]);
    }
  }

  lemma PairOfEncodable(cases: CaseTable, groups: seq<Group>, m: Mapping)
    requires m in Flatten(groups) && forall i | 0 <= i < |groups| :: Encodable(cases, groups[i])
    ensures PairEncodable(cases, m)
  {
    hide Flatten, TrimSpace, EncodableHash;
    FlattenFrom(groups, m);
    var i: nat, k: nat :| i < |groups| && k < |groups[i].hashes| && m == (groups[i].tag, groups[i].hashes[k]);
    assert Encodable(cases, groups[i]) && EncodableHash(cases, groups[i].hashes[k]);
  }

  lemma GroupOfEncodable(cases: CaseTable, groups: seq<Group>, i: nat)
    requires i < |groups| && groups[i].hashes != [] && PairsEncodable(cases, Flatten(groups))
    ensures Encodable(cases, groups[i])
  {
    hide Flatten, TrimSpace, EncodableHash;
    forall k | 0 <= k < |groups[i].hashes| ensures PairEncodable(cases, (groups[i].tag, groups[i].hashes[k])) {
      FlattenHas(groups, i, k);
    }
    assert PairEncodable(cases, (groups[i].tag, groups[i].hashes[0]));
  }

  /** Groups can be encoded exactly when all their pairs can. */
  lemma EncodableByPair(cases: CaseTable, groups: seq<Group>)
    requires forall i | 0 <= i < |groups| :: groups[i].hashes != []
    ensures (forall i | 0 <= i < |groups| :: Encodable(cases, groups[i])) <==> PairsEncodable(cases, Flatten(groups))
  {
    hide Flatten, PairEncodable, Encodable;
    if forall i | 0 <= i < |groups| :: Encodable(cases, groups[i]) {
      forall m | m in Flatten(groups) ensures PairEncodable(cases, m) {
        PairOfEncodable(cases, groups, m);
      }
    }
    if PairsEncodable(cases, Flatten(groups)) {
      forall i | 0 <= i < |groups| ensures Encodable(cases, groups[i]) {
        GroupOfEncodable(cases, groups, i);
      }
    }
  }

  lemma CleanPairIsEncodable(cases: CaseTable, m: Mapping)
    requires Normal(cases, m.0) && NotEmpty(m.0) && ValidHash(m.1)
    ensures PairEncodable(cases, m)
  {
    NormalIsTrimmed(cases, m.0);
    ValidHashIsNormalized(cases, m.1);
  }

  /** In every reachable state nothing stands in the way of an upload but the remote: every pending row has its
      texts, every pair can be encoded, and the pairs uploaded are exactly the pending ones. */
  lemma UploadGoesThrough(w: World, names: Names, steps: seq<Step>, tagText: map<int, string>,
                          hashText: map<int, string>)
    requires ValidNames(names) && TextsOf(Exec(w, Start(names), steps).store.content, tagText, hashText)
    ensures var s := Exec(w, Start(names), steps);
            var rows := Rows(s.store.content.mappings.pending, hashText);
            var pending := ReplayAll(w.cases, s.history).tables.pending;
            && RowsNamed(rows, tagText)
            && var pairs := Uploaded(s.store.content.mappings.pending, tagText, hashText);
               && PairsEncodable(w.cases, pairs)
               && (forall m :: m in pairs <==> m in pending) && |pairs| == |pending|
  {
    hide Exec, Next, Uploaded, Rows, RowsNamed, Normal, NotEmpty, ValidHash, PairEncodable, ReplayAll;
    var s := Exec(w, Start(names), steps);
    var r := ReplayAll(w.cases, s.history);
    IncrementalSyncIsReplay(w, names, steps);
    RunsStageCleanly(w, Start(names), steps);
    PendingIsClean(w.cases, s.history);
    assert Known(s.store.content.names, r.tables.pending);
    hide Represents;
    UploadIsExact(s.store.content, r, tagText, hashText);
    forall m | m in r.tables.pending ensures PairEncodable(w.cases, m) {
      CleanPairIsEncodable(w.cases, m);
    }
  }

  /** What the remote is sent for a pending table: the body of one group a tag, which together list the pending
      pairs by name. */
  ghost predicate BodyOfPending(cases: CaseTable, pending: set<(int, int)>, tagText: map<int, string>,
                                hashText: map<int, string>, body: Json)
    requires RowsNamed(Rows(pending, hashText), tagText)
  {
    exists groups ::
      && Flatten(groups) == Uploaded(pending, tagText, hashText) && OneGroupPerTag(groups, tagText)
      && body == UpdateBody(NormalizedGroups(cases, groups))
      && ListsPending(Flatten(groups), pending, tagText, hashText) && IsPendRequest(cases, body, groups)
  }

  /** Uploads the pending mappings and, when the remote accepts them, moves them to current.  It succeeds exactly
      when every row has its tag and, if there is anything to send, all of it can be encoded and is accepted.
      Nothing changes on any failure; otherwise the result is the number of pending mappings and the growth of
      current. */
  method CommitPending(cases: CaseTable, bundle: Bundle, tagText: map<int, string>, hashText: map<int, string>,
                       accepted: bool)
    returns (committed: Option<nat>, sent: Option<Json>)
    requires bundle.Valid()
    modifies bundle.mappings
    ensures bundle.Valid()
    ensures var pending := old(bundle.mappings.pending);
            var rows := Rows(pending, hashText);
            && (sent.Some? <==>
                  RowsNamed(rows, tagText) && rows != [] && PairsEncodable(cases, Uploaded(pending, tagText, hashText)))
            && (sent.Some? ==> BodyOfPending(cases, pending, tagText, hashText, sent.value))
            && (committed.Some? <==> RowsNamed(rows, tagText) && (rows == [] || (sent.Some? && accepted)))
    ensures committed == None ==> bundle.State() == old(bundle.State())
    ensures committed.Some? ==>
      var before := old(bundle.State());
      if Rows(before.content.mappings.pending, hashText) == [] then committed.value == 0 && bundle.State() == before
      else
        && bundle.State() == CommitMappings(before)
        && committed.value == |before.content.mappings.pending|
        && (Consistent(before.content.mappings) ==>
              committed.value == |bundle.mappings.current| - |before.content.mappings.current|)
  {
    hide ListsPending, IsPendRequest;
    ghost var before := bundle.mappings.Value();
    var groups := ListPendingMappingsForCommit(bundle.mappings.pending, tagText, hashText);
    if groups == None {
      return None, None;
    }
    FlattenedNothing(groups.value, before.pending, tagText, hashText);
    if groups.value == [] {
      return Some(0), None;
    }
    EncodableByPair(cases, groups.value);
    var body := EncodeClientToServerUpdateBody(cases, groups.value);
    if body.Refused? {
      return None, None;
    }
    assert BodyOfPending(cases, before.pending, tagText, hashText, body.json);
    if !accepted {
      return None, Some(body.json);
    }
    var n := bundle.CommitSuccess();
    if Consistent(before) {
      CommitMovesPending(before);
    }
    return Some(n), Some(body.json);
  }

  lemma FlattenedNothing(groups: seq<Group>, pending: set<(int, int)>, tagText: map<int, string>,
                         hashText: map<int, string>)
    requires RowsNamed(Rows(pending, hashText), tagText)
    requires Flatten(groups) == Uploaded(pending, tagText, hashText) && OneGroupPerTag(groups, tagText)
    ensures groups == [] <==> Rows(pending, hashText) == []
  {
    RowsHaveText(pending, hashText);
    assert |Uploaded(pending, tagText, hashText)| == |Rows(pending, hashText)|;
    if groups != [] {
      FlattenHas(groups, 0, 0);
    }
  }
}
