/** The Hydrus wire format above JSON: serialisable tuples, meta tuples and dictionaries nested to any depth,
    the decoder that builds values from them, the one that only looks at chosen fields, and the encoder. */
module Wire {
  import opened Tags
  import opened Interning

  /** A JSON tree.  A number is an integer of 64 bits or it is not integral; an object is only passed on. */
  datatype Json =
    | Null
    | Bool(b: bool)
    | Int(n: int)
    | Fraction
    | Text(s: string)
    | List(items: seq<Json>)
    | Object(names: seq<string>, values: seq<Json>)

  datatype MetadataUpdate = MetadataUpdate(index: int, hashes: seq<seq<int>>, begin: int, end: int)

  /** What the decoder yields for a serialisable. */
  datatype Value =
    | Plain(json: Json)
    | Bytes(bytes: seq<int>)
    | Dictionary(fields: map<string, Value>)
    | Items(values: seq<Value>)
    | MetadataSlice(updates: seq<MetadataUpdate>, nextUpdateDue: int)
    | TagFilter(rules: map<string, int>)

  datatype WireError =
    | NotATuple | BadTupleLength | NotANumber | NotIntegral | UnsupportedType | UnsupportedMeta
    | BadPair | KeyNotText | BadMetaTuple | BytesNotText | BadHex | BadPayload | BadRow | NotADictionary
    | FieldRefused

  datatype Result<T> = Ok(value: T) | Err(error: WireError)

  const META_JSON := 0
  const META_BYTES := 1
  const META_HYDRUS := 2

  const TYPE_DICTIONARY := 21
  const TYPE_LIST := 26
  const TYPE_METADATA := 37
  const TYPE_TAG_FILTER := 44

  function ToInt(v: Json): Result<int> {
    match v
    case Int(n) => Ok(n)
    case Fraction => Err(NotIntegral)
    case _ => Err(NotANumber)
  }

  // ----- Hexadecimal text -----

  function Nibble(c: char): Option<int> {
    if '0' <= c <= '9' then Some(c as int - '0' as int)
    else if 'a' <= c <= 'f' then Some(c as int - 'a' as int + 10)
    else if 'A' <= c <= 'F' then Some(c as int - 'A' as int + 10)
    else None
  }

  function DecodeHex(s: string): Result<seq<int>> {
    if s == "" then Ok([])
    else if |s| == 1 then Err(BadHex)
    else
      match (Nibble(s[0]), Nibble(s[1]))
      case (Some(high), Some(low)) =>
        (match DecodeHex(s[2..])
         case Ok(rest) => Ok([16 * high + low] + rest)
         case Err(e) => Err(e))
      case _ => Err(BadHex)
  }

  // ----- The values serialisables stand for -----

  /** The part of a serialisable tuple that is decoded: the third element, or the fourth of a named one. */
  function SerialisableInfo(v: Json): Result<Json>
    ensures SerialisableInfo(v).Ok? ==> v.List? && |v.items| >= 3 && SerialisableInfo(v).value < v
  {
    if !v.List? then Err(NotATuple)
    else if |v.items| != 3 && |v.items| != 4 then Err(BadTupleLength)
    else Ok(if |v.items| == 4 then v.items[3] else v.items[2])
  }

  function SerialisableValue(v: Json): Result<Value>
    decreases v
  {
    match SerialisableInfo(v)
    case Err(e) => Err(e)
    case Ok(info) =>
      match ToInt(v.items[0])
      case Err(e) => Err(e)
      case Ok(kind) =>
        if kind == TYPE_DICTIONARY then
          (match DictionaryValue(info) case Ok(fields) => Ok(Dictionary(fields)) case Err(e) => Err(e))
        else if kind == TYPE_LIST then
          (match ListValue(info) case Ok(values) => Ok(Items(values)) case Err(e) => Err(e))
        else if kind == TYPE_METADATA then MetadataValue(info)
        else if kind == TYPE_TAG_FILTER then TagFilterValue(info)
        else Err(UnsupportedType)
  }

  function DictionaryValue(v: Json): Result<map<string, Value>>
    decreases v
  {
    if v.List? then PairsValue(v, |v.items|) else Err(BadPayload)
  }

  function PairsValue(v: Json, n: nat): Result<map<string, Value>>
    requires v.List? && n <= |v.items|
    decreases v, n
  {
    if n == 0 then Ok(map[])
    else
      match PairsValue(v, n - 1)
      case Err(e) => Err(e)
      case Ok(fields) =>
        match PairKey(v.items[n - 1])
        case Err(e) => Err(e)
        case Ok(key) =>
          match MetaValue(v.items[n - 1].items[1])
          case Err(e) => Err(e)
          case Ok(value) => Ok(fields[key := value])
  }

  /** The key of a dictionary pair, which must decode to text. */
  function PairKey(pair: Json): Result<string>
    ensures PairKey(pair).Ok? ==> pair.List? && |pair.items| == 2
    decreases pair
  {
    if !(pair.List? && |pair.items| == 2) then Err(BadPair)
    else
      match MetaValue(pair.items[0])
      case Err(e) => Err(e)
      case Ok(value) => if value.Plain? && value.json.Text? then Ok(value.json.s) else Err(KeyNotText)
  }

  function ListValue(v: Json): Result<seq<Value>>
    decreases v
  {
    if v.List? then ItemsValue(v, |v.items|) else Err(BadPayload)
  }

  function ItemsValue(v: Json, n: nat): Result<seq<Value>>
    requires v.List? && n <= |v.items|
    decreases v, n
  {
    if n == 0 then Ok([])
    else
      match ItemsValue(v, n - 1)
      case Err(e) => Err(e)
      case Ok(values) =>
        match MetaValue(v.items[n - 1])
        case Err(e) => Err(e)
        case Ok(value) => Ok(values + [value])
  }

  function MetaValue(v: Json): Result<Value>
    decreases v
  {
    if !(v.List? && |v.items| == 2) then Err(BadMetaTuple)
    else
      match ToInt(v.items[0])
      case Err(e) => Err(e)
      case Ok(meta) =>
        if meta == META_JSON then Ok(Plain(v.items[1]))
        else if meta == META_BYTES then
          if !v.items[1].Text? then Err(BytesNotText)
          else match DecodeHex(TrimSpace(v.items[1].s)) case Ok(bytes) => Ok(Bytes(bytes)) case Err(e) => Err(e)
        else if meta == META_HYDRUS then SerialisableValue(v.items[1])
        else Err(UnsupportedMeta)
  }

  // ----- Metadata and tag filters -----

  function HashesValue(items: seq<Json>): Result<seq<seq<int>>> {
    if items == [] then Ok([])
    else
      match HashesValue(items[..|items| - 1])
      case Err(e) => Err(e)
      case Ok(hashes) =>
        if !items[|items| - 1].Text? then Err(BadRow)
        else match DecodeHex(TrimSpace(items[|items| - 1].s)) case Ok(h) => Ok(hashes + [h]) case Err(e) => Err(e)
  }

  function MetadataRow(row: Json): Result<MetadataUpdate> {
    if !(row.List? && |row.items| == 4) then Err(BadRow)
    else
      match ToInt(row.items[0])
      case Err(e) => Err(e)
      case Ok(index) =>
        if !row.items[1].List? then Err(BadRow)
        else
          match HashesValue(row.items[1].items)
          case Err(e) => Err(e)
          case Ok(hashes) =>
            match ToInt(row.items[2])
            case Err(e) => Err(e)
            case Ok(begin) =>
              match ToInt(row.items[3])
              case Err(e) => Err(e)
              case Ok(end) => Ok(MetadataUpdate(index, hashes, begin, end))
  }

  function MetadataRows(rows: seq<Json>): Result<seq<MetadataUpdate>> {
    if rows == [] then Ok([])
    else
      match MetadataRows(rows[..|rows| - 1])
      case Err(e) => Err(e)
      case Ok(updates) =>
        match MetadataRow(rows[|rows| - 1])
        case Err(e) => Err(e)
        case Ok(update) => Ok(updates + [update])
  }

  function MetadataValue(v: Json): Result<Value> {
    if !(v.List? && |v.items| == 2) then Err(BadPayload)
    else if !v.items[0].List? then Err(BadPayload)
    else
      match ToInt(v.items[1])
      case Err(e) => Err(e)
      case Ok(due) =>
        match MetadataRows(v.items[0].items)
        case Err(e) => Err(e)
        case Ok(updates) => Ok(MetadataSlice(updates, due))
  }

  /** A rule: a tag slice and what applies to it. */
  function RuleOf(rule: Json): Result<(string, int)> {
    if !(rule.List? && |rule.items| == 2) then Err(BadRow)
    else if !rule.items[0].Text? then Err(BadRow)
    else match ToInt(rule.items[1]) case Ok(n) => Ok((rule.items[0].s, n)) case Err(e) => Err(e)
  }

  function Rules(rules: seq<Json>): Result<map<string, int>> {
    if rules == [] then Ok(map[])
    else
      match Rules(rules[..|rules| - 1])
      case Err(e) => Err(e)
      case Ok(before) =>
        match RuleOf(rules[|rules| - 1])
        case Err(e) => Err(e)
        case Ok(rule) => Ok(before[rule.0 := rule.1])
  }

  function TagFilterValue(v: Json): Result<Value> {
    if !v.List? then Err(BadPayload)
    else match Rules(v.items) case Ok(rules) => Ok(TagFilter(rules)) case Err(e) => Err(e)
  }

  // ----- The decoder as it runs -----

  method DecodeHydrusSerialisable(v: Json) returns (r: Result<Value>)
    ensures r == SerialisableValue(v)
    decreases v
  {
    if !v.List? {
      return Err(NotATuple);
    }
    if |v.items| != 3 && |v.items| != 4 {
      return Err(BadTupleLength);
    }
    var kind := ToInt(v.items[0]);
    if kind.Err? {
      return Err(kind.error);
    }
    var info := if |v.items| == 4 then v.items[3] else v.items[2];
    match kind.value {
      case 21 =>
        var fields := DecodeHydrusDictionary(info);
        r := if fields.Ok? then Ok(Dictionary(fields.value)) else Err(fields.error);
      case 26 =>
        var values := DecodeHydrusList(info);
        r := if values.Ok? then Ok(Items(values.value)) else Err(values.error);
      case 37 =>
        r := DecodeHydrusMetadata(info);
      case 44 =>
        r := DecodeHydrusTagFilter(info);
      case _ =>
        r := Err(UnsupportedType);
    }
  }

  method DecodeHydrusDictionary(v: Json) returns (r: Result<map<string, Value>>)
    ensures r == DictionaryValue(v)
    decreases v
  {
    if !v.List? {
      return Err(BadPayload);
    }
    var fields: map<string, Value> := map[];
    for i := 0 to |v.items|
      invariant PairsValue(v, i) == Ok(fields)
    {
      var pair := v.items[i];
      if !(pair.List? && |pair.items| == 2) {
        PairsFail(v, i + 1, BadPair);
        return Err(BadPair);
      }
      var key := DecodeHydrusMetaTuple(pair.items[0]);
      if key.Err? {
        PairsFail(v, i + 1, key.error);
        return Err(key.error);
      }
      if !(key.value.Plain? && key.value.json.Text?) {
        PairsFail(v, i + 1, KeyNotText);
        return Err(KeyNotText);
      }
      var value := DecodeHydrusMetaTuple(pair.items[1]);
      if value.Err? {
        PairsFail(v, i + 1, value.error);
        return Err(value.error);
      }
      fields := fields[key.value.json.s := value.value];
    }
    return Ok(fields);
  }

  /** The first error of a dictionary's pairs is the error of the whole. */
  lemma {:induction false} PairsFail(v: Json, n: nat, e: WireError)
    requires v.List? && n <= |v.items| && PairsValue(v, n) == Err(e)
    ensures DictionaryValue(v) == Err(e)
    decreases |v.items| - n
  {
    if n < |v.items| {
      PairsFail(v, n + 1, e);
    }
  }

  method DecodeHydrusList(v: Json) returns (r: Result<seq<Value>>)
    ensures r == ListValue(v)
    decreases v
  {
    if !v.List? {
      return Err(BadPayload);
    }
    var values: seq<Value> := [];
    for i := 0 to |v.items|
      invariant ItemsValue(v, i) == Ok(values)
    {
      var item := DecodeHydrusMetaTuple(v.items[i]);
      if item.Err? {
        ItemsFail(v, i + 1, item.error);
        return Err(item.error);
      }
      values := values + [item.value];
    }
    return Ok(values);
  }

  lemma {:induction false} ItemsFail(v: Json, n: nat, e: WireError)
    requires v.List? && n <= |v.items| && ItemsValue(v, n) == Err(e)
    ensures ListValue(v) == Err(e)
    decreases |v.items| - n
  {
    if n < |v.items| {
      ItemsFail(v, n + 1, e);
    }
  }

  method DecodeHydrusMetaTuple(v: Json) returns (r: Result<Value>)
    ensures r == MetaValue(v)
    decreases v
  {
    if !(v.List? && |v.items| == 2) {
      return Err(BadMetaTuple);
    }
    var meta := ToInt(v.items[0]);
    if meta.Err? {
      return Err(meta.error);
    }
    match meta.value {
      case 0 =>
        r := Ok(Plain(v.items[1]));
      case 1 =>
        if !v.items[1].Text? {
          return Err(BytesNotText);
        }
        var bytes := DecodeHex(TrimSpace(v.items[1].s));
        r := if bytes.Ok? then Ok(Bytes(bytes.value)) else Err(bytes.error);
      case 2 =>
        r := DecodeHydrusSerialisable(v.items[1]);
      case _ =>
        r := Err(UnsupportedMeta);
    }
  }

  method DecodeHydrusMetadata(v: Json) returns (r: Result<Value>)
    ensures r == MetadataValue(v)
  {
    if !(v.List? && |v.items| == 2) || !v.items[0].List? {
      return Err(BadPayload);
    }
    var due := ToInt(v.items[1]);
    if due.Err? {
      return Err(due.error);
    }
    var rows := v.items[0].items;
    var updates: seq<MetadataUpdate> := [];
    for i := 0 to |rows|
      invariant MetadataRows(rows[..i]) == Ok(updates)
    {
      assert rows[..i + 1][..i] == rows[..i];
      var update := MetadataRow(rows[i]);
      if update.Err? {
        RowsFail(rows, i + 1, update.error);
        return Err(update.error);
      }
      updates := updates + [update.value];
    }
    assert rows[..|rows|] == rows;
    return Ok(MetadataSlice(updates, due.value));
  }

  lemma {:induction false} RowsFail(rows: seq<Json>, n: nat, e: WireError)
    requires n <= |rows| && MetadataRows(rows[..n]) == Err(e)
    ensures MetadataRows(rows) == Err(e)
    decreases |rows| - n
  {
    if n < |rows| {
      assert rows[..n + 1][..n] == rows[..n];
      RowsFail(rows, n + 1, e);
    } else {
      assert rows[..n] == rows;
    }
  }

  /** The n-th row fails, and none before it does. */
  ghost predicate FirstBadRow(rows: seq<Json>, n: nat, e: WireError) {
    && n < |rows| && MetadataRow(rows[n]) == Err(e)
    && forall i | 0 <= i < n :: MetadataRow(rows[i]).Ok?
  }

  /** The rows decode to one update each, in order; otherwise the error is that of the first row that fails. */
  lemma {:induction false} RowsDecodeOneByOne(rows: seq<Json>)
    ensures MetadataRows(rows).Ok? <==> forall i | 0 <= i < |rows| :: MetadataRow(rows[i]).Ok?
    ensures MetadataRows(rows).Ok? ==>
              && |MetadataRows(rows).value| == |rows|
              && forall i | 0 <= i < |rows| :: MetadataRow(rows[i]) == Ok(MetadataRows(rows).value[i])
    ensures MetadataRows(rows).Err? ==> exists n: nat :: FirstBadRow(rows, n, MetadataRows(rows).error)
  {
    hide MetadataRow;
    if rows != [] {
      var init := rows[..|rows| - 1];
      RowsDecodeOneByOne(init);
      if MetadataRows(init).Err? {
        var n: nat :| FirstBadRow(init, n, MetadataRows(init).error);
        assert FirstBadRow(rows, n, MetadataRows(init).error);
      } else if MetadataRows(rows).Err? {
        assert FirstBadRow(rows, |init|, MetadataRows(rows).error);
      }
    }
  }

  /** The hashes of a row decode one by one, in order. */
  lemma {:induction false} HashesDecodeOneByOne(items: seq<Json>)
    ensures HashesValue(items).Ok? <==>
              forall i | 0 <= i < |items| :: items[i].Text? && DecodeHex(TrimSpace(items[i].s)).Ok?
    ensures HashesValue(items).Ok? ==>
              && |HashesValue(items).value| == |items|
              && forall i | 0 <= i < |items| :: DecodeHex(TrimSpace(items[i].s)) == Ok(HashesValue(items).value[i])
  {
    hide DecodeHex, TrimSpace;
    if items != [] {
      HashesDecodeOneByOne(items[..|items| - 1]);
    }
  }

  /** A row decodes exactly when it is a list of an index, a list of hexadecimal hashes and two times; the update
      has that index, those hashes in order and those times. */
  lemma RowDecodesIff(row: Json)
    ensures MetadataRow(row).Ok? <==>
              && row.List? && |row.items| == 4 && row.items[1].List?
              && ToInt(row.items[0]).Ok? && ToInt(row.items[2]).Ok? && ToInt(row.items[3]).Ok?
              && forall i | 0 <= i < |row.items[1].items| ::
                   row.items[1].items[i].Text? && DecodeHex(TrimSpace(row.items[1].items[i].s)).Ok?
    ensures MetadataRow(row).Ok? ==>
              var update, texts := MetadataRow(row).value, row.items[1].items;
              && ToInt(row.items[0]) == Ok(update.index)
              && ToInt(row.items[2]) == Ok(update.begin) && ToInt(row.items[3]) == Ok(update.end)
              && |update.hashes| == |texts|
              && forall i | 0 <= i < |texts| :: DecodeHex(TrimSpace(texts[i].s)) == Ok(update.hashes[i])
  {
    hide DecodeHex, TrimSpace, HashesValue, ToInt;
    if row.List? && |row.items| == 4 && row.items[1].List? {
      HashesDecodeOneByOne(row.items[1].items);
    }
  }

  lemma {:induction false} RulesDecodeOneByOne(rules: seq<Json>)
    ensures Rules(rules).Ok? <==> forall i | 0 <= i < |rules| :: RuleOf(rules[i]).Ok?
  {
    hide RuleOf;
    if rules != [] {
      RulesDecodeOneByOne(rules[..|rules| - 1]);
    }
  }

  /** The k-th rule is the last one for its tag slice. */
  predicate LastRule(rules: seq<Json>, k: nat, tag: string)
    requires k < |rules|
  {
    && RuleOf(rules[k]).Ok? && RuleOf(rules[k]).value.0 == tag
    && forall i | k < i < |rules| && RuleOf(rules[i]).Ok? :: RuleOf(rules[i]).value.0 != tag
  }

  /** When the rules decode, a tag slice has a value exactly when it has a rule, and the value is that of its last
      rule. */
  lemma {:induction false} LastRuleCounts(rules: seq<Json>, tag: string)
    requires Rules(rules).Ok?
    ensures tag in Rules(rules).value ==>
              exists k: nat :: k < |rules| && LastRule(rules, k, tag)
                  && RuleOf(rules[k]).value.1 == Rules(rules).value[tag]
    ensures tag !in Rules(rules).value ==>
              forall i | 0 <= i < |rules| :: RuleOf(rules[i]).Ok? && RuleOf(rules[i]).value.0 != tag
  {
    RulesDecodeOneByOne(rules);
    hide RuleOf;
    if rules != [] {
      var m := |rules| - 1;
      var init := rules[..m];
      LastRuleCounts(init, tag);
      if RuleOf(rules[m]).value.0 == tag {
        assert LastRule(rules, m, tag);
      } else if tag in Rules(init).value {
        var k: nat :| k < |init| && LastRule(init, k, tag) && RuleOf(init[k]).value.1 == Rules(init).value[tag];
        assert LastRule(rules, k, tag);
      }
    }
  }

  method DecodeHydrusTagFilter(v: Json) returns (r: Result<Value>)
    ensures r == TagFilterValue(v)
  {
    if !v.List? {
      return Err(BadPayload);
    }
    var rules: map<string, int> := map[];
    for i := 0 to |v.items|
      invariant Rules(v.items[..i]) == Ok(rules)
    {
      var rule := v.items[i];
      assert v.items[..i + 1][..i] == v.items[..i];
      if !(rule.List? && |rule.items| == 2) || !rule.items[0].Text? {
        RulesFail(v.items, i + 1, BadRow);
        return Err(BadRow);
      }
      var n := ToInt(rule.items[1]);
      if n.Err? {
        RulesFail(v.items, i + 1, n.error);
        return Err(n.error);
      }
      rules := rules[rule.items[0].s := n.value];
    }
    assert v.items[..|v.items|] == v.items;
    return Ok(TagFilter(rules));
  }

  lemma {:induction false} RulesFail(rules: seq<Json>, n: nat, e: WireError)
    requires n <= |rules| && Rules(rules[..n]) == Err(e)
    ensures Rules(rules) == Err(e)
    decreases |rules| - n
  {
    if n < |rules| {
      assert rules[..n + 1][..n] == rules[..n];
      RulesFail(rules, n + 1, e);
    } else {
      assert rules[..n] == rules;
    }
  }

  // ----- Encoding -----

  /** What the encoder is given: JSON leaves, and dictionaries of named entries nested to any depth. */
  datatype Tree = Leaf(json: Json) | Branch(entries: seq<Entry>)
  datatype Entry = Entry(key: string, value: Tree)

  function MetaJson(v: Json): Json {
    List([Int(META_JSON), v])
  }

  function MetaHydrus(v: Json): Json {
    List([Int(META_HYDRUS), v])
  }

  /** The serialisable tuple of a dictionary whose entries already are meta tuples. */
  function DictionaryTuple(keys: seq<string>, metas: seq<Json>): Json
    requires |keys| == |metas|
  {
    List([Int(TYPE_DICTIONARY), Int(2),
          List(seq(|keys|, i requires 0 <= i < |keys| => List([MetaJson(Text(keys[i])), metas[i]])))])
  }

  method PtrSerialisableDictionary(keys: seq<string>, metas: seq<Json>) returns (v: Json)
    requires |keys| == |metas|
    ensures v == DictionaryTuple(keys, metas)
  {
    var pairs: seq<Json> := [];
    for i := 0 to |keys|
      invariant |pairs| == i
      invariant forall k | 0 <= k < i :: pairs[k] == List([MetaJson(Text(keys[k])), metas[k]])
    {
      pairs := pairs + [List([MetaJson(Text(keys[i])), metas[i]])];
    }
    v := List([Int(TYPE_DICTIONARY), Int(2), List(pairs)]);
    assert pairs == DictionaryTuple(keys, metas).items[2].items;
  }

  function Keys(entries: seq<Entry>): seq<string> {
    seq(|entries|, i requires 0 <= i < |entries| => entries[i].key)
  }

  function Encode(t: Tree): Json
    requires t.Branch?
    decreases t, |t.entries| + 1
  {
    DictionaryTuple(Keys(t.entries), EncodeEntries(t, |t.entries|))
  }

  function EncodeEntries(t: Tree, n: nat): (metas: seq<Json>)
    requires t.Branch? && n <= |t.entries|
    ensures |metas| == n
    decreases t, n
  {
    if n == 0 then [] else EncodeEntries(t, n - 1) + [EncodeMeta(t.entries[n - 1].value)]
  }

  function EncodeMeta(t: Tree): Json
    decreases t
  {
    if t.Leaf? then MetaJson(t.json) else MetaHydrus(Encode(t))
  }

  /** The value a tree stands for: of entries with the same key the last one counts. */
  function ValueOf(t: Tree): Value
    decreases t
  {
    if t.Leaf? then Plain(t.json) else Dictionary(FieldsOf(t, |t.entries|))
  }

  function FieldsOf(t: Tree, n: nat): map<string, Value>
    requires t.Branch? && n <= |t.entries|
    decreases t, n
  {
    if n == 0 then map[] else FieldsOf(t, n - 1)[t.entries[n - 1].key := ValueOf(t.entries[n - 1].value)]
  }

  lemma {:induction false} EncodeEntriesAt(t: Tree, n: nat, i: nat)
    requires t.Branch? && i < n <= |t.entries|
    ensures EncodeEntries(t, n)[i] == EncodeMeta(t.entries[i].value)
    decreases n
  {
    if i < n - 1 {
      EncodeEntriesAt(t, n - 1, i);
    }
  }

  /** Decoding undoes encoding, at every depth. */
  lemma {:induction false} DecodeUndoesEncode(t: Tree)
    requires t.Branch?
    ensures SerialisableValue(Encode(t)) == Ok(ValueOf(t))
    decreases t, |t.entries| + 1
  {
    var v := Encode(t);
    assert SerialisableInfo(v) == Ok(v.items[2]);
    PairsUndone(t, |t.entries|);
    assert ToInt(v.items[0]) == Ok(TYPE_DICTIONARY);
  }

  lemma {:induction false} PairsUndone(t: Tree, n: nat)
    requires t.Branch? && n <= |t.entries|
    ensures PairsValue(Encode(t).items[2], n) == Ok(FieldsOf(t, n))
    decreases t, n
  {
    if n > 0 {
      PairsUndone(t, n - 1);
      EncodeEntriesAt(t, |t.entries|, n - 1);
      MetaUndone(t.entries[n - 1].value);
      var pair := Encode(t).items[2].items[n - 1];
      assert pair.items[0] == MetaJson(Text(t.entries[n - 1].key));
      assert MetaValue(pair.items[0]) == Ok(Plain(Text(t.entries[n - 1].key)));
    }
  }

  lemma {:induction false} MetaUndone(t: Tree)
    ensures MetaValue(EncodeMeta(t)) == Ok(ValueOf(t))
    decreases t
  {
    if t.Branch? {
      DecodeUndoesEncode(t);
    }
  }

  /** No dictionary of the tree, at any depth, has two entries with the same key. */
  predicate DistinctKeys(t: Tree)
    decreases t
  {
    t.Branch? ==>
      && (forall i, j | 0 <= i < j < |t.entries| :: t.entries[i].key != t.entries[j].key)
      && forall i | 0 <= i < |t.entries| :: DistinctKeys(t.entries[i].value)
  }

  /** The value has exactly the tree's entries, at every depth. */
  ghost predicate Recovers(v: Value, t: Tree)
    decreases t
  {
    if t.Leaf? then v == Plain(t.json)
    else
      && v.Dictionary?
      && (forall key :: key in v.fields <==> exists i :: 0 <= i < |t.entries| && t.entries[i].key == key)
      && forall i | 0 <= i < |t.entries| ::
           t.entries[i].key in v.fields && Recovers(v.fields[t.entries[i].key], t.entries[i].value)
  }

  lemma {:induction false} FieldsAreEntries(t: Tree, n: nat)
    requires t.Branch? && n <= |t.entries|
    requires forall i, j | 0 <= i < j < |t.entries| :: t.entries[i].key != t.entries[j].key
    ensures forall key :: key in FieldsOf(t, n) <==> exists i :: 0 <= i < n && t.entries[i].key == key
    ensures forall i | 0 <= i < n :: FieldsOf(t, n)[t.entries[i].key] == ValueOf(t.entries[i].value)
    decreases n
  {
    if n > 0 {
      FieldsAreEntries(t, n - 1);
    }
  }

  lemma {:induction false} ValueRecovers(t: Tree)
    requires DistinctKeys(t)
    ensures Recovers(ValueOf(t), t)
    decreases t
  {
    if t.Branch? {
      FieldsAreEntries(t, |t.entries|);
      forall i | 0 <= i < |t.entries| ensures Recovers(ValueOf(t).fields[t.entries[i].key], t.entries[i].value) {
        ValueRecovers(t.entries[i].value);
      }
    }
  }

  /** With distinct keys nothing is lost: what the decoder returns for an encoded tree has exactly the tree's
      entries, at every depth. */
  lemma RoundTrip(t: Tree)
    requires t.Branch? && DistinctKeys(t)
    ensures SerialisableValue(Encode(t)).Ok? && Recovers(SerialisableValue(Encode(t)).value, t)
  {
    DecodeUndoesEncode(t);
    ValueRecovers(t);
  }

  // ----- The selective decoder -----

  /** What a selective pass did: the field decoders it called, in order, and the error it stopped at. */
  datatype Selection = Selection(calls: seq<(string, Json)>, error: Option<WireError>)

  /** The pass over the first n pairs.  A pair that does not decode as far as its key ends it, and so does a
      field decoder that refuses what it is handed. */
  function Select(v: Json, n: nat, wanted: set<string>, refuses: (string, Json) -> bool): Selection
    requires v.List? && n <= |v.items|
    decreases n
  {
    if n == 0 then Selection([], None)
    else
      var before := Select(v, n - 1, wanted, refuses);
      if before.error.Some? then before
      else
        match PairKey(v.items[n - 1])
        case Err(e) => Selection(before.calls, Some(e))
        case Ok(key) =>
          if key !in wanted then before
          else
            var raw := v.items[n - 1].items[1];
            Selection(before.calls + [(key, raw)], if refuses(key, raw) then Some(FieldRefused) else None)
  }

  function SelectFrom(v: Json, wanted: set<string>, refuses: (string, Json) -> bool): Selection {
    match SerialisableInfo(v)
    case Err(e) => Selection([], Some(e))
    case Ok(info) =>
      match ToInt(v.items[0])
      case Err(e) => Selection([], Some(e))
      case Ok(kind) =>
        if kind != TYPE_DICTIONARY then Selection([], Some(NotADictionary))
        else if !info.List? then Selection([], Some(BadPayload))
        else Select(info, |info.items|, wanted, refuses)
  }

  method DecodeHydrusDictionarySelective(v: Json, wanted: set<string>, refuses: (string, Json) -> bool)
    returns (calls: seq<(string, Json)>, error: Option<WireError>)
    ensures v.List? ==> Selection(calls, error) == Select(v, |v.items|, wanted, refuses)
    ensures !v.List? ==> calls == [] && error == Some(BadPayload)
  {
    calls, error := [], None;
    if !v.List? {
      return [], Some(BadPayload);
    }
    for i := 0 to |v.items|
      invariant error == None && Select(v, i, wanted, refuses) == Selection(calls, None)
    {
      var pair := v.items[i];
      if !(pair.List? && |pair.items| == 2) {
        SelectStops(v, i + 1, wanted, refuses);
        return calls, Some(BadPair);
      }
      var keyValue := DecodeHydrusMetaTuple(pair.items[0]);
      if keyValue.Err? {
        SelectStops(v, i + 1, wanted, refuses);
        return calls, Some(keyValue.error);
      }
      if !(keyValue.value.Plain? && keyValue.value.json.Text?) {
        SelectStops(v, i + 1, wanted, refuses);
        return calls, Some(KeyNotText);
      }
      var key := keyValue.value.json.s;
      if key in wanted {
        calls := calls + [(key, pair.items[1])];
        if refuses(key, pair.items[1]) {
          SelectStops(v, i + 1, wanted, refuses);
          return calls, Some(FieldRefused);
        }
      }
    }
  }

  lemma {:induction false} SelectStops(v: Json, n: nat, wanted: set<string>, refuses: (string, Json) -> bool)
    requires v.List? && n <= |v.items| && Select(v, n, wanted, refuses).error.Some?
    ensures Select(v, |v.items|, wanted, refuses) == Select(v, n, wanted, refuses)
    decreases |v.items| - n
  {
    if n < |v.items| {
      SelectStops(v, n + 1, wanted, refuses);
    }
  }

  /** The last call a pass made for a key, if it made one. */
  function LastCall(calls: seq<(string, Json)>, key: string): Option<Json> {
    if calls == [] then None
    else if calls[|calls| - 1].0 == key then Some(calls[|calls| - 1].1)
    else LastCall(calls[..|calls| - 1], key)
  }

  /** On what the full decoder accepts, a pass whose field decoders refuse nothing goes through, and for each
      wanted key the last call got the entry whose decoded value is the full decoder's value. */
  lemma {:induction false} SelectAgrees(v: Json, n: nat, wanted: set<string>, refuses: (string, Json) -> bool,
                                        key: string)
    requires v.List? && n <= |v.items| && PairsValue(v, n).Ok? && key in wanted
    requires forall k, raw :: !refuses(k, raw)
    ensures var pass, fields := Select(v, n, wanted, refuses), PairsValue(v, n).value;
            && pass.error == None
            && (key in fields <==> LastCall(pass.calls, key).Some?)
            && (key in fields ==> MetaValue(LastCall(pass.calls, key).value) == Ok(fields[key]))
    decreases n
  {
    if n > 0 {
      SelectAgrees(v, n - 1, wanted, refuses, key);
      var pass := Select(v, n, wanted, refuses);
      if PairKey(v.items[n - 1]).value in wanted {
        assert pass.calls[..|pass.calls| - 1] == Select(v, n - 1, wanted, refuses).calls;
      }
    }
  }

  /** The pairs of a dictionary have different keys. */
  predicate KeysDiffer(v: Json) {
    v.List? ==>
      forall i, j | 0 <= i < j < |v.items| && PairKey(v.items[i]).Ok? && PairKey(v.items[j]).Ok? ::
        PairKey(v.items[i]).value != PairKey(v.items[j]).value
  }

  /** One of the first n pairs has this key and raw value. */
  predicate ComesFrom(v: Json, n: nat, call: (string, Json))
    requires v.List? && n <= |v.items|
  {
    exists i | 0 <= i < n :: PairKey(v.items[i]) == Ok(call.0) && v.items[i].items[1] == call.1
  }

  predicate AllComeFrom(v: Json, n: nat, calls: seq<(string, Json)>, wanted: set<string>)
    requires v.List? && n <= |v.items|
  {
    forall c | 0 <= c < |calls| :: calls[c].0 in wanted && ComesFrom(v, n, calls[c])
  }

  /** No key is called twice. */
  predicate CallsDiffer(calls: seq<(string, Json)>) {
    forall c, d | 0 <= c < d < |calls| :: calls[c].0 != calls[d].0
  }

  lemma {:induction false} CallsComeFromPairs(v: Json, n: nat, wanted: set<string>, refuses: (string, Json) -> bool)
    requires v.List? && n <= |v.items|
    ensures AllComeFrom(v, n, Select(v, n, wanted, refuses).calls, wanted)
    decreases n
  {
    if n > 0 {
      CallsComeFromPairs(v, n - 1, wanted, refuses);
      var before := Select(v, n - 1, wanted, refuses).calls;
      var calls := Select(v, n, wanted, refuses).calls;
      assert AllComeFrom(v, n - 1, before, wanted);
      forall c | 0 <= c < |calls| ensures calls[c].0 in wanted && ComesFrom(v, n, calls[c]) {
        if c < |before| {
          assert calls[c] == before[c] && ComesFrom(v, n - 1, before[c]);
        } else {
          assert PairKey(v.items[n - 1]) == Ok(calls[c].0);
        }
      }
    }
  }

  /** With distinct keys a field decoder is called at most once for each key. */
  lemma {:induction false} CalledOnce(v: Json, n: nat, wanted: set<string>, refuses: (string, Json) -> bool)
    requires v.List? && n <= |v.items| && KeysDiffer(v)
    ensures CallsDiffer(Select(v, n, wanted, refuses).calls)
    decreases n
  {
    if n > 0 {
      CalledOnce(v, n - 1, wanted, refuses);
      CallsComeFromPairs(v, n - 1, wanted, refuses);
      var before := Select(v, n - 1, wanted, refuses).calls;
      var calls := Select(v, n, wanted, refuses).calls;
      assert AllComeFrom(v, n - 1, before, wanted) && CallsDiffer(before);
      forall c, d | 0 <= c < d < |calls| ensures calls[c].0 != calls[d].0 {
        assert calls[c] == before[c] && ComesFrom(v, n - 1, before[c]);
        if d == |before| {
          assert PairKey(v.items[n - 1]) == Ok(calls[d].0);
        } else {
          assert calls[d] == before[d];
        }
      }
    }
  }

  lemma {:induction false} OnlyCall(calls: seq<(string, Json)>, c: nat)
    requires c < |calls| && CallsDiffer(calls)
    ensures LastCall(calls, calls[c].0) == Some(calls[c].1)
    decreases |calls|
  {
    if c < |calls| - 1 {
      OnlyCall(calls[..|calls| - 1], c);
    }
  }

  /** Whenever full decoding yields a dictionary and its keys differ, the selective pass calls the decoder of
      a wanted key exactly when the dictionary has that key, once, with the raw entry whose decoded value is
      the dictionary's value. */
  lemma SelectiveAgreesWithFull(v: Json, wanted: set<string>, refuses: (string, Json) -> bool, key: string)
    requires SerialisableValue(v).Ok? && SerialisableValue(v).value.Dictionary?
    requires KeysDiffer(SerialisableInfo(v).value) && key in wanted
    requires forall k, raw :: !refuses(k, raw)
    ensures var fields, pass := SerialisableValue(v).value.fields, SelectFrom(v, wanted, refuses);
            && pass.error == None
            && (key in fields <==> exists c :: 0 <= c < |pass.calls| && pass.calls[c].0 == key)
            && (forall c | 0 <= c < |pass.calls| && pass.calls[c].0 == key ::
                  key in fields && MetaValue(pass.calls[c].1) == Ok(fields[key]))
            && CallsDiffer(pass.calls)
  {
    var info := SerialisableInfo(v).value;
    FullAndSelectivePass(v, wanted, refuses);
    hide Select, SelectFrom, SerialisableValue, SerialisableInfo, PairsValue, MetaValue, KeysDiffer;
    SelectAgrees(info, |info.items|, wanted, refuses, key);
    CalledOnce(info, |info.items|, wanted, refuses);
    CallsOf(Select(info, |info.items|, wanted, refuses).calls, key);
  }

  /** Both decoders go over the pairs of the same list. */
  lemma FullAndSelectivePass(v: Json, wanted: set<string>, refuses: (string, Json) -> bool)
    requires SerialisableValue(v).Ok? && SerialisableValue(v).value.Dictionary?
    ensures var info := SerialisableInfo(v).value;
            && info.List?
            && PairsValue(info, |info.items|) == Ok(SerialisableValue(v).value.fields)
            && SelectFrom(v, wanted, refuses) == Select(info, |info.items|, wanted, refuses)
  {
    hide PairsValue, Select;
  }

  /** When no key is called twice, the calls for a key are its last call. */
  lemma CallsOf(calls: seq<(string, Json)>, key: string)
    requires CallsDiffer(calls)
    ensures LastCall(calls, key).Some? <==> exists c :: 0 <= c < |calls| && calls[c].0 == key
    ensures forall c | 0 <= c < |calls| && calls[c].0 == key :: LastCall(calls, key) == Some(calls[c].1)
  {
    LastCallIsACall(calls, key);
    forall c | 0 <= c < |calls| && calls[c].0 == key
      ensures LastCall(calls, key) == Some(calls[c].1)
    {
      OnlyCall(calls, c);
    }
  }

  lemma {:induction false} LastCallIsACall(calls: seq<(string, Json)>, key: string)
    ensures LastCall(calls, key).Some? ==> exists c :: 0 <= c < |calls| && calls[c] == (key, LastCall(calls, key).value)
  {
    if calls != [] {
      var init := calls[..|calls| - 1];
      LastCallIsACall(init, key);
      if calls[|calls| - 1].0 == key {
        assert calls[|calls| - 1] == (key, LastCall(calls, key).value);
      } else if LastCall(init, key).Some? {
        var c :| 0 <= c < |init| && init[c] == (key, LastCall(init, key).value);
        assert calls[c] == init[c];
      }
    }
  }

  predicate NoneRefused(calls: seq<(string, Json)>, n: nat, refuses: (string, Json) -> bool)
    requires n <= |calls|
  {
    forall c | 0 <= c < n :: !refuses(calls[c].0, calls[c].1)
  }

  /** The pass with refusals against the one without: it stops right after the first call refused. */
  predicate StopsAtRefusal(pass: Selection, all: Selection, refuses: (string, Json) -> bool) {
    && pass.calls <= all.calls
    && if NoneRefused(pass.calls, |pass.calls|, refuses) then pass == all
       else pass.error == Some(FieldRefused) && NoneRefused(pass.calls, |pass.calls| - 1, refuses)
  }

  /** A refusing field decoder is the last one called; up to it the pass is the one without refusals. */
  lemma {:induction false} RefusalEndsThePass(v: Json, n: nat, wanted: set<string>,
                                              refuses: (string, Json) -> bool, never: (string, Json) -> bool)
    requires v.List? && n <= |v.items| && forall k, raw :: !never(k, raw)
    ensures StopsAtRefusal(Select(v, n, wanted, refuses), Select(v, n, wanted, never), refuses)
    decreases n
  {
    if n > 0 {
      RefusalEndsThePass(v, n - 1, wanted, refuses, never);
      var before := Select(v, n - 1, wanted, refuses);
      var allBefore := Select(v, n - 1, wanted, never);
      var pass := Select(v, n, wanted, refuses);
      var all := Select(v, n, wanted, never);
      assert StopsAtRefusal(before, allBefore, refuses);
      assert allBefore.calls <= all.calls;
      if before.error == None {
        assert before == allBefore;
        if |pass.calls| > |before.calls| {
          var last := pass.calls[|before.calls|];
          assert pass.calls == before.calls + [last] == all.calls;
          assert refuses(last.0, last.1) ==> !NoneRefused(pass.calls, |pass.calls|, refuses);
        }
      } else {
        assert pass == before;
      }
    }
  }
}
