/** What a JSON tree in the wire format means, without the decoder: the decoder yields a value for a tree exactly
    when the tree means that value. */
module WireMeaning {
  import opened Tags
  import opened Interning
  import opened Wire

  // ----- Hexadecimal text -----

  const LOWER_DIGITS := "0123456789abcdef"
  const UPPER_DIGITS := "0123456789ABCDEF"

  predicate IsByte(b: int) {
    0 <= b < 256
  }

  predicate AreBytes(bytes: seq<int>) {
    forall i | 0 <= i < |bytes| :: IsByte(bytes[i])
  }

  /** Two digits a byte, the high one first. */
  function EncodeHex(bytes: seq<int>, digits: string): string
    requires AreBytes(bytes) && |digits| == 16
  {
    seq(2 * |bytes|, k requires 0 <= k < 2 * |bytes| =>
      assert IsByte(bytes[k / 2]);
      digits[if k % 2 == 0 then bytes[k / 2] / 16 else bytes[k / 2] % 16])
  }

  predicate IsDigit(c: char, n: int) {
    0 <= n < 16 && (c == LOWER_DIGITS[n] || c == UPPER_DIGITS[n])
  }

  /** The text has the two digits of each byte, of either case. */
  predicate HexOf(s: string, bytes: seq<int>) {
    && |s| == 2 * |bytes| && AreBytes(bytes)
    && forall i | 0 <= i < |bytes| :: IsDigit(s[2 * i], bytes[i] / 16) && IsDigit(s[2 * i + 1], bytes[i] % 16)
  }

  lemma NibbleIff(c: char, n: int)
    ensures Nibble(c) == Some(n) <==> IsDigit(c, n)
  {
  }

  lemma HexOfStep(s: string, bytes: seq<int>)
    requires |s| >= 2 && bytes != []
    ensures HexOf(s, bytes) <==>
              && IsByte(bytes[0]) && IsDigit(s[0], bytes[0] / 16) && IsDigit(s[1], bytes[0] % 16)
              && HexOf(s[2..], bytes[1..])
  {
    hide IsDigit, IsByte;
    var rest, tail := s[2..], bytes[1..];
    assert forall i | 0 <= i < |tail| :: tail[i] == bytes[i + 1];
    assert |rest| == 2 * |tail| ==>
        forall i | 0 <= i < |tail| :: rest[2 * i] == s[2 * (i + 1)] && rest[2 * i + 1] == s[2 * (i + 1) + 1];
    if HexOf(s, bytes) {
      assert IsByte(bytes[0]);
      forall i | 0 <= i < |tail|
        ensures IsByte(tail[i]) && IsDigit(rest[2 * i], tail[i] / 16) && IsDigit(rest[2 * i + 1], tail[i] % 16)
      {
        assert IsByte(bytes[i + 1]) && IsDigit(s[2 * (i + 1)], bytes[i + 1] / 16);
      }
    }
    if HexOf(rest, tail) && IsByte(bytes[0]) && IsDigit(s[0], bytes[0] / 16) && IsDigit(s[1], bytes[0] % 16) {
      forall i | 0 <= i < |bytes|
        ensures IsByte(bytes[i]) && IsDigit(s[2 * i], bytes[i] / 16) && IsDigit(s[2 * i + 1], bytes[i] % 16)
      {
        if i > 0 {
          assert IsByte(tail[i - 1]) && IsDigit(rest[2 * (i - 1)], tail[i - 1] / 16);
        }
      }
    }
  }

  /** Text decodes to bytes exactly when it has their digits. */
  lemma {:induction false} HexDecodesIff(s: string, bytes: seq<int>)
    ensures DecodeHex(s) == Ok(bytes) <==> HexOf(s, bytes)
    decreases |s|
  {
    if |s| >= 2 && bytes != [] {
      HexOfStep(s, bytes);
      HexDecodesIff(s[2..], bytes[1..]);
      NibbleIff(s[0], bytes[0] / 16);
      NibbleIff(s[1], bytes[0] % 16);
      DecodeStep(s, bytes);
      hide HexOf, DecodeHex, Nibble, IsDigit;
    }
  }

  lemma DecodeStep(s: string, bytes: seq<int>)
    requires |s| >= 2 && bytes != []
    ensures DecodeHex(s) == Ok(bytes) <==>
              && IsByte(bytes[0]) && Nibble(s[0]) == Some(bytes[0] / 16) && Nibble(s[1]) == Some(bytes[0] % 16)
              && DecodeHex(s[2..]) == Ok(bytes[1..])
  {
    if Nibble(s[0]).Some? && Nibble(s[1]).Some? {
      var high, low := Nibble(s[0]).value, Nibble(s[1]).value;
      assert 0 <= high < 16 && 0 <= low < 16;
      assert 16 * high + low == bytes[0] <==> high == bytes[0] / 16 && low == bytes[0] % 16;
      hide Nibble;
      assert bytes == [bytes[0]] + bytes[1..];
    }
  }

  lemma DigitOf(digits: string, n: nat)
    requires n < 16 && (digits == LOWER_DIGITS || digits == UPPER_DIGITS)
    ensures IsDigit(digits[n], n)
  {
  }

  lemma DigitsOfBytes(bytes: seq<int>, digits: string)
    requires AreBytes(bytes) && (digits == LOWER_DIGITS || digits == UPPER_DIGITS)
    ensures HexOf(EncodeHex(bytes, digits), bytes)
  {
    hide IsDigit;
    var s := EncodeHex(bytes, digits);
    forall i | 0 <= i < |bytes| ensures IsDigit(s[2 * i], bytes[i] / 16) && IsDigit(s[2 * i + 1], bytes[i] % 16) {
      var high, low := bytes[i] / 16, bytes[i] % 16;
      assert IsByte(bytes[i]);
      assert (2 * i) / 2 == i && (2 * i + 1) / 2 == i && (2 * i) % 2 == 0 && (2 * i + 1) % 2 == 1;
      assert s[2 * i] == digits[high] && s[2 * i + 1] == digits[low];
      DigitOf(digits, high);
      DigitOf(digits, low);
    }
  }

  lemma DigitIsNoSpace(c: char, n: int)
    requires IsDigit(c, n)
    ensures !IsSpace(c)
  {
    NibbleIff(c, n);
  }

  /** Text of digits has no spaces to trim. */
  lemma HexIsTrimmed(s: string, bytes: seq<int>)
    requires HexOf(s, bytes)
    ensures TrimSpace(s) == s
  {
    if s != "" {
      var n := |bytes| - 1;
      DigitIsNoSpace(s[2 * 0], bytes[0] / 16);
      DigitIsNoSpace(s[2 * n + 1], bytes[n] % 16);
      assert TrimLeft(s) == s;
      assert |s| - 1 == 2 * n + 1;
    }
  }

  /** Decoding undoes writing in hexadecimal, with digits of either case. */
  lemma HexUndoesWriting(bytes: seq<int>, digits: string)
    requires AreBytes(bytes) && (digits == LOWER_DIGITS || digits == UPPER_DIGITS)
    ensures DecodeHex(TrimSpace(EncodeHex(bytes, digits))) == DecodeHex(EncodeHex(bytes, digits)) == Ok(bytes)
  {
    var s := EncodeHex(bytes, digits);
    DigitsOfBytes(bytes, digits);
    HexDecodesIff(s, bytes);
    HexIsTrimmed(s, bytes);
  }

  // ----- What a tree means -----

  /** The tree is a serialisable tuple: its kind first, what it holds last. */
  ghost predicate Means(j: Json, v: Value)
    decreases j
  {
    && j.List? && (|j.items| == 3 || |j.items| == 4) && j.items[0].Int? && j.items[|j.items| - 1].List?
    && var (kind, info) := (j.items[0].n, j.items[|j.items| - 1]);
       match v
       case Dictionary(fields) => kind == 21 && FieldsMean(info, fields)
       case Items(values) =>
         && kind == 26 && |values| == |info.items|
         && forall i | 0 <= i < |values| :: MetaMeans(info.items[i], values[i])
       case MetadataSlice(updates, due) => kind == 37 && SliceMeans(info, updates, due)
       case TagFilter(rules) => kind == 44 && FilterMeans(info, rules)
       case _ => false
  }

  /** A meta tuple: JSON as it is, bytes in hexadecimal, or a serialisable. */
  ghost predicate MetaMeans(j: Json, v: Value)
    decreases j
  {
    && j.List? && |j.items| == 2 && j.items[0].Int?
    && match j.items[0].n
       case 0 => v == Plain(j.items[1])
       case 1 => v.Bytes? && j.items[1].Text? && HexOf(TrimSpace(j.items[1].s), v.bytes)
       case 2 => Means(j.items[1], v)
       case _ => false
  }

  /** A pair of a dictionary: its key is text, as JSON. */
  predicate HasKey(pair: Json, key: string) {
    pair.List? && |pair.items| == 2 && pair.items[0] == List([Int(0), Text(key)])
  }

  /** A pair with a key and a value. */
  ghost predicate IsPair(pair: Json)
    decreases pair, 1
  {
    && pair.List? && |pair.items| == 2
    && (exists key :: HasKey(pair, key)) && exists v :: MetaMeans(pair.items[1], v)
  }

  /** The value is that of the last pair with the key. */
  ghost predicate LastValue(info: Json, key: string, v: Value)
    requires info.List?
    decreases info, 0
  {
    exists i: nat ::
      && i < |info.items| && HasKey(info.items[i], key) && MetaMeans(info.items[i].items[1], v)
      && forall k | i < k < |info.items| :: !HasKey(info.items[k], key)
  }

  /** Every pair has a key and a value, and the fields are the keys with the value of their last pair. */
  ghost predicate FieldsMean(info: Json, fields: map<string, Value>)
    requires info.List?
    decreases info, 1
  {
    && (forall i | 0 <= i < |info.items| :: IsPair(info.items[i]))
    && (forall i, key | 0 <= i < |info.items| && HasKey(info.items[i], key) :: key in fields)
    && forall key | key in fields :: LastValue(info, key, fields[key])
  }

  /** A row of a metadata answer: index, hashes in hexadecimal, and two times. */
  predicate RowMeans(row: Json, update: MetadataUpdate) {
    && row.List? && |row.items| == 4 && row.items[1].List?
    && row.items[0] == Int(update.index) && row.items[2] == Int(update.begin) && row.items[3] == Int(update.end)
    && var texts := row.items[1].items;
       |update.hashes| == |texts|
       && forall i | 0 <= i < |texts| :: texts[i].Text? && HexOf(TrimSpace(texts[i].s), update.hashes[i])
  }

  predicate SliceMeans(info: Json, updates: seq<MetadataUpdate>, due: int)
    requires info.List?
  {
    && |info.items| == 2 && info.items[0].List? && info.items[1] == Int(due)
    && var rows := info.items[0].items;
       |updates| == |rows| && forall i | 0 <= i < |rows| :: RowMeans(rows[i], updates[i])
  }

  predicate HasRule(rule: Json, tag: string, n: int) {
    rule == List([Text(tag), Int(n)])
  }

  ghost predicate IsRule(rule: Json) {
    exists tag, n :: HasRule(rule, tag, n)
  }

  ghost predicate IsRuleFor(rule: Json, tag: string) {
    exists n :: HasRule(rule, tag, n)
  }

  /** The number is that of the last rule for the tag slice. */
  ghost predicate LastNumber(rules: seq<Json>, tag: string, n: int) {
    exists i: nat ::
      i < |rules| && HasRule(rules[i], tag, n) && forall k | i < k < |rules| :: !IsRuleFor(rules[k], tag)
  }

  /** Every rule is a tag slice and a number, and the filter has the number of each slice's last rule. */
  ghost predicate FilterMeans(info: Json, rules: map<string, int>)
    requires info.List?
  {
    && (forall i | 0 <= i < |info.items| :: IsRule(info.items[i]))
    && (forall i, tag | 0 <= i < |info.items| && IsRuleFor(info.items[i], tag) :: tag in rules)
    && forall tag | tag in rules :: LastNumber(info.items, tag, rules[tag])
  }

  // ----- Rows, slices and filters -----

  lemma IsNumber(v: Json, n: int)
    ensures ToInt(v) == Ok(n) <==> v == Int(n)
  {
  }

  lemma {:induction false} RowMeansIff(row: Json, update: MetadataUpdate)
    ensures MetadataRow(row) == Ok(update) <==> RowMeans(row, update)
  {
    RowDecodesIff(row);
    if row.List? && |row.items| == 4 && row.items[1].List? {
      IsNumber(row.items[0], update.index);
      IsNumber(row.items[2], update.begin);
      IsNumber(row.items[3], update.end);
      var texts := row.items[1].items;
      forall i | 0 <= i < |texts| && i < |update.hashes| && texts[i].Text?
        ensures DecodeHex(TrimSpace(texts[i].s)) == Ok(update.hashes[i])
           <==> HexOf(TrimSpace(texts[i].s), update.hashes[i])
      {
        HexDecodesIff(TrimSpace(texts[i].s), update.hashes[i]);
      }
      hide MetadataRow, DecodeHex, TrimSpace, ToInt, HexOf;
      if RowMeans(row, update) {
        assert ToInt(row.items[0]).Ok? && ToInt(row.items[2]).Ok? && ToInt(row.items[3]).Ok?;
        var found := MetadataRow(row).value;
        assert found.hashes == update.hashes;
      }
    }
  }

  lemma {:induction false} SliceMeansIff(info: Json, updates: seq<MetadataUpdate>, due: int)
    requires info.List?
    ensures MetadataValue(info) == Ok(MetadataSlice(updates, due)) <==> SliceMeans(info, updates, due)
  {
    if |info.items| == 2 && info.items[0].List? {
      var rows := info.items[0].items;
      IsNumber(info.items[1], due);
      RowsDecodeOneByOne(rows);
      forall i | 0 <= i < |rows| && i < |updates|
        ensures MetadataRow(rows[i]) == Ok(updates[i]) <==> RowMeans(rows[i], updates[i])
      {
        RowMeansIff(rows[i], updates[i]);
      }
      hide MetadataRow, MetadataRows, RowMeans, ToInt;
      if SliceMeans(info, updates, due) {
        assert MetadataRows(rows).Ok?;
        assert MetadataRows(rows).value == updates;
      }
    }
  }

  /** A metadata row with its hashes in hexadecimal. */
  function WrittenRow(update: MetadataUpdate, digits: string): Json
    requires |digits| == 16 && forall i | 0 <= i < |update.hashes| :: AreBytes(update.hashes[i])
  {
    var texts := seq(|update.hashes|, i requires 0 <= i < |update.hashes| => Text(EncodeHex(update.hashes[i], digits)));
    List([Int(update.index), List(texts), Int(update.begin), Int(update.end)])
  }

  /** A written row decodes to what was written. */
  lemma WrittenRowDecodes(update: MetadataUpdate, digits: string)
    requires digits == LOWER_DIGITS || digits == UPPER_DIGITS
    requires forall i | 0 <= i < |update.hashes| :: AreBytes(update.hashes[i])
    ensures MetadataRow(WrittenRow(update, digits)) == Ok(update)
  {
    hide HexOf, EncodeHex, TrimSpace, AreBytes, IsDigit, MetadataRow;
    var row := WrittenRow(update, digits);
    forall i | 0 <= i < |update.hashes|
      ensures HexOf(TrimSpace(row.items[1].items[i].s), update.hashes[i])
    {
      DigitsOfBytes(update.hashes[i], digits);
      HexIsTrimmed(EncodeHex(update.hashes[i], digits), update.hashes[i]);
    }
    RowMeansIff(row, update);
  }

  /** A byte string in hexadecimal, as a meta tuple, decodes to the bytes. */
  lemma WrittenBytesDecode(bytes: seq<int>, digits: string)
    requires AreBytes(bytes) && (digits == LOWER_DIGITS || digits == UPPER_DIGITS)
    ensures MetaValue(List([Int(1), Text(EncodeHex(bytes, digits))])) == Ok(Bytes(bytes))
  {
    hide EncodeHex, TrimSpace, DecodeHex, AreBytes, SerialisableValue;
    HexUndoesWriting(bytes, digits);
  }

  lemma RuleIff(rule: Json, tag: string, n: int)
    ensures RuleOf(rule) == Ok((tag, n)) <==> HasRule(rule, tag, n)
  {
    if rule.List? && |rule.items| == 2 && rule.items[0] == Text(tag) && rule.items[1] == Int(n) {
      assert rule.items == [Text(tag), Int(n)];
    }
  }

  lemma RuleDecodes(rule: Json, tag: string)
    ensures RuleOf(rule).Ok? <==> IsRule(rule)
    ensures RuleOf(rule).Ok? && RuleOf(rule).value.0 == tag <==> IsRuleFor(rule, tag)
  {
    if RuleOf(rule).Ok? {
      RuleIff(rule, RuleOf(rule).value.0, RuleOf(rule).value.1);
    }
    if IsRule(rule) {
      var t, n :| HasRule(rule, t, n);
      RuleIff(rule, t, n);
    }
  }

  lemma LastRuleIsMeant(rules: seq<Json>, tag: string)
    requires Rules(rules).Ok?
    ensures tag in Rules(rules).value ==> LastNumber(rules, tag, Rules(rules).value[tag])
    ensures tag !in Rules(rules).value ==> forall i | 0 <= i < |rules| :: !IsRuleFor(rules[i], tag)
  {
    LastRuleCounts(rules, tag);
    RulesDecodeOneByOne(rules);
    forall i | 0 <= i < |rules|
      ensures RuleOf(rules[i]).Ok? && (IsRuleFor(rules[i], tag) <==> RuleOf(rules[i]).value.0 == tag)
    {
      RuleDecodes(rules[i], tag);
    }
    if tag in Rules(rules).value {
      var n := Rules(rules).value[tag];
      var k: nat :| k < |rules| && LastRule(rules, k, tag) && RuleOf(rules[k]).value.1 == n;
      RuleIff(rules[k], tag, n);
      hide RuleOf, HasRule, Rules, IsRuleFor;
      assert HasRule(rules[k], tag, n);
    }
  }

  /** Only one number is that of the last rule. */
  lemma OneLastNumber(rules: seq<Json>, tag: string, m: int, n: int)
    requires LastNumber(rules, tag, m) && LastNumber(rules, tag, n)
    ensures m == n
    ensures exists i :: 0 <= i < |rules| && IsRuleFor(rules[i], tag)
  {
    var i: nat :|
      i < |rules| && HasRule(rules[i], tag, m) && forall k | i < k < |rules| :: !IsRuleFor(rules[k], tag);
    var j: nat :|
      j < |rules| && HasRule(rules[j], tag, n) && forall k | j < k < |rules| :: !IsRuleFor(rules[k], tag);
    assert IsRuleFor(rules[i], tag) && IsRuleFor(rules[j], tag);
  }

  lemma FilterMeansIff(info: Json, rules: map<string, int>)
    requires info.List?
    ensures TagFilterValue(info) == Ok(TagFilter(rules)) <==> FilterMeans(info, rules)
  {
    var items := info.items;
    RulesDecodeOneByOne(items);
    forall i | 0 <= i < |items| ensures RuleOf(items[i]).Ok? <==> IsRule(items[i]) {
      RuleDecodes(items[i], "");
    }
    hide Rules, RuleOf, IsRule, IsRuleFor, LastNumber;
    if Rules(items).Ok? {
      FilterIsMeant(info);
      if FilterMeans(info, rules) {
        SameFilter(info, rules, Rules(items).value);
      }
    }
  }

  lemma FilterIsMeant(info: Json)
    requires info.List? && Rules(info.items).Ok? && forall i | 0 <= i < |info.items| :: IsRule(info.items[i])
    ensures FilterMeans(info, Rules(info.items).value)
  {
    hide Rules, RuleOf, IsRule, IsRuleFor, LastNumber;
    var found := Rules(info.items).value;
    forall tag
      ensures tag in found ==> LastNumber(info.items, tag, found[tag])
      ensures tag !in found ==> forall i | 0 <= i < |info.items| :: !IsRuleFor(info.items[i], tag)
    {
      LastRuleIsMeant(info.items, tag);
    }
  }

  lemma SameFilter(info: Json, a: map<string, int>, b: map<string, int>)
    requires info.List? && FilterMeans(info, a) && FilterMeans(info, b)
    ensures a == b
  {
    hide IsRule, IsRuleFor, LastNumber;
    forall tag ensures (tag in a <==> tag in b) && (tag in a && tag in b ==> a[tag] == b[tag]) {
      if tag in a {
        OneLastNumber(info.items, tag, a[tag], a[tag]);
        OneLastNumber(info.items, tag, a[tag], b[tag]);
      } else if tag in b {
        OneLastNumber(info.items, tag, b[tag], b[tag]);
      }
    }
    assert a.Keys == b.Keys;
  }

  // ----- Dictionaries and lists -----

  lemma NeverPlain(v: Json)
    ensures SerialisableValue(v).Ok? ==> !SerialisableValue(v).value.Plain?
  {
    hide DictionaryValue, ListValue, MetadataRows, Rules;
  }

  lemma PlainIff(v: Json, json: Json)
    ensures MetaValue(v) == Ok(Plain(json)) <==> v == List([Int(0), json])
  {
    if v.List? && |v.items| == 2 {
      NeverPlain(v.items[1]);
      IsNumber(v.items[0], 0);
      assert v.items == [v.items[0], v.items[1]];
      hide SerialisableValue;
    }
  }

  lemma KeyIff(pair: Json, key: string)
    ensures PairKey(pair) == Ok(key) <==> HasKey(pair, key)
  {
    if pair.List? && |pair.items| == 2 {
      PlainIff(pair.items[0], Text(key));
      hide MetaValue;
    }
  }

  /** The pair decodes as far as it is looked at. */
  predicate PairDecodes(pair: Json) {
    PairKey(pair).Ok? && MetaValue(pair.items[1]).Ok?
  }

  /** The i-th pair is the last of the first n with its key. */
  predicate LastPair(v: Json, n: nat, i: nat, key: string)
    requires v.List? && n <= |v.items|
  {
    i < n && PairKey(v.items[i]) == Ok(key) && forall k | i < k < n :: PairKey(v.items[k]) != Ok(key)
  }

  /** The pairs decode exactly when each does, and a key has the value of its last pair. */
  lemma {:induction false} PairsDecodeOneByOne(v: Json, n: nat, key: string)
    requires v.List? && n <= |v.items|
    ensures PairsValue(v, n).Ok? <==> forall i | 0 <= i < n :: PairDecodes(v.items[i])
    ensures PairsValue(v, n).Ok? && key in PairsValue(v, n).value ==>
              exists i: nat ::
                LastPair(v, n, i, key) && MetaValue(v.items[i].items[1]) == Ok(PairsValue(v, n).value[key])
    ensures PairsValue(v, n).Ok? && key !in PairsValue(v, n).value ==>
              forall i | 0 <= i < n :: PairKey(v.items[i]) != Ok(key)
    decreases n
  {
    if n > 0 {
      hide PairsValue, PairKey, MetaValue, PairDecodes;
      PairsDecodeOneByOne(v, n - 1, key);
      PairsStep(v, n);
      if PairsValue(v, n).Ok? {
        LastPairStep(v, n, key);
      }
    } else {
      assert PairsValue(v, 0) == Ok(map[]);
    }
  }

  lemma LastPairStep(v: Json, n: nat, key: string)
    requires v.List? && 0 < n <= |v.items| && PairsValue(v, n).Ok?
    requires PairsValue(v, n - 1).Ok?
    requires key in PairsValue(v, n - 1).value ==>
               exists i: nat ::
                 LastPair(v, n - 1, i, key) && MetaValue(v.items[i].items[1]) == Ok(PairsValue(v, n - 1).value[key])
    ensures key in PairsValue(v, n).value ==>
              exists i: nat ::
                LastPair(v, n, i, key) && MetaValue(v.items[i].items[1]) == Ok(PairsValue(v, n).value[key])
    ensures key in PairsValue(v, n).value
       <==> key in PairsValue(v, n - 1).value || PairKey(v.items[n - 1]) == Ok(key)
  {
    PairsStep(v, n);
    hide PairsValue, MetaValue, PairKey;
    var before := PairsValue(v, n - 1).value;
    if PairKey(v.items[n - 1]) == Ok(key) {
      assert LastPair(v, n, n - 1, key);
    } else if key in before {
      var i: nat :| LastPair(v, n - 1, i, key) && MetaValue(v.items[i].items[1]) == Ok(before[key]);
      assert LastPair(v, n, i, key);
    }
  }

  lemma PairsStep(v: Json, n: nat)
    requires v.List? && 0 < n <= |v.items|
    ensures PairsValue(v, n).Ok? <==> PairsValue(v, n - 1).Ok? && PairDecodes(v.items[n - 1])
    ensures PairsValue(v, n).Ok? ==>
              PairsValue(v, n).value == PairsValue(v, n - 1).value[PairKey(v.items[n - 1]).value :=
                                                                  MetaValue(v.items[n - 1].items[1]).value]
  {
  }

  /** The n-th item fails, and none before it does. */
  ghost predicate FirstBadItem(items: seq<Json>, n: nat, e: WireError) {
    n < |items| && MetaValue(items[n]) == Err(e) && forall i | 0 <= i < n :: MetaValue(items[i]).Ok?
  }

  /** The items decode to one value each, in order; otherwise the error is that of the first item that fails. */
  lemma {:induction false} ItemsDecodeOneByOne(v: Json, n: nat)
    requires v.List? && n <= |v.items|
    ensures ItemsValue(v, n).Ok? <==> forall i | 0 <= i < n :: MetaValue(v.items[i]).Ok?
    ensures ItemsValue(v, n).Ok? ==>
              && |ItemsValue(v, n).value| == n
              && forall i | 0 <= i < n :: MetaValue(v.items[i]) == Ok(ItemsValue(v, n).value[i])
    ensures ItemsValue(v, n).Err? ==> exists k: nat :: FirstBadItem(v.items[..n], k, ItemsValue(v, n).error)
    decreases n
  {
    if n > 0 {
      ItemsDecodeOneByOne(v, n - 1);
      ItemsStep(v, n);
      hide ItemsValue, MetaValue;
      var init := v.items[..n - 1];
      assert forall i | 0 <= i < n - 1 :: v.items[..n][i] == init[i] == v.items[i];
      if ItemsValue(v, n - 1).Err? {
        var k: nat :| FirstBadItem(init, k, ItemsValue(v, n - 1).error);
        assert FirstBadItem(v.items[..n], k, ItemsValue(v, n).error);
      } else if ItemsValue(v, n).Err? {
        assert FirstBadItem(v.items[..n], n - 1, ItemsValue(v, n).error);
      }
    }
  }

  lemma ItemsStep(v: Json, n: nat)
    requires v.List? && 0 < n <= |v.items|
    ensures ItemsValue(v, n) ==
              match ItemsValue(v, n - 1)
              case Err(e) => Err(e)
              case Ok(values) =>
                match MetaValue(v.items[n - 1])
                case Err(e) => Err(e)
                case Ok(value) => Ok(values + [value])
  {
  }

  // ----- The decoder yields what a tree means -----

  /** A meta tuple decodes to a value exactly when it means it. */
  lemma {:induction false} MetaMeansIff(j: Json, v: Value)
    ensures MetaValue(j) == Ok(v) <==> MetaMeans(j, v)
    decreases j, 3
  {
    if j.List? && |j.items| == 2 && j.items[0].Int? {
      MeansIff(j.items[1], v);
      if j.items[1].Text? && v.Bytes? {
        HexDecodesIff(TrimSpace(j.items[1].s), v.bytes);
      }
      hide Means, SerialisableValue, DecodeHex, HexOf, TrimSpace;
    }
  }

  /** Whatever the tree and the value: the decoder yields the value exactly when the tree means it. */
  lemma {:induction false} MeansIff(j: Json, v: Value)
    ensures SerialisableValue(j) == Ok(v) <==> Means(j, v)
    decreases j, 3
  {
    if j.List? && (|j.items| == 3 || |j.items| == 4) && j.items[0].Int? {
      var info := j.items[|j.items| - 1];
      assert SerialisableInfo(j) == Ok(info);
      if info.List? {
        match v
        case Dictionary(fields) => FieldsMeanIff(info, fields);
        case Items(values) => ItemsMeanIff(info, values);
        case MetadataSlice(updates, due) => SliceMeansIff(info, updates, due);
        case TagFilter(rules) => FilterMeansIff(info, rules);
        case _ => NeverPlain(j);
      }
      hide DictionaryValue, ListValue, MetadataValue, TagFilterValue, FieldsMean, SliceMeans, FilterMeans, MetaMeans;
    }
  }

  lemma {:induction false} ItemsMeanIff(info: Json, values: seq<Value>)
    requires info.List?
    ensures ListValue(info) == Ok(values)
       <==> |values| == |info.items| && forall i | 0 <= i < |values| :: MetaMeans(info.items[i], values[i])
    decreases info, 2
  {
    var items := info.items;
    ItemsDecodeOneByOne(info, |items|);
    forall i | 0 <= i < |items| && i < |values|
      ensures MetaValue(items[i]) == Ok(values[i]) <==> MetaMeans(items[i], values[i])
    {
      MetaMeansIff(items[i], values[i]);
    }
    hide MetaValue, MetaMeans, ItemsValue;
    if |values| == |items| && forall i | 0 <= i < |values| :: MetaMeans(items[i], values[i]) {
      assert ItemsValue(info, |items|).value == values;
    }
  }

  /** What a pair is, in terms of the decoder. */
  lemma {:induction false} PairMeans(pair: Json)
    ensures IsPair(pair) <==> PairDecodes(pair)
    decreases pair, 2
  {
    KeyDecodes(pair);
    if pair.List? && |pair.items| == 2 {
      var raw := pair.items[1];
      if MetaValue(raw).Ok? {
        MetaMeansIff(raw, MetaValue(raw).value);
      }
      if v :| MetaMeans(raw, v) {
        MetaMeansIff(raw, v);
      }
    }
    hide MetaMeans, MetaValue, HasKey;
  }

  lemma KeyDecodes(pair: Json)
    ensures PairKey(pair).Ok? <==> exists key :: HasKey(pair, key)
  {
    if PairKey(pair).Ok? {
      KeyIff(pair, PairKey(pair).value);
    }
    if key :| HasKey(pair, key) {
      KeyIff(pair, key);
    }
  }

  lemma {:induction false} LastValueIsMeant(info: Json, key: string)
    requires info.List? && PairsValue(info, |info.items|).Ok?
    ensures var found := PairsValue(info, |info.items|).value;
            && (key in found ==> LastValue(info, key, found[key]))
            && (key !in found ==> forall i | 0 <= i < |info.items| :: !HasKey(info.items[i], key))
    decreases info, 4
  {
    var items, found := info.items, PairsValue(info, |info.items|).value;
    PairsDecodeOneByOne(info, |items|, key);
    forall i | 0 <= i < |items| ensures PairKey(items[i]) == Ok(key) <==> HasKey(items[i], key) {
      KeyIff(items[i], key);
    }
    if key in found {
      var i: nat :| LastPair(info, |items|, i, key) && MetaValue(items[i].items[1]) == Ok(found[key]);
      MetaMeansIff(items[i].items[1], found[key]);
      hide PairKey, HasKey, MetaMeans, MetaValue, PairsValue;
      assert HasKey(items[i], key) && MetaMeans(items[i].items[1], found[key]);
    }
  }

  /** Two values of the last pair with a key are values of the same pair. */
  lemma {:induction false} OneLastValue(info: Json, key: string, v: Value, u: Value)
    requires info.List? && LastValue(info, key, v) && LastValue(info, key, u)
    ensures v == u
    ensures exists i :: 0 <= i < |info.items| && HasKey(info.items[i], key)
    decreases info, 4
  {
    hide MetaMeans, MetaValue;
    var i: nat :|
      && i < |info.items| && HasKey(info.items[i], key) && MetaMeans(info.items[i].items[1], v)
      && forall k | i < k < |info.items| :: !HasKey(info.items[k], key);
    var j: nat :|
      && j < |info.items| && HasKey(info.items[j], key) && MetaMeans(info.items[j].items[1], u)
      && forall k | j < k < |info.items| :: !HasKey(info.items[k], key);
    assert i == j;
    OneMeaning(info.items[i].items[1], v, u);
  }

  lemma {:induction false} OneMeaning(j: Json, v: Value, u: Value)
    requires MetaMeans(j, v) && MetaMeans(j, u)
    ensures v == u
    decreases j, 4
  {
    hide MetaMeans, MetaValue;
    MetaMeansIff(j, v);
    MetaMeansIff(j, u);
  }

  lemma {:induction false} FieldsMeanIff(info: Json, fields: map<string, Value>)
    requires info.List?
    ensures DictionaryValue(info) == Ok(fields) <==> FieldsMean(info, fields)
    decreases info, 6
  {
    var n := |info.items|;
    PairsDecodeOneByOne(info, n, "");
    forall i | 0 <= i < n ensures IsPair(info.items[i]) <==> PairDecodes(info.items[i]) {
      PairMeans(info.items[i]);
    }
    if PairsValue(info, n).Ok? {
      FieldsAreMeant(info);
      if FieldsMean(info, fields) {
        SameFields(info, fields, PairsValue(info, n).value);
      }
    }
    hide PairsValue, IsPair, PairDecodes, LastValue, HasKey;
  }

  lemma {:induction false} FieldsAreMeant(info: Json)
    requires info.List? && PairsValue(info, |info.items|).Ok?
    requires forall i | 0 <= i < |info.items| :: IsPair(info.items[i])
    ensures FieldsMean(info, PairsValue(info, |info.items|).value)
    decreases info, 5
  {
    hide PairsValue, IsPair, LastValue, HasKey;
    var found := PairsValue(info, |info.items|).value;
    forall key
      ensures key in found ==> LastValue(info, key, found[key])
      ensures key !in found ==> forall i | 0 <= i < |info.items| :: !HasKey(info.items[i], key)
    {
      LastValueIsMeant(info, key);
    }
  }

  lemma {:induction false} SameFields(info: Json, a: map<string, Value>, b: map<string, Value>)
    requires info.List? && FieldsMean(info, a) && FieldsMean(info, b)
    ensures a == b
    decreases info, 5
  {
    hide IsPair, LastValue, HasKey;
    forall key ensures (key in a <==> key in b) && (key in a && key in b ==> a[key] == b[key]) {
      if key in a {
        OneLastValue(info, key, a[key], a[key]);
        OneLastValue(info, key, a[key], b[key]);
      } else if key in b {
        OneLastValue(info, key, b[key], b[key]);
      }
    }
    assert a.Keys == b.Keys;
  }
}
