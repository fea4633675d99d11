/** Tag normal form: how a tag is cleaned, split into namespace and subtag, and put together again.

    Strings are sequences of Unicode code points.  Which code points are control characters or white
    space is spelled out; the lower-case mapping is a parameter, as the table is part of Unicode rather
    than of this repository. */
module Tags {
  const MAX_RUNES: nat := 1024
  const INVALID_REPOSITORY_TAG := "invalid repository tag"

  /** A lower-case table lists the code points that change.  Lower-casing twice is lower-casing once, and
      the characters the tag syntax relies on are already lower-case. */
  ghost predicate IsCaseTable(table: map<char, char>) {
    && (forall c | c in table :: table[c] !in table)
    && ' ' !in table && ':' !in table
    && (forall c | c in INVALID_REPOSITORY_TAG :: c !in table)
    && forall c | 'a' <= c <= 'f' || '0' <= c <= '9' :: c !in table
  }

  type CaseTable = table: map<char, char> | IsCaseTable(table) ghost witness map[]

  function LowerRune(table: CaseTable, c: char): char {
    if c in table then table[c] else c
  }

  function ToLower(table: CaseTable, s: string): (r: string)
    ensures |r| == |s|
  {
    seq(|s|, i requires 0 <= i < |s| => LowerRune(table, s[i]))
  }

  predicate IsControl(c: char) {
    var n := c as int;
    n < 0x20 || 0x7f <= n < 0xa0
  }

  predicate IsSpace(c: char) {
    var n := c as int;
    || 0x09 <= n <= 0x0d || n == 0x20 || n == 0x85 || n == 0xa0
    || n == 0x1680 || 0x2000 <= n <= 0x200a || n == 0x2028 || n == 0x2029
    || n == 0x202f || n == 0x205f || n == 0x3000
  }

  // ----- Splitting and combining -----

  /** Position of the first colon, or the length when there is none. */
  function ColonIndex(s: string): (n: nat)
    ensures n <= |s|
    ensures n < |s| ==> s[n] == ':'
    ensures ':' !in s[..n]
  {
    if s == "" || s[0] == ':' then 0
    else
      var n := 1 + ColonIndex(s[1..]);
      assert s[..n] == [s[0]] + s[1..][..n - 1];
      n
  }

  function Split(tag: string): (string, string) {
    var n := ColonIndex(tag);
    if n < |tag| then (tag[..n], tag[n + 1..]) else ("", tag)
  }

  function Combine(namespace: string, subtag: string): string {
    if namespace == "" then
      if ':' in subtag then ":" + subtag else subtag
    else
      namespace + ":" + subtag
  }

  lemma ColonIndexAt(s: string, n: nat)
    requires n < |s| && s[n] == ':' && ':' !in s[..n]
    ensures ColonIndex(s) == n
  {
    var k := ColonIndex(s);
    forall i | 0 <= i < n ensures s[i] != ':' { assert s[..n][i] == s[i]; }
    forall i | 0 <= i < k ensures s[i] != ':' { assert s[..k][i] == s[i]; }
  }

  lemma NoColonIndex(s: string)
    requires ':' !in s
    ensures ColonIndex(s) == |s|
  {
  }

  /** Splitting undoes combining for every namespace without a colon. */
  lemma SplitUndoesCombine(namespace: string, subtag: string)
    requires ':' !in namespace
    ensures Split(Combine(namespace, subtag)) == (namespace, subtag)
  {
    var tag := Combine(namespace, subtag);
    if namespace == "" && ':' !in subtag {
      NoColonIndex(subtag);
    } else {
      assert tag == namespace + ":" + subtag;
      assert tag[..|namespace|] == namespace;
      ColonIndexAt(tag, |namespace|);
      assert tag[|namespace| + 1..] == subtag;
    }
  }

  lemma SplitHasNoColonInNamespace(tag: string)
    ensures ':' !in Split(tag).0
  {
  }

  // ----- Stripping control characters and runs of white space -----

  function DropControls(s: string): string {
    if s == "" then ""
    else if IsControl(s[0]) then DropControls(s[1..])
    else [s[0]] + DropControls(s[1..])
  }

  function TrimLeft(s: string): (r: string)
    ensures |r| <= |s|
    ensures r != "" ==> !IsSpace(r[0])
  {
    if s != "" && IsSpace(s[0]) then TrimLeft(s[1..]) else s
  }

  function TrimRight(s: string): (r: string)
    ensures |r| <= |s|
  {
    if s != "" && IsSpace(s[|s| - 1]) then TrimRight(s[..|s| - 1]) else s
  }

  function TrimSpace(s: string): string {
    TrimRight(TrimLeft(s))
  }

  /** Length of the leading run of non-space characters. */
  function WordLength(s: string): (n: nat)
    ensures n <= |s|
    ensures forall i | 0 <= i < n :: !IsSpace(s[i])
    ensures n < |s| ==> IsSpace(s[n])
  {
    if s == "" || IsSpace(s[0]) then 0 else 1 + WordLength(s[1..])
  }

  function Fields(s: string): seq<string>
    decreases |s|
  {
    var t := TrimLeft(s);
    if t == "" then []
    else
      var n := WordLength(t);
      [t[..n]] + Fields(t[n..])
  }

  function Join(words: seq<string>): string {
    if words == [] then ""
    else if |words| == 1 then words[0]
    else words[0] + " " + Join(words[1..])
  }

  function StripTextOfGumpf(value: string): string {
    TrimSpace(Join(Fields(DropControls(value))))
  }

  /** What stripped text looks like: no control characters, single plain spaces only, none at the ends. */
  predicate Neat(s: string) {
    Dense(s) && forall i | 0 <= i < |s| && IsSpace(s[i]) :: s[i] == ' '
  }

  /** Text from which stripping removes nothing, though it may still turn other spaces into plain ones. */
  predicate Dense(s: string) {
    && NoControls(s)
    && forall i | 0 <= i < |s| && IsSpace(s[i]) :: 0 < i < |s| - 1 && !IsSpace(s[i + 1])
  }

  predicate IsWord(word: string) {
    word != "" && forall i | 0 <= i < |word| :: !IsSpace(word[i]) && !IsControl(word[i])
  }

  predicate AreWords(words: seq<string>) {
    forall k | 0 <= k < |words| :: IsWord(words[k])
  }

  predicate DrawnFrom(word: string, s: string) {
    forall c | c in word :: c in s
  }

  predicate NoControls(s: string) {
    forall i | 0 <= i < |s| :: !IsControl(s[i])
  }

  lemma {:induction false} DropControlsDrops(s: string)
    ensures NoControls(DropControls(s))
    ensures NoControls(s) ==> DropControls(s) == s
    ensures forall c | c in DropControls(s) :: c in s
  {
    if s != "" {
      DropControlsDrops(s[1..]);
      assert s == [s[0]] + s[1..];
    }
  }

  lemma {:induction false} TrimLeftIsSuffix(s: string)
    ensures TrimLeft(s) == s[|s| - |TrimLeft(s)|..]
  {
    if s != "" && IsSpace(s[0]) {
      TrimLeftIsSuffix(s[1..]);
    }
  }

  lemma {:induction false} FieldsAreWords(s: string)
    requires NoControls(s)
    ensures AreWords(Fields(s))
    ensures forall k | 0 <= k < |Fields(s)| :: DrawnFrom(Fields(s)[k], s)
    decreases |s|
  {
    var t := TrimLeft(s);
    TrimLeftIsSuffix(s);
    FieldsUnfold(s);
    hide Fields, TrimLeft, WordLength, IsSpace, IsControl;
    if t != "" {
      var n := WordLength(t);
      var word, rest := t[..n], t[n..];
      assert forall i | 0 <= i < |t| :: t[i] == s[|s| - |t| + i];
      assert NoControls(rest) && IsWord(word);
      FieldsAreWords(rest);
      assert DrawnFrom(word, s);
      forall k | 0 <= k < |Fields(rest)| ensures DrawnFrom(Fields(rest)[k], s) {
        assert DrawnFrom(Fields(rest)[k], rest);
      }
    }
  }

  lemma FieldsUnfold(s: string)
    ensures var t := TrimLeft(s);
            if t == "" then Fields(s) == []
            else WordLength(t) > 0 && Fields(s) == [t[..WordLength(t)]] + Fields(t[WordLength(t)..])
  {
  }

  lemma {:induction false} JoinIsNeat(words: seq<string>)
    requires AreWords(words)
    ensures Neat(Join(words))
    ensures words != [] ==> Join(words) != "" && !IsSpace(Join(words)[0])
    ensures forall c | c in Join(words) :: c == ' ' || exists k :: 0 <= k < |words| && c in words[k]
  {
    if |words| == 1 {
    } else if |words| > 1 {
      assert IsWord(words[0]);
      JoinIsNeat(words[1..]);
      var rest := Join(words[1..]);
      var all := Join(words);
      assert all == words[0] + " " + rest;
      forall i | 0 <= i < |all| ensures !IsControl(all[i])
        ensures IsSpace(all[i]) ==> all[i] == ' ' && 0 < i < |all| - 1 && !IsSpace(all[i + 1])
      {
        if i > |words[0]| {
          assert all[i] == rest[i - |words[0]| - 1];
          if i + 1 < |all| { assert all[i + 1] == rest[i - |words[0]|]; }
        }
      }
      forall c | c in all ensures c == ' ' || exists k :: 0 <= k < |words| && c in words[k] {
        if c != ' ' && c !in words[0] {
          var k :| 0 <= k < |words[1..]| && c in words[1..][k];
          assert c in words[k + 1];
        }
      }
    }
  }

  lemma NeatIsTrimmed(s: string)
    requires Neat(s)
    ensures TrimSpace(s) == s
  {
  }

  /** How the words of text that starts with one relate to the words of what follows it. */
  lemma FieldsStep(s: string)
    requires s != "" && !IsSpace(s[0])
    ensures var n := WordLength(s);
            if n == |s| then Fields(s) == [s] else Fields(s) == [s[..n]] + Fields(s[n + 1..])
  {
    var n := WordLength(s);
    assert TrimLeft(s) == s;
    if n == |s| {
      assert s[..n] == s && Fields(s[n..]) == [];
    } else {
      assert s[n..][1..] == s[n + 1..];
      assert TrimLeft(s[n..]) == TrimLeft(s[n + 1..]);
    }
  }

  /** What follows the first word of dense text is dense and starts with a word again. */
  lemma DenseRest(s: string)
    requires s != "" && !IsSpace(s[0]) && WordLength(s) < |s| && NoControls(s)
    ensures var rest := s[WordLength(s) + 1..];
            Dense(s) <==> rest != "" && !IsSpace(rest[0]) && Dense(rest)
  {
    var n := WordLength(s);
    var rest := s[n + 1..];
    assert forall i | 0 <= i < |rest| :: rest[i] == s[n + 1 + i];
    if rest != "" && !IsSpace(rest[0]) && Dense(rest) {
      forall i | 0 <= i < |s| && IsSpace(s[i]) ensures 0 < i < |s| - 1 && !IsSpace(s[i + 1]) {
        assert i >= n;
        if i > n { assert IsSpace(rest[i - n - 1]); }
      }
    }
    if Dense(s) {
      assert IsSpace(s[n]) && !IsSpace(s[n + 1]);
      forall i | 0 <= i < |rest| && IsSpace(rest[i]) ensures 0 < i < |rest| - 1 && !IsSpace(rest[i + 1]) {
        assert IsSpace(s[n + 1 + i]);
      }
    }
  }

  lemma JoinStep(word: string, words: seq<string>)
    ensures Join([word] + words) == if words == [] then word else word + " " + Join(words)
  {
    assert ([word] + words)[1..] == words;
  }

  lemma NoFields(s: string)
    requires TrimLeft(s) == ""
    ensures Fields(s) == [] && Join(Fields(s)) == ""
  {
  }

  lemma JoinNothing()
    ensures Join([]) == ""
  {
  }

  /** The joined words of text that starts with a word: the word, and what follows it. */
  lemma JoinedStep(s: string)
    requires s != "" && !IsSpace(s[0])
    ensures Fields(s) != []
    ensures var n := WordLength(s);
            Join(Fields(s)) == if n == |s| then s
                               else if Fields(s[n + 1..]) == [] then s[..n]
                               else s[..n] + " " + Join(Fields(s[n + 1..]))
  {
    FieldsStep(s);
    hide *;
    var n := WordLength(s);
    if n == |s| {
      JoinStep(s, []);
      assert [s] + [] == [s];
    } else {
      JoinStep(s[..n], Fields(s[n + 1..]));
    }
  }

  /** Joining the words of dense text changes at most which space separates them. */
  lemma {:induction false} JoinKeepsWords(s: string)
    requires Dense(s)
    ensures |Join(Fields(s))| == |s|
    ensures forall i | 0 <= i < |s| :: Join(Fields(s))[i] == if IsSpace(s[i]) then ' ' else s[i]
    ensures s != "" ==> Fields(s) != []
    decreases |s|
  {
    hide Fields, Join;
    if s == "" {
      NoFields(s);
    } else {
      var n := WordLength(s);
      JoinedStep(s);
      if n < |s| {
        var rest := s[n + 1..];
        DenseRest(s);
        JoinKeepsWords(rest);
        forall i | 0 <= i < |s| ensures Join(Fields(s))[i] == if IsSpace(s[i]) then ' ' else s[i] {
          if i > n { assert s[i] == rest[i - n - 1]; }
        }
      }
    }
  }

  lemma SpacesFirst(s: string)
    requires s != "" && IsSpace(s[0])
    ensures Fields(s) == Fields(s[1..])
  {
  }

  lemma {:induction false} FieldsLength(s: string)
    requires NoControls(s)
    ensures |Join(Fields(s))| <= |s|
    ensures |Join(Fields(s))| == |s| <==> Dense(s)
    decreases |s|
  {
    hide Fields, Join;
    if s == "" {
      NoFields(s);
    } else if IsSpace(s[0]) {
      SpacesFirst(s);
      FieldsLength(s[1..]);
    } else {
      var n := WordLength(s);
      JoinedStep(s);
      if n < |s| {
        DenseRest(s);
        var rest := s[n + 1..];
        FieldsLength(rest);
        if rest == "" { NoFields(rest); }
        if Fields(rest) == [] { JoinNothing(); }
      }
    }
  }

  lemma {:induction false} DropControlsLength(s: string)
    ensures |DropControls(s)| <= |s|
    ensures |DropControls(s)| == |s| <==> NoControls(s)
  {
    if s != "" {
      DropControlsLength(s[1..]);
      assert s == [s[0]] + s[1..];
    }
  }

  /** Stripping yields neat text made of the input's characters and plain spaces; it leaves exactly the
      neat texts unchanged and keeps the length of exactly the dense ones. */
  lemma StripIsNeat(s: string)
    ensures Neat(StripTextOfGumpf(s))
    ensures StripTextOfGumpf(s) == s <==> Neat(s)
    ensures forall c | c in StripTextOfGumpf(s) :: c == ' ' || c in s
    ensures |StripTextOfGumpf(s)| <= |s|
    ensures |StripTextOfGumpf(s)| == |s| <==> Dense(s)
  {
    var kept := DropControls(s);
    DropControlsDrops(s);
    DropControlsLength(s);
    FieldsAreWords(kept);
    FieldsLength(kept);
    JoinIsNeat(Fields(kept));
    NeatIsTrimmed(Join(Fields(kept)));
    forall c | c in StripTextOfGumpf(s) ensures c == ' ' || c in s {
      if c != ' ' {
        var k :| 0 <= k < |Fields(kept)| && c in Fields(kept)[k];
        assert c in kept;
      }
    }
    if Neat(s) {
      JoinKeepsWords(s);
      assert Join(Fields(s)) == s;
    }
  }

  // ----- Cleaning -----

  function TruncateRunes(value: string, limit: nat): string {
    if |value| <= limit then value else value[..limit]
  }

  /** The text is one colon followed by at least one character, none of them a colon. */
  predicate LeadingSingleColon(s: string) {
    |s| >= 2 && s[0] == ':' && ':' !in s[1..]
  }

  /** A colon is put before text that has one leading colon and no other. */
  function EscapeColon(lowered: string): string {
    if LeadingSingleColon(lowered) then ":" + lowered else lowered
  }

  function CleanLowered(tag: string): string {
    if ':' in tag then
      var (namespace, subtag) := Split(StripTextOfGumpf(tag));
      Combine(StripTextOfGumpf(namespace), StripTextOfGumpf(subtag))
    else
      StripTextOfGumpf(tag)
  }

  function Clean(table: CaseTable, raw: string): string {
    CleanLowered(EscapeColon(ToLower(table, TruncateRunes(raw, MAX_RUNES))))
  }

  predicate NotEmpty(tag: string) {
    Split(tag).1 != ""
  }

  /** The name under which a repository tag definition is stored: its clean form, or a fixed placeholder
      when nothing is left of it. */
  function DefinitionTagName(table: CaseTable, raw: string): string {
    var tag := Clean(table, raw);
    if NotEmpty(tag) then tag else Clean(table, INVALID_REPOSITORY_TAG)
  }

  /** A tag in normal form: namespace and subtag are neat, every rune is lower-case, and a tag without
      namespace starts with a colon only if its subtag has another one. */
  predicate Normal(table: CaseTable, tag: string) {
    && Neat(Split(tag).0) && Neat(Split(tag).1)
    && Combine(Split(tag).0, Split(tag).1) == tag
    && forall c | c in tag :: c !in table
  }

  lemma LoweredRunes(table: CaseTable, s: string)
    ensures forall c | c in ToLower(table, s) :: c !in table
    ensures (forall c | c in s :: c !in table) ==> ToLower(table, s) == s
  {
  }

  lemma SplitLength(tag: string, n: string, s: string)
    requires |n| <= |Split(tag).0| && |s| <= |Split(tag).1|
    requires ':' in s ==> ':' in Split(tag).1
    ensures |Combine(n, s)| <= |tag|
  {
    assert tag[..|tag|] == tag;
  }

  /** What cleaning does to text that is already lower-case. */
  lemma CleanLoweredIsNeat(tag: string)
    ensures var clean := CleanLowered(tag);
            var (namespace, subtag) := Split(clean);
            && Neat(namespace) && Neat(subtag) && Combine(namespace, subtag) == clean
            && |clean| <= |tag|
            && forall c | c in clean :: c == ' ' || c == ':' || c in tag
  {
    StripIsNeat(tag);
    var stripped := StripTextOfGumpf(tag);
    if ':' in tag {
      var (namespace, subtag) := Split(stripped);
      StripIsNeat(namespace);
      StripIsNeat(subtag);
      SplitHasNoColonInNamespace(stripped);
      assert ':' !in StripTextOfGumpf(namespace);
      SplitUndoesCombine(StripTextOfGumpf(namespace), StripTextOfGumpf(subtag));
      SplitLength(stripped, StripTextOfGumpf(namespace), StripTextOfGumpf(subtag));
      assert forall c | c in namespace || c in subtag :: c in stripped;
    } else {
      assert ':' !in stripped;
      NoColonIndex(stripped);
    }
  }

  /** Cleaning always lands in normal form; in particular splitting and combining a clean tag returns it. */
  lemma CleanIsNormal(table: CaseTable, raw: string)
    ensures Normal(table, Clean(table, raw))
    ensures Combine(Split(Clean(table, raw)).0, Split(Clean(table, raw)).1) == Clean(table, raw)
    ensures |Clean(table, raw)| <= MAX_RUNES + 1
  {
    var cut := TruncateRunes(raw, MAX_RUNES);
    LoweredRunes(table, cut);
    CleanLoweredIsNeat(EscapeColon(ToLower(table, cut)));
  }

  lemma NeatCombine(namespace: string, subtag: string)
    requires Neat(namespace) && Neat(subtag)
    ensures Neat(Combine(namespace, subtag))
  {
    var tag := Combine(namespace, subtag);
    if namespace != "" || ':' in subtag {
      assert tag == namespace + ":" + subtag;
      forall i | 0 <= i < |tag|
        ensures !IsControl(tag[i])
        ensures IsSpace(tag[i]) ==> tag[i] == ' ' && 0 < i < |tag| - 1 && !IsSpace(tag[i + 1])
      {
        if i < |namespace| {
          assert tag[i] == namespace[i];
        } else if i > |namespace| {
          assert tag[i] == subtag[i - |namespace| - 1];
        }
      }
    }
  }

  lemma NormalIsCleanLowered(tag: string)
    requires Neat(Split(tag).0) && Neat(Split(tag).1) && Combine(Split(tag).0, Split(tag).1) == tag
    ensures EscapeColon(tag) == tag && CleanLowered(tag) == tag
  {
    var (namespace, subtag) := Split(tag);
    NeatCombine(namespace, subtag);
    StripIsNeat(tag);
    StripIsNeat(namespace);
    StripIsNeat(subtag);
    if tag != "" && tag[0] == ':' {
      ColonIndexAt(tag, 0);
      assert namespace == "" && subtag == tag[1..] && ':' in subtag;
    }
  }

  /** Every tag in normal form that is short enough is already clean. */
  lemma NormalIsClean(table: CaseTable, tag: string)
    requires Normal(table, tag) && |tag| <= MAX_RUNES
    ensures Clean(table, tag) == tag
  {
    LoweredRunes(table, tag);
    NormalIsCleanLowered(tag);
  }

  /** Cleaning twice is cleaning once exactly when the clean tag fits the length limit.  The colon that
      is put before a lone leading colon is added after the text was cut, so one rune too many can result. */
  lemma CleanIdempotentIff(table: CaseTable, raw: string)
    ensures Clean(table, Clean(table, raw)) == Clean(table, raw) <==> |Clean(table, raw)| <= MAX_RUNES
    ensures Clean(table, Clean(table, raw)) == Clean(table, raw) <==> !Overflows(table, raw)
  {
    var tag := Clean(table, raw);
    CleanIsNormal(table, raw);
    CleanOverflow(table, raw);
    if |tag| <= MAX_RUNES {
      NormalIsClean(table, tag);
    } else {
      CleanNeverExceedsOnColons(table, tag);
    }
  }

  /** A text that starts with two colons cleans to one within the limit. */
  lemma CleanNeverExceedsOnColons(table: CaseTable, tag: string)
    requires |tag| > MAX_RUNES && tag[..2] == "::"
    ensures |Clean(table, tag)| <= MAX_RUNES
  {
    var lowered := ToLower(table, tag[..MAX_RUNES]);
    assert lowered[0] == ':' && lowered[1] == ':';
    assert !LeadingSingleColon(lowered);
    CleanOverflow(table, tag);
  }

  /** The input is cut to a single colon and 1023 further runes of which stripping removes none. */
  predicate Overflows(table: CaseTable, raw: string) {
    && |raw| >= MAX_RUNES
    && var lowered := ToLower(table, raw[..MAX_RUNES]);
       LeadingSingleColon(lowered) && Dense(lowered)
  }

  /** Which inputs exceed the limit, in terms of the input alone. */
  lemma CleanOverflow(table: CaseTable, raw: string)
    ensures |Clean(table, raw)| > MAX_RUNES <==> Overflows(table, raw)
    ensures Overflows(table, raw) ==> Clean(table, raw)[..2] == "::"
  {
    var lowered := ToLower(table, TruncateRunes(raw, MAX_RUNES));
    CleanLoweredIsNeat(EscapeColon(lowered));
    if |raw| >= MAX_RUNES {
      assert raw[..MAX_RUNES] == TruncateRunes(raw, MAX_RUNES);
    }
    if LeadingSingleColon(lowered) {
      EscapedLength(lowered);
    }
  }

  /** A colon and as many letters as the limit leaves room for. */
  const LONG_TAG: string := [':'] + seq(MAX_RUNES - 1, i => 'a')

  lemma LongTagOverflows(table: CaseTable)
    ensures Overflows(table, LONG_TAG)
  {
    var raw := LONG_TAG;
    assert |raw| == MAX_RUNES && raw[0] == ':' && forall i | 1 <= i < |raw| :: raw[i] == 'a';
    assert raw[..MAX_RUNES] == raw;
    var lowered := ToLower(table, raw);
    assert lowered == raw by {
      forall i | 0 <= i < |raw| ensures lowered[i] == raw[i] {
        assert raw[i] == ':' || raw[i] == 'a';
      }
    }
    assert Dense(raw) by {
      forall i | 0 <= i < |raw| ensures !IsSpace(raw[i]) && !IsControl(raw[i]) {
        assert raw[i] == ':' || raw[i] == 'a';
      }
    }
  }

  /** Such an input exists, whatever the case table: cleaning it twice is not cleaning it once. */
  lemma CleanIsNotIdempotent(table: CaseTable)
    ensures Overflows(table, LONG_TAG) && |Clean(table, LONG_TAG)| == MAX_RUNES + 1
    ensures Clean(table, Clean(table, LONG_TAG)) != Clean(table, LONG_TAG)
  {
    hide Overflows, Clean, Normal, Combine, Split;
    LongTagOverflows(table);
    CleanIdempotentIff(table, LONG_TAG);
    CleanIsNormal(table, LONG_TAG);
    CleanOverflow(table, LONG_TAG);
  }

  lemma DenseAfterColon(s: string)
    requires s != "" && s[0] == ':'
    ensures Dense(":" + s) <==> Dense(s)
  {
    var t := ":" + s;
    assert forall i | 0 <= i < |s| :: t[i + 1] == s[i];
    if Dense(t) {
      forall i | 0 <= i < |s| && IsSpace(s[i]) ensures 0 < i < |s| - 1 && !IsSpace(s[i + 1]) {
        assert t[i + 1] == s[i];
        assert i + 1 < |s| ==> t[i + 2] == s[i + 1];
      }
    }
    if Dense(s) {
      forall i | 0 <= i < |t| && IsSpace(t[i]) ensures 0 < i < |t| - 1 && !IsSpace(t[i + 1]) {
        assert i > 0 && t[i] == s[i - 1];
        assert i + 1 < |t| ==> t[i + 1] == s[i];
      }
    }
  }

  lemma StripKeepsWords(s: string)
    requires Dense(s)
    ensures |StripTextOfGumpf(s)| == |s|
    ensures forall i | 0 <= i < |s| && !IsSpace(s[i]) :: StripTextOfGumpf(s)[i] == s[i]
  {
    DropControlsDrops(s);
    FieldsAreWords(s);
    JoinIsNeat(Fields(s));
    NeatIsTrimmed(Join(Fields(s)));
    JoinKeepsWords(s);
  }

  lemma EscapedLength(lowered: string)
    requires LeadingSingleColon(lowered)
    ensures |CleanLowered(":" + lowered)| == |lowered| + 1 <==> Dense(lowered)
    ensures Dense(lowered) ==> CleanLowered(":" + lowered)[..2] == "::"
  {
    var tag := ":" + lowered;
    assert tag[0] == ':' && tag[1] == ':';
    DenseAfterColon(lowered);
    StripIsNeat(tag);
    var stripped := StripTextOfGumpf(tag);
    var (n, s) := Split(stripped);
    StripIsNeat(n);
    StripIsNeat(s);
    SplitLength(stripped, StripTextOfGumpf(n), StripTextOfGumpf(s));
    if Dense(lowered) {
      StripKeepsWords(tag);
      assert stripped[0] == ':' && stripped[1] == ':';
      ColonIndexAt(stripped, 0);
      assert n == "" && s == stripped[1..];
      assert s[0] == ':';
      assert Neat(s) by {
        assert forall i | 0 <= i < |s| :: s[i] == stripped[i + 1];
      }
      assert CleanLowered(tag) == ":" + s;
    }
  }

  /** The name of a definition is always a non-empty tag in normal form. */
  lemma DefinitionTagNameIsNormal(table: CaseTable, raw: string)
    ensures Normal(table, DefinitionTagName(table, raw))
    ensures NotEmpty(DefinitionTagName(table, raw))
  {
    CleanIsNormal(table, raw);
    CleanIsNormal(table, INVALID_REPOSITORY_TAG);
    InvalidTagIsClean(table);
  }

  /** The name a repository tag is stored under. */
  predicate StoredAs(table: CaseTable, raw: string, name: string) {
    if NotEmpty(Clean(table, raw)) then name == Clean(table, raw) else name == INVALID_REPOSITORY_TAG
  }

  lemma DefinitionTagNameIsStored(table: CaseTable, raw: string)
    ensures StoredAs(table, raw, DefinitionTagName(table, raw))
  {
    InvalidTagIsClean(table);
  }

  lemma PlainTagIsClean(table: CaseTable, tag: string)
    requires Neat(tag) && ':' !in tag && |tag| <= MAX_RUNES && forall c | c in tag :: c !in table
    ensures Clean(table, tag) == tag
    ensures tag != "" ==> NotEmpty(tag)
  {
    NoColonIndex(tag);
    NormalIsClean(table, tag);
  }

  lemma InvalidTagIsClean(table: CaseTable)
    ensures Clean(table, INVALID_REPOSITORY_TAG) == INVALID_REPOSITORY_TAG
    ensures NotEmpty(INVALID_REPOSITORY_TAG)
  {
    InvalidTagIsNeat();
    PlainTagIsClean(table, INVALID_REPOSITORY_TAG);
  }

  lemma InvalidTagIsNeat()
    ensures Neat(INVALID_REPOSITORY_TAG) && ':' !in INVALID_REPOSITORY_TAG
  {
    var s := INVALID_REPOSITORY_TAG;
    assert |s| == 22;
    forall i | 0 <= i < 22 ensures !IsControl(s[i]) && (IsSpace(s[i]) <==> i == 7 || i == 18) {
    }
    assert s[7] == ' ' && s[18] == ' ';
  }
}
