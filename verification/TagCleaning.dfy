/** Cleaning against a reference: stripping is one pass over the text, and a clean tag is put together from the
    two parts of the input, each stripped on its own. */
module TagCleaning {
  import opened Tags

  /** One pass: control characters are left out, and so are spaces, but for one plain space before each character
      that follows some and is not the first.  The first flag says that spaces have just been met, the second
      that something has been kept. */
  function Pass(s: string, gap: bool, started: bool): string {
    if s == "" then ""
    else if IsControl(s[0]) then Pass(s[1..], gap, started)
    else if IsSpace(s[0]) then Pass(s[1..], true, started)
    else (if gap && started then " " else "") + [s[0]] + Pass(s[1..], false, true)
  }

  function Squeezed(s: string): string {
    Pass(s, false, false)
  }

  lemma {:induction false} PassWithoutControls(s: string, gap: bool, started: bool)
    ensures Pass(DropControls(s), gap, started) == Pass(s, gap, started)
    decreases s
  {
    if s != "" {
      PassWithoutControls(s[1..], if IsControl(s[0]) then gap else IsSpace(s[0]),
                          started || !(IsControl(s[0]) || IsSpace(s[0])));
      if !IsControl(s[0]) {
        assert DropControls(s)[1..] == DropControls(s[1..]);
        PassWithoutControls(s[1..], true, started);
      }
    }
  }

  /** Within a word every character is kept. */
  lemma {:induction false} PassWord(s: string, n: nat)
    requires n <= |s| && NoControls(s) && forall i | 0 <= i < n :: !IsSpace(s[i])
    ensures Pass(s, false, true) == s[..n] + Pass(s[n..], false, true)
    decreases n
  {
    if n == 0 {
      assert s[0..] == s;
    } else {
      PassWord(s[1..], n - 1);
      assert s[1..][n - 1..] == s[n..];
      assert s[..n] == [s[0]] + s[1..][..n - 1];
    }
  }

  /** The pass over text that starts with a word: the word, and what follows it. */
  lemma PassFirstWord(s: string, gap: bool, started: bool)
    requires s != "" && NoControls(s) && !IsSpace(s[0])
    ensures var n := WordLength(s);
            Pass(s, gap, started) == (if gap && started then " " else "") + s[..n]
                                     + if n < |s| then Pass(s[n + 1..], true, true) else ""
  {
    hide *;
    var n := WordLength(s);
    var space, last := if gap && started then " " else "", Pass(s[n..], false, true);
    SliceFirst(s, n);
    NoControlsInRest(s, 1);
    assert Pass(s, gap, started) == space + s[..n] + last by {
      PassOne(s, gap, started);
      assert forall i | 0 <= i < n - 1 :: s[1..][i] == s[i + 1];
      PassWord(s[1..], n - 1);
      Regroup(space, [s[0]], s[1..][..n - 1], last);
    }
    if n < |s| {
      assert s[n..][1..] == s[n + 1..];
      PassOne(s[n..], false, true);
    } else {
      NoPass(false, true);
    }
  }

  lemma NoControlsInRest(s: string, k: nat)
    requires k <= |s| && NoControls(s)
    ensures NoControls(s[k..]) && forall i | 0 <= i < |s| :: !IsControl(s[i])
  {
  }

  lemma SliceFirst(s: string, n: nat)
    requires 0 < n <= |s|
    ensures s[..n] == [s[0]] + s[1..][..n - 1] && s[1..][n - 1..] == s[n..]
  {
  }

  lemma Regroup(a: string, b: string, c: string, d: string)
    ensures a + b + (c + d) == a + (b + c) + d
  {
  }

  lemma NoPass(gap: bool, started: bool)
    ensures Pass("", gap, started) == ""
  {
  }

  lemma PassOne(s: string, gap: bool, started: bool)
    requires s != "" && !IsControl(s[0])
    ensures Pass(s, gap, started) ==
              if IsSpace(s[0]) then Pass(s[1..], true, started)
              else (if gap && started then " " else "") + [s[0]] + Pass(s[1..], false, true)
  {
  }

  /** The pass joins the words. */
  lemma {:induction false} PassJoins(s: string, gap: bool, started: bool)
    requires NoControls(s) && (started ==> gap)
    ensures Pass(s, gap, started) == (if started && Fields(s) != [] then " " else "") + Join(Fields(s))
    decreases |s|
  {
    hide *;
    if s == "" {
      NoFields(s);
      NoPass(gap, started);
      JoinNothing();
    } else if IsSpace(s[0]) {
      SpacesFirst(s);
      NoControlsInRest(s, 1);
      PassOne(s, gap, started);
      PassJoins(s[1..], true, started);
    } else {
      var n := WordLength(s);
      PassFirstWord(s, gap, started);
      JoinedStep(s);
      if n < |s| {
        NoControlsInRest(s, n + 1);
        PassJoins(s[n + 1..], true, true);
        if Fields(s[n + 1..]) == [] { JoinNothing(); }
      } else {
        assert s[..n] == s;
      }
    }
  }

  /** Stripping as it runs, by dropping, splitting, joining and trimming, is the single pass. */
  lemma StripIsOnePass(s: string)
    ensures StripTextOfGumpf(s) == Squeezed(s)
  {
    var kept := DropControls(s);
    DropControlsDrops(s);
    FieldsAreWords(kept);
    JoinIsNeat(Fields(kept));
    NeatIsTrimmed(Join(Fields(kept)));
    PassJoins(kept, false, false);
    PassWithoutControls(s, false, false);
  }

  // ----- Stripping the parts of a tag -----

  /** Whether spaces have just been met, and whether something has been kept, after a text. */
  function GapAfter(s: string, gap: bool): bool {
    if s == "" then gap else GapAfter(s[1..], if IsControl(s[0]) then gap else IsSpace(s[0]))
  }

  function StartedAfter(s: string, started: bool): bool {
    if s == "" then started else StartedAfter(s[1..], started || !(IsControl(s[0]) || IsSpace(s[0])))
  }

  lemma {:induction false} PassAppend(a: string, b: string, gap: bool, started: bool)
    ensures Pass(a + b, gap, started) == Pass(a, gap, started) + Pass(b, GapAfter(a, gap), StartedAfter(a, started))
    decreases a
  {
    if a == "" {
      assert a + b == b;
    } else {
      assert (a + b)[1..] == a[1..] + b;
      PassAppend(a[1..], b, if IsControl(a[0]) then gap else IsSpace(a[0]),
                 started || !(IsControl(a[0]) || IsSpace(a[0])));
    }
  }

  /** What was met before a text is at most one space in front of it. */
  lemma {:induction false} PassStart(s: string, gap: bool, started: bool)
    ensures Pass(s, gap, started) == Squeezed(s) || Pass(s, gap, started) == " " + Squeezed(s)
    ensures !started ==> Pass(s, gap, started) == Squeezed(s)
    decreases s
  {
    if s != "" && (IsControl(s[0]) || IsSpace(s[0])) {
      PassStart(s[1..], if IsControl(s[0]) then gap else true, started);
      PassStart(s[1..], if IsControl(s[0]) then false else true, false);
    }
  }

  /** A space at either end of stripped text is stripped again. */
  lemma SqueezedWithSpace(s: string)
    ensures Squeezed(Squeezed(s)) == Squeezed(s)
    ensures Squeezed(" " + Squeezed(s)) == Squeezed(s) && Squeezed(Squeezed(s) + " ") == Squeezed(s)
  {
    var t := Squeezed(s);
    StripIsOnePass(s);
    StripIsOnePass(t);
    StripIsNeat(s);
    StripIsNeat(t);
    assert (" " + t)[1..] == t;
    PassStart(t, true, false);
    PassAppend(t, " ", false, false);
  }

  /** Stripping a tag as a whole first changes neither of its stripped parts. */
  lemma PartsOfSqueezed(namespace: string, subtag: string)
    requires ':' !in namespace
    ensures var whole := Squeezed(namespace + ":" + subtag);
            && ':' in whole
            && Squeezed(Split(whole).0) == Squeezed(namespace) && Squeezed(Split(whole).1) == Squeezed(subtag)
  {
    var rest := ":" + subtag;
    assert namespace + ":" + subtag == namespace + rest;
    PassAppend(namespace, rest, false, false);
    var gap, started := GapAfter(namespace, false), StartedAfter(namespace, false);
    assert rest[1..] == subtag;
    var before := Squeezed(namespace) + if gap && started then " " else "";
    var after := Pass(subtag, false, true);
    var whole := Squeezed(namespace + ":" + subtag);
    assert whole == before + ":" + after;
    StripIsOnePass(namespace);
    StripIsNeat(namespace);
    assert ':' !in before;
    assert whole[|before|] == ':' && whole[..|before|] == before && whole[|before| + 1..] == after;
    ColonIndexAt(whole, |before|);
    SqueezedWithSpace(namespace);
    assert Squeezed(namespace) + "" == Squeezed(namespace);
    PassStart(subtag, false, true);
    SqueezedWithSpace(subtag);
  }

  lemma {:induction false} ColonsStay(s: string, gap: bool, started: bool)
    ensures ':' in Pass(s, gap, started) <==> ':' in s
    decreases s
  {
    if s != "" {
      assert s == [s[0]] + s[1..];
      ColonsStay(s[1..], if IsControl(s[0]) then gap else IsSpace(s[0]),
                 started || !(IsControl(s[0]) || IsSpace(s[0])));
    }
  }

  /** The stripped parts, joined by a colon unless the first is empty and the second has none. */
  function Joined(namespace: string, subtag: string): string {
    if Squeezed(namespace) == "" && ':' !in subtag then Squeezed(subtag)
    else Squeezed(namespace) + ":" + Squeezed(subtag)
  }

  lemma CleanOfParts(namespace: string, subtag: string)
    requires ':' !in namespace
    ensures CleanLowered(namespace + ":" + subtag) == Joined(namespace, subtag)
  {
    var tag := namespace + ":" + subtag;
    PartsOfSqueezed(namespace, subtag);
    ColonsStay(subtag, false, false);
    StripIsOnePass(tag);
    var parts := Split(Squeezed(tag));
    StripIsOnePass(parts.0);
    StripIsOnePass(parts.1);
    assert tag[|namespace|] == ':';
    hide Squeezed, StripTextOfGumpf, Split;
  }

  // ----- What a clean tag is -----

  /** The first 1024 runes of the input, each in lower case. */
  function Lowered(table: CaseTable, raw: string): string {
    seq(if |raw| < 1024 then |raw| else 1024,
        i requires 0 <= i < |raw| => if raw[i] in table then table[raw[i]] else raw[i])
  }

  /** A colon, and no other in at least one further rune. */
  predicate LoneLeadingColon(text: string) {
    |text| > 1 && text[0] == ':' && forall i | 0 < i < |text| :: text[i] != ':'
  }

  /** The first colon of the text. */
  predicate FirstColon(text: string, n: nat) {
    n < |text| && text[n] == ':' && forall i | 0 <= i < n :: text[i] != ':'
  }

  /** Something is left of a tag unless it is empty or its only colon is at its end. */
  lemma NotEmptyIff(tag: string)
    ensures NotEmpty(tag) <==> tag != "" && !FirstColon(tag, |tag| - 1)
  {
    if tag != "" && FirstColon(tag, |tag| - 1) {
      ColonIndexAt(tag, |tag| - 1);
    }
  }

  /** Trimming cuts off exactly the spaces at both ends. */
  lemma TrimCutsSpaces(s: string)
    ensures exists i, j | 0 <= i <= j <= |s| ::
              && TrimSpace(s) == s[i..j]
              && (forall k | 0 <= k < i || j <= k < |s| :: IsSpace(s[k]))
              && (i < j ==> !IsSpace(s[i]) && !IsSpace(s[j - 1]))
  {
    var t := TrimLeft(s);
    TrimLeftIsSuffix(s);
    TrimLeftCuts(s);
    TrimRightCuts(t);
    var i, r := |s| - |t|, TrimRight(t);
    assert r == s[i..i + |r|];
    assert forall k | i <= k < |s| :: s[k] == t[k - i];
  }

  lemma {:induction false} TrimLeftCuts(s: string)
    ensures forall k | 0 <= k < |s| - |TrimLeft(s)| :: IsSpace(s[k])
  {
    if s != "" && IsSpace(s[0]) {
      TrimLeftCuts(s[1..]);
      assert forall k | 0 < k < |s| :: s[k] == s[1..][k - 1];
    }
  }

  lemma {:induction false} TrimRightCuts(s: string)
    ensures TrimRight(s) == s[..|TrimRight(s)|]
    ensures forall k | |TrimRight(s)| <= k < |s| :: IsSpace(s[k])
    ensures TrimRight(s) != "" ==> !IsSpace(TrimRight(s)[|TrimRight(s)| - 1])
  {
    if s != "" && IsSpace(s[|s| - 1]) {
      TrimRightCuts(s[..|s| - 1]);
    }
  }

  lemma CleanWithoutColon(text: string)
    requires ':' !in text
    ensures CleanLowered(EscapeColon(text)) == Squeezed(text)
  {
    StripIsOnePass(text);
  }

  lemma CleanLoneColon(text: string)
    requires LoneLeadingColon(text)
    ensures CleanLowered(EscapeColon(text)) == ":" + Squeezed(text)
  {
    assert forall i | 0 < i < |text| :: text[i] == text[1..][i - 1];
    CleanOfParts("", text);
    assert "" + ":" + text == ":" + text;
    assert "" + ":" + Squeezed(text) == ":" + Squeezed(text);
    hide CleanLowered, Squeezed;
  }

  lemma CleanFirstColon(text: string, n: nat)
    requires FirstColon(text, n) && !LoneLeadingColon(text)
    ensures CleanLowered(EscapeColon(text)) == Joined(text[..n], text[n + 1..])
  {
    assert EscapeColon(text) == text by {
      assert forall i | 0 < i < |text| :: text[i] == text[1..][i - 1];
    }
    hide CleanLowered, Squeezed, EscapeColon, LoneLeadingColon;
    assert text == text[..n] + ":" + text[n + 1..];
    CleanOfParts(text[..n], text[n + 1..]);
  }

  /** What a clean tag is, in terms of the lowered input: without a colon its stripped text; with a lone leading
      colon a colon before that; and otherwise the stripped parts around the first colon. */
  lemma CleanByParts(table: CaseTable, raw: string, n: nat)
    ensures var text := Lowered(table, raw);
            && (':' !in text ==> Clean(table, raw) == Squeezed(text))
            && (LoneLeadingColon(text) ==> Clean(table, raw) == ":" + Squeezed(text))
            && (FirstColon(text, n) && !LoneLeadingColon(text) ==>
                  Clean(table, raw) == Joined(text[..n], text[n + 1..]))
  {
    hide *;
    var text := Lowered(table, raw);
    if ':' !in text {
      CleanWithoutColon(text);
    }
    if LoneLeadingColon(text) {
      CleanLoneColon(text);
    } else if FirstColon(text, n) {
      CleanFirstColon(text, n);
    }
    CleanIsOfLowered(table, raw);
  }

  lemma CleanIsOfLowered(table: CaseTable, raw: string)
    ensures Clean(table, raw) == CleanLowered(EscapeColon(Lowered(table, raw)))
  {
    assert ToLower(table, TruncateRunes(raw, MAX_RUNES)) == Lowered(table, raw);
  }
}
