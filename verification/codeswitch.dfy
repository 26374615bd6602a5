/**
 * Code-switch analysis: each whitespace-separated token is tagged with a
 * language from the Unicode blocks of its word characters, and the input
 * gets the proportion of tokens per language.
 *
 * Confidences are integers: hundredths for a token, thousandths for the
 * language mix. `isWord` is the regular-expression class `\w`.
 */
module CodeSwitch {
  import opened Base
  import opened Text
  import opened Tally
  import Schemas

  datatype Lang = Ta | Ml | En | Mixed | Unk

  function Code(l: Lang): string {
    match l
    case Ta => "ta"
    case Ml => "ml"
    case En => "en"
    case Mixed => "mixed"
    case Unk => "unk"
  }

  /** `_char_lang`: the Tamil and Malayalam blocks, ASCII letters, and everything else. */
  function CharLang(c: char): (r: Lang)
    ensures r != Mixed
    ensures r == Ta <==> 0x0B80 <= c as int <= 0x0BFF
    ensures r == Ml <==> 0x0D00 <= c as int <= 0x0D7F
    ensures r == En <==> IsAsciiLetter(c)
  {
    if 0x0B80 <= c as int <= 0x0BFF then Ta
    else if 0x0D00 <= c as int <= 0x0D7F then Ml
    else if IsAsciiLetter(c) then En
    else Unk
  }

  /** Digits are word characters but belong to no language. */
  lemma DigitsUnknown(c: char)
    requires IsAsciiDigit(c)
    ensures CharLang(c) == Unk
  {
  }

  /** `re.sub(r"[^\w]", "", token)`: the word characters, in order. */
  function Cleaned(token: string, isWord: char -> bool): (r: string)
    ensures |r| <= |token|
    ensures forall k :: 0 <= k < |r| ==> isWord(r[k])
    ensures (forall k :: 0 <= k < |token| ==> !isWord(token[k])) <==> r == []
    decreases |token|
  {
    if |token| == 0 then []
    else
      var rest := Cleaned(token[1..], isWord);
      assert forall k :: 1 <= k < |token| ==> token[k] == token[1..][k - 1];
      if isWord(token[0]) then [token[0]] + rest else rest
  }

  function Langs(s: string): (r: seq<Lang>)
    ensures |r| == |s| && forall k :: 0 <= k < |s| ==> r[k] == CharLang(s[k])
  {
    seq(|s|, k requires 0 <= k < |s| => CharLang(s[k]))
  }

  /**
   * `round(c / t * scale)` to the nearest integer, halves to even; Python
   * rounds the binary value of the quotient, which can decide an exact half
   * differently (see README).
   */
  function RoundRatio(c: nat, t: nat, scale: nat): (r: nat)
    requires t > 0
  {
    RoundDiv(c * scale, t)
  }

  /** `p / t` rounded to the nearest integer: up exactly when the remainder is past half. */
  function RoundDiv(p: nat, t: nat): (r: nat)
    requires t > 0
    ensures r == p / t || r == p / t + 1
    ensures r == p / t + 1 ==> 2 * (p % t) >= t
    ensures r == p / t ==> 2 * (p % t) <= t
  {
    var q := p / t;
    var m := p % t;
    if 2 * m > t || (2 * m == t && q % 2 == 1) then q + 1 else q
  }

  lemma MulLe(a: int, b: int, t: nat)
    requires a <= b
    ensures a * t <= b * t
  {
  }

  lemma DivAtLeast(p: nat, t: nat, k: nat)
    requires t > 0 && p >= k * t
    ensures p / t >= k
  {
    var q := p / t;
    if q < k {
      MulLe(q + 1, k, t);
      assert false;
    }
  }

  lemma DivBelow(p: nat, t: nat, k: nat)
    requires t > 0 && p < k * t
    ensures p / t < k
  {
    var q := p / t;
    if q >= k {
      MulLe(k, q, t);
      assert false;
    }
  }

  /** A share of at least four fifths rounds to at least 80 hundredths. */
  lemma RoundAtLeast80(c: nat, t: nat)
    requires t > 0 && 5 * c >= 4 * t
    ensures RoundRatio(c, t, 100) >= 80
  {
    DivAtLeast(c * 100, t, 80);
  }

  /** A share below four fifths rounds to at most 80 hundredths. */
  lemma RoundAtMost80(c: nat, t: nat)
    requires t > 0 && 5 * c < 4 * t
    ensures RoundRatio(c, t, 100) <= 80
  {
    DivBelow(c * 100, t, 80);
  }

  /** A share of at most the whole rounds to at most the scale. */
  lemma RoundAtMostScale(c: nat, t: nat, scale: nat)
    requires 0 < t && c <= t
    ensures RoundRatio(c, t, scale) <= scale
  {
    var p := c * scale;
    MulLe(c, t, scale);
    assert p <= scale * t;
    DivBelow(p, t, scale + 1);
    if p / t == scale {
      assert p == scale * t + p % t;
    }
  }

  /** Why a token got its tag (the source's reason text, as data). */
  datatype Reason =
    | NoWordChars
    | HyphenatedMixed
    | AllIn(lang: Lang)
    | DominantShare(lang: Lang, count: nat, total: nat)
    | MixedScripts(counts: Table<Lang>)

  datatype Tag = Tag(lang: Lang, hundredths: nat, reason: Reason)

  /** The per-language counts of a token's word characters, in first-seen order. */
  function ScriptCounts(cleaned: string): Table<Lang> {
    Count(Langs(cleaned))
  }

  /**
   * `_classify_token` once the word characters are known; `hyphenated` says
   * whether the token contains '-'.
   */
  function ClassifyCleaned(cleaned: string, hyphenated: bool): (r: Tag)
    ensures r.hundredths <= 100
    ensures cleaned == [] <==> r.reason == NoWordChars
    ensures cleaned == [] ==> r.lang == Unk && r.hundredths == 50
    ensures cleaned != [] && hyphenated && |ScriptCounts(cleaned)| > 1 ==> r.lang == Mixed && r.hundredths == 70
    ensures cleaned != [] && |ScriptCounts(cleaned)| == 1 ==>
              r.hundredths == 95 && forall k :: 0 <= k < |cleaned| ==> CharLang(cleaned[k]) == r.lang
    ensures cleaned != [] && !hyphenated && |ScriptCounts(cleaned)| > 1 ==>
              var d := ScriptCounts(cleaned)[MostCommon(ScriptCounts(cleaned))];
              && r.hundredths == RoundRatio(d.1, |cleaned|, 100)
              && (r.lang == Mixed <==> 5 * d.1 < 4 * |cleaned|)
              && (r.lang != Mixed ==> r.lang == d.0 && r.hundredths >= 80)
              && (r.lang == Mixed ==> r.hundredths <= 80)
  {
    if cleaned == [] then Tag(Unk, 50, NoWordChars)
    else
      var counts := ScriptCounts(cleaned);
      assert Langs(cleaned)[0] in Keys(counts);
      var i := MostCommon(counts);
      var d := counts[i];
      var total := |cleaned|;
      DominantWithinTotal(cleaned, i);
      KeyNotMixed(cleaned, i);
      if hyphenated && |counts| > 1 then Tag(Mixed, 70, HyphenatedMixed)
      else if |counts| == 1 then
        SingleScript(cleaned);
        Tag(d.0, 95, AllIn(d.0))
      else if 5 * d.1 >= 4 * total then
        RoundAtLeast80(d.1, total);
        RoundAtMostScale(d.1, total, 100);
        Tag(d.0, RoundRatio(d.1, total, 100), DominantShare(d.0, d.1, total))
      else
        RoundAtMost80(d.1, total);
        Tag(Mixed, RoundRatio(d.1, total, 100), MixedScripts(counts))
  }

  lemma DominantWithinTotal(s: string, i: nat)
    requires i < |ScriptCounts(s)|
    ensures ScriptCounts(s)[i].1 <= |s|
  {
    LookupAt(ScriptCounts(s), i);
    OccurrencesAtMost(Langs(s), ScriptCounts(s)[i].0);
  }

  lemma SingleScript(s: string)
    requires |ScriptCounts(s)| == 1
    ensures forall k :: 0 <= k < |s| ==> CharLang(s[k]) == ScriptCounts(s)[0].0
  {
    forall k | 0 <= k < |s|
      ensures CharLang(s[k]) == ScriptCounts(s)[0].0
    {
      assert Langs(s)[k] in Keys(ScriptCounts(s));
    }
  }

  /** `_classify_token`. */
  function ClassifyToken(token: string, isWord: char -> bool): (r: Tag)
    ensures r.hundredths <= 100
    ensures r.reason == NoWordChars <==> forall k :: 0 <= k < |token| ==> !isWord(token[k])
  {
    ClassifyCleaned(Cleaned(token, isWord), '-' in token)
  }

  /** Characters never count as "mixed": only tokens do. */
  lemma KeyNotMixed(s: string, i: nat)
    requires i < |ScriptCounts(s)|
    ensures ScriptCounts(s)[i].0 != Mixed
  {
    var counts := ScriptCounts(s);
    assert counts[i].0 in Keys(counts);
    var k :| 0 <= k < |s| && Langs(s)[k] == counts[i].0;
  }

  lemma {:induction false} OccurrencesAtMost<T>(xs: seq<T>, x: T)
    ensures Occurrences(xs, x) <= |xs|
    decreases |xs|
  {
    if |xs| > 0 {
      OccurrencesAtMost(xs[..|xs| - 1], x);
    }
  }

  /** A tag is a valid `TokenAnalysis`, whatever its reason text. */
  lemma TagIsValid(token: string, isWord: char -> bool, reasonText: string)
    ensures var t := ClassifyToken(token, isWord);
      Schemas.ValidToken(Schemas.TokenAnalysis(token, Code(t.lang), t.hundredths as real / 100.0, reasonText))
  {
  }

  datatype TokenTag = TokenTag(token: string, tag: Tag)

  datatype CodeSwitchResult = CodeSwitchResult(tokens: seq<TokenTag>, languageMix: Table<Lang>)

  function TagAll(words: seq<string>, isWord: char -> bool): (r: seq<TokenTag>)
    ensures |r| == |words|
    ensures forall k :: 0 <= k < |words| ==> r[k] == TokenTag(words[k], ClassifyToken(words[k], isWord))
  {
    seq(|words|, k requires 0 <= k < |words| => TokenTag(words[k], ClassifyToken(words[k], isWord)))
  }

  function TagLangs(tokens: seq<TokenTag>): (r: seq<Lang>)
    ensures |r| == |tokens| && forall k :: 0 <= k < |tokens| ==> r[k] == tokens[k].tag.lang
  {
    seq(|tokens|, k requires 0 <= k < |tokens| => tokens[k].tag.lang)
  }

  /** The proportion of each count in thousandths of `n` (of 1 for no tokens). */
  function Proportions(counts: Table<Lang>, n: nat): (r: Table<Lang>)
    ensures Keys(r) == Keys(counts)
    ensures forall k :: 0 <= k < |r| ==> r[k].1 == RoundRatio(counts[k].1, Max(n, 1), 1000)
  {
    var r := seq(|counts|, k requires 0 <= k < |counts| => (counts[k].0, RoundRatio(counts[k].1, Max(n, 1), 1000)));
    assert Keys(r) == Keys(counts);
    r
  }

  lemma ProportionFacts(langs: seq<Lang>)
    ensures var mix := Proportions(Count(langs), |langs|);
      && DistinctKeys(mix)
      && (forall l :: l in Keys(mix) <==> l in langs)
      && forall k :: 0 <= k < |mix| ==>
           mix[k].1 == RoundRatio(Occurrences(langs, mix[k].0), Max(|langs|, 1), 1000) && mix[k].1 <= 1000
  {
    var counts := Count(langs);
    var mix := Proportions(counts, |langs|);
    forall k | 0 <= k < |mix|
      ensures mix[k].1 == RoundRatio(Occurrences(langs, mix[k].0), Max(|langs|, 1), 1000) && mix[k].1 <= 1000
    {
      LookupAt(counts, k);
      OccurrencesAtMost(langs, counts[k].0);
      RoundAtMostScale(counts[k].1, Max(|langs|, 1), 1000);
    }
    forall i, j | 0 <= i < j < |mix|
      ensures mix[i].0 != mix[j].0
    {
      assert mix[i].0 == Keys(counts)[i] && mix[j].0 == Keys(counts)[j];
    }
  }

  /** `analyse_codeswitch`. */
  function AnalyseCodeSwitch(text: string, isWord: char -> bool): (r: CodeSwitchResult)
    ensures r.tokens == TagAll(Words(text), isWord)
    ensures DistinctKeys(r.languageMix)
    ensures forall l :: l in Keys(r.languageMix) <==> l in TagLangs(r.tokens)
    ensures forall k :: 0 <= k < |r.languageMix| ==>
              r.languageMix[k].1 == RoundRatio(Occurrences(TagLangs(r.tokens), r.languageMix[k].0), Max(|r.tokens|, 1), 1000)
              && r.languageMix[k].1 <= 1000
    ensures Words(text) == [] ==> r.languageMix == []
  {
    var tokens := TagAll(Words(text), isWord);
    var langs := TagLangs(tokens);
    var mix := Proportions(Count(langs), |tokens|);
    ProportionFacts(langs);
    CodeSwitchResult(tokens, mix)
  }
}
