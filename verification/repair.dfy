/**
 * Repairing an LLM reply before it is decoded as JSON.
 *
 * Two services apply the same two steps to a reply: drop a Markdown code
 * fence (the opening line, and the closing line when it is one), then cut
 * the text to the span from the first '{' to the last '}'. They differ only
 * in what happens when there is no such span: the Groq adapter gives up,
 * the intent parser decodes the whole text.
 */
module Repair {
  import opened Base
  import opened Text

  /** A string without any `str.splitlines()` boundary character. */
  predicate NoBreak(s: string) {
    forall j :: 0 <= j < |s| ==> !IsLineBreak(s[j])
  }

  /** True when the line, trimmed, opens or closes a code fence. */
  predicate IsFenceLine(line: string) {
    StartsWith(Strip(line), "```")
  }

  /**
   * The lines kept from a fenced reply: all but the first, and also not the
   * last when it is a fence line (Python's `lines[1:-1]` or `lines[1:]`).
   */
  function FenceInner(lines: seq<string>): (r: seq<string>)
    requires |lines| > 0
    ensures |lines| == 1 ==> r == []
    ensures |lines| > 1 && IsFenceLine(lines[|lines| - 1]) ==> r == lines[1..|lines| - 1]
    ensures !IsFenceLine(lines[|lines| - 1]) ==> r == lines[1..]
  {
    if IsFenceLine(lines[|lines| - 1]) then
      (if |lines| == 1 then [] else lines[1..|lines| - 1])
    else lines[1..]
  }

  /**
   * The trimmed reply, with a surrounding code fence removed when the trimmed
   * reply starts with three backticks.
   */
  function StripFence(raw: string): (r: string)
    ensures |r| > 0 ==> !IsSpace(r[0]) && !IsSpace(r[|r| - 1])
    ensures !StartsWith(Strip(raw), "```") ==> r == Strip(raw)
  {
    var t := Strip(raw);
    if StartsWith(t, "```") then
      var lines := SplitLines(t);
      Strip(Join("\n", FenceInner(lines)))
    else t
  }

  lemma NoBreakConcat(a: string, b: string)
    requires NoBreak(a) && NoBreak(b)
    ensures NoBreak(a + b)
  {
    forall j | 0 <= j < |a + b|
      ensures !IsLineBreak((a + b)[j])
    {
      if j < |a| {
        assert (a + b)[j] == a[j];
      } else {
        assert (a + b)[j] == b[j - |a|];
      }
    }
  }

  lemma BreakIndexOfNoBreak(s: string)
    requires NoBreak(s)
    ensures BreakIndex(s) == |s|
  {
  }

  /** A line with no break, then "\n", starts the line list. */
  lemma SplitLinesCons(a: string, b: string)
    requires NoBreak(a)
    ensures SplitLines(a + "\n" + b) == [a] + SplitLines(b)
  {
    var s := a + "\n" + b;
    assert s[..|a|] == a;
    assert IsLineBreak(s[|a|]);
    var k := BreakIndex(s);
    assert k == |a|;
    assert s[k + 1..] == b;
  }

  /** Lines joined with "\n" and followed by "\n" split back into the same lines. */
  lemma {:induction false} SplitLinesJoin(ls: seq<string>, tail: string)
    requires |ls| >= 1
    requires forall k :: 0 <= k < |ls| ==> NoBreak(ls[k])
    ensures SplitLines(Join("\n", ls) + "\n" + tail) == ls + SplitLines(tail)
    decreases |ls|
  {
    if |ls| == 1 {
      assert Join("\n", ls) == ls[0];
      SplitLinesCons(ls[0], tail);
    } else {
      SplitLinesJoin(ls[1..], tail);
      SplitLinesJoinStep(ls, tail);
    }
  }

  lemma JoinedTail(ls: seq<string>, tail: string)
    requires |ls| >= 2
    ensures Join("\n", ls) + "\n" + tail == ls[0] + "\n" + (Join("\n", ls[1..]) + "\n" + tail)
  {
  }

  lemma SplitLinesJoinStep(ls: seq<string>, tail: string)
    requires |ls| >= 2 && NoBreak(ls[0])
    requires SplitLines(Join("\n", ls[1..]) + "\n" + tail) == ls[1..] + SplitLines(tail)
    ensures SplitLines(Join("\n", ls) + "\n" + tail) == ls + SplitLines(tail)
  {
    var rest := ls[1..];
    var after := Join("\n", rest) + "\n" + tail;
    JoinedTail(ls, tail);
    SplitLinesCons(ls[0], after);
    assert ls == [ls[0]] + rest;
  }

  /** For a trimmed reply that opens a fence, the fence lines are removed. */
  lemma StripFenceOfFenced(raw: string)
    requires Strip(raw) == raw && StartsWith(raw, "```")
    ensures StripFence(raw) == Strip(Join("\n", FenceInner(SplitLines(raw))))
  {
  }

  /** A reply that begins and ends with a backtick is its own strip and opens a fence. */
  lemma BacktickEnds(raw: string)
    requires |raw| >= 3 && raw[..3] == "```" && raw[|raw| - 1] == '`'
    ensures Strip(raw) == raw && StartsWith(raw, "```")
  {
    StripOfTrimmed(raw);
  }

  lemma SplitLinesOfFenced(opening: string, ls: seq<string>)
    requires NoBreak(opening)
    requires |ls| >= 1
    requires forall k :: 0 <= k < |ls| ==> NoBreak(ls[k])
    ensures SplitLines(opening + "\n" + (Join("\n", ls) + "\n" + "```")) == [opening] + ls + ["```"]
  {
    SplitLinesCons(opening, Join("\n", ls) + "\n" + "```");
    SplitLinesJoin(ls, "```");
    TicksNoBreak();
    BreakIndexOfNoBreak("```");
  }

  lemma TicksAreFenceLine()
    ensures IsFenceLine("```")
  {
    StripOfTrimmed("```");
  }

  lemma TicksNoBreak()
    ensures NoBreak("```")
  {
  }

  lemma FenceInnerOfClosed(opening: string, ls: seq<string>)
    ensures FenceInner([opening] + ls + ["```"]) == ls
  {
    var lines := [opening] + ls + ["```"];
    assert lines[1..|lines| - 1] == ls;
    assert lines[|lines| - 1] == "```";
    TicksAreFenceLine();
  }

  /**
   * A reply that is exactly one fenced block, an opening fence line (with an
   * optional language tag), the body lines, and a closing fence line, is
   * unwrapped to its trimmed body.
   */
  lemma FencedBlockUnwrapped(tag: string, ls: seq<string>)
    requires NoBreak(tag)
    requires |ls| >= 1
    requires forall k :: 0 <= k < |ls| ==> NoBreak(ls[k])
    ensures StripFence("```" + tag + "\n" + (Join("\n", ls) + "\n" + "```")) == Strip(Join("\n", ls))
  {
    FencedReplyOpens(tag, ls);
    OpeningNoBreak(tag);
    SplitLinesOfFenced("```" + tag, ls);
    StripFenceOfClosed("```" + tag + "\n" + (Join("\n", ls) + "\n" + "```"), "```" + tag, ls);
  }

  lemma FencedReplyOpens(tag: string, ls: seq<string>)
    ensures var raw := "```" + tag + "\n" + (Join("\n", ls) + "\n" + "```");
      Strip(raw) == raw && StartsWith(raw, "```")
  {
    FencedReplyTrimmed(tag, Join("\n", ls));
    FencedReplyStarts(tag, Join("\n", ls));
  }

  lemma FencedReplyStarts(tag: string, body: string)
    ensures StartsWith("```" + tag + "\n" + (body + "\n" + "```"), "```")
  {
    var raw := "```" + tag + "\n" + (body + "\n" + "```");
    assert raw[..3] == "```";
  }

  lemma StripFenceOfClosed(raw: string, opening: string, ls: seq<string>)
    requires Strip(raw) == raw && StartsWith(raw, "```") && SplitLines(raw) == [opening] + ls + ["```"]
    ensures StripFence(raw) == Strip(Join("\n", ls))
  {
    FenceInnerOfClosed(opening, ls);
  }

  lemma OpeningNoBreak(tag: string)
    requires NoBreak(tag)
    ensures NoBreak("```" + tag)
  {
    TicksNoBreak();
    NoBreakConcat("```", tag);
  }

  lemma FencedReplyTrimmed(tag: string, body: string)
    ensures var raw := "```" + tag + "\n" + (body + "\n" + "```");
      Strip(raw) == raw
  {
    var raw := "```" + tag + "\n" + (body + "\n" + "```");
    assert raw[..3] == "```";
    BacktickEnds(raw);
  }

  /**
   * A fenced reply on a single line loses everything: its only line is the
   * opening fence line.
   */
  lemma OneLineFenceVanishes(body: string)
    requires NoBreak(body)
    ensures StripFence("```" + body + "```") == ""
  {
    TicksNoBreak();
    NoBreakConcat("```", body);
    NoBreakConcat("```" + body, "```");
    var raw := "```" + body + "```";
    BacktickEnds(raw);
    StripFenceOfFenced(raw);
    BreakIndexOfNoBreak(raw);
    assert SplitLines(raw) == [raw];
    assert FenceInner([raw]) == [];
  }

  /** True when some '{' comes before some '}'. */
  predicate HasBraceSpan(t: string) {
    exists i, j :: 0 <= i < j < |t| && t[i] == '{' && t[j] == '}'
  }

  /** `v` is `t` from its first '{' to its last '}', inclusive. */
  predicate OuterBraceSpan(t: string, v: string) {
    var i := Find(t, '{');
    var j := RFind(t, '}');
    0 <= i < j < |t| && v == t[i..j + 1]
    && (forall k :: 0 <= k < i ==> t[k] != '{')
    && (forall k :: j < k < |t| ==> t[k] != '}')
  }

  /**
   * The span from the first '{' to the last '}', when the first '{' comes
   * before the last '}'.
   */
  function BraceSlice(t: string): (r: Option<string>)
    ensures r.Some? <==> HasBraceSpan(t)
    ensures r.Some? ==> 0 <= Find(t, '{') < RFind(t, '}')
                        && r.value == t[Find(t, '{')..RFind(t, '}') + 1]
    ensures r.Some? ==> |r.value| >= 2 && r.value[0] == '{' && r.value[|r.value| - 1] == '}'
    ensures r.Some? ==> (forall k :: 0 <= k < Find(t, '{') ==> t[k] != '{')
                        && (forall k :: RFind(t, '}') < k < |t| ==> t[k] != '}')
    ensures r.Some? ==> OuterBraceSpan(t, r.value)
  {
    var a := Find(t, '{');
    var b := RFind(t, '}');
    if a != -1 && b > a then
      Some(t[a..b + 1])
    else
      assert forall i, j | 0 <= i < j < |t| && t[i] == '{' :: t[j] != '}';
      None
  }
}
