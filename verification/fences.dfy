/**
 * The two code-fence patterns the report summariser applies to an LLM reply
 * before decoding it, written out as the scanners Python's backtracking
 * regular-expression engine amounts to for these patterns.
 *
 * - The executive-analysis adapters search for
 *   "```" + optional "json" + whitespace + "{" ... "}" + whitespace + "```"
 *   with a lazy body, and decode the braces when found (the text unchanged
 *   otherwise).
 * - The incident adapters search for the opening fence ("```json" when the
 *   reply contains it, otherwise "```"), whitespace ending in a newline, a
 *   lazy body, and "\n```". When the reply has a fence the pattern cannot
 *   match, the adapter fails.
 */
module Fences {
  import opened Base
  import opened Text
  import opened Scan

  // ---------------------------------------------------------------------------
  // Executive-analysis fence: ```(?:json)?\s*(\{.*?\})\s*```
  // ---------------------------------------------------------------------------

  /** Text that opens with '{' and closes with '}'. */
  predicate Braced(t: string) {
    |t| >= 2 && t[0] == '{' && t[|t| - 1] == '}'
  }

  /** A '}' at `e` followed by optional whitespace and a closing fence. */
  predicate ClosesObject(s: string, e: nat) {
    e < |s| && s[e] == '}' && OccursAt(s, "```", SpaceRunEnd(s, e + 1))
  }

  /** The lazy body: the first closing '}' at or after `i`. */
  function ObjectClose(s: string, i: nat): (r: Option<nat>)
    ensures r.Some? ==> i <= r.value && ClosesObject(s, r.value)
    ensures r.Some? ==> forall e :: i <= e < r.value ==> !ClosesObject(s, e)
    ensures r.None? ==> forall e :: i <= e ==> !ClosesObject(s, e)
    decreases |s| - i
  {
    if i >= |s| then None
    else if ClosesObject(s, i) then Some(i)
    else ObjectClose(s, i + 1)
  }

  /**
   * Where the group may start for a match at `p`: after the fence, after the
   * "json" tag when one follows (the empty alternative cannot then succeed,
   * since 'j' is neither whitespace nor '{'), and after any whitespace.
   */
  function ObjectStart(s: string, p: nat): nat {
    SpaceRunEnd(s, if OccursAt(s, "json", p + 3) then p + 7 else p + 3)
  }

  /** The group of a match starting at `p`, if the pattern matches there. */
  function ObjectFenceAt(s: string, p: nat): (r: Option<string>)
    ensures r.Some? ==> OccursAt(s, "```", p)
    ensures r.Some? ==> Braced(r.value)
  {
    if !OccursAt(s, "```", p) then None
    else
      var w := ObjectStart(s, p);
      if w < |s| && s[w] == '{' then
        match ObjectClose(s, w + 1)
        case Some(e) => Some(s[w..e + 1])
        case None => None
      else None
  }

  /** `re.search`: the group of the leftmost match at or after `p`. */
  function ObjectFence(s: string, p: nat): (r: Option<string>)
    ensures r.None? <==> forall q :: p <= q <= |s| ==> ObjectFenceAt(s, q).None?
    ensures r.Some? ==> Braced(r.value)
    ensures r.Some? ==> exists q :: p <= q <= |s| && r == ObjectFenceAt(s, q)
                                    && forall q' :: p <= q' < q ==> ObjectFenceAt(s, q').None?
  {
    match ObjectFenceFrom(s, p)
    case Some(q) => ObjectFenceAt(s, q)
    case None => None
  }

  /** Where the leftmost match at or after `p` starts. */
  function ObjectFenceFrom(s: string, p: nat): (r: Option<nat>)
    ensures r.Some? ==> p <= r.value <= |s| && ObjectFenceAt(s, r.value).Some?
    ensures r.Some? ==> forall q :: p <= q < r.value ==> ObjectFenceAt(s, q).None?
    ensures r.None? ==> forall q :: p <= q <= |s| ==> ObjectFenceAt(s, q).None?
    decreases |s| + 1 - p
  {
    if p > |s| then None
    else if ObjectFenceAt(s, p).Some? then Some(p)
    else ObjectFenceFrom(s, p + 1)
  }

  /** The text the executive adapters decode. */
  function ObjectTarget(content: string): (r: string)
    ensures ObjectFence(content, 0).None? ==> r == content
    ensures ObjectFence(content, 0).Some? ==> Braced(r) && Some(r) == ObjectFence(content, 0)
  {
    match ObjectFence(content, 0)
    case Some(g) => g
    case None => content
  }

  /** A reply without three backticks in a row is decoded unchanged. */
  lemma UnfencedObjectTarget(content: string)
    requires !Contains(content, "```")
    ensures ObjectTarget(content) == content
  {
    forall q | 0 <= q <= |content|
      ensures ObjectFenceAt(content, q).None?
    {
      assert !OccursAt(content, "```", q);
    }
  }

  predicate NoBacktick(s: string) {
    forall j :: 0 <= j < |s| ==> s[j] != '`'
  }

  /**
   * A reply that is exactly a "```json" block around an object without
   * backticks is decoded as that object.
   */
  lemma FencedObjectTarget(obj: string)
    requires |obj| >= 2 && obj[0] == '{' && obj[|obj| - 1] == '}' && NoBacktick(obj)
    ensures ObjectTarget("```json\n" + obj + "\n```") == obj
  {
    var s := "```json\n" + obj + "\n```";
    FencedObjectShape(obj);
    FencedObjectClose(obj);
    assert s[8..8 + |obj|] == obj;
  }

  lemma FencedObjectShape(obj: string)
    requires |obj| >= 2 && obj[0] == '{'
    ensures var s := "```json\n" + obj + "\n```";
      OccursAt(s, "```", 0) && ObjectStart(s, 0) == 8 && s[8] == '{'
  {
    var s := "```json\n" + obj + "\n```";
    assert s[0..3] == "```";
    assert s[3..7] == "json";
    assert IsSpace(s[7]) && s[8] == obj[0];
  }

  lemma FencedObjectClose(obj: string)
    requires |obj| >= 2 && obj[|obj| - 1] == '}' && NoBacktick(obj)
    ensures ObjectClose("```json\n" + obj + "\n```", 9) == Some(8 + |obj| - 1)
  {
    FenceClosesAtLast(obj);
    NoEarlierClose(obj);
  }

  lemma FenceClosesAtLast(obj: string)
    requires |obj| >= 2 && obj[|obj| - 1] == '}'
    ensures ClosesObject("```json\n" + obj + "\n```", 8 + |obj| - 1)
  {
    var s := "```json\n" + obj + "\n```";
    var last := 8 + |obj| - 1;
    assert s[last] == '}';
    assert IsSpace(s[last + 1]) && !IsSpace(s[last + 2]);
    assert s[last + 2..last + 5] == "```";
  }

  /** No '}' inside the object is followed by a fence, since the object has no backtick. */
  lemma NoEarlierClose(obj: string)
    requires |obj| >= 2 && obj[|obj| - 1] == '}' && NoBacktick(obj)
    ensures forall e :: 9 <= e < 8 + |obj| - 1 ==> !ClosesObject("```json\n" + obj + "\n```", e)
  {
    var s := "```json\n" + obj + "\n```";
    var last := 8 + |obj| - 1;
    forall e | 9 <= e < last
      ensures !ClosesObject(s, e)
    {
      var f := SpaceRunEnd(s, e + 1);
      assert f <= last by {
        assert !IsSpace(s[last]);
      }
      assert s[f] == obj[f - 8];
      NotOccursAt(s, "```", f);
    }
  }

  // ---------------------------------------------------------------------------
  // Incident fence: <open>\s*\n(.*?)\n```
  // ---------------------------------------------------------------------------

  /**
   * The group for a newline chosen among the positions a <= k < j, trying the
   * last one first as the greedy `\s*` backtracks: the text after that
   * newline up to the first following "\n```".
   */
  function BodyAfterNewline(s: string, a: nat, j: nat): (r: Option<string>)
    requires a <= j <= |s|
    ensures r.Some? ==> exists k, q :: a <= k < j && s[k] == '\n' && k + 1 <= q <= |s| && r.value == s[k + 1..q]
                                        && OccursAt(s, "\n```", q)
    ensures (forall k :: a <= k < j ==> s[k] != '\n') ==> r.None?
    decreases j
  {
    if j <= a then None
    else if s[j - 1] == '\n' then
      match FirstOccurrence(s, "\n```", j)
      case Some(q) => Some(s[j..q])
      case None => BodyAfterNewline(s, a, j - 1)
    else BodyAfterNewline(s, a, j - 1)
  }

  /** The group of a match of the pattern opening with `open` at `p`. */
  function FenceBodyAt(s: string, open: string, p: nat): Option<string> {
    if !OccursAt(s, open, p) then None
    else BodyAfterNewline(s, p + |open|, SpaceRunEnd(s, p + |open|))
  }

  /** `re.search`: the group of the leftmost match at or after `p`. */
  function FenceBody(s: string, open: string, p: nat): (r: Option<string>)
    ensures r.None? <==> forall q :: p <= q <= |s| ==> FenceBodyAt(s, open, q).None?
    ensures r.Some? ==> exists q :: p <= q <= |s| && r == FenceBodyAt(s, open, q)
                                    && forall q' :: p <= q' < q ==> FenceBodyAt(s, open, q').None?
    decreases |s| - p
  {
    if p > |s| then None
    else if FenceBodyAt(s, open, p).Some? then FenceBodyAt(s, open, p)
    else FenceBody(s, open, p + 1)
  }

  /**
   * The text the incident adapters decode: None when the reply has a fence
   * the pattern cannot match (the AttributeError the adapters report as
   * invalid JSON).
   */
  function IncidentTarget(content: string): (r: Option<string>)
    ensures !Contains(content, "```") ==> r == Some(content)
    ensures Contains(content, "```json") ==> r == FenceBody(content, "```json", 0)
    ensures Contains(content, "```") && !Contains(content, "```json") ==> r == FenceBody(content, "```", 0)
  {
    if Contains(content, "```json") then
      FenceInFencePrefix(content);
      FenceBody(content, "```json", 0)
    else if Contains(content, "```") then FenceBody(content, "```", 0)
    else Some(content)
  }

  lemma FenceInFencePrefix(s: string)
    requires Contains(s, "```json")
    ensures Contains(s, "```")
  {
    var i :| 0 <= i <= |s| && OccursAt(s, "```json", i);
    assert s[i..i + 3] == s[i..i + 7][..3];
    assert OccursAt(s, "```", i);
  }

  predicate NoNewline(s: string) {
    forall j :: 0 <= j < |s| ==> s[j] != '\n'
  }

  /** A fenced reply written on one line cannot match: the adapter fails. */
  lemma OneLineFenceRejected(content: string)
    requires Contains(content, "```") && NoNewline(content)
    ensures IncidentTarget(content).None?
  {
    forall open: string, q | 0 <= q <= |content|
      ensures FenceBodyAt(content, open, q).None?
    {
      if OccursAt(content, open, q) {
        var w := SpaceRunEnd(content, q + |open|);
        assert BodyAfterNewline(content, q + |open|, w).None?;
      }
    }
    assert FenceBody(content, "```json", 0).None?;
    assert FenceBody(content, "```", 0).None?;
  }

  /**
   * A reply that is exactly a "```json" block on its own lines, around a body
   * that starts with a non-space character and has no backticks, is decoded
   * as that body.
   */
  lemma FencedIncidentTarget(body: string)
    requires |body| > 0 && !IsSpace(body[0]) && NoBacktick(body)
    ensures IncidentTarget("```json\n" + body + "\n```") == Some(body)
  {
    var s := "```json\n" + body + "\n```";
    IncidentFenceOpens(body);
    IncidentFenceCloses(body);
    assert BodyAfterNewline(s, 7, 8) == Some(s[8..8 + |body|]);
    assert FenceBodyAt(s, "```json", 0) == Some(s[8..8 + |body|]);
    assert s[8..8 + |body|] == body;
  }

  lemma IncidentFenceOpens(body: string)
    requires |body| > 0 && !IsSpace(body[0])
    ensures var s := "```json\n" + body + "\n```";
      OccursAt(s, "```json", 0) && Contains(s, "```json") && SpaceRunEnd(s, 7) == 8 && s[7] == '\n'
  {
    var s := "```json\n" + body + "\n```";
    assert s[0..7] == "```json";
    assert OccursAt(s, "```json", 0);
    assert IsSpace(s[7]) && s[8] == body[0];
  }

  lemma IncidentFenceCloses(body: string)
    requires |body| > 0 && NoBacktick(body)
    ensures FirstOccurrence("```json\n" + body + "\n```", "\n```", 8) == Some(8 + |body|)
  {
    var s := "```json\n" + body + "\n```";
    var q := 8 + |body|;
    assert s[q..q + 4] == "\n```";
    assert OccursAt(s, "\n```", q);
    forall k | 8 <= k < q
      ensures !OccursAt(s, "\n```", k)
    {
      NoTicksAfter(body, k);
    }
    var r := FirstOccurrence(s, "\n```", 8);
    assert r.Some?;
    assert !(r.value > q);
    assert !(r.value < q);
  }

  lemma NoTicksAfter(body: string, k: nat)
    requires NoBacktick(body) && 8 <= k < 8 + |body|
    ensures !OccursAt("```json\n" + body + "\n```", "\n```", k)
  {
    var s := "```json\n" + body + "\n```";
    assert s[k + 1] != '`' by {
      if k + 1 < 8 + |body| {
        assert s[k + 1] == body[k + 1 - 8];
      } else {
        assert s[k + 1] == '\n';
      }
    }
    if k + 4 <= |s| {
      assert s[k..k + 4][1] == s[k + 1];
    }
  }
}
