/**
 * "The first one that works": the search every fallback chain and keyword
 * table of the backend performs, over a sequence in its fixed order.
 */
module Chain {
  import opened Base

  /** The index of the first element accepted by `ok`, or None when none is. */
  function FirstWhere<T>(xs: seq<T>, ok: T -> bool): (r: Option<nat>)
    ensures r.Some? ==> r.value < |xs| && ok(xs[r.value])
    ensures r.Some? ==> forall k :: 0 <= k < r.value ==> !ok(xs[k])
    ensures r.None? <==> forall k :: 0 <= k < |xs| ==> !ok(xs[k])
  {
    if |xs| == 0 then None
    else if ok(xs[0]) then Some(0)
    else
      var rest := FirstWhere(xs[1..], ok);
      if rest.None? then
        assert forall k :: 1 <= k < |xs| ==> xs[k] == xs[1..][k - 1];
        None
      else
        assert forall k :: 1 <= k <= rest.value ==> xs[k] == xs[1..][k - 1];
        Some(rest.value + 1)
  }

  /**
   * Calling providers in order until one's reply is accepted: the index of
   * the accepted reply, if any, and how many providers were called. A
   * provider whose call failed is `None`.
   */
  datatype Trial = Trial(winner: Option<nat>, called: nat)

  /** A provider's reply that came back and passed the check. */
  predicate Accepts<C>(reply: Option<C>, accept: C -> bool) {
    reply.Some? && accept(reply.value)
  }

  function TryInOrder<C>(replies: seq<Option<C>>, accept: C -> bool): (r: Trial)
    ensures r.called <= |replies|
    ensures r.winner.Some? ==> r.winner.value < |replies| && r.called == r.winner.value + 1
                               && replies[r.winner.value].Some? && accept(replies[r.winner.value].value)
    ensures r.winner.None? ==> r.called == |replies|
    ensures forall k :: 0 <= k < r.called && Some(k) != r.winner ==> replies[k].None? || !accept(replies[k].value)
    ensures r.winner.None? <==> forall k :: 0 <= k < |replies| ==> !Accepts(replies[k], accept)
  {
    match FirstWhere(replies, (c: Option<C>) => c.Some? && accept(c.value))
    case Some(i) => Trial(Some(i), i + 1)
    case None => Trial(None, |replies|)
  }

  /**
   * With two providers: the first wins exactly when its reply is accepted,
   * the second exactly when the first's is not and its own is, and neither
   * exactly when both are rejected.
   */
  lemma FirstOfTwo<C>(a: Option<C>, b: Option<C>, accept: C -> bool)
    ensures var t := TryInOrder([a, b], accept);
      (t.winner == Some(0) <==> Accepts(a, accept))
      && (t.winner == Some(1) <==> !Accepts(a, accept) && Accepts(b, accept))
      && (t.winner.None? <==> !Accepts(a, accept) && !Accepts(b, accept))
      && (t.called == 1 <==> Accepts(a, accept))
  {
    var replies := [a, b];
    var t := TryInOrder(replies, accept);
    assert replies[0] == a && replies[1] == b;
  }
}
