/**
 * The best-match selector of the unscoped tools: a `reduce` over the stored todos that keeps
 * the todo whose lower-cased text scores highest against the lower-cased query, replacing
 * the kept one only on a strictly higher score (an empty accumulator scores 0), followed by
 * the rejection of a best score below 0.5. Todos are named by their index in the result set.
 */
module Matcher {
  import opened Common
  import opened Text
  import opened Similarity
  import opened TodoModel

  /** The minimum confidence a match must reach. */
  const Threshold: real := 0.5

  /** `calculateSimilarity(current.text.toLowerCase(), todoText.toLowerCase())`. */
  function Sim(t: Todo, query: string): real
  {
    Score(ToLower(t.text), ToLower(query))
  }

  /** The score of the accumulator: that of the kept todo, or 0 while none is kept. */
  function BestScore(ts: seq<Todo>, query: string, best: Option<nat>): real
    requires best.Some? ==> best.value < |ts|
  {
    if best.None? then 0.0 else Sim(ts[best.value], query)
  }

  /**
   * The fold from position `i` on, with `best` kept so far: no todo before `i` beats the
   * kept one, and every todo before the kept one scores strictly lower than it.
   */
  function BestFrom(ts: seq<Todo>, query: string, i: nat, best: Option<nat>): (r: Option<nat>)
    requires i <= |ts|
    requires best.Some? ==> best.value < i
    requires forall k :: 0 <= k < i ==> Sim(ts[k], query) <= BestScore(ts, query, best)
    requires best.Some? ==> forall k :: 0 <= k < best.value ==> Sim(ts[k], query) < Sim(ts[best.value], query)
    ensures r.Some? ==> r.value < |ts|
    ensures r == best || (r.Some? && BestScore(ts, query, best) < Sim(ts[r.value], query))
    ensures forall k :: 0 <= k < |ts| ==> Sim(ts[k], query) <= BestScore(ts, query, r)
    ensures r.Some? ==> forall k :: 0 <= k < r.value ==> Sim(ts[k], query) < Sim(ts[r.value], query)
    decreases |ts| - i
  {
    if i == |ts| then best
    else
      var next := if Sim(ts[i], query) > BestScore(ts, query, best) then Some(i) else best;
      BestFrom(ts, query, i + 1, next)
  }

  /**
   * `todos.reduce(..., null)`: no todo is kept exactly when every score is 0; otherwise the
   * kept todo has the highest score, and every todo before it scores strictly lower, so
   * among equal best scores the earliest wins.
   */
  function BestIndex(ts: seq<Todo>, query: string): (r: Option<nat>)
    ensures r.None? <==> forall k :: 0 <= k < |ts| ==> Sim(ts[k], query) == 0.0
    ensures r.Some? ==> r.value < |ts|
    ensures r.Some? ==> forall k :: 0 <= k < |ts| ==> Sim(ts[k], query) <= Sim(ts[r.value], query)
    ensures r.Some? ==> forall k :: 0 <= k < r.value ==> Sim(ts[k], query) < Sim(ts[r.value], query)
  {
    var r := BestFrom(ts, query, 0, None);
    forall k | 0 <= k < |ts| ensures 0.0 <= Sim(ts[k], query) {
      ScoreBounds(ToLower(ts[k].text), ToLower(query));
    }
    r
  }

  /**
   * The fold followed by the `< 0.5` rejection: no match exactly when every todo scores
   * below 0.5; a match is a todo of highest score, at least 0.5, with every earlier todo
   * scoring strictly lower.
   */
  function Match(ts: seq<Todo>, query: string): (r: Option<nat>)
    ensures r.None? <==> forall k :: 0 <= k < |ts| ==> Sim(ts[k], query) < Threshold
    ensures r.Some? ==> r.value < |ts| && Threshold <= Sim(ts[r.value], query)
    ensures r.Some? ==> forall k :: 0 <= k < |ts| ==> Sim(ts[k], query) <= Sim(ts[r.value], query)
    ensures r.Some? ==> forall k :: 0 <= k < r.value ==> Sim(ts[k], query) < Sim(ts[r.value], query)
  {
    var b := BestIndex(ts, query);
    if b.None? || Sim(ts[b.value], query) < Threshold then None else b
  }

  /** The position holds the earliest of the highest scores. */
  predicate IsEarliestBest(ts: seq<Todo>, query: string, m: nat)
  {
    m < |ts|
    && (forall k :: 0 <= k < |ts| ==> Sim(ts[k], query) <= Sim(ts[m], query))
    && (forall k :: 0 <= k < m ==> Sim(ts[k], query) < Sim(ts[m], query))
  }

  /**
   * The match is determined by the scores alone: it is the earliest position of the
   * highest score whenever that score reaches the threshold.
   */
  lemma MatchIsEarliestBest(ts: seq<Todo>, query: string, m: nat)
    requires IsEarliestBest(ts, query, m) && Threshold <= Sim(ts[m], query)
    ensures Match(ts, query) == Some(m)
  {
    var r := Match(ts, query);
    assert r.Some?;
  }

  /** A todo whose text equals the query up to ASCII case scores 1, so some todo matches. */
  lemma MatchExactText(ts: seq<Todo>, query: string, k: nat)
    requires k < |ts| && ToLower(ts[k].text) == ToLower(query)
    ensures Match(ts, query).Some?
    ensures Sim(ts[Match(ts, query).value], query) == 1.0
  {
    ScoreSelf(ToLower(query));
    var m := Match(ts, query).value;
    ScoreBounds(ToLower(ts[m].text), ToLower(query));
  }
}
