/**
 * `fuzzyMatchSingleTodo`: authenticate, read the caller's todos, run a fuzzy search over
 * their texts and keep the first hit. The search library is a parameter, `search`, of
 * which only one thing is assumed: every hit is one of the todos searched.
 */
module CommandUtils {
  import opened Common
  import opened TodoModel

  /** The contract assumed of the search: its hits are items of the list it was given. */
  ghost predicate HitsFromList(search: (seq<Todo>, string) -> seq<Todo>)
  {
    forall cs, q, k :: 0 <= k < |search(cs, q)| ==> search(cs, q)[k] in cs
  }

  /**
   * `fuzzyMatchSingleTodo(todoText)`, with `auth` the outcome of `needAuth()`: no match
   * without a signed-in user or without a hit; otherwise the first hit, which is a todo
   * of the collection owned by the caller.
   */
  function FuzzyMatchSingleTodo(todos: seq<Todo>, auth: Option<UserId>, todoText: string,
                                search: (seq<Todo>, string) -> seq<Todo>): (r: Option<Todo>)
    requires HitsFromList(search)
    ensures auth.None? ==> r.None?
    ensures auth.Some? ==> (r.None? <==> search(OwnedBy(todos, auth.value), todoText) == [])
    ensures r.Some? ==> auth.Some? && r.value in todos && r.value.userId == auth
    ensures r.Some? ==> r.value == search(OwnedBy(todos, auth.value), todoText)[0]
  {
    if auth.None? then None
    else
      var results := search(OwnedBy(todos, auth.value), todoText);
      if |results| == 0 then None else Some(results[0])
  }

  /** The match depends on the caller's own todos only. */
  lemma MatchReadsOwnTodosOnly(ts: seq<Todo>, us: seq<Todo>, user: UserId, todoText: string,
                               search: (seq<Todo>, string) -> seq<Todo>)
    requires HitsFromList(search) && OwnedBy(ts, user) == OwnedBy(us, user)
    ensures FuzzyMatchSingleTodo(ts, Some(user), todoText, search) == FuzzyMatchSingleTodo(us, Some(user), todoText, search)
  {
  }
}
