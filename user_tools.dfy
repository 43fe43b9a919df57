/**
 * The user-scoped `todoTools` the chat assistant calls. Every tool first authenticates
 * (`auth` is the user `needAuth()` yields, or None when it fails) and then reads and writes
 * only documents whose `userId` is the caller's. As for the unscoped tools, each tool's
 * effect is an outcome predicate, and each method is proved to reach it.
 */
module UserTools {
  import opened Common
  import opened Text
  import opened TodoModel
  import opened CommandUtils

  const Unauthorized := "Unauthorized"

  function DoneWord(completed: bool): string
  {
    if completed then "done" else "not done"
  }

  /**
   * `Todo.find({ userId }).sort({ createdAt: fromEnd ? -1 : 1 }).limit(1)`: the caller's
   * todo of smallest `createdAt` (largest when `fromEnd`), or None when they have none.
   */
  function EndTodo(ts: seq<Todo>, user: UserId, fromEnd: bool): (r: Option<Todo>)
    ensures r.None? <==> forall t :: t in ts ==> t.userId != Some(user)
    ensures r.Some? ==> r.value in ts && r.value.userId == Some(user)
    ensures r.Some? ==> forall t :: t in ts && t.userId == Some(user) ==> InOrder(r.value, t, fromEnd)
  {
    var mine := OwnedBy(ts, user);
    if mine == [] then None
    else
      FirstIsExtreme(mine, fromEnd);
      Some(SortByCreatedAt(mine, fromEnd)[0])
  }

  /**
   * `Todo.find({ userId, completed: false }).sort(...).limit(count)`: the first
   * `LimitCount(count, n)` of the caller's `n` incomplete todos in `createdAt` order,
   * descending only when `fromEnd` is present and true.
   */
  function Selected(ts: seq<Todo>, user: UserId, count: int, fromEnd: Option<bool>): (r: seq<Todo>)
    ensures |r| == LimitCount(count, |IncompleteOwnedBy(ts, user)|)
    ensures count > 0 ==> |r| <= count
    ensures forall t :: t in r ==> t in ts && t.userId == Some(user) && !t.completed
    ensures forall x, y ::
      (x in r && y in ts && y.userId == Some(user) && !y.completed && y !in r) ==> InOrder(x, y, fromEnd == Some(true))
  {
    var eligible := IncompleteOwnedBy(ts, user);
    QuerySelects(eligible, fromEnd == Some(true), count);
    Query(eligible, fromEnd == Some(true), count)
  }

  /** addTodo: one incomplete todo of the caller is appended, with no check for duplicates. */
  predicate AddOutcome(before: seq<Todo>, after: seq<Todo>, id: nat, auth: Option<UserId>, text: string, now: int, res: ToolResult)
  {
    match auth
    case None => after == before && res == Failure(Unauthorized)
    case Some(user) =>
      after == before + [Todo(id, Some(user), text, false, now)]
      && res == Success("Added: " + Quoted(text), None)
  }

  /** markTodoAsCompletedOrIncomplete: the fuzzy match gets `completed`, or nothing changes. */
  predicate MarkOutcome(before: seq<Todo>, after: seq<Todo>, auth: Option<UserId>, search: (seq<Todo>, string) -> seq<Todo>,
                        todoText: string, completed: bool, res: ToolResult)
    requires HitsFromList(search)
  {
    match FuzzyMatchSingleTodo(before, auth, todoText, search)
    case None => after == before && res == Failure(TodoNotFound)
    case Some(t) =>
      after == SetCompleted(before, {t.id}, completed)
      && res == Success("Marked " + Quoted(t.text) + " as " + DoneWord(completed), None)
  }

  /** markFirstOrLastTodoAsCompletedOrIncomplete. */
  predicate MarkEndOutcome(before: seq<Todo>, after: seq<Todo>, auth: Option<UserId>, completed: bool, fromEnd: bool, res: ToolResult)
  {
    match auth
    case None => after == before && res == Failure(Unauthorized)
    case Some(user) =>
      match EndTodo(before, user, fromEnd)
      case None => after == before && res == Failure(NoTodosFound)
      case Some(t) =>
        after == SetCompleted(before, {t.id}, completed)
        && res == Success("Marked " + Quoted(t.text) + " as " + DoneWord(completed), None)
  }

  /** deleteTodo: the fuzzy match is removed, or nothing changes. */
  predicate DeleteOutcome(before: seq<Todo>, after: seq<Todo>, auth: Option<UserId>, search: (seq<Todo>, string) -> seq<Todo>,
                          todoText: string, res: ToolResult)
    requires HitsFromList(search)
  {
    match FuzzyMatchSingleTodo(before, auth, todoText, search)
    case None => after == before && res == Failure(TodoNotFound)
    case Some(t) => after == WithoutId(before, t.id) && res == Success("Deleted " + Quoted(t.text), None)
  }

  /**
   * deleteFirstOrLastTodo. The query selects `_id` only, so the text the message
   * interpolates is `undefined`.
   */
  predicate DeleteEndOutcome(before: seq<Todo>, after: seq<Todo>, auth: Option<UserId>, fromEnd: bool, res: ToolResult)
  {
    match auth
    case None => after == before && res == Failure(Unauthorized)
    case Some(user) =>
      match EndTodo(before, user, fromEnd)
      case None => after == before && res == Failure(NoTodosFound)
      case Some(t) => after == WithoutId(before, t.id) && res == Success("Deleted " + Quoted("undefined"), None)
  }

  /** clearAllTodos (`deleteMany({ userId })`): succeeds even when the caller has no todos. */
  predicate ClearOutcome(before: seq<Todo>, after: seq<Todo>, auth: Option<UserId>, res: ToolResult)
  {
    match auth
    case None => after == before && res == Failure(Unauthorized)
    case Some(user) => after == NotOwnedBy(before, user) && res == Success("All todos cleared", None)
  }

  /** markMultipleTodosAsDone (`updateMany` on the selected ids). */
  predicate MarkMultipleOutcome(before: seq<Todo>, after: seq<Todo>, auth: Option<UserId>, count: int, fromEnd: Option<bool>, res: ToolResult)
  {
    match auth
    case None => after == before && res == Failure(Unauthorized)
    case Some(user) =>
      var selected := Selected(before, user, count, fromEnd);
      if selected == [] then after == before && res == Failure(NoTodosFound)
      else
        after == SetCompleted(before, Ids(selected), true)
        && res == Success("Marked " + DecimalString(|selected|) + " todos as done", Some(|selected|))
  }

  /**
   * addTodo (`Todo.create`). A text the schema's `required` check rejects (the empty
   * string) makes `create` throw; that path is outside the model.
   */
  method AddTodo(db: TodoCollection, auth: Option<UserId>, text: string, now: int) returns (res: ToolResult)
    requires db.Valid() && (auth.Some? ==> text != "")
    modifies db
    ensures db.Valid()
    ensures AddOutcome(old(db.todos), db.todos, old(db.nextId), auth, text, now, res)
  {
    if auth.None? {
      return Failure(Unauthorized);
    }
    var t := db.Create(auth, text, now);
    res := Success("Added: " + Quoted(text), None);
  }

  method MarkTodoAsCompletedOrIncomplete(db: TodoCollection, auth: Option<UserId>, search: (seq<Todo>, string) -> seq<Todo>,
                                         todoText: string, toMarkAsCompleted: bool) returns (res: ToolResult)
    requires db.Valid() && HitsFromList(search)
    modifies db
    ensures db.Valid()
    ensures MarkOutcome(old(db.todos), db.todos, auth, search, todoText, toMarkAsCompleted, res)
  {
    var matched := FuzzyMatchSingleTodo(db.todos, auth, todoText, search);
    if matched.None? {
      return Failure(TodoNotFound);
    }
    db.UpdateCompleted({matched.value.id}, toMarkAsCompleted);
    res := Success("Marked " + Quoted(matched.value.text) + " as " + DoneWord(toMarkAsCompleted), None);
  }

  method MarkFirstOrLastTodoAsCompletedOrIncomplete(db: TodoCollection, auth: Option<UserId>,
                                                    toMarkAsCompleted: bool, fromEnd: bool) returns (res: ToolResult)
    requires db.Valid()
    modifies db
    ensures db.Valid()
    ensures MarkEndOutcome(old(db.todos), db.todos, auth, toMarkAsCompleted, fromEnd, res)
  {
    if auth.None? {
      return Failure(Unauthorized);
    }
    var picked := EndTodo(db.todos, auth.value, fromEnd);
    if picked.None? {
      return Failure(NoTodosFound);
    }
    db.UpdateCompleted({picked.value.id}, toMarkAsCompleted);
    res := Success("Marked " + Quoted(picked.value.text) + " as " + DoneWord(toMarkAsCompleted), None);
  }

  method DeleteTodo(db: TodoCollection, auth: Option<UserId>, search: (seq<Todo>, string) -> seq<Todo>,
                    todoText: string) returns (res: ToolResult)
    requires db.Valid() && HitsFromList(search)
    modifies db
    ensures db.Valid()
    ensures DeleteOutcome(old(db.todos), db.todos, auth, search, todoText, res)
  {
    var matched := FuzzyMatchSingleTodo(db.todos, auth, todoText, search);
    if matched.None? {
      return Failure(TodoNotFound);
    }
    db.DeleteById(matched.value.id);
    res := Success("Deleted " + Quoted(matched.value.text), None);
  }

  method DeleteFirstOrLastTodo(db: TodoCollection, auth: Option<UserId>, fromEnd: bool) returns (res: ToolResult)
    requires db.Valid()
    modifies db
    ensures db.Valid()
    ensures DeleteEndOutcome(old(db.todos), db.todos, auth, fromEnd, res)
  {
    if auth.None? {
      return Failure(Unauthorized);
    }
    var picked := EndTodo(db.todos, auth.value, fromEnd);
    if picked.None? {
      return Failure(NoTodosFound);
    }
    db.DeleteById(picked.value.id);
    res := Success("Deleted " + Quoted("undefined"), None);
  }

  method ClearAllTodos(db: TodoCollection, auth: Option<UserId>) returns (res: ToolResult)
    requires db.Valid()
    modifies db
    ensures db.Valid()
    ensures ClearOutcome(old(db.todos), db.todos, auth, res)
  {
    if auth.None? {
      return Failure(Unauthorized);
    }
    db.DeleteOwnedBy(auth.value);
    res := Success("All todos cleared", None);
  }

  method MarkMultipleTodosAsDone(db: TodoCollection, auth: Option<UserId>, count: int, fromEnd: Option<bool>) returns (res: ToolResult)
    requires db.Valid()
    modifies db
    ensures db.Valid()
    ensures MarkMultipleOutcome(old(db.todos), db.todos, auth, count, fromEnd, res)
  {
    if auth.None? {
      return Failure(Unauthorized);
    }
    var selected := Selected(db.todos, auth.value, count, fromEnd);
    if |selected| == 0 {
      return Failure(NoTodosFound);
    }
    db.UpdateCompleted(Ids(selected), true);
    res := Success("Marked " + DecimalString(|selected|) + " todos as done", Some(|selected|));
  }

  /** The only todo with a given id is the one found under it. */
  lemma IdOwner(ts: seq<Todo>, t: Todo, user: UserId)
    requires UniqueIds(ts) && t in ts && t.userId == Some(user)
    ensures forall u :: u in ts && u.id in {t.id} ==> u.userId == Some(user)
  {
    forall u | u in ts && u.id in {t.id} ensures u.userId == Some(user) {
      var i :| 0 <= i < |ts| && ts[i] == u;
      var j :| 0 <= j < |ts| && ts[j] == t;
      assert i == j;
    }
  }

  /** Every selected id is one of the caller's. */
  lemma SelectedOwner(ts: seq<Todo>, user: UserId, count: int, fromEnd: Option<bool>)
    requires UniqueIds(ts)
    ensures forall u :: u in ts && u.id in Ids(Selected(ts, user, count, fromEnd)) ==> u.userId == Some(user)
  {
    var selected := Selected(ts, user, count, fromEnd);
    forall u | u in ts && u.id in Ids(selected) ensures u.userId == Some(user) {
      var t :| t in selected && t.id == u.id;
      IdOwner(ts, t, user);
    }
  }

  /**
   * Without a signed-in user nothing is written: the tools that search answer
   * 'Todo not found' (the failed authentication surfaces as no match), the others 'Unauthorized'.
   */
  lemma UnauthorizedWritesNothing(before: seq<Todo>, after: seq<Todo>, id: nat, search: (seq<Todo>, string) -> seq<Todo>,
                                  text: string, completed: bool, fromEnd: bool, count: int, fromEndOption: Option<bool>, now: int, res: ToolResult)
    requires HitsFromList(search)
    ensures AddOutcome(before, after, id, None, text, now, res) ==> after == before && res == Failure(Unauthorized)
    ensures MarkOutcome(before, after, None, search, text, completed, res) ==> after == before && res == Failure(TodoNotFound)
    ensures MarkEndOutcome(before, after, None, completed, fromEnd, res) ==> after == before && res == Failure(Unauthorized)
    ensures DeleteOutcome(before, after, None, search, text, res) ==> after == before && res == Failure(TodoNotFound)
    ensures DeleteEndOutcome(before, after, None, fromEnd, res) ==> after == before && res == Failure(Unauthorized)
    ensures ClearOutcome(before, after, None, res) ==> after == before && res == Failure(Unauthorized)
    ensures MarkMultipleOutcome(before, after, None, count, fromEndOption, res) ==> after == before && res == Failure(Unauthorized)
  {
  }

  /** addTodo leaves every document not owned by the caller as it was, in order. */
  lemma AddKeepsOthers(before: seq<Todo>, after: seq<Todo>, id: nat, user: UserId, text: string, now: int, res: ToolResult)
    requires AddOutcome(before, after, id, Some(user), text, now, res)
    ensures NotOwnedBy(after, user) == NotOwnedBy(before, user)
    ensures OwnedBy(after, user) == OwnedBy(before, user) + [Todo(id, Some(user), text, false, now)]
  {
    AppendKeepsOthers(before, Todo(id, Some(user), text, false, now), user);
  }

  /** markTodoAsCompletedOrIncomplete leaves every document not owned by the caller as it was. */
  lemma MarkKeepsOthers(before: seq<Todo>, after: seq<Todo>, user: UserId, search: (seq<Todo>, string) -> seq<Todo>,
                        todoText: string, completed: bool, res: ToolResult)
    requires HitsFromList(search) && UniqueIds(before)
    requires MarkOutcome(before, after, Some(user), search, todoText, completed, res)
    ensures NotOwnedBy(after, user) == NotOwnedBy(before, user)
  {
    var matched := FuzzyMatchSingleTodo(before, Some(user), todoText, search);
    if matched.Some? {
      IdOwner(before, matched.value, user);
      SetCompletedKeepsOthers(before, {matched.value.id}, completed, user);
    }
  }

  /** markFirstOrLast leaves every document not owned by the caller as it was. */
  lemma MarkEndKeepsOthers(before: seq<Todo>, after: seq<Todo>, user: UserId, completed: bool, fromEnd: bool, res: ToolResult)
    requires UniqueIds(before) && MarkEndOutcome(before, after, Some(user), completed, fromEnd, res)
    ensures NotOwnedBy(after, user) == NotOwnedBy(before, user)
  {
    var picked := EndTodo(before, user, fromEnd);
    if picked.Some? {
      IdOwner(before, picked.value, user);
      SetCompletedKeepsOthers(before, {picked.value.id}, completed, user);
    }
  }

  /** deleteTodo leaves every document not owned by the caller as it was. */
  lemma DeleteKeepsOthers(before: seq<Todo>, after: seq<Todo>, user: UserId, search: (seq<Todo>, string) -> seq<Todo>,
                          todoText: string, res: ToolResult)
    requires HitsFromList(search) && UniqueIds(before)
    requires DeleteOutcome(before, after, Some(user), search, todoText, res)
    ensures NotOwnedBy(after, user) == NotOwnedBy(before, user)
  {
    var matched := FuzzyMatchSingleTodo(before, Some(user), todoText, search);
    if matched.Some? {
      IdOwner(before, matched.value, user);
      WithoutIdKeepsOthers(before, matched.value.id, user);
    }
  }

  /** deleteFirstOrLastTodo leaves every document not owned by the caller as it was. */
  lemma DeleteEndKeepsOthers(before: seq<Todo>, after: seq<Todo>, user: UserId, fromEnd: bool, res: ToolResult)
    requires UniqueIds(before) && DeleteEndOutcome(before, after, Some(user), fromEnd, res)
    ensures NotOwnedBy(after, user) == NotOwnedBy(before, user)
  {
    var picked := EndTodo(before, user, fromEnd);
    if picked.Some? {
      IdOwner(before, picked.value, user);
      WithoutIdKeepsOthers(before, picked.value.id, user);
    }
  }

  /**
   * clearAllTodos removes all and only the caller's todos, and a second call succeeds
   * again and changes nothing.
   */
  lemma ClearRemovesOwnOnly(before: seq<Todo>, middle: seq<Todo>, after: seq<Todo>, user: UserId, res1: ToolResult, res2: ToolResult)
    requires ClearOutcome(before, middle, Some(user), res1) && ClearOutcome(middle, after, Some(user), res2)
    ensures OwnedBy(middle, user) == [] && NotOwnedBy(middle, user) == NotOwnedBy(before, user)
    ensures res1.Success? && res2.Success? && after == middle
  {
    ClearOwned(before, user);
  }

  /** markMultipleTodosAsDone leaves every document not owned by the caller as it was. */
  lemma MarkMultipleKeepsOthers(before: seq<Todo>, after: seq<Todo>, user: UserId, count: int, fromEnd: Option<bool>, res: ToolResult)
    requires UniqueIds(before) && MarkMultipleOutcome(before, after, Some(user), count, fromEnd, res)
    ensures NotOwnedBy(after, user) == NotOwnedBy(before, user)
  {
    var selected := Selected(before, user, count, fromEnd);
    if selected != [] {
      SelectedOwner(before, user, count, fromEnd);
      SetCompletedKeepsOthers(before, Ids(selected), true, user);
    }
  }

  /** Re-marking a todo with the value it already has succeeds and changes nothing. */
  lemma MarkSameValueIsNoOp(before: seq<Todo>, after: seq<Todo>, auth: Option<UserId>, search: (seq<Todo>, string) -> seq<Todo>,
                            todoText: string, completed: bool, res: ToolResult)
    requires HitsFromList(search) && UniqueIds(before)
    requires MarkOutcome(before, after, auth, search, todoText, completed, res)
    requires FuzzyMatchSingleTodo(before, auth, todoText, search).Some?
    requires FuzzyMatchSingleTodo(before, auth, todoText, search).value.completed == completed
    ensures res.Success? && after == before
  {
    var t := FuzzyMatchSingleTodo(before, auth, todoText, search).value;
    forall u | u in before && u.id in {t.id} ensures u.completed == completed {
      var i :| 0 <= i < |before| && before[i] == u;
      var j :| 0 <= j < |before| && before[j] == t;
      assert i == j;
    }
    SetCompletedNoOp(before, {t.id}, completed);
  }

  /**
   * With unique ids, deleteTodo and deleteFirstOrLastTodo each remove exactly one todo,
   * the match or the caller's earliest (latest) one, and keep all others.
   */
  lemma DeleteRemovesOne(before: seq<Todo>, after: seq<Todo>, removed: Todo)
    requires UniqueIds(before) && removed in before && after == WithoutId(before, removed.id)
    ensures |after| == |before| - 1 && removed !in after
    ensures forall t :: t in before && t != removed ==> t in after
  {
    WithoutIdRemovesOne(before, removed.id);
    forall t | t in before && t != removed ensures t in after {
      var i :| 0 <= i < |before| && before[i] == t;
      var j :| 0 <= j < |before| && before[j] == removed;
      assert i != j;
    }
  }

  lemma DeleteMatchRemovesOne(before: seq<Todo>, after: seq<Todo>, auth: Option<UserId>, search: (seq<Todo>, string) -> seq<Todo>,
                              todoText: string, res: ToolResult)
    requires HitsFromList(search) && UniqueIds(before)
    requires DeleteOutcome(before, after, auth, search, todoText, res)
    ensures res.Success? <==> FuzzyMatchSingleTodo(before, auth, todoText, search).Some?
    ensures res.Success? ==> |after| == |before| - 1
    ensures res.Success? ==> var t := FuzzyMatchSingleTodo(before, auth, todoText, search).value;
      t !in after && forall u :: u in before && u != t ==> u in after
  {
    var matched := FuzzyMatchSingleTodo(before, auth, todoText, search);
    if matched.Some? {
      DeleteRemovesOne(before, after, matched.value);
    }
  }

  lemma DeleteEndRemovesOne(before: seq<Todo>, after: seq<Todo>, user: UserId, fromEnd: bool, res: ToolResult)
    requires UniqueIds(before) && DeleteEndOutcome(before, after, Some(user), fromEnd, res)
    ensures res.Failure? <==> OwnedBy(before, user) == []
    ensures res.Success? ==> |after| == |before| - 1
    ensures res.Success? ==> exists t :: (t in before && t.userId == Some(user) && t !in after
      && (forall u :: u in before && u.userId == Some(user) ==> InOrder(t, u, fromEnd))
      && (forall u :: u in before && u != t ==> u in after))
  {
    var picked := EndTodo(before, user, fromEnd);
    if picked.Some? {
      DeleteRemovesOne(before, after, picked.value);
    }
  }

  /**
   * markMultipleTodosAsDone marks the selection and nothing else: each selected todo is now
   * done, every other document is as it was, and the reported count is the selection's size.
   */
  lemma MarkMultipleMarksSelection(before: seq<Todo>, after: seq<Todo>, user: UserId, count: int, fromEnd: Option<bool>, res: ToolResult)
    requires MarkMultipleOutcome(before, after, Some(user), count, fromEnd, res)
    ensures res.Failure? <==> Selected(before, user, count, fromEnd) == []
    ensures res.Failure? ==> after == before && res.error == NoTodosFound
    ensures res.Success? ==> res.count == Some(|Selected(before, user, count, fromEnd)|)
    ensures res.Success? && count > 0 ==> res.count.value <= count
    ensures res.Success? ==> forall k :: 0 <= k < |before| ==>
      after[k] == if before[k].id in Ids(Selected(before, user, count, fromEnd)) then before[k].(completed := true) else before[k]
  {
  }
}
