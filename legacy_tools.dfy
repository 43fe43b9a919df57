/**
 * The unscoped `todoTools` of the command endpoint: every tool reads the whole collection
 * (`Todo.find({})`) and writes it without regard to owners; todos it creates have no
 * `userId`. Each tool's effect is stated once, as an outcome predicate relating the
 * documents before and after the call and the result, and each method is proved to reach it.
 */
module LegacyTools {
  import opened Common
  import opened Text
  import opened TodoModel
  import opened Matcher

  /** `.limit(count)` with `count` absent (`undefined`) sets no limit, as a limit of 0 does. */
  function LimitArg(count: Option<int>): int
  {
    if count.None? then 0 else count.value
  }

  /** addTodo: one incomplete todo without owner is appended, with no check for duplicates. */
  predicate AddOutcome(before: seq<Todo>, after: seq<Todo>, id: nat, text: string, now: int, res: ToolResult)
  {
    after == before + [Todo(id, None, text, false, now)]
    && res == Success("Added new todo: " + Quoted(text), None)
  }

  /** markTodoAsDone / markTodoAsUndone: the matched todo gets `completed`, or nothing changes. */
  predicate MarkOutcome(before: seq<Todo>, after: seq<Todo>, todoText: string, completed: bool, res: ToolResult)
  {
    match Match(before, todoText)
    case None => after == before && res == Failure(TodoNotFound)
    case Some(k) =>
      after == SetCompleted(before, {before[k].id}, completed)
      && res == Success("Marked " + Quoted(before[k].text) + (if completed then " as done" else " as not done"), None)
  }

  /** deleteTodo: the matched todo is removed, or nothing changes. */
  predicate DeleteOutcome(before: seq<Todo>, after: seq<Todo>, todoText: string, res: ToolResult)
  {
    match Match(before, todoText)
    case None => after == before && res == Failure(TodoNotFound)
    case Some(k) =>
      after == WithoutId(before, before[k].id)
      && res == Success("Deleted todo: " + Quoted(before[k].text), None)
  }

  /** markFirstTodoAsDone (`last` false) / markLastTodoAsDone (`last` true). */
  predicate MarkEndOutcome(before: seq<Todo>, after: seq<Todo>, last: bool, res: ToolResult)
  {
    if before == [] then after == before && res == Failure(NoTodosFound)
    else
      var t := SortByCreatedAt(before, last)[0];
      after == SetCompleted(before, {t.id}, true)
      && res == Success("Marked " + (if last then "last" else "first") + " todo " + Quoted(t.text) + " as done", None)
  }

  /** markMultipleTodosAsDone: the selected todos are marked done, whatever their state. */
  predicate MarkMultipleOutcome(before: seq<Todo>, after: seq<Todo>, count: Option<int>, fromEnd: bool, res: ToolResult)
  {
    var selected := Query(before, fromEnd, LimitArg(count));
    if selected == [] then after == before && res == Failure(NoTodosFound)
    else
      after == SetCompleted(before, Ids(selected), true)
      && res == Success("Marked " + DecimalString(|selected|) + " todos as done", Some(|selected|))
  }

  /**
   * addTodo (`new Todo({ text, completed: false }).save()`). A text the schema's `required`
   * check rejects (the empty string) makes `save` throw; the caller never passes one.
   */
  method AddTodo(db: TodoCollection, text: string, now: int) returns (res: ToolResult)
    requires db.Valid() && text != ""
    modifies db
    ensures db.Valid()
    ensures AddOutcome(old(db.todos), db.todos, old(db.nextId), text, now, res)
  {
    var t := db.Create(None, text, now);
    res := Success("Added new todo: " + Quoted(text), None);
  }

  /** markTodoAsDone (`completed` true) and markTodoAsUndone (`completed` false). */
  method MarkTodo(db: TodoCollection, todoText: string, completed: bool) returns (res: ToolResult)
    requires db.Valid()
    modifies db
    ensures db.Valid()
    ensures MarkOutcome(old(db.todos), db.todos, todoText, completed, res)
  {
    var matched := Match(db.todos, todoText);
    if matched.None? {
      return Failure(TodoNotFound);
    }
    var t := db.todos[matched.value];
    db.UpdateCompleted({t.id}, completed);
    res := Success("Marked " + Quoted(t.text) + (if completed then " as done" else " as not done"), None);
  }

  /** deleteTodo (`findByIdAndDelete` on the matched todo). */
  method DeleteTodo(db: TodoCollection, todoText: string) returns (res: ToolResult)
    requires db.Valid()
    modifies db
    ensures db.Valid()
    ensures DeleteOutcome(old(db.todos), db.todos, todoText, res)
  {
    var matched := Match(db.todos, todoText);
    if matched.None? {
      return Failure(TodoNotFound);
    }
    var t := db.todos[matched.value];
    db.DeleteById(t.id);
    res := Success("Deleted todo: " + Quoted(t.text), None);
  }

  /** clearAllTodos (`deleteMany({})`): always succeeds. */
  method ClearAllTodos(db: TodoCollection) returns (res: ToolResult)
    requires db.Valid()
    modifies db
    ensures db.Valid()
    ensures db.todos == [] && res == Success("All todos cleared", None)
  {
    db.DeleteAll();
    res := Success("All todos cleared", None);
  }

  /** markFirstTodoAsDone / markLastTodoAsDone (`findOne().sort({ createdAt: ±1 })`). */
  method MarkEndTodo(db: TodoCollection, last: bool) returns (res: ToolResult)
    requires db.Valid()
    modifies db
    ensures db.Valid()
    ensures MarkEndOutcome(old(db.todos), db.todos, last, res)
  {
    if db.todos == [] {
      return Failure(NoTodosFound);
    }
    var t := SortByCreatedAt(db.todos, last)[0];
    db.UpdateCompleted({t.id}, true);
    res := Success("Marked " + (if last then "last" else "first") + " todo " + Quoted(t.text) + " as done", None);
  }

  /** markMultipleTodosAsDone: the query, then one save per selected todo. */
  method MarkMultipleTodosAsDone(db: TodoCollection, count: Option<int>, fromEnd: bool) returns (res: ToolResult)
    requires db.Valid()
    modifies db
    ensures db.Valid()
    ensures MarkMultipleOutcome(old(db.todos), db.todos, count, fromEnd, res)
  {
    var todos := Query(db.todos, fromEnd, LimitArg(count));
    if |todos| == 0 {
      return Failure(NoTodosFound);
    }
    ghost var before := db.todos;
    SetCompletedNoOp(before, {}, true);
    var i := 0;
    while i < |todos|
      invariant 0 <= i <= |todos|
      invariant db.Valid()
      invariant db.todos == SetCompleted(before, Ids(todos[..i]), true)
    {
      IdsExtend(todos, i);
      SetCompletedStep(before, Ids(todos[..i]), todos[i].id, true);
      db.UpdateCompleted({todos[i].id}, true);
      i := i + 1;
    }
    assert todos[..|todos|] == todos;
    res := Success("Marked " + DecimalString(|todos|) + " todos as done", Some(|todos|));
  }

  lemma IdsExtend(ts: seq<Todo>, i: nat)
    requires i < |ts|
    ensures Ids(ts[..i + 1]) == Ids(ts[..i]) + {ts[i].id}
  {
    assert ts[..i + 1] == ts[..i] + [ts[i]];
  }

  /**
   * With unique ids, marking by text changes the `completed` flag of the matched todo and
   * nothing else; with no todo scoring 0.5 or more it fails and changes nothing.
   */
  lemma MarkChangesOnlyMatch(before: seq<Todo>, after: seq<Todo>, todoText: string, completed: bool, res: ToolResult)
    requires UniqueIds(before) && MarkOutcome(before, after, todoText, completed, res)
    ensures |after| == |before|
    ensures res.Failure? <==> forall k :: 0 <= k < |before| ==> Sim(before[k], todoText) < Threshold
    ensures res.Failure? ==> after == before && res.error == TodoNotFound
    ensures res.Success? ==>
      var k := Match(before, todoText).value;
      after[k] == before[k].(completed := completed)
      && forall i :: 0 <= i < |before| && i != k ==> after[i] == before[i]
  {
  }

  /**
   * With unique ids, deleting by text removes exactly the matched todo; with no todo
   * scoring 0.5 or more it fails and changes nothing.
   */
  lemma DeleteRemovesOnlyMatch(before: seq<Todo>, after: seq<Todo>, todoText: string, res: ToolResult)
    requires UniqueIds(before) && DeleteOutcome(before, after, todoText, res)
    ensures res.Failure? <==> forall k :: 0 <= k < |before| ==> Sim(before[k], todoText) < Threshold
    ensures res.Failure? ==> after == before && res.error == TodoNotFound
    ensures res.Success? ==>
      var k := Match(before, todoText).value;
      |after| == |before| - 1 && before[k] !in after
      && forall t :: t in before && t != before[k] ==> t in after
  {
    var m := Match(before, todoText);
    if m.Some? {
      var k := m.value;
      assert before[k] in before;
      WithoutIdRemovesOne(before, before[k].id);
      forall t | t in before && t != before[k] ensures t in after {
        var j :| 0 <= j < |before| && before[j] == t;
        assert j != k;
      }
    }
  }

  /**
   * markFirst/LastTodoAsDone mark the stored todo of smallest (largest) `createdAt`, and
   * fail with 'No todos found' exactly on an empty collection.
   */
  lemma MarkEndPicksExtreme(before: seq<Todo>, after: seq<Todo>, last: bool, res: ToolResult)
    requires MarkEndOutcome(before, after, last, res)
    ensures res.Failure? <==> before == []
    ensures res.Failure? ==> after == before && res.error == NoTodosFound
    ensures res.Success? ==> exists t :: (t in before
      && (forall u :: u in before ==> InOrder(t, u, last))
      && after == SetCompleted(before, {t.id}, true))
  {
    if before != [] {
      FirstIsExtreme(before, last);
      var t := SortByCreatedAt(before, last)[0];
      assert t in before && after == SetCompleted(before, {t.id}, true);
    }
  }

  /**
   * The todos markMultipleTodosAsDone marks are the first `LimitCount(count, n)` of all `n`
   * in `createdAt` order (descending when `fromEnd`), and it reports that number.
   */
  lemma MarkMultipleSelection(before: seq<Todo>, after: seq<Todo>, count: Option<int>, fromEnd: bool, res: ToolResult)
    requires MarkMultipleOutcome(before, after, count, fromEnd, res)
    ensures res.Failure? <==> before == []
    ensures res.Failure? ==> after == before && res.error == NoTodosFound
    ensures res.Success? ==> res.count == Some(LimitCount(LimitArg(count), |before|))
    ensures res.Success? ==> forall k :: 0 <= k < |before| ==>
      after[k] == if before[k].id in Ids(Query(before, fromEnd, LimitArg(count))) then before[k].(completed := true) else before[k]
    ensures forall x, y :: (x in Query(before, fromEnd, LimitArg(count)) && y in before
      && y !in Query(before, fromEnd, LimitArg(count))) ==> InOrder(x, y, fromEnd)
  {
    QuerySelects(before, fromEnd, LimitArg(count));
  }
}
