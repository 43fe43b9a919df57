/**
 * The natural-language command endpoint (`POST`): a first-match-wins keyword cascade over
 * the lower-cased command picks an intent and extracts its argument with regular-expression
 * removal, the intent is dispatched to one of the unscoped tools, and the tool's result is
 * answered as `{ result: { text }, success }` with status 200; a missing or non-string
 * command is answered 400, a body that cannot be read 500.
 */
module CommandRoute {
  import opened Common
  import opened Text
  import opened TodoModel
  import LegacyTools

  /** What the cascade decides: a tool to run with its argument, or an error message. */
  datatype Intent =
    | Add(text: string)
    | MarkDone(text: string)
    | MarkUndone(text: string)
    | Delete(text: string)
    | ClearAll
    | MarkFirstDone
    | MarkLastDone
    | MarkSeveralDone(count: nat, fromEnd: bool)
    | Rejected(error: string)

  const NoTextProvided := "No todo text provided"
  const NoTodoToMarkDone := "No todo specified to mark as done"
  const NoTodoToMarkUndone := "No todo specified to mark as undone"
  const NoTodoToDelete := "No todo specified to delete"
  const NotRecognized := "Command not recognized"

  /** `/add a todo|add todo|add/i`, removed once. */
  const AddPatterns: seq<string> := ["add a todo", "add todo", "add"]
  /** `/mark as done|mark done|mark|as done|done/gi`, removed everywhere. */
  const DonePatterns: seq<string> := ["mark as done", "mark done", "mark", "as done", "done"]
  /** `/mark as undone|mark undone|mark as not done|mark not done|undone|not done/gi`. */
  const UndonePatterns: seq<string> := ["mark as undone", "mark undone", "mark as not done", "mark not done", "undone", "not done"]
  /** `/delete todo|delete/i`, removed once. */
  const DeletePatterns: seq<string> := ["delete todo", "delete"]

  predicate IsAddCommand(lower: string)
  {
    StartsWith(lower, "add") || Contains(lower, "add a todo")
  }

  predicate IsMarkDoneCommand(lower: string)
  {
    Contains(lower, "mark") && Contains(lower, "done")
  }

  predicate IsMarkUndoneCommand(lower: string)
  {
    Contains(lower, "mark") && (Contains(lower, "undone") || Contains(lower, "not done"))
  }

  predicate IsDeleteCommand(lower: string)
  {
    Contains(lower, "delete") && !Contains(lower, "all")
  }

  predicate IsClearCommand(lower: string)
  {
    Contains(lower, "clear") || Contains(lower, "reset") || (Contains(lower, "delete") && Contains(lower, "all"))
  }

  /** Corrected delete rule: "delete" without the word "all". */
  predicate IsDeleteOneCommand(lower: string)
  {
    Contains(lower, "delete") && !ContainsWord(lower, "all")
  }

  /** Corrected clear rule: "clear", "reset", or "delete" with the word "all". */
  predicate IsClearAllCommand(lower: string)
  {
    Contains(lower, "clear") || Contains(lower, "reset") || (Contains(lower, "delete") && ContainsWord(lower, "all"))
  }

  /** The digits `/mark\s+(\d+)/` captures when it matches at the very start of `s`. */
  function CountAt(s: string): Option<string>
  {
    if !StartsWith(s, "mark") then None
    else
      var rest := s[4..];
      var afterSpace := DropWhiteSpace(rest);
      var digits := LeadingDigits(afterSpace);
      if |afterSpace| == |rest| || digits == [] then None else Some(digits)
  }

  /** `s.match(/mark\s+(\d+)/i)[1]`: the capture of the leftmost match. */
  function MarkCount(s: string): (r: Option<string>)
    ensures r.Some? ==> r.value != [] && forall i :: 0 <= i < |r.value| ==> IsDigit(r.value[i])
    ensures r.Some? ==> Contains(s, "mark")
    decreases |s|
  {
    match CountAt(s)
    case Some(digits) => Some(digits)
    case None => if s == [] then None else MarkCount(s[1..])
  }

  function AddIntent(command: string): Intent
  {
    var text := Trim(RemoveFirst(command, AddPatterns));
    if text != "" then Add(text) else Rejected(NoTextProvided)
  }

  /** The "mark ... done" branch: first, last, a count, or the text left after removal. */
  function MarkDoneIntent(command: string, lower: string): Intent
  {
    if Contains(lower, "first") then MarkFirstDone
    else if Contains(lower, "last") then MarkLastDone
    else match MarkCount(lower)
      case Some(digits) => MarkSeveralDone(DecimalValue(digits), Contains(lower, "last"))
      case None =>
        var text := Trim(RemoveAll(command, DonePatterns));
        if text != "" then MarkDone(text) else Rejected(NoTodoToMarkDone)
  }

  function MarkUndoneIntent(command: string): Intent
  {
    var text := Trim(RemoveAll(command, UndonePatterns));
    if text != "" then MarkUndone(text) else Rejected(NoTodoToMarkUndone)
  }

  function DeleteIntent(command: string): Intent
  {
    var text := Trim(RemoveFirst(command, DeletePatterns));
    if text != "" then Delete(text) else Rejected(NoTodoToDelete)
  }

  /** The values every intent carries: trimmed, non-empty texts and one of five errors. */
  predicate WellFormed(intent: Intent)
  {
    match intent
    case Add(text) => text != "" && IsTrimmed(text)
    case MarkDone(text) => text != "" && IsTrimmed(text)
    case MarkUndone(text) => text != "" && IsTrimmed(text)
    case Delete(text) => text != "" && IsTrimmed(text)
    case Rejected(error) =>
      error in {NoTextProvided, NoTodoToMarkDone, NoTodoToMarkUndone, NoTodoToDelete, NotRecognized}
    case _ => true
  }

  /**
   * The cascade as the endpoint writes it: "mark ... done" is tested before
   * "mark ... undone / not done", so every command of the second kind is caught by the first.
   */
  function ClassifyAsWritten(command: string): (r: Intent)
    ensures WellFormed(r)
    ensures IsAddCommand(ToLower(command)) <==> r.Add? || r == Rejected(NoTextProvided)
    ensures r.Add? ==> r.text == Trim(RemoveFirst(command, AddPatterns))
  {
    var lower := ToLower(command);
    if IsAddCommand(lower) then AddIntent(command)
    else if IsMarkDoneCommand(lower) then MarkDoneIntent(command, lower)
    else if IsMarkUndoneCommand(lower) then MarkUndoneIntent(command)
    else if IsDeleteCommand(lower) then DeleteIntent(command)
    else if IsClearCommand(lower) then ClearAll
    else Rejected(NotRecognized)
  }

  /**
   * The cascade with the undone test ahead of the done test, so that its branch can be
   * reached, and with "all" of the delete and clear rules read as a whole word; otherwise
   * the same rules in the same order, first match wins.
   */
  function Classify(command: string): (r: Intent)
    ensures WellFormed(r)
    ensures IsAddCommand(ToLower(command)) <==> r.Add? || r == Rejected(NoTextProvided)
    ensures r.Add? ==> r.text == Trim(RemoveFirst(command, AddPatterns))
    ensures r.MarkSeveralDone? ==> !r.fromEnd
  {
    var lower := ToLower(command);
    if IsAddCommand(lower) then AddIntent(command)
    else if IsMarkUndoneCommand(lower) then MarkUndoneIntent(command)
    else if IsMarkDoneCommand(lower) then MarkDoneIntent(command, lower)
    else if IsDeleteOneCommand(lower) then DeleteIntent(command)
    else if IsClearAllCommand(lower) then ClearAll
    else Rejected(NotRecognized)
  }

  /** "undone" and "not done" both contain "done". */
  lemma UndoneContainsDone(lower: string)
    requires Contains(lower, "undone") || Contains(lower, "not done")
    ensures Contains(lower, "done")
  {
    if Contains(lower, "undone") {
      assert "undone" == "un" + "done";
      ContainsTail(lower, "un", "done");
    } else {
      assert "not done" == "not " + "done";
      ContainsTail(lower, "not ", "done");
    }
  }

  /** As written, no command reaches the undone branch. */
  lemma UndoneUnreachableAsWritten(command: string)
    ensures !ClassifyAsWritten(command).MarkUndone? && ClassifyAsWritten(command) != Rejected(NoTodoToMarkUndone)
  {
    var lower := ToLower(command);
    if !IsAddCommand(lower) && !IsMarkDoneCommand(lower) && IsMarkUndoneCommand(lower) {
      UndoneContainsDone(lower);
    }
  }

  /**
   * As written, a "mark ... undone / not done" command goes down the done branch: it marks
   * a todo as done, or complains that no todo was named to mark as done.
   */
  lemma UndoneCommandMarksDoneAsWritten(command: string)
    requires IsMarkUndoneCommand(ToLower(command)) && !IsAddCommand(ToLower(command))
    ensures ClassifyAsWritten(command) == MarkDoneIntent(command, ToLower(command))
  {
    UndoneContainsDone(ToLower(command));
  }

  /** With the corrected order, the same commands reach the undone branch. */
  lemma UndoneCommandReachesUndone(command: string)
    requires IsMarkUndoneCommand(ToLower(command)) && !IsAddCommand(ToLower(command))
    ensures Classify(command).MarkUndone? || Classify(command) == Rejected(NoTodoToMarkUndone)
  {
  }

  /** "Command not recognized" exactly when no keyword rule applies, in both cascades. */
  lemma NotRecognizedIff(command: string)
    ensures Classify(command) == Rejected(NotRecognized) <==>
      var lower := ToLower(command);
      !IsAddCommand(lower) && !(Contains(lower, "mark") && Contains(lower, "done"))
      && !Contains(lower, "delete") && !Contains(lower, "clear") && !Contains(lower, "reset")
    ensures ClassifyAsWritten(command) == Rejected(NotRecognized) <==>
      var lower := ToLower(command);
      !IsAddCommand(lower) && !(Contains(lower, "mark") && Contains(lower, "done"))
      && !Contains(lower, "delete") && !Contains(lower, "clear") && !Contains(lower, "reset")
  {
    var lower := ToLower(command);
    if IsMarkUndoneCommand(lower) {
      UndoneContainsDone(lower);
    }
  }

  /**
   * As written, a delete command with "all" inside another word, such as
   * `delete call mom`, clears every todo.
   */
  lemma DeleteCallClearsAsWritten(command: string)
    requires var lower := ToLower(command);
      !IsAddCommand(lower) && !Contains(lower, "mark") && Contains(lower, "delete") && Contains(lower, "call")
    ensures ClassifyAsWritten(command) == ClearAll
  {
    assert "call" == "c" + "all";
    ContainsTail(ToLower(command), "c", "all");
  }

  /** Corrected, the same command deletes the one todo it names. */
  lemma DeleteCallDeletesOne(command: string)
    requires var lower := ToLower(command);
      !IsAddCommand(lower) && !Contains(lower, "mark") && Contains(lower, "delete") && !ContainsWord(lower, "all")
    ensures Classify(command) == DeleteIntent(command)
    ensures Classify(command).Delete? || Classify(command) == Rejected(NoTodoToDelete)
  {
  }

  /** Corrected and as written agree on a delete command with the word "all": both clear. */
  lemma DeleteAllWordClears(command: string)
    requires var lower := ToLower(command);
      !IsAddCommand(lower) && !Contains(lower, "mark") && Contains(lower, "delete") && ContainsWord(lower, "all")
    ensures Classify(command) == ClearAll && ClassifyAsWritten(command) == ClearAll
  {
    WordIsContained(ToLower(command), "all");
  }

  /** In the numeric branch `fromEnd` is always false: "last" was taken one branch earlier. */
  lemma FromEndNeverSet(command: string)
    ensures ClassifyAsWritten(command).MarkSeveralDone? ==> !ClassifyAsWritten(command).fromEnd
    ensures Classify(command).MarkSeveralDone? ==> !Classify(command).fromEnd
  {
  }

  /** A tool invocation: which `execute` runs, with which arguments. */
  datatype ToolCall =
    | CallAdd(text: string)
    | CallMark(text: string, completed: bool)
    | CallDelete(text: string)
    | CallClear
    | CallMarkEnd(last: bool)
    | CallMarkMultiple(count: Option<int>, fromEnd: bool)

  /**
   * The calls the branches make as written: `todoTools[6]` (markLastTodoAsDone) for "first",
   * `todoTools[7].execute()` (markMultipleTodosAsDone with neither count nor fromEnd) for
   * "last", and `todoTools[8]`, past the end of the eight tools, for a count, where reading
   * `execute` of `undefined` throws (None).
   */
  function DispatchAsWritten(intent: Intent): Option<ToolCall>
    requires !intent.Rejected?
  {
    match intent
    case Add(text) => Some(CallAdd(text))
    case MarkDone(text) => Some(CallMark(text, true))
    case MarkUndone(text) => Some(CallMark(text, false))
    case Delete(text) => Some(CallDelete(text))
    case ClearAll => Some(CallClear)
    case MarkFirstDone => Some(CallMarkEnd(true))
    case MarkLastDone => Some(CallMarkMultiple(None, false))
    case MarkSeveralDone(_, _) => None
  }

  /** The tool each intent names: markFirst/markLast/markMultiple are `todoTools[5]`, `[6]`, `[7]`. */
  function Dispatch(intent: Intent): ToolCall
    requires !intent.Rejected?
  {
    match intent
    case Add(text) => CallAdd(text)
    case MarkDone(text) => CallMark(text, true)
    case MarkUndone(text) => CallMark(text, false)
    case Delete(text) => CallDelete(text)
    case ClearAll => CallClear
    case MarkFirstDone => CallMarkEnd(false)
    case MarkLastDone => CallMarkEnd(true)
    case MarkSeveralDone(count, fromEnd) => CallMarkMultiple(Some(count), fromEnd)
  }

  /** The effect of a call on the collection, by the tool's outcome predicate. */
  predicate CallOutcome(call: ToolCall, before: seq<Todo>, after: seq<Todo>, id: nat, now: int, res: ToolResult)
  {
    match call
    case CallAdd(text) => LegacyTools.AddOutcome(before, after, id, text, now, res)
    case CallMark(text, completed) => LegacyTools.MarkOutcome(before, after, text, completed, res)
    case CallDelete(text) => LegacyTools.DeleteOutcome(before, after, text, res)
    case CallClear => after == [] && res == Success("All todos cleared", None)
    case CallMarkEnd(last) => LegacyTools.MarkEndOutcome(before, after, last, res)
    case CallMarkMultiple(count, fromEnd) => LegacyTools.MarkMultipleOutcome(before, after, count, fromEnd, res)
  }

  /** A rejected intent answers its error and writes nothing; any other runs its tool. */
  predicate IntentOutcome(intent: Intent, before: seq<Todo>, after: seq<Todo>, id: nat, now: int, res: ToolResult)
  {
    if intent.Rejected? then after == before && res == Failure(intent.error)
    else CallOutcome(Dispatch(intent), before, after, id, now, res)
  }

  /** As written, the first/last/count branches call the wrong entries of the tool array. */
  lemma MisrouteAsWritten()
    ensures DispatchAsWritten(MarkFirstDone) == Some(CallMarkEnd(true))
    ensures DispatchAsWritten(MarkLastDone) == Some(CallMarkMultiple(None, false))
    ensures forall n: nat, f: bool :: DispatchAsWritten(MarkSeveralDone(n, f)).None?
  {
  }

  /**
   * As written, "mark first as done" (dispatched to `CallMarkEnd(true)`) marks a todo of
   * largest `createdAt` and answers "Marked last todo ...".
   */
  lemma FirstMarksLatestAsWritten(before: seq<Todo>, after: seq<Todo>, id: nat, now: int, res: ToolResult)
    requires CallOutcome(CallMarkEnd(true), before, after, id, now, res) && before != []
    ensures exists t :: (t in before && (forall u :: u in before ==> u.createdAt <= t.createdAt)
      && after == SetCompleted(before, {t.id}, true))
  {
    assert LegacyTools.MarkEndOutcome(before, after, true, res);
    LegacyTools.MarkEndPicksExtreme(before, after, true, res);
  }

  /** As written, "mark last as done" (dispatched to `CallMarkMultiple(None, false)`) marks every todo. */
  lemma LastMarksAllAsWritten(before: seq<Todo>, after: seq<Todo>, id: nat, now: int, res: ToolResult)
    requires CallOutcome(CallMarkMultiple(None, false), before, after, id, now, res) && before != []
    ensures after == SetCompleted(before, Ids(before), true)
  {
    assert LegacyTools.MarkMultipleOutcome(before, after, None, false, res);
    QueryAll(before);
  }

  /** Without a limit the query selects every todo. */
  lemma QueryAll(ts: seq<Todo>)
    ensures Ids(Query(ts, false, 0)) == Ids(ts)
  {
    var q := Query(ts, false, 0);
    assert q == SortByCreatedAt(ts, false);
    forall id | id in Ids(ts) ensures id in Ids(q) {
      var t :| t in ts && t.id == id;
      assert t in multiset(ts);
      assert t in q;
    }
    forall id | id in Ids(q) ensures id in Ids(ts) {
      var t :| t in q && t.id == id;
      assert t in multiset(q);
      assert t in ts;
    }
  }

  /** Corrected, "mark first as done" marks a todo of smallest `createdAt`. */
  lemma FirstMarksEarliest(command: string, before: seq<Todo>, after: seq<Todo>, id: nat, now: int, res: ToolResult)
    requires Classify(command) == MarkFirstDone && IntentOutcome(MarkFirstDone, before, after, id, now, res)
    ensures res.Failure? <==> before == []
    ensures before != [] ==> exists t :: (t in before && (forall u :: u in before ==> t.createdAt <= u.createdAt)
      && after == SetCompleted(before, {t.id}, true))
  {
    LegacyTools.MarkEndPicksExtreme(before, after, false, res);
  }

  /** Corrected, "mark last as done" marks a todo of largest `createdAt`. */
  lemma LastMarksLatest(command: string, before: seq<Todo>, after: seq<Todo>, id: nat, now: int, res: ToolResult)
    requires Classify(command) == MarkLastDone && IntentOutcome(MarkLastDone, before, after, id, now, res)
    ensures res.Failure? <==> before == []
    ensures before != [] ==> exists t :: (t in before && (forall u :: u in before ==> u.createdAt <= t.createdAt)
      && after == SetCompleted(before, {t.id}, true))
  {
    LegacyTools.MarkEndPicksExtreme(before, after, true, res);
  }

  /** Corrected, "mark N ..." marks the first N todos by `createdAt` (all of them for N = 0). */
  lemma CountMarksFirst(command: string, n: nat, fromEnd: bool, before: seq<Todo>, after: seq<Todo>, id: nat, now: int, res: ToolResult)
    requires Classify(command) == MarkSeveralDone(n, fromEnd)
    requires IntentOutcome(MarkSeveralDone(n, fromEnd), before, after, id, now, res)
    ensures res.Failure? <==> before == []
    ensures res.Success? ==> res.count == Some(LimitCount(n, |before|))
    ensures res.Success? ==> after == SetCompleted(before, Ids(Query(before, false, n)), true)
    ensures res.Failure? ==> after == before
    ensures forall x, y ::
      (x in Query(before, false, n) && y in before && y !in Query(before, false, n)) ==> x.createdAt <= y.createdAt
  {
    assert !fromEnd;
    CountOutcome(n, before, after, id, now, res);
    QueryTakesEarliest(before, n);
  }

  /** `CountMarksFirst` once the count is known to run from the start. */
  lemma CountOutcome(n: nat, before: seq<Todo>, after: seq<Todo>, id: nat, now: int, res: ToolResult)
    requires IntentOutcome(MarkSeveralDone(n, false), before, after, id, now, res)
    ensures res.Failure? <==> before == []
    ensures res.Success? ==> res.count == Some(LimitCount(n, |before|))
    ensures res.Success? ==> after == SetCompleted(before, Ids(Query(before, false, n)), true)
    ensures res.Failure? ==> after == before
  {
    IntentCall(MarkSeveralDone(n, false), before, after, id, now, res);
    DispatchCount(n);
    MarkMultipleCall(Some(n), false, before, after, id, now, res);
    SeveralMarksFirst(n, before, after, res);
  }

  /** The ascending query keeps todos no later than every one it leaves out. */
  lemma QueryTakesEarliest(before: seq<Todo>, n: nat)
    ensures forall x, y ::
      (x in Query(before, false, n) && y in before && y !in Query(before, false, n)) ==> x.createdAt <= y.createdAt
  {
    forall x, y | x in Query(before, false, n) && y in before && y !in Query(before, false, n)
      ensures x.createdAt <= y.createdAt
    {
      QuerySelects(before, false, n);
      assert InOrder(x, y, false);
    }
  }

  /** The tool call behind `CountMarksFirst`: markMultipleTodosAsDone with count N from the start. */
  lemma SeveralMarksFirst(n: nat, before: seq<Todo>, after: seq<Todo>, res: ToolResult)
    requires LegacyTools.MarkMultipleOutcome(before, after, Some(n), false, res)
    ensures res.Failure? <==> before == []
    ensures res.Success? ==> res.count == Some(LimitCount(n, |before|))
    ensures res.Success? ==> after == SetCompleted(before, Ids(Query(before, false, n)), true)
    ensures res.Failure? ==> after == before
  {
    assert LegacyTools.LimitArg(Some(n)) == n;
    QuerySelects(before, false, n);
  }

  /**
   * A command that is not rejected runs the tool `Dispatch` names. This and the next two
   * lemmas each unfold one definition, so that `CountOutcome` sees one small fact at a time
   * instead of the whole `IntentOutcome`, `Dispatch` and `CallOutcome` case analysis.
   */
  lemma IntentCall(intent: Intent, before: seq<Todo>, after: seq<Todo>, id: nat, now: int, res: ToolResult)
    requires !intent.Rejected? && IntentOutcome(intent, before, after, id, now, res)
    ensures CallOutcome(Dispatch(intent), before, after, id, now, res)
  {
  }

  /** Corrected, a count from the start runs markMultipleTodosAsDone with that count (one unfolding of `Dispatch`). */
  lemma DispatchCount(n: nat)
    ensures Dispatch(MarkSeveralDone(n, false)) == CallMarkMultiple(Some(n), false)
  {
  }

  /** A markMultipleTodosAsDone call has that tool's outcome (one unfolding of `CallOutcome`). */
  lemma MarkMultipleCall(count: Option<int>, fromEnd: bool, before: seq<Todo>, after: seq<Todo>, id: nat, now: int, res: ToolResult)
    requires CallOutcome(CallMarkMultiple(count, fromEnd), before, after, id, now, res)
    ensures LegacyTools.MarkMultipleOutcome(before, after, count, fromEnd, res)
  {
  }

  /** The `command` field of the JSON body. */
  datatype CommandField = Missing | NonString | Text(value: string)

  /** The request body: unreadable JSON, the JSON `null`, or a JSON value with its `command`. */
  datatype RequestBody = Unparsable | NullJson | Json(command: CommandField)

  /** The answer: 200 with `{ result: { text }, success }`, or an error with status 400 or 500. */
  datatype Response = Handled(text: string, success: bool) | BadRequest(error: string) | ServerError(error: string)
  {
    function Status(): nat
    {
      if Handled? then 200 else if BadRequest? then 400 else 500
    }
  }

  const CommandRequired := "Command is required and must be a string"
  const FailedToProcess := "Failed to process command"

  /** `!command || typeof command !== 'string'`: the empty string is rejected with the rest. */
  predicate HasCommand(body: RequestBody)
  {
    body.Json? && body.command.Text? && body.command.value != ""
  }

  /** What `POST` answers and how it leaves the collection. */
  ghost predicate PostOutcome(body: RequestBody, before: seq<Todo>, after: seq<Todo>, id: nat, now: int, response: Response)
  {
    if body.Unparsable? || body.NullJson? then after == before && response == ServerError(FailedToProcess)
    else if !HasCommand(body) then after == before && response == BadRequest(CommandRequired)
    else exists res :: (IntentOutcome(Classify(body.command.value), before, after, id, now, res)
      && response == Handled(res.Text(), res.Success?))
  }

  /** Runs one tool call. */
  method Execute(db: TodoCollection, call: ToolCall, now: int) returns (res: ToolResult)
    requires db.Valid() && (call.CallAdd? ==> call.text != "")
    modifies db
    ensures db.Valid()
    ensures CallOutcome(call, old(db.todos), db.todos, old(db.nextId), now, res)
  {
    match call
    case CallAdd(text) => res := LegacyTools.AddTodo(db, text, now);
    case CallMark(text, completed) => res := LegacyTools.MarkTodo(db, text, completed);
    case CallDelete(text) => res := LegacyTools.DeleteTodo(db, text);
    case CallClear => res := LegacyTools.ClearAllTodos(db);
    case CallMarkEnd(last) => res := LegacyTools.MarkEndTodo(db, last);
    case CallMarkMultiple(count, fromEnd) => res := LegacyTools.MarkMultipleTodosAsDone(db, count, fromEnd);
  }

  /** `POST(request)`, with the request clock `now` stamped on a created todo. */
  method Post(db: TodoCollection, body: RequestBody, now: int) returns (response: Response)
    requires db.Valid()
    modifies db
    ensures db.Valid()
    ensures PostOutcome(body, old(db.todos), db.todos, old(db.nextId), now, response)
  {
    if body.Unparsable? || body.NullJson? {
      return ServerError(FailedToProcess);
    }
    if !HasCommand(body) {
      return BadRequest(CommandRequired);
    }
    var intent := Classify(body.command.value);
    var res: ToolResult;
    if intent.Rejected? {
      res := Failure(intent.error);
    } else {
      res := Execute(db, Dispatch(intent), now);
    }
    response := Handled(res.Text(), res.Success?);
  }

  /**
   * The status is 500 exactly for an unreadable or `null` body, 400 exactly for a missing,
   * empty or non-string command, and 200 otherwise; a 200 reports failure for a rejected
   * command, with its error as the text.
   */
  lemma PostStatus(body: RequestBody, before: seq<Todo>, after: seq<Todo>, id: nat, now: int, response: Response)
    requires PostOutcome(body, before, after, id, now, response)
    ensures response.Status() == 500 <==> body.Unparsable? || body.NullJson?
    ensures response.Status() == 400 <==> body.Json? && !HasCommand(body)
    ensures response.Status() == 200 <==> HasCommand(body)
    ensures response.Status() != 200 ==> after == before
    ensures HasCommand(body) && Classify(body.command.value).Rejected? ==>
      response == Handled(Classify(body.command.value).error, false) && after == before
  {
  }

  /**
   * What `POST` answers as written, with `ClassifyAsWritten` and `DispatchAsWritten`: a
   * count command reads `todoTools[8]`, which throws before anything is written, and the
   * handler's `catch` answers 500.
   */
  ghost predicate PostOutcomeAsWritten(body: RequestBody, before: seq<Todo>, after: seq<Todo>, id: nat, now: int, response: Response)
  {
    if body.Unparsable? || body.NullJson? then after == before && response == ServerError(FailedToProcess)
    else if !HasCommand(body) then after == before && response == BadRequest(CommandRequired)
    else
      var intent := ClassifyAsWritten(body.command.value);
      if intent.Rejected? then after == before && response == Handled(intent.error, false)
      else match DispatchAsWritten(intent)
        case None => after == before && response == ServerError(FailedToProcess)
        case Some(call) => exists res :: (CallOutcome(call, before, after, id, now, res)
          && response == Handled(res.Text(), res.Success?))
  }

  /** `POST(request)` as written. */
  method PostAsWritten(db: TodoCollection, body: RequestBody, now: int) returns (response: Response)
    requires db.Valid()
    modifies db
    ensures db.Valid()
    ensures PostOutcomeAsWritten(body, old(db.todos), db.todos, old(db.nextId), now, response)
  {
    if body.Unparsable? || body.NullJson? {
      return ServerError(FailedToProcess);
    }
    if !HasCommand(body) {
      return BadRequest(CommandRequired);
    }
    var intent := ClassifyAsWritten(body.command.value);
    if intent.Rejected? {
      return Handled(intent.error, false);
    }
    match DispatchAsWritten(intent)
    case None =>
      response := ServerError(FailedToProcess);
    case Some(call) =>
      var res := Execute(db, call, now);
      response := Handled(res.Text(), res.Success?);
  }

  /**
   * As written, the status is 500 for an unreadable or `null` body and also for every
   * command the cascade reads as "mark N ... done"; 400 for a missing, empty or non-string
   * command; 200 otherwise. A 500 or 400 writes nothing.
   */
  lemma PostAsWrittenStatus(body: RequestBody, before: seq<Todo>, after: seq<Todo>, id: nat, now: int, response: Response)
    requires PostOutcomeAsWritten(body, before, after, id, now, response)
    ensures response.Status() == 500 <==>
      body.Unparsable? || body.NullJson? || (HasCommand(body) && ClassifyAsWritten(body.command.value).MarkSeveralDone?)
    ensures response.Status() == 400 <==> body.Json? && !HasCommand(body)
    ensures response.Status() == 200 <==>
      HasCommand(body) && !ClassifyAsWritten(body.command.value).MarkSeveralDone?
    ensures response.Status() != 200 ==> after == before
  {
  }

  /**
   * As written, a command with "mark", "done" and `mark\s+\d+` but neither "first" nor
   * "last" (nor an add keyword) is read as a count: such a command is answered 500.
   */
  lemma CountCommandAsWritten(command: string)
    requires var lower := ToLower(command);
      !IsAddCommand(lower) && IsMarkDoneCommand(lower) && !Contains(lower, "first")
      && !Contains(lower, "last") && MarkCount(lower).Some?
    ensures ClassifyAsWritten(command) == MarkSeveralDone(DecimalValue(MarkCount(ToLower(command)).value), false)
    ensures DispatchAsWritten(ClassifyAsWritten(command)).None?
  {
  }
}
