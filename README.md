# The natural-language todo command pipeline, in Dafny

This project models the part of the agentic-todo application that turns a free-form
command into a change to the user's todo list, and proves properties of that model:

- **Similarity** is `calculateSimilarity`, a Levenshtein edit distance normalised to a
  score in [0, 1]. It is written twice: as a reference recurrence, and as the source's
  table-filling loops over an `array2`, which are proved to compute that recurrence.
- **Matcher** is the `reduce` the unscoped tools use to pick the best-scoring todo (an
  earlier todo keeps its place on equal scores), followed by the 0.5 rejection.
- **LegacyTools** is the unscoped `todoTools` array of the command endpoint.
- **CommandRoute** is that endpoint's `POST`. It covers:
  - the request guard;
  - the first-match-wins keyword cascade, with its JavaScript `replace`/`trim`/`match`
    argument extraction;
  - the dispatch into the tool array;
  - the `{ result: { text }, success }` answer and its 200/400/500 statuses.
- **CommandUtils** is `fuzzyMatchSingleTodo`.
- **UserTools** is the user-scoped tools the chat assistant calls.
- **ChatHistory** is `limitMessagesHistory`.
- **Middleware** is the page-access decision.

The document collection is a class, `TodoModel.TodoCollection`. Its fields are the stored
documents and an id allocator, and its methods are the MongoDB writes the tools issue
(create, update by id set, delete by id, delete by owner, delete all). Reads are functions
on the stored sequence: filter, stable sort on `createdAt`, and `limit` with MongoDB's
meaning of 0 and of negative limits.

Each tool's effect is stated once, as an outcome predicate relating the documents before
the call, the documents after it and the returned `ToolResult`. Each tool method is proved
to reach its predicate, and lemmas state what the predicates imply: what is marked or
removed, what is kept, and what happens to other users.

Things left to the environment are parameters:
- the clock, as `now`, stamped on a created todo;
- the outcome of `needAuth()`, as `auth: Option<UserId>`;
- the Fuse.js search, as a function `search` of which only "hits come from the searched
  list" is assumed;
- `jwt.verify`, as a predicate `verifies`;
- `encodeURI`, as a function `encodeUri`.

Three details of the endpoint's behaviour:
- `"add a todo: buy milk"` yields the text `": buy milk"`, because the regular expression
  removes only `add a todo`.
- The error strings carry no final period (`Command not recognized`).
- Only the user-scoped tools record an owner. The unscoped `addTodo` creates documents
  without `userId`.

## Model

| member | source | states |
|---|---|---|
| Text.ToLower | src/app/api/todos/command/route.ts:263 | lower-casing keeps the length and maps each character on its own (ASCII letters only) |
| Text.Contains | src/app/api/todos/command/route.ts:276 | `includes` is a match of the needle at some position scanned from the left |
| Text.ContainsWord | src/app/api/todos/command/route.ts:322 | the whole-word reading of a keyword: an occurrence with no `\w` character on either side |
| Text.WordIsContained | src/app/api/todos/command/route.ts:331-335 | a whole-word occurrence is an `includes` occurrence |
| Text.ContainsAt | src/app/api/todos/command/route.ts:276 | a needle occurring at any position `k` makes `includes` true |
| Text.ContainsTail | src/app/api/todos/command/route.ts:302-305 | a text containing `prefix + needle` contains `needle` |
| Text.TrimStart | src/app/api/todos/command/route.ts:268 | the result is a suffix of the input, everything cut is white space, and it does not start with white space |
| Text.TrimEnd | src/app/api/todos/command/route.ts:268 | the result is a prefix of the input, everything cut is white space, and it does not end with white space |
| Text.Trim | src/app/api/todos/command/route.ts:268-269 | `trim()` gives a string with no white space at either end, and it is empty exactly when the input is all white space |
| Text.MatchAlternative | src/app/api/todos/command/route.ts:268 | an alternation matches at the start exactly when one alternative is a case-insensitive prefix; the length it reports is positive and within the text |
| Text.RemoveFirst | src/app/api/todos/command/route.ts:268 | `replace` without `g` never lengthens the text |
| Text.RemoveFirstAt | src/app/api/todos/command/route.ts:323 | `replace` without `g` cuts out exactly the leftmost match and keeps everything around it |
| Text.RemoveAll | src/app/api/todos/command/route.ts:288-290 | `replace` with `g` never lengthens the text |
| Text.RemoveAllAt | src/app/api/todos/command/route.ts:288-290 | `replace` with `g` keeps everything before the leftmost match, cuts that match out, and goes on removing in what follows it |
| Text.RemoveNoMatch | src/app/api/todos/command/route.ts:306-311 | a text in which no alternative matches anywhere is returned unchanged by both forms of `replace` |
| Text.DropWhiteSpace | src/app/api/todos/command/route.ts:281 | `\s+` skips the white space at the start and stops at the first other character |
| Text.LeadingDigits | src/app/api/todos/command/route.ts:281 | `(\d+)` captures the longest run of digits at the start |
| Text.DecimalValue | src/app/api/todos/command/route.ts:283 | `parseInt(digits, 10)` of a run of ASCII digits, most significant digit first |
| Text.DecimalString | src/app/api/todos/command/route.ts:212 | `${n}` renders a non-empty string of digits |
| Text.DecimalRoundTrip | src/app/api/todos/command/route.ts:283 | `parseInt` of a rendered count gives the count back |
| Similarity.Distance | src/app/api/todos/command/route.ts:224-241 | the edit-distance recurrence on prefixes, with its border rows and columns |
| Similarity.Score | src/app/api/todos/command/route.ts:242-247 | the returned value: 1 for two empty strings, otherwise one minus the distance over the longer length |
| Similarity.CalculateSimilarity | src/app/api/todos/command/route.ts:219-248 | the table-filling loops compute exactly the score of the recurrence, including 1 for two empty strings |
| Similarity.FillRow | src/app/api/todos/command/route.ts:233-240 | the inner loop fills row `j` with the recurrence's values and leaves later rows' first column alone |
| Similarity.DistanceCell | src/app/api/todos/command/route.ts:234-239 | an interior cell is the minimum of deletion, insertion and substitution from its three neighbours |
| Similarity.DistanceSelf | src/app/api/todos/command/route.ts:224-241 | a prefix is at distance 0 from itself |
| Similarity.DistanceZero | src/app/api/todos/command/route.ts:224-241 | distance 0 means the two prefixes are equal |
| Similarity.DistanceSymmetric | src/app/api/todos/command/route.ts:224-241 | the distance does not depend on which string is `str1` |
| Similarity.DistanceUpper | src/app/api/todos/command/route.ts:243-247 | the distance never exceeds the longer length, so the score is never negative |
| Similarity.DistanceLower | src/app/api/todos/command/route.ts:224-241 | the distance is at least the difference in length |
| Similarity.ScoreBounds | src/app/api/todos/command/utils.ts:31-35 | every score lies in [0, 1] |
| Similarity.ScoreSelf | src/app/api/todos/command/utils.ts:31-35 | a string scores 1 against itself, the empty string included |
| Similarity.ScoreOneIffEqual | src/app/api/todos/command/route.ts:243-247 | a score of 1 happens exactly for identical strings |
| Similarity.ScoreSymmetric | src/app/api/todos/command/utils.ts:7-36 | the score is symmetric in its two arguments |
| Similarity.ScoreEmpty | src/app/api/todos/command/route.ts:243-247 | a non-empty string scores 0 against the empty string, either way round |
| Matcher.BestScore | src/app/api/todos/command/route.ts:45-47 | the accumulator's score: that of the kept todo, or 0 while none is kept |
| Matcher.BestFrom | src/app/api/todos/command/route.ts:40-49 | the fold from any position keeps its accumulator or replaces it with a strictly better todo; the result is maximal, and every earlier todo scores strictly lower |
| Matcher.Sim | src/app/api/todos/command/route.ts:40-46 | each todo is scored by `calculateSimilarity` of the lower-cased texts |
| Matcher.BestIndex | src/app/api/todos/command/route.ts:40-49 | the reduce keeps nothing exactly when every score is 0; otherwise it keeps the earliest todo of highest score |
| Matcher.Match | src/app/api/todos/command/route.ts:51-59 | no match exactly when every todo scores below 0.5; a match has the highest score, at least 0.5, and is the earliest of those |
| Matcher.MatchIsEarliestBest | src/app/api/todos/command/route.ts:40-59 | the scores alone determine the match: the earliest best position, once it reaches 0.5 |
| Matcher.MatchExactText | src/app/api/todos/command/route.ts:40-59 | a todo equal to the query up to case guarantees a match, and the match scores 1 |
| TodoModel.Filter | src/app/api/todos/command/tools.ts:84 | a filtered result set holds exactly the kept documents and is no longer than the store |
| TodoModel.FilterUnique | src/app/api/todos/command/tools.ts:84 | filtering keeps ids unique |
| TodoModel.OwnedBy | src/app/api/todos/command/tools.ts:84 | `find({ userId })` holds exactly the caller's documents |
| TodoModel.IncompleteOwnedBy | src/app/api/todos/command/tools.ts:177 | `find({ userId, completed: false })` holds exactly the caller's incomplete documents |
| TodoModel.NotOwnedBy | src/app/api/todos/command/tools.ts:155 | `deleteMany({ userId })` keeps exactly the documents not owned by the caller |
| TodoModel.WithoutId | src/app/api/todos/command/tools.ts:117 | `findByIdAndDelete` keeps exactly the documents with another id |
| TodoModel.SetCompleted | src/app/api/todos/command/tools.ts:184-187 | the update writes `completed` on exactly the documents whose id is selected, position by position |
| TodoModel.Insert | src/app/api/todos/command/route.ts:197 | inserting into a sorted result keeps it sorted and adds exactly one element |
| TodoModel.SortByCreatedAt | src/app/api/todos/command/route.ts:197 | `.sort({ createdAt: ±1 })` returns a permutation of its input, ordered ascending or descending |
| TodoModel.LimitCount | src/app/api/todos/command/route.ts:198 | `.limit(count)` returns everything for 0 and at most `count` for a positive count; it cuts only at `count` or `-count` |
| TodoModel.Query | src/app/api/todos/command/route.ts:196-198 | `find({}).sort({ createdAt }).limit(count)`: sort the stored documents, then keep `LimitCount` of them |
| TodoModel.FirstIsExtreme | src/app/api/todos/command/tools.ts:84-91 | the first document of a sorted result is stored, and it is the earliest (latest when descending) of all |
| TodoModel.QuerySelects | src/app/api/todos/command/tools.ts:177-180 | sort-then-limit returns `LimitCount` stored documents, each no later in sort order than every one left out |
| TodoModel.SortedPrefix | src/app/api/todos/command/tools.ts:178-179 | a prefix of a sorted result is in order with everything outside it |
| TodoModel.SetCompletedNoOp | src/app/api/todos/command/tools.ts:52-55 | writing the value every selected document already has changes nothing |
| TodoModel.SetCompletedIdempotent | src/app/api/todos/command/tools.ts:184-187 | writing the same value twice is writing it once |
| TodoModel.SetCompletedStep | src/app/api/todos/command/route.ts:204-207 | saving documents one at a time is the same as one update on the union of their ids |
| TodoModel.SetCompletedKeepsOthers | src/app/api/todos/command/tools.ts:52-55 | a write on one user's documents leaves everyone else's documents as they were, in order |
| TodoModel.WithoutIdRemovesOne | src/app/api/todos/command/route.ts:135 | with unique ids, deleting a present id removes exactly one document |
| TodoModel.WithoutIdAbsent | src/app/api/todos/command/route.ts:135 | deleting an absent id changes nothing |
| TodoModel.WithoutIdKeepsOthers | src/app/api/todos/command/tools.ts:141 | deleting one user's document leaves everyone else's documents as they were |
| TodoModel.AppendKeepsOthers | src/app/api/todos/command/tools.ts:28 | a new document of one user is appended to that user's view and leaves every other document alone |
| TodoModel.ClearOwned | src/app/api/todos/command/tools.ts:155 | after `deleteMany({ userId })` the user has no documents, and a second call changes nothing |
| TodoModel.OtherUserView | src/app/api/todos/command/tools.ts:155 | clearing one user's todos does not change what any other user sees |
| TodoModel.TodoCollection.constructor | src/lib/models/todo.ts:21-29 | an empty collection satisfies the id invariant |
| TodoModel.TodoCollection.Create | src/app/api/todos/command/route.ts:22-23 | a new incomplete document with a fresh id is appended, and ids stay unique |
| TodoModel.TodoCollection.UpdateCompleted | src/app/api/todos/command/tools.ts:184-187 | the store becomes `SetCompleted` of the old store, and ids stay unique |
| TodoModel.TodoCollection.DeleteById | src/app/api/todos/command/tools.ts:117 | the store becomes `WithoutId` of the old store |
| TodoModel.TodoCollection.DeleteOwnedBy | src/app/api/todos/command/tools.ts:155 | the store becomes `NotOwnedBy` of the old store |
| TodoModel.TodoCollection.DeleteAll | src/app/api/todos/command/route.ts:144 | the store becomes empty |
| LegacyTools.AddTodo | src/app/api/todos/command/route.ts:20-29 | one incomplete todo without owner is appended, and the answer is `Added new todo: "<text>"` |
| LegacyTools.LimitArg | src/app/api/todos/command/route.ts:192-198 | a missing `count` reaches `limit` as `undefined`, which sets no limit (0) |
| LegacyTools.AddOutcome | src/app/api/todos/command/route.ts:20-29 | addTodo appends one incomplete todo without owner and answers `Added new todo: "<text>"` |
| LegacyTools.MarkOutcome | src/app/api/todos/command/route.ts:34-105 | markTodoAsDone / markTodoAsUndone set `completed` on the matched todo, or answer `Todo not found` and write nothing |
| LegacyTools.DeleteOutcome | src/app/api/todos/command/route.ts:110-137 | deleteTodo removes the matched todo, or answers `Todo not found` and writes nothing |
| LegacyTools.MarkEndOutcome | src/app/api/todos/command/route.ts:151-186 | markFirst/markLastTodoAsDone mark the first todo in ascending (descending) `createdAt` order, or answer `No todos found` on an empty store |
| LegacyTools.MarkMultipleOutcome | src/app/api/todos/command/route.ts:191-214 | markMultipleTodosAsDone marks the selected todos and reports their number, or answers `No todos found` when none is selected |
| LegacyTools.MarkTodo | src/app/api/todos/command/route.ts:34-105 | the matched todo gets `completed`, with the done / not-done message, or the call fails with `Todo not found` and writes nothing |
| LegacyTools.DeleteTodo | src/app/api/todos/command/route.ts:110-137 | the matched todo is deleted with `Deleted todo: "<text>"`, or the call fails with `Todo not found` |
| LegacyTools.ClearAllTodos | src/app/api/todos/command/route.ts:142-146 | every todo is deleted and the call succeeds |
| LegacyTools.MarkEndTodo | src/app/api/todos/command/route.ts:151-186 | the first todo in ascending (descending for `last`) `createdAt` order is marked done, or the call fails with `No todos found` on an empty store |
| LegacyTools.MarkMultipleTodosAsDone | src/app/api/todos/command/route.ts:191-214 | the save loop marks exactly the selected todos done and reports their number |
| LegacyTools.MarkChangesOnlyMatch | src/app/api/todos/command/route.ts:51-62 | marking by text changes only the matched todo's flag; it fails and writes nothing exactly when every score is below 0.5 |
| LegacyTools.DeleteRemovesOnlyMatch | src/app/api/todos/command/route.ts:125-136 | deleting by text removes exactly the matched todo and keeps every other one; it fails exactly when every score is below 0.5 |
| LegacyTools.MarkEndPicksExtreme | src/app/api/todos/command/route.ts:153-160 | marking first or last marks a todo with the smallest (largest) `createdAt`, and fails exactly on an empty store |
| LegacyTools.MarkMultipleSelection | src/app/api/todos/command/route.ts:196-212 | bulk marking fails exactly on an empty store; otherwise it marks the first `LimitCount` todos in sort order and reports that count |
| CommandRoute.MarkCount | src/app/api/todos/command/route.ts:281-283 | the `(\d+)` capture is a non-empty run of digits and exists only when the command contains `mark` |
| CommandRoute.ClassifyAsWritten | src/app/api/todos/command/route.ts:263-339 | the cascade as written yields trimmed non-empty argument texts and only the five error messages; the add rule fires exactly on `startsWith('add')` or `includes('add a todo')`, and its argument is the trimmed text after one removal of the add patterns |
| CommandRoute.Classify | src/app/api/todos/command/route.ts:267-274 | corrected cascade: the add rule fires exactly on `startsWith('add')` or `includes('add a todo')`, its argument is the trimmed text after one removal, and a count is never taken from the end |
| CommandRoute.IsAddCommand | src/app/api/todos/command/route.ts:267 | the add test: starts with `add` or contains `add a todo` |
| CommandRoute.IsMarkDoneCommand | src/app/api/todos/command/route.ts:276 | the mark-done test: contains both `mark` and `done` |
| CommandRoute.IsMarkUndoneCommand | src/app/api/todos/command/route.ts:302-305 | the mark-undone test: contains `mark` and either `undone` or `not done` |
| CommandRoute.IsDeleteCommand | src/app/api/todos/command/route.ts:322 | the delete test as written: contains `delete` and not `all` anywhere |
| CommandRoute.IsClearCommand | src/app/api/todos/command/route.ts:331-335 | the clear test as written: `clear`, `reset`, or `delete` with `all` anywhere |
| CommandRoute.CountAt | src/app/api/todos/command/route.ts:281 | `mark\s+(\d+)` tried at one position: `mark`, at least one white-space character, then a non-empty digit run, which is captured |
| CommandRoute.AddIntent | src/app/api/todos/command/route.ts:268-273 | the add branch: one removal of the add patterns, trimmed, or `No todo text provided` when nothing is left |
| CommandRoute.MarkDoneIntent | src/app/api/todos/command/route.ts:277-299 | the mark-done branch: `first`, then `last`, then a count with `fromEnd` read from `last`, otherwise the text left after removing every done pattern, or `No todo specified to mark as done` |
| CommandRoute.MarkUndoneIntent | src/app/api/todos/command/route.ts:306-319 | the mark-undone branch: the text left after removing every undone pattern, or `No todo specified to mark as undone` |
| CommandRoute.DeleteIntent | src/app/api/todos/command/route.ts:323-328 | the delete branch: one removal of the delete patterns, trimmed, or `No todo specified to delete` |
| CommandRoute.HasCommand | src/app/api/todos/command/route.ts:255 | the 400 guard: the body's `command` is present, a string, and not empty (the empty string is falsy) |
| CommandRoute.QueryTakesEarliest | src/app/api/todos/command/route.ts:196-198 | the ascending query keeps todos whose `createdAt` is no later than that of every todo it leaves out |
| CommandRoute.IsDeleteOneCommand | src/app/api/todos/command/route.ts:322 | corrected delete rule: `delete` without the word `all` |
| CommandRoute.IsClearAllCommand | src/app/api/todos/command/route.ts:331-335 | corrected clear rule: `clear`, `reset`, or `delete` with the word `all` |
| CommandRoute.UndoneContainsDone | src/app/api/todos/command/route.ts:276-305 | every command with `undone` or `not done` also contains `done` |
| CommandRoute.UndoneUnreachableAsWritten | src/app/api/todos/command/route.ts:302-320 | as written, no command ever reaches the mark-undone branch or its error |
| CommandRoute.UndoneCommandMarksDoneAsWritten | src/app/api/todos/command/route.ts:276-300 | as written, a "mark … undone / not done" command is handled by the mark-done branch |
| CommandRoute.UndoneCommandReachesUndone | src/app/api/todos/command/route.ts:302-320 | with the corrected order, such a command reaches the mark-undone branch |
| CommandRoute.NotRecognizedIff | src/app/api/todos/command/route.ts:337-338 | in the cascade as written and in the corrected one alike, `Command not recognized` comes exactly when no add, mark-done, delete, clear or reset keyword is present |
| CommandRoute.DeleteCallClearsAsWritten | src/app/api/todos/command/route.ts:322-336 | as written, a delete command containing `call` (so `all` inside a word) and no `add` or `mark` keyword clears every todo |
| CommandRoute.DeleteCallDeletesOne | src/app/api/todos/command/route.ts:322-327 | corrected, a delete command without the word `all` goes to deleteTodo with the text after `delete`, or to its error |
| CommandRoute.DeleteAllWordClears | src/app/api/todos/command/route.ts:331-336 | with the word `all`, the corrected and the as-written cascades both clear every todo |
| CommandRoute.CountCommandAsWritten | src/app/api/todos/command/route.ts:276-285 | as written, a "mark N … done" command without `first` or `last` is read as the count N and dispatched to no tool |
| CommandRoute.FromEndNeverSet | src/app/api/todos/command/route.ts:279-284 | in the numeric branch `fromEnd` is always false, since `last` was taken one branch earlier |
| CommandRoute.DispatchAsWritten | src/app/api/todos/command/route.ts:270-336 | the tool each branch calls as written: index 6 for first, index 7 without arguments for last, nothing at index 8 for a count |
| CommandRoute.Dispatch | src/app/api/todos/command/route.ts:16-216 | corrected: each intent calls the tool of the array that carries its name |
| CommandRoute.CallOutcome | src/app/api/todos/command/route.ts:16-216 | a call's effect is the outcome predicate of the tool it runs, clearAllTodos emptying the store |
| CommandRoute.IntentOutcome | src/app/api/todos/command/route.ts:263-339 | a rejected command writes nothing and answers its error; any other runs its tool |
| CommandRoute.MisrouteAsWritten | src/app/api/todos/command/route.ts:277-285 | as written, "first" calls markLastTodoAsDone, "last" calls markMultipleTodosAsDone with no arguments, and a count calls a missing tool |
| CommandRoute.FirstMarksLatestAsWritten | src/app/api/todos/command/route.ts:277-278 | as written, "mark first … done" marks a todo of largest `createdAt` |
| CommandRoute.LastMarksAllAsWritten | src/app/api/todos/command/route.ts:279-280 | as written, "mark last … done" marks every todo done |
| CommandRoute.QueryAll | src/app/api/todos/command/route.ts:196-198 | without a limit the query selects every stored todo |
| CommandRoute.FirstMarksEarliest | src/app/api/todos/command/route.ts:148-166 | corrected, "mark first … done" marks a todo of smallest `createdAt`, and fails exactly on an empty store |
| CommandRoute.LastMarksLatest | src/app/api/todos/command/route.ts:168-186 | corrected, "mark last … done" marks a todo of largest `createdAt`, and fails exactly on an empty store |
| CommandRoute.CountMarksFirst | src/app/api/todos/command/route.ts:281-285 | corrected, "mark N …" reports `LimitCount(N, n)` todos marked, each earlier than every unmarked one |
| CommandRoute.Execute | src/app/api/todos/command/route.ts:270-336 | a tool call reaches the outcome predicate of the tool it names |
| CommandRoute.Post | src/app/api/todos/command/route.ts:251-355 | the corrected endpoint (`Classify`, `Dispatch`): an unreadable or `null` body is answered 500, a missing, empty or non-string command 400, anything else 200 with the tool's text and success |
| CommandRoute.PostStatus | src/app/api/todos/command/route.ts:255-354 | for the corrected endpoint the three statuses occur exactly in those cases; only a 200 writes anything; a rejected command answers its error with `success: false` |
| CommandRoute.PostOutcome | src/app/api/todos/command/route.ts:251-355 | what the corrected endpoint answers and how it leaves the store |
| CommandRoute.PostOutcomeAsWritten | src/app/api/todos/command/route.ts:251-355 | what the endpoint answers as written: a count command throws on the missing tool before any write and is answered 500 |
| CommandRoute.PostAsWritten | src/app/api/todos/command/route.ts:251-355 | the endpoint as written reaches `PostOutcomeAsWritten` |
| CommandRoute.PostAsWrittenStatus | src/app/api/todos/command/route.ts:252-354 | as written, 500 exactly for an unreadable or `null` body or a command read as a count; 400 exactly for a missing, empty or non-string command; 200 otherwise; a 500 or 400 writes nothing |
| CommandUtils.FuzzyMatchSingleTodo | src/app/api/todos/command/utils.ts:38-62 | no match without a signed-in user or without a hit; otherwise the first hit, a stored todo owned by the caller |
| CommandUtils.MatchReadsOwnTodosOnly | src/app/api/todos/command/utils.ts:44-61 | the match depends only on the caller's own todos |
| UserTools.EndTodo | src/app/api/todos/command/tools.ts:84-89 | no todo exactly when the caller owns none; otherwise the caller's todo that comes first in `createdAt` order |
| UserTools.Selected | src/app/api/todos/command/tools.ts:177-180 | `LimitCount` of the caller's incomplete todos, at most `count` when it is positive, each no later in sort order than every one left out |
| UserTools.AddTodo | src/app/api/todos/command/tools.ts:21-30 | `Unauthorized` without a user; otherwise one incomplete todo of the caller is appended, with `Added: "<text>"` |
| UserTools.AddOutcome | src/app/api/todos/command/tools.ts:21-30 | addTodo answers `Unauthorized` without a user, otherwise appends one incomplete todo of the caller |
| UserTools.MarkOutcome | src/app/api/todos/command/tools.ts:42-62 | the fuzzy match gets the requested flag, or the call answers `Todo not found` |
| UserTools.MarkEndOutcome | src/app/api/todos/command/tools.ts:71-102 | the caller's first (last) todo gets the requested flag; `Unauthorized` or `No todos found` otherwise |
| UserTools.DeleteOutcome | src/app/api/todos/command/tools.ts:109-119 | the fuzzy match is deleted, or the call answers `Todo not found` |
| UserTools.DeleteEndOutcome | src/app/api/todos/command/tools.ts:127-143 | the caller's first (last) todo is deleted; `Unauthorized` or `No todos found` otherwise |
| UserTools.ClearOutcome | src/app/api/todos/command/tools.ts:148-157 | every todo of the caller is deleted; `Unauthorized` without a user |
| UserTools.MarkMultipleOutcome | src/app/api/todos/command/tools.ts:166-193 | the caller's selected incomplete todos are marked done and counted; `No todos found` when none is selected |
| UserTools.MarkTodoAsCompletedOrIncomplete | src/app/api/todos/command/tools.ts:42-62 | the fuzzy match gets the requested flag with the done / not-done message, or the call fails with `Todo not found` |
| UserTools.MarkFirstOrLastTodoAsCompletedOrIncomplete | src/app/api/todos/command/tools.ts:71-102 | the caller's first (or last) todo gets the requested flag; `Unauthorized` without a user, `No todos found` when the caller has none |
| UserTools.DeleteTodo | src/app/api/todos/command/tools.ts:109-119 | the fuzzy match is deleted with `Deleted "<text>"`, or the call fails with `Todo not found` |
| UserTools.DeleteFirstOrLastTodo | src/app/api/todos/command/tools.ts:127-143 | the caller's first (or last) todo is deleted, and the message interpolates the unselected text as `undefined` |
| UserTools.ClearAllTodos | src/app/api/todos/command/tools.ts:148-157 | every todo of the caller is deleted, and nothing else |
| UserTools.MarkMultipleTodosAsDone | src/app/api/todos/command/tools.ts:166-193 | one update marks exactly the selected ids done and reports their number |
| UserTools.IdOwner | src/app/api/todos/command/tools.ts:52-55 | with unique ids, the only document under a todo's id is that todo |
| UserTools.SelectedOwner | src/app/api/todos/command/tools.ts:184-187 | every id the bulk update names belongs to the caller |
| UserTools.UnauthorizedWritesNothing | src/app/api/todos/command/tools.ts:25-26 | without a signed-in user no tool writes anything; the searching tools answer `Todo not found`, the others `Unauthorized` |
| UserTools.AddKeepsOthers | src/app/api/todos/command/tools.ts:28 | adding leaves other users' documents unchanged and extends the caller's view by the new todo |
| UserTools.MarkKeepsOthers | src/app/api/todos/command/tools.ts:49-55 | marking by text leaves other users' documents unchanged |
| UserTools.MarkEndKeepsOthers | src/app/api/todos/command/tools.ts:84-95 | marking first or last leaves other users' documents unchanged |
| UserTools.DeleteKeepsOthers | src/app/api/todos/command/tools.ts:114-117 | deleting by text leaves other users' documents unchanged |
| UserTools.DeleteEndKeepsOthers | src/app/api/todos/command/tools.ts:134-141 | deleting first or last leaves other users' documents unchanged |
| UserTools.ClearRemovesOwnOnly | src/app/api/todos/command/tools.ts:152-156 | clearing removes all and only the caller's todos; a second call succeeds again and changes nothing |
| UserTools.MarkMultipleKeepsOthers | src/app/api/todos/command/tools.ts:177-187 | bulk marking leaves other users' documents unchanged |
| UserTools.MarkSameValueIsNoOp | src/app/api/todos/command/tools.ts:49-61 | re-marking a todo with the flag it already has succeeds and changes nothing |
| UserTools.DeleteRemovesOne | src/app/api/todos/command/tools.ts:117 | with unique ids, deleting a stored todo removes exactly that one and keeps all others |
| UserTools.DeleteMatchRemovesOne | src/app/api/todos/command/tools.ts:114-118 | deleting by text succeeds exactly when there is a match, and then removes exactly the match |
| UserTools.DeleteEndRemovesOne | src/app/api/todos/command/tools.ts:134-142 | deleting first or last fails exactly when the caller has no todos; otherwise it removes exactly the caller's earliest (latest) todo |
| UserTools.MarkMultipleMarksSelection | src/app/api/todos/command/tools.ts:177-191 | bulk marking fails exactly on an empty selection; otherwise only the selected todos change, and the reported count is at most `count` |
| ChatHistory.LeadingSystem | src/app/api/chat/route.ts:52-57 | the leading run is all system messages and is followed by a non-system message or the end |
| ChatHistory.Last | src/app/api/chat/route.ts:68 | `slice(-n)` keeps `n` elements, or all of them when there are fewer |
| ChatHistory.Limited | src/app/api/chat/route.ts:46-72 | the history kept: the whole input when it fits, else the leading system run followed by the most recent other messages that fit |
| ChatHistory.LimitMessagesHistory | src/app/api/chat/route.ts:46-72 | the loop and slices compute the truncated history `Limited` |
| ChatHistory.LeadingSystemUnique | src/app/api/chat/route.ts:54-57 | the loop stops exactly at the end of the leading run |
| ChatHistory.LimitedShape | src/app/api/chat/route.ts:46-72 | a history that fits is kept; otherwise the result keeps the whole leading system run, is only that run when the run fills the budget, has exactly `maxMessages` messages otherwise, and is always the run followed by a suffix of the rest |
| ChatHistory.LimitedIdempotent | src/app/api/chat/route.ts:46-72 | truncating a truncated history changes nothing |
| Middleware.Decide | src/middleware.ts:15-64 | the page-access decision: exempt paths pass, a missing token redirects to the sign-in page with a callback URL, a token that fails to verify redirects without one and deletes the cookie |
| Middleware.NextIff | src/middleware.ts:15-64 | a request goes through exactly when its path is exempt or it carries a token that verifies |
| Middleware.CallbackIff | src/middleware.ts:38-43 | the redirect carries a callback URL exactly when a protected page is asked for without a token |
| Middleware.DeleteCookieIff | src/middleware.ts:45-63 | the token cookie is deleted exactly when a protected page is asked for with a token that fails to verify |
| Middleware.ExemptIgnoresToken | src/middleware.ts:19-32 | on an exempt path the decision does not depend on the token or on verification |
| Middleware.PrefixesAreExempt | src/middleware.ts:5-9 | each listed static, public and API prefix opens every path that starts with it |

## Left out

- Connecting to the database, `await` and the request and response objects are not modelled. `Todo.find` becomes a read of the stored sequence, and each write is one method of the collection class.
- Concurrency between requests, and the partial effect of a loop of `save` calls that fails half-way, are not modelled.
- A database fault inside a tool would make `POST` answer 500 and the other tools throw. It is not modelled: every store operation succeeds.
- Similarity.CalculateSimilarity: JavaScript string lengths and indices count UTF-16 code units, while a Dafny `char` is a whole Unicode scalar value. A character above U+FFFF is one position here and two in the source, so the scores of such texts differ: `"😀a"` against `"a"` scores 1/2 here and 1/3 in the source.
- Similarity.Score: the source computes `1 - distance / maxLength` in double-precision floating point, while the model computes it as an exact `real`. For texts of realistic length the rounding cannot change the outcome of the `< 0.5` threshold test or of the strict `>` comparison in the `reduce`.
- Matcher.Match: `Todo.find({})` returns the documents in an order MongoDB does not fix. The model takes the stored order, which decides the tie-break of the `reduce`.
- LegacyTools.AddTodo: requires a non-empty text. The schema's `required` check makes `save` throw on an empty one, and the endpoint never passes one.
- UserTools.AddTodo: requires a non-empty text for a signed-in caller, because `Todo.create` throws on an empty one. That throw is not modelled.
- `toLowerCase` is modelled on ASCII letters only. JavaScript also lower-cases other Unicode letters.
- `parseInt` of a long digit run loses precision in JavaScript. The model reads it exactly.
- The `todo` and `todos` payload fields of a tool result are not modelled. Only success, message or error, and count are.
- CommandRoute.Post: the 200 answer's text is the message or the error. The `result.message || result.error` fallback for an empty message is not modelled, because no tool produces an empty message.
- The Fuse.js ranking is a parameter. Only "every hit is a searched todo" is assumed, so nothing is proved about which todo Fuse ranks first.
- `needAuth()` and the session it reads are an input, `auth`. `jwt.verify` is a predicate, `verifies`. `encodeURI` is a function, `encodeUri`.
- Middleware.Decide: the URLs of the redirect are not built. The decision records whether a callback is set and whether the cookie is deleted. The route `matcher` configuration, which keeps some paths away from the middleware, is not modelled.
- ChatHistory.LimitMessagesHistory: a `null` or missing `messages` array, which the source returns unchanged, has no counterpart in a Dafny sequence.
- The `streamText` call, the Gemini model and the `weather` tool of the chat route are outside the model.
- The Mongoose schema in `src/lib/models/todo.ts` declares no `userId` field. The model stores the owner the tools write.
- MongoDB leaves the order of todos with equal `createdAt` open. The model sorts stably, keeping stored order.
- `limit` with a fractional count is not modelled. Counts are integers.

## Findings

| source | as written | input that shows it | evidently intended | confidence | as-written member | corrected member |
|---|---|---|---|---|---|---|
| src/app/api/todos/command/route.ts:276-320 | the "mark … done" test comes before the "mark … undone / not done" test, and both `undone` and `not done` contain `done` | `mark undone milk` goes down the mark-done branch: removing the done patterns leaves `un milk`, which scores 1 − 3/7 ≈ 0.57 against a todo `milk`, so `milk` is marked done. With the undone test first it becomes `MarkUndone("milk")`. A suffix form such as `mark milk undone` still misses after the fix, because the removal leaves `mark milk`, which scores 4/9 against `milk` | "undone / not done" commands mark the todo as not done, so the undone test comes first | not executed | CommandRoute.ClassifyAsWritten (CommandRoute.UndoneUnreachableAsWritten, CommandRoute.UndoneCommandMarksDoneAsWritten) | CommandRoute.Classify (CommandRoute.UndoneCommandReachesUndone) |
| src/app/api/todos/command/route.ts:277-285 | `todoTools[6]`, `[7]` and `[8]` are used for first, last and count, but the array is indexed from 0 and holds eight tools | `mark first as done` marks the latest todo. `mark last as done` marks every todo. `mark 2 as done` reads `execute` of `undefined`, which throws, and is answered 500 | `todoTools[5]` (first), `[6]` (last) and `[7]` with `(count, fromEnd)` | not executed | CommandRoute.DispatchAsWritten (CommandRoute.MisrouteAsWritten, CommandRoute.FirstMarksLatestAsWritten, CommandRoute.LastMarksAllAsWritten, CommandRoute.CountCommandAsWritten, CommandRoute.PostAsWrittenStatus) | CommandRoute.Dispatch (CommandRoute.FirstMarksEarliest, CommandRoute.LastMarksLatest, CommandRoute.CountMarksFirst, CommandRoute.PostStatus) |
| src/app/api/todos/command/route.ts:322-336 | the delete and clear rules test `includes('all')`, which also matches `all` inside another word | `delete call mom` skips the delete rule, because `call` contains `all`, and runs clearAllTodos, which deletes every todo | `all` read as a whole word, so `delete call mom` deletes the todo `call mom` | not executed | CommandRoute.ClassifyAsWritten (CommandRoute.DeleteCallClearsAsWritten) | CommandRoute.Classify (CommandRoute.DeleteCallDeletesOne, CommandRoute.DeleteAllWordClears) |
