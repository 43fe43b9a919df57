/**
 * The todo collection the command tools work on: the stored documents, the result
 * every tool returns, a class standing for the document collection with the writes
 * the tools issue, and the queries they read it with (find by filter, sort by
 * `createdAt`, limit).
 */
module TodoModel {
  import opened Common

  type UserId = string

  /** A stored todo; `userId` is absent on documents the unscoped tools create. */
  datatype Todo = Todo(id: nat, userId: Option<UserId>, text: string, completed: bool, createdAt: int)

  /** What every tool returns: a message on success, an error otherwise, and a count for bulk marking. */
  datatype ToolResult = Success(message: string, count: Option<nat>) | Failure(error: string)
  {
    /** `result.message || result.error`: the text the endpoint answers with. */
    function Text(): string
    {
      if Success? then message else error
    }
  }

  const TodoNotFound := "Todo not found"
  const NoTodosFound := "No todos found"

  predicate UniqueIds(ts: seq<Todo>)
  {
    forall i, j :: 0 <= i < j < |ts| ==> ts[i].id != ts[j].id
  }

  function Ids(ts: seq<Todo>): set<nat>
  {
    set t | t in ts :: t.id
  }

  /** The documents of `ts` a filter keeps, in stored order. */
  function Filter(ts: seq<Todo>, keep: Todo -> bool): (r: seq<Todo>)
    ensures |r| <= |ts|
    ensures forall t :: t in r <==> t in ts && keep(t)
  {
    if ts == [] then []
    else if keep(ts[0]) then [ts[0]] + Filter(ts[1..], keep)
    else Filter(ts[1..], keep)
  }

  /** `Todo.find({ userId })`. */
  function OwnedBy(ts: seq<Todo>, user: UserId): (r: seq<Todo>)
    ensures forall t :: t in r <==> t in ts && t.userId == Some(user)
    ensures UniqueIds(ts) ==> UniqueIds(r)
  {
    var keep := (t: Todo) => t.userId == Some(user);
    FilterUnique(ts, keep);
    Filter(ts, keep)
  }

  /** `Todo.find({ userId, completed: false })`. */
  function IncompleteOwnedBy(ts: seq<Todo>, user: UserId): (r: seq<Todo>)
    ensures forall t :: t in r <==> t in ts && t.userId == Some(user) && !t.completed
    ensures UniqueIds(ts) ==> UniqueIds(r)
  {
    var keep := (t: Todo) => t.userId == Some(user) && !t.completed;
    FilterUnique(ts, keep);
    Filter(ts, keep)
  }

  /** The documents of every other user (and the unowned ones): what `deleteMany({ userId })` keeps. */
  function NotOwnedBy(ts: seq<Todo>, user: UserId): (r: seq<Todo>)
    ensures forall t :: t in r <==> t in ts && t.userId != Some(user)
    ensures UniqueIds(ts) ==> UniqueIds(r)
  {
    var keep := (t: Todo) => t.userId != Some(user);
    FilterUnique(ts, keep);
    Filter(ts, keep)
  }

  /** What `findByIdAndDelete(id)` keeps. */
  function WithoutId(ts: seq<Todo>, id: nat): (r: seq<Todo>)
    ensures forall t :: t in r <==> t in ts && t.id != id
    ensures UniqueIds(ts) ==> UniqueIds(r)
  {
    var keep := (t: Todo) => t.id != id;
    FilterUnique(ts, keep);
    Filter(ts, keep)
  }

  /**
   * The documents after `completed` is written on those whose id is in `ids`
   * (`updateOne`, `updateMany` with `$in`, or `doc.completed = v; doc.save()`).
   */
  function SetCompleted(ts: seq<Todo>, ids: set<nat>, completed: bool): (r: seq<Todo>)
    ensures |r| == |ts|
    ensures forall k :: 0 <= k < |ts| ==> r[k] == if ts[k].id in ids then ts[k].(completed := completed) else ts[k]
  {
    if ts == [] then []
    else [if ts[0].id in ids then ts[0].(completed := completed) else ts[0]] + SetCompleted(ts[1..], ids, completed)
  }

  /** Order of `.sort({ createdAt: 1 })` (ascending) or `.sort({ createdAt: -1 })` (descending). */
  predicate InOrder(x: Todo, y: Todo, descending: bool)
  {
    if descending then x.createdAt >= y.createdAt else x.createdAt <= y.createdAt
  }

  predicate SortedBy(ts: seq<Todo>, descending: bool)
  {
    forall i, j :: 0 <= i < j < |ts| ==> InOrder(ts[i], ts[j], descending)
  }

  function Insert(x: Todo, s: seq<Todo>, descending: bool): (r: seq<Todo>)
    requires SortedBy(s, descending)
    ensures SortedBy(r, descending)
    ensures multiset(r) == multiset(s) + multiset{x}
    ensures forall t :: t in r <==> t in s || t == x
  {
    if s == [] then [x]
    else if InOrder(x, s[0], descending) then [x] + s
    else
      var rest := Insert(x, s[1..], descending);
      SortedHead(s, descending);
      SortedCons(s[0], rest, descending);
      assert s == [s[0]] + s[1..];
      [s[0]] + rest
  }

  /** The head of a sorted sequence is in order with everything after it. */
  lemma SortedHead(s: seq<Todo>, descending: bool)
    requires SortedBy(s, descending) && s != []
    ensures forall e :: e in s[1..] ==> InOrder(s[0], e, descending)
  {
    forall e | e in s[1..] ensures InOrder(s[0], e, descending) {
      var k :| 0 <= k < |s[1..]| && s[1..][k] == e;
      assert s[k + 1] == e;
    }
  }

  lemma SortedCons(y: Todo, s: seq<Todo>, descending: bool)
    requires SortedBy(s, descending) && forall e :: e in s ==> InOrder(y, e, descending)
    ensures SortedBy([y] + s, descending)
  {
    var r := [y] + s;
    forall i, j | 0 <= i < j < |r| ensures InOrder(r[i], r[j], descending) {
      if i == 0 {
        assert r[j] == s[j - 1] && r[j] in s;
      } else {
        assert r[i] == s[i - 1] && r[j] == s[j - 1];
      }
    }
  }

  /**
   * `.sort({ createdAt })` on a result set. MongoDB leaves the order of equal keys
   * open; this model keeps stored order for them (an insertion sort, stable).
   */
  function SortByCreatedAt(ts: seq<Todo>, descending: bool): (r: seq<Todo>)
    ensures SortedBy(r, descending)
    ensures multiset(r) == multiset(ts)
    ensures |r| == |ts|
  {
    if ts == [] then []
    else
      var r := Insert(ts[0], SortByCreatedAt(ts[1..], descending), descending);
      assert ts == [ts[0]] + ts[1..];
      r
  }

  /**
   * How many documents `.limit(count)` lets through out of `n`: MongoDB reads a
   * limit of 0 as no limit and a negative limit as its absolute value.
   */
  function LimitCount(count: int, n: nat): (r: nat)
    ensures r <= n
    ensures count == 0 ==> r == n
    ensures count > 0 ==> r <= count
    ensures r < n ==> r == count || r == -count
  {
    var bound := if count < 0 then -count else count;
    if count == 0 || bound >= n then n else bound
  }

  /** `find(filter).sort({ createdAt }).limit(count)` over the documents `ts` the filter kept. */
  function Query(ts: seq<Todo>, descending: bool, count: int): (r: seq<Todo>)
  {
    SortByCreatedAt(ts, descending)[..LimitCount(count, |ts|)]
  }

  /** The MongoDB collection of todos: its documents and the allocator of fresh ids. */
  class TodoCollection {
    var todos: seq<Todo>
    var nextId: nat

    /** Document ids are unique (MongoDB's `_id` index) and below the allocator. */
    ghost predicate Valid()
      reads this
    {
      UniqueIds(todos) && forall t :: t in todos ==> t.id < nextId
    }

    constructor ()
      ensures Valid() && todos == [] && nextId == 0
    {
      todos := [];
      nextId := 0;
    }

    /** `Todo.create(...)` or `new Todo(...).save()`: an incomplete todo with a fresh id, appended. */
    method Create(userId: Option<UserId>, text: string, createdAt: int) returns (t: Todo)
      requires Valid()
      modifies this
      ensures Valid()
      ensures t == Todo(old(nextId), userId, text, false, createdAt) && t.id !in Ids(old(todos))
      ensures todos == old(todos) + [t] && nextId == old(nextId) + 1
    {
      t := Todo(nextId, userId, text, false, createdAt);
      todos := todos + [t];
      nextId := nextId + 1;
    }

    /** Writes `completed` on every document whose id is in `ids`. */
    method UpdateCompleted(ids: set<nat>, completed: bool)
      requires Valid()
      modifies this
      ensures Valid()
      ensures todos == SetCompleted(old(todos), ids, completed) && nextId == old(nextId)
    {
      todos := SetCompleted(todos, ids, completed);
      assert forall k :: 0 <= k < |todos| ==> todos[k].id == old(todos)[k].id;
      assert forall t :: t in todos ==> exists k :: 0 <= k < |todos| && t == todos[k];
    }

    /** `findByIdAndDelete(id)`. */
    method DeleteById(id: nat)
      requires Valid()
      modifies this
      ensures Valid()
      ensures todos == WithoutId(old(todos), id) && nextId == old(nextId)
    {
      todos := WithoutId(todos, id);
    }

    /** `deleteMany({ userId })`. */
    method DeleteOwnedBy(user: UserId)
      requires Valid()
      modifies this
      ensures Valid()
      ensures todos == NotOwnedBy(old(todos), user) && nextId == old(nextId)
    {
      todos := NotOwnedBy(todos, user);
    }

    /** `deleteMany({})`. */
    method DeleteAll()
      requires Valid()
      modifies this
      ensures Valid()
      ensures todos == [] && nextId == old(nextId)
    {
      todos := [];
    }
  }

  /** Filtering keeps ids unique. */
  lemma {:induction false} FilterUnique(ts: seq<Todo>, keep: Todo -> bool)
    ensures UniqueIds(ts) ==> UniqueIds(Filter(ts, keep))
  {
    if ts != [] && UniqueIds(ts) {
      FilterUnique(ts[1..], keep);
      var rest := Filter(ts[1..], keep);
      assert forall t :: t in rest ==> t in ts[1..];
      forall t | t in rest ensures t.id != ts[0].id {
        var k :| 0 <= k < |ts[1..]| && ts[1..][k] == t;
        assert ts[k + 1] == t;
      }
    }
  }

  /** The first document of a sorted result is the earliest (or, descending, the latest) of all. */
  lemma FirstIsExtreme(ts: seq<Todo>, descending: bool)
    requires ts != []
    ensures SortByCreatedAt(ts, descending)[0] in ts
    ensures forall t :: t in ts ==> InOrder(SortByCreatedAt(ts, descending)[0], t, descending)
  {
    var s := SortByCreatedAt(ts, descending);
    assert s[0] in multiset(s);
    forall t | t in ts ensures InOrder(s[0], t, descending) {
      assert t in multiset(ts);
      var k :| 0 <= k < |s| && s[k] == t;
      if k > 0 { assert InOrder(s[0], s[k], descending); }
    }
  }

  /**
   * `find(filter).sort(...).limit(count)` returns `LimitCount(count, |ts|)` of the documents
   * the filter kept, and each of them comes no later in sort order than every one left out.
   */
  lemma QuerySelects(ts: seq<Todo>, descending: bool, count: int)
    ensures |Query(ts, descending, count)| == LimitCount(count, |ts|)
    ensures forall t :: t in Query(ts, descending, count) ==> t in ts
    ensures forall x, y :: x in Query(ts, descending, count) && y in ts && y !in Query(ts, descending, count)
              ==> InOrder(x, y, descending)
  {
    var s := SortByCreatedAt(ts, descending);
    var n := LimitCount(count, |ts|);
    var q := s[..n];
    forall t | t in q ensures t in ts {
      assert t in multiset(s);
    }
    forall y | y in ts ensures y in s {
      assert y in multiset(s);
    }
    SortedPrefix(s, n, descending);
  }

  /** Everything in a prefix of a sorted sequence is in order with everything outside it. */
  lemma SortedPrefix(s: seq<Todo>, n: nat, descending: bool)
    requires SortedBy(s, descending) && n <= |s|
    ensures forall x, y :: x in s[..n] && y in s && y !in s[..n] ==> InOrder(x, y, descending)
  {
    forall x, y | x in s[..n] && y in s && y !in s[..n] ensures InOrder(x, y, descending) {
      var i :| 0 <= i < n && s[..n][i] == x;
      assert s == s[..n] + s[n..];
      assert y in s[n..];
      var m :| 0 <= m < |s| - n && s[n..][m] == y;
      assert s[i] == x && s[n + m] == y;
    }
  }

  /** Writing a value every selected document already has changes nothing. */
  lemma {:induction false} SetCompletedNoOp(ts: seq<Todo>, ids: set<nat>, completed: bool)
    requires forall t :: t in ts && t.id in ids ==> t.completed == completed
    ensures SetCompleted(ts, ids, completed) == ts
  {
    if ts != [] {
      SetCompletedNoOp(ts[1..], ids, completed);
    }
  }

  /** Writing the same value twice is the same as writing it once. */
  lemma {:induction false} SetCompletedIdempotent(ts: seq<Todo>, ids: set<nat>, completed: bool)
    ensures SetCompleted(SetCompleted(ts, ids, completed), ids, completed) == SetCompleted(ts, ids, completed)
  {
    if ts != [] {
      SetCompletedIdempotent(ts[1..], ids, completed);
      assert SetCompleted(ts, ids, completed)[1..] == SetCompleted(ts[1..], ids, completed);
    }
  }

  /** Marking documents one at a time is marking their ids all at once. */
  lemma {:induction false} SetCompletedStep(ts: seq<Todo>, ids: set<nat>, id: nat, completed: bool)
    ensures SetCompleted(SetCompleted(ts, ids, completed), {id}, completed) == SetCompleted(ts, ids + {id}, completed)
  {
    if ts != [] {
      SetCompletedStep(ts[1..], ids, id, completed);
      assert SetCompleted(ts, ids, completed)[1..] == SetCompleted(ts[1..], ids, completed);
    }
  }

  /** A write on documents of one user leaves every other document as it was, in order. */
  lemma {:induction false} SetCompletedKeepsOthers(ts: seq<Todo>, ids: set<nat>, completed: bool, user: UserId)
    requires forall t :: t in ts && t.id in ids ==> t.userId == Some(user)
    ensures NotOwnedBy(SetCompleted(ts, ids, completed), user) == NotOwnedBy(ts, user)
  {
    if ts != [] {
      SetCompletedKeepsOthers(ts[1..], ids, completed, user);
      assert SetCompleted(ts, ids, completed) == [SetCompleted(ts, ids, completed)[0]] + SetCompleted(ts[1..], ids, completed);
    }
  }

  /** Deleting a present id of a store with unique ids removes exactly one document. */
  lemma {:induction false} WithoutIdRemovesOne(ts: seq<Todo>, id: nat)
    requires UniqueIds(ts) && id in Ids(ts)
    ensures |WithoutId(ts, id)| == |ts| - 1
  {
    assert ts == [ts[0]] + ts[1..];
    if ts[0].id == id {
      WithoutIdAbsent(ts[1..], id);
    } else {
      var t :| t in ts && t.id == id;
      assert t in ts[1..];
      WithoutIdRemovesOne(ts[1..], id);
    }
  }

  lemma {:induction false} WithoutIdAbsent(ts: seq<Todo>, id: nat)
    requires forall t :: t in ts ==> t.id != id
    ensures WithoutId(ts, id) == ts
  {
    if ts != [] {
      WithoutIdAbsent(ts[1..], id);
    }
  }

  /** Deleting a document of one user leaves every other document as it was, in order. */
  lemma {:induction false} WithoutIdKeepsOthers(ts: seq<Todo>, id: nat, user: UserId)
    requires forall t :: t in ts && t.id == id ==> t.userId == Some(user)
    ensures NotOwnedBy(WithoutId(ts, id), user) == NotOwnedBy(ts, user)
  {
    if ts != [] {
      WithoutIdKeepsOthers(ts[1..], id, user);
    }
  }

  /** A new document of one user leaves every other document as it was. */
  lemma {:induction false} AppendKeepsOthers(ts: seq<Todo>, t: Todo, user: UserId)
    requires t.userId == Some(user)
    ensures NotOwnedBy(ts + [t], user) == NotOwnedBy(ts, user)
    ensures OwnedBy(ts + [t], user) == OwnedBy(ts, user) + [t]
  {
    if ts != [] {
      AppendKeepsOthers(ts[1..], t, user);
      assert (ts + [t])[1..] == ts[1..] + [t];
    }
  }

  /** After `deleteMany({ userId })` the user has no documents, and a second call changes nothing. */
  lemma {:induction false} ClearOwned(ts: seq<Todo>, user: UserId)
    ensures OwnedBy(NotOwnedBy(ts, user), user) == []
    ensures NotOwnedBy(NotOwnedBy(ts, user), user) == NotOwnedBy(ts, user)
  {
    if ts != [] {
      ClearOwned(ts[1..], user);
    }
  }

  /** What another user sees is decided by the documents not owned by `user`. */
  lemma {:induction false} OtherUserView(ts: seq<Todo>, user: UserId, other: UserId)
    requires other != user
    ensures OwnedBy(NotOwnedBy(ts, user), other) == OwnedBy(ts, other)
  {
    if ts != [] {
      OtherUserView(ts[1..], user, other);
    }
  }
}
