/** `POST /api/todos/reorder`: rewrites the position of every submitted
    todo inside one transaction, after checking the payload's shape and
    that every submitted id exists. */
module TodosReorder {
  import opened Options
  import opened Js
  import opened Http
  import opened Entities
  import opened Seqs
  import opened Sorting
  import opened Store
  import opened ReorderEntries

  /** How far a request gets before the transaction: the body cannot be
      destructured (500), the `todos` field is not a non-empty array (400),
      an entry is malformed (400) or null (500), or the entries to write. */
  datatype Request =
    | BodyThrows
    | NotANonEmptyArray
    | BadEntry
    | EntryThrows
    | Submitted(items: seq<Value>, entries: seq<PositionEntry>)

  function ParseRequest(body: Value): (r: Request)
    ensures r.BodyThrows? <==> IsNullish(body)
    ensures r.NotANonEmptyArray? <==> !IsNullish(body) && (Get(body, "todos") == Arr([]) || !Get(body, "todos").Arr?)
    ensures r.Submitted? ==> !IsNullish(body) && Get(body, "todos") == Arr(r.items)
    ensures r.Submitted? ==> |r.items| > 0 && |r.entries| == |r.items|
    ensures r.Submitted? ==> forall i :: 0 <= i < |r.items| ==> !IsNullish(r.items[i])
  {
    if IsNullish(body) then BodyThrows
    else
      var todos := Get(body, "todos");
      if !todos.Arr? || |todos.items| == 0 then NotANonEmptyArray
      else match CheckEntries(todos.items, true)
        case Throws => EntryThrows
        case Malformed => BadEntry
        case Entries(es) =>
          assert forall i :: 0 <= i < |todos.items| ==> WellFormedAt(todos.items, i, true);
          Submitted(todos.items, es)
  }

  /** The key an entry is grouped under: its `categoryId` when truthy,
      `'uncategorized'` otherwise, as the string the record indexes by. */
  function CategoryKey(v: Value): string
    requires !IsNullish(v)
  {
    if Truthy(Get(v, "categoryId")) then ToPropertyKey(Get(v, "categoryId")) else "uncategorized"
  }

  function InGroup(k: string): Value -> bool {
    (v: Value) => !IsNullish(v) && CategoryKey(v) == k
  }

  /** The keys of the first `n` entries. */
  function KeysOf(items: seq<Value>, n: nat): (r: set<string>)
    requires n <= |items|
    requires forall i :: 0 <= i < |items| ==> !IsNullish(items[i])
    ensures forall k :: k in r <==> exists i :: 0 <= i < n && CategoryKey(items[i]) == k
  {
    set i | 0 <= i < n :: CategoryKey(items[i])
  }

  /** `groups` holds the groups of the first `n` entries. */
  ghost predicate GroupsOf(items: seq<Value>, n: nat, groups: map<string, seq<Value>>)
    requires n <= |items|
    requires forall i :: 0 <= i < |items| ==> !IsNullish(items[i])
  {
    && groups.Keys == KeysOf(items, n)
    && forall k :: k in groups ==> groups[k] == Filter(items[..n], InGroup(k))
  }

  /** The grouping throws a TypeError: some entry's key names a property
      the record inherits, so `todosByCategory[categoryKey]` is already
      truthy, no array is created, and `.push` is not a function. */
  predicate GroupingThrows(items: seq<Value>)
    requires forall i :: 0 <= i < |items| ==> !IsNullish(items[i])
  {
    exists i :: 0 <= i < |items| && Inherited(CategoryKey(items[i]))
  }

  predicate OwnKeys(items: seq<Value>, n: nat)
    requires n <= |items|
    requires forall i :: 0 <= i < |items| ==> !IsNullish(items[i])
  {
    forall i :: 0 <= i < n ==> !Inherited(CategoryKey(items[i]))
  }

  /** Pushing entry `n` onto its group, creating the group first when it
      is missing, gives the groups of the first `n + 1` entries. */
  lemma GroupStep(items: seq<Value>, n: nat, groups: map<string, seq<Value>>)
    requires n < |items|
    requires forall i :: 0 <= i < |items| ==> !IsNullish(items[i])
    requires !Inherited(CategoryKey(items[n]))
    requires GroupsOf(items, n, groups)
    ensures var key := CategoryKey(items[n]);
      GroupsOf(items, n + 1, groups[key := (if key in groups then groups[key] else []) + [items[n]]])
  {
    var v := items[n];
    var key := CategoryKey(v);
    var after := groups[key := (if key in groups then groups[key] else []) + [v]];
    assert items[..n + 1] == items[..n] + [v];
    if key !in groups {
      FilterNone(items[..n], InGroup(key));
    }
    forall k | k in after ensures after[k] == Filter(items[..n + 1], InGroup(k)) {
      FilterSnoc(items[..n], v, InGroup(k));
    }
    assert KeysOf(items, n + 1) == KeysOf(items, n) + {key};
  }

  /** The `todosByCategory` record the handler fills with `forEach` and
      `push`: each key maps to the entries with that key, in request order,
      unless an inherited key makes the push throw. The handler never reads
      the record afterwards. */
  method GroupByCategory(items: seq<Value>) returns (groups: map<string, seq<Value>>, throws: bool)
    requires forall i :: 0 <= i < |items| ==> !IsNullish(items[i])
    ensures throws <==> GroupingThrows(items)
    ensures !throws ==> groups.Keys == KeysOf(items, |items|)
    ensures !throws ==> forall k :: k in groups ==> groups[k] == Filter(items, InGroup(k))
  {
    groups := map[];
    for n := 0 to |items|
      invariant GroupsOf(items, n, groups)
      invariant OwnKeys(items, n)
    {
      var key := CategoryKey(items[n]);
      if Inherited(key) {
        // TypeError: `todosByCategory[key].push` is not a function
        return groups, true;
      }
      GroupStep(items, n, groups);
      if key !in groups {
        groups := groups[key := []];
      }
      groups := groups[key := groups[key] + [items[n]]];
    }
    assert items[..|items|] == items;
    throws := false;
  }

  /** `a` is `b` with at most its position and `updatedAt` changed. */
  predicate SameButPosition(a: TodoRow, b: TodoRow) {
    a == b.(position := a.position, updatedAt := a.updatedAt)
  }

  /** Entry `e` written into `t` at time `now`. */
  function Written(t: TodoRow, e: PositionEntry, now: int): TodoRow {
    t.(position := e.position, updatedAt := now)
  }

  /** The todo table after writing each entry's position in turn at time
      `now`: only positions and update times change, every named todo
      carries the time of the write, and todos not named keep their row. */
  function ApplyPositions(m: map<string, TodoRow>, es: seq<PositionEntry>, now: int): (r: map<string, TodoRow>)
    requires forall i :: 0 <= i < |es| ==> es[i].id in m
    ensures r.Keys == m.Keys
    ensures forall k :: k in m ==> SameButPosition(r[k], m[k])
    ensures forall k :: k in m && k !in IdsOf(es) ==> r[k] == m[k]
    ensures forall k :: k in m && k in IdsOf(es) ==> r[k].updatedAt == now
    decreases |es|
  {
    if es == [] then m
    else
      var e := es[0];
      assert IdsOf(es) == [e.id] + IdsOf(es[1..]);
      ApplyPositions(m[e.id := Written(m[e.id], e, now)], es[1..], now)
  }

  /** Writing the entries from `n` on is writing entry `n`, then the rest. */
  lemma ApplyPositionsFrom(m: map<string, TodoRow>, es: seq<PositionEntry>, n: int, now: int)
    requires forall j :: 0 <= j < |es| ==> es[j].id in m
    requires 0 <= n < |es|
    ensures ApplyPositions(m, es[n..], now) ==
      ApplyPositions(m[es[n].id := Written(m[es[n].id], es[n], now)], es[n + 1..], now)
  {
    assert es[n..][1..] == es[n + 1..];
  }

  /** A named todo ends with the position of the last entry naming it. */
  lemma {:induction false} ApplyPositionsLast(m: map<string, TodoRow>, es: seq<PositionEntry>, i: int, now: int)
    requires forall j :: 0 <= j < |es| ==> es[j].id in m
    requires 0 <= i < |es| && LastFor(es, i)
    ensures ApplyPositions(m, es, now)[es[i].id].position == es[i].position
    decreases |es|
  {
    var e := es[0];
    var m' := m[e.id := Written(m[e.id], e, now)];
    var tail := es[1..];
    if i == 0 {
      assert e.id !in IdsOf(tail) by {
        forall j | 0 <= j < |tail| ensures IdsOf(tail)[j] != e.id {
          assert tail[j] == es[j + 1];
        }
      }
    } else {
      assert LastFor(tail, i - 1) by {
        forall j | i - 1 < j < |tail| ensures tail[j].id != tail[i - 1].id {
          assert tail[j] == es[j + 1];
        }
      }
      ApplyPositionsLast(m', tail, i - 1, now);
    }
  }

  /** Without repeated ids, every named todo ends with its entry's position. */
  lemma ApplyPositionsDistinct(m: map<string, TodoRow>, es: seq<PositionEntry>, now: int)
    requires forall j :: 0 <= j < |es| ==> es[j].id in m
    requires Distinct(IdsOf(es))
    ensures forall i :: 0 <= i < |es| ==> ApplyPositions(m, es, now)[es[i].id].position == es[i].position
  {
    forall i | 0 <= i < |es| ensures ApplyPositions(m, es, now)[es[i].id].position == es[i].position {
      assert LastFor(es, i) by {
        forall j | i < j < |es| ensures es[j].id != es[i].id {
          assert IdsOf(es)[i] != IdsOf(es)[j];
        }
      }
      ApplyPositionsLast(m, es, i, now);
    }
  }

  /** The position writes inside the transaction, one entry at a time,
      up to the first write the store refuses. */
  method WriteUntilFailure(db: Db, es: seq<PositionEntry>, failing: set<string>, now: int) returns (n: nat)
    requires db.Valid()
    requires forall i :: 0 <= i < |es| ==> es[i].id in db.todos
    modifies db
    ensures db.Valid()
    ensures db.categories == old(db.categories) && db.labels == old(db.labels)
    ensures n == FirstFailing(es, failing)
    ensures n == |es| ==> db.todos == ApplyPositions(old(db.todos), es, now)
  {
    n := 0;
    while n < |es| && !Refused(es[n], failing)
      invariant n <= FirstFailing(es, failing)
      invariant db.Valid()
      invariant db.categories == old(db.categories) && db.labels == old(db.labels)
      invariant db.todos.Keys == old(db.todos).Keys
      invariant ApplyPositions(db.todos, es[n..], now) == ApplyPositions(old(db.todos), es, now)
    {
      ApplyPositionsFrom(db.todos, es, n, now);
      db.UpdateTodoPosition(es[n].id, es[n].position, now);
      n := n + 1;
    }
  }

  /** The transaction: all writes, or none when one of them fails. */
  method WritePositions(db: Db, es: seq<PositionEntry>, failing: set<string>, now: int) returns (failed: bool)
    requires db.Valid()
    requires forall i :: 0 <= i < |es| ==> es[i].id in db.todos
    modifies db
    ensures db.Valid()
    ensures db.categories == old(db.categories) && db.labels == old(db.labels)
    ensures failed <==> exists i :: 0 <= i < |es| && Refused(es[i], failing)
    ensures failed ==> db.todos == old(db.todos)
    ensures !failed ==> db.todos == ApplyPositions(old(db.todos), es, now)
  {
    var snapshot := db.todos;
    var n := WriteUntilFailure(db, es, failing, now);
    failed := n < |es|;
    if failed {
      // the transaction rolls back
      db.RollbackTodos(snapshot);
    }
  }

  const InvalidData := "Invalid todos data"
  const InvalidFormat := "Invalid todo format - each todo must have an id, position, and status"
  const TodosNotFound := "One or more todos could not be found"
  const ReorderFailed := "Failed to reorder todos"

  /** The transaction and the read-back, for well-formed entries; `now`
      is the time of the writes. */
  method Reorder(db: Db, es: seq<PositionEntry>, failing: set<string>, now: int) returns (r: Response<seq<TodoRow>>)
    requires db.Valid()
    modifies db
    ensures db.Valid()
    ensures db.categories == old(db.categories) && db.labels == old(db.labels)
    ensures r.Error? ==> db.todos == old(db.todos)
    ensures !AllFound(IdsOf(es), old(db.todos).Keys) ==> r == Error(NotFound, TodosNotFound)
    ensures AllFound(IdsOf(es), old(db.todos).Keys) ==>
      && (r.Error? <==> exists i :: 0 <= i < |es| && Refused(es[i], failing))
      && (r.Error? ==> r == Error(ServerError, ReorderFailed))
      && (r.Ok? ==> db.todos == ApplyPositions(old(db.todos), es, now))
      && (r.Ok? ==> forall i :: 0 <= i < |es| ==> db.todos[es[i].id].position == es[i].position)
      && (r.Ok? ==> forall i :: 0 <= i < |es| ==> db.todos[es[i].id].updatedAt == now)
      && (r.Ok? ==> Lists(r.body, Matching(db.todos, IdIn(SetOf(IdsOf(es))))))
      && (r.Ok? ==> SortedBy(r.body, TodoReorderOrder(db.collation)))
  {
    var ids := IdsOf(es);
    var existing := db.FindTodosIn(SetOf(ids));
    AllFoundIff(ids, db.todos.Keys);
    assert Matching(db.todos, IdIn(SetOf(ids))).Keys == db.todos.Keys * SetOf(ids);
    if |existing| != |es| {
      return Error(NotFound, TodosNotFound);
    }
    assert forall i :: 0 <= i < |es| ==> es[i].id in db.todos by {
      forall i | 0 <= i < |es| ensures es[i].id in db.todos {
        assert ids[i] in SetOf(ids);
      }
    }
    var failed := WritePositions(db, es, failing, now);
    if failed {
      return Error(ServerError, ReorderFailed);
    }
    ApplyPositionsDistinct(old(db.todos), es, now);
    assert forall i :: 0 <= i < |es| ==> es[i].id in IdsOf(es) by {
      forall i | 0 <= i < |es| ensures es[i].id in IdsOf(es) {
        assert IdsOf(es)[i] == es[i].id;
      }
    }
    var rows := db.FindTodosInReorderOrder(SetOf(ids));
    return Ok(rows);
  }

  /** The whole handler. `failing` holds the ids whose position write the
      store refuses for a reason outside the model (any other store error
      inside the transaction); `now` is the time of the writes. */
  method Post(db: Db, body: Value, failing: set<string>, now: int) returns (r: Response<seq<TodoRow>>)
    requires db.Valid()
    modifies db
    ensures db.Valid()
    ensures db.categories == old(db.categories) && db.labels == old(db.labels)
    // all or nothing: a failed request leaves the todo table as it was
    ensures r.Error? ==> db.todos == old(db.todos)
    ensures ParseRequest(body).BodyThrows? ==> r == Error(ServerError, ReorderFailed)
    ensures ParseRequest(body).NotANonEmptyArray? ==> r == Error(BadRequest, InvalidData)
    ensures ParseRequest(body).BadEntry? ==> r == Error(BadRequest, InvalidFormat)
    ensures ParseRequest(body).EntryThrows? ==> r == Error(ServerError, ReorderFailed)
    ensures ParseRequest(body).Submitted? && GroupingThrows(ParseRequest(body).items) ==>
      r == Error(ServerError, ReorderFailed)
    ensures (ParseRequest(body).Submitted? && !GroupingThrows(ParseRequest(body).items) &&
             !AllFound(IdsOf(ParseRequest(body).entries), old(db.todos).Keys)) ==>
      r == Error(NotFound, TodosNotFound)
    ensures (ParseRequest(body).Submitted? && !GroupingThrows(ParseRequest(body).items) &&
             AllFound(IdsOf(ParseRequest(body).entries), old(db.todos).Keys)) ==>
      var es := ParseRequest(body).entries;
      && (r.Error? <==> exists i :: 0 <= i < |es| && Refused(es[i], failing))
      && (r.Error? ==> r == Error(ServerError, ReorderFailed))
      && (r.Ok? ==> db.todos == ApplyPositions(old(db.todos), es, now))
      && (r.Ok? ==> forall i :: 0 <= i < |es| ==> db.todos[es[i].id].position == es[i].position)
      && (r.Ok? ==> forall i :: 0 <= i < |es| ==> db.todos[es[i].id].updatedAt == now)
      && (r.Ok? ==> Lists(r.body, Matching(db.todos, IdIn(SetOf(IdsOf(es))))))
      && (r.Ok? ==> SortedBy(r.body, TodoReorderOrder(db.collation)))
  {
    match ParseRequest(body) {
      case BodyThrows => return Error(ServerError, ReorderFailed);
      case NotANonEmptyArray => return Error(BadRequest, InvalidData);
      case BadEntry => return Error(BadRequest, InvalidFormat);
      case EntryThrows => return Error(ServerError, ReorderFailed);
      case Submitted(items, es) =>
        var groups, throws := GroupByCategory(items);
        if throws {
          return Error(ServerError, ReorderFailed);
        }
        r := Reorder(db, es, failing, now);
    }
  }

  /** A well-formed entry whose `categoryId` is `"constructor"` groups
      under an inherited key, so the request fails with 500 and nothing is
      written. */
  lemma InheritedCategoryKeyThrows()
    ensures var entry := Obj(map["id" := Str("a"), "position" := Num(0), "status" := Str("TODO"),
                                 "categoryId" := Str("constructor")]);
      var body := Obj(map["todos" := Arr([entry])]);
      ParseRequest(body).Submitted? && GroupingThrows(ParseRequest(body).items)
  {
    var entry := Obj(map["id" := Str("a"), "position" := Num(0), "status" := Str("TODO"),
                         "categoryId" := Str("constructor")]);
    var body := Obj(map["todos" := Arr([entry])]);
    assert Get(entry, "status") == Str("TODO");
    assert WellFormedAt([entry], 0, true);
    assert CategoryKey(entry) == "constructor";
  }
}
