/** `GET /api/todos` and `POST /api/todos`: list the todos of one view in
    display order, and create a todo from a request body, filling in the
    defaults for the fields it leaves out. */
module TodosRoute {
  import opened Options
  import opened Js
  import opened Http
  import opened Entities
  import opened Sorting
  import opened Store

  const InvalidTitle := "Invalid todo title"
  const CreateFailed := "Failed to create todo"

  /** The `where` clause for the `categoryId` search parameter (`None` when
      the parameter is absent): absent shows every todo, empty shows the
      uncategorized ones, anything else that category. */
  function ViewFilter(categoryId: Option<string>): (w: TodoWhere)
    ensures forall t :: Selects(w, t) <==>
      || categoryId.None?
      || (categoryId == Some("") && t.categoryId.None?)
      || (categoryId.Some? && categoryId.value != "" && t.categoryId == categoryId)
  {
    if categoryId == Some("") then CategoryIs(None)
    else if categoryId.Some? then CategoryIs(categoryId)
    else AnyTodo
  }

  /** The todos of one view, by status, importance, due date and recency. */
  method List(db: Db, categoryId: Option<string>) returns (r: Response<seq<TodoRow>>)
    ensures r.Ok? && Lists(r.body, Matching(db.todos, ViewFilter(categoryId)))
    ensures r.Ok? && SortedBy(r.body, TodoListOrder)
  {
    var rows := db.FindTodosListOrder(ViewFilter(categoryId));
    r := Ok(rows);
  }

  // Each `...Column` function gives the stored value of one optional field,
  // or `None` when the store rejects the value the handler passes it (a
  // value of the wrong type, an unknown status, an invalid date).

  /** `categoryId`, with `undefined` and `''` turned into `null`. */
  function CategoryColumn(v: Value): (c: Option<Option<string>>)
    ensures c == Some(None) <==> v.Undefined? || v.Null? || v == Str("")
    ensures c.Some? && c.value.Some? <==> v.Str? && v.s != ""
    ensures c.Some? && c.value.Some? ==> c.value.value == v.s
  {
    match v
    case Undefined => Some(None)
    case Null => Some(None)
    case Str(s) => if s == "" then Some(None) else Some(Some(s))
    case _ => None
  }

  /** `dueDate ? new Date(dueDate) : null`; `toDate` is the `Date`
      constructor, `None` for an invalid date. */
  function DueDateColumn(v: Value, toDate: Value -> Option<int>): (c: Option<Option<int>>)
    ensures !Truthy(v) ==> c == Some(None)
    ensures Truthy(v) ==> (c.Some? <==> toDate(v).Some?) && (c.Some? ==> c.value == toDate(v))
  {
    if !Truthy(v) then Some(None)
    else if toDate(v).None? then None
    else Some(toDate(v))
  }

  /** `isImportant ?? false`. */
  function ImportantColumn(v: Value): (c: Option<bool>)
    ensures IsNullish(v) ==> c == Some(false)
    ensures c.Some? && !IsNullish(v) <==> v.Bool?
    ensures v.Bool? ==> c == Some(v.b)
  {
    if IsNullish(v) then Some(false) else if v.Bool? then Some(v.b) else None
  }

  /** `status || 'INBOX'`. */
  function StatusColumn(v: Value): (c: Option<Status>)
    ensures !Truthy(v) ==> c == Some(INBOX)
    ensures Truthy(v) ==> (c.Some? <==> v.Str? && v.s in {"INBOX", "TODO", "DONE"})
    ensures Truthy(v) && c.Some? ==> StatusName(c.value) == v.s
  {
    if !Truthy(v) then Some(INBOX)
    else if v.Str? then ParseStatus(v.s)
    else None
  }

  predicate AllStrings(items: seq<Value>) {
    forall i :: 0 <= i < |items| ==> items[i].Str?
  }

  function Strings(items: seq<Value>): (r: seq<string>)
    requires AllStrings(items)
    ensures |r| == |items| && forall i :: 0 <= i < |items| ==> r[i] == items[i].s
  {
    seq(|items|, i requires 0 <= i < |items| => items[i].s)
  }

  /** `labels || []`. */
  function LabelsColumn(v: Value): (c: Option<seq<string>>)
    ensures !Truthy(v) ==> c == Some([])
    ensures Truthy(v) ==> (c.Some? <==> v.Arr? && AllStrings(v.items))
    ensures Truthy(v) && c.Some? ==>
      |c.value| == |v.items| && forall i :: 0 <= i < |v.items| ==> c.value[i] == v.items[i].s
  {
    if !Truthy(v) then Some([])
    else if v.Arr? && AllStrings(v.items) then Some(Strings(v.items))
    else None
  }

  /** The row `todo.create` stores for a body with a valid title, or `None`
      when the store rejects one of the fields. A new todo has position 0
      and was last updated `now`. */
  function NewRow(body: Value, id: string, now: int, toDate: Value -> Option<int>): Option<TodoRow>
    requires !IsNullish(body) && IsNonEmptyString(Get(body, "title"))
  {
    var category := CategoryColumn(Get(body, "categoryId"));
    var due := DueDateColumn(Get(body, "dueDate"), toDate);
    var important := ImportantColumn(Get(body, "isImportant"));
    var status := StatusColumn(Get(body, "status"));
    var labels := LabelsColumn(Get(body, "labels"));
    if category.None? || due.None? || important.None? || status.None? || labels.None? then None
    else Some(TodoRow(id, Get(body, "title").s, due.value, important.value, status.value,
                      category.value, labels.value, 0, now))
  }

  /** A body with only a title is stored in the inbox, not important,
      without labels, category or due date. */
  lemma TitleOnlyDefaults(title: string, id: string, now: int, toDate: Value -> Option<int>)
    requires title != ""
    ensures var body := Obj(map["title" := Str(title)]);
      NewRow(body, id, now, toDate) == Some(TodoRow(id, title, None, false, INBOX, None, [], 0, now))
  {
    var body := Obj(map["title" := Str(title)]);
    assert Get(body, "categoryId") == Undefined && Get(body, "dueDate") == Undefined;
    assert Get(body, "isImportant") == Undefined && Get(body, "status") == Undefined;
    assert Get(body, "labels") == Undefined;
  }

  /** The body a client sends for a todo, with `dueDate` written by
      `encodeDate`. */
  function Encode(t: Todo, encodeDate: int -> Value): Value {
    Obj(map[
      "title" := Str(t.title),
      "dueDate" := if t.dueDate.Some? then encodeDate(t.dueDate.value) else Null,
      "isImportant" := Bool(t.isImportant),
      "status" := Str(StatusName(t.status)),
      "categoryId" := if t.categoryId.Some? then Str(t.categoryId.value) else Null,
      "labels" := Arr(seq(|t.labels|, i requires 0 <= i < |t.labels| => Str(t.labels[i])))])
  }

  /** Creating from the body of a todo stores that todo (under the fresh
      id), provided the date encoding is one the `Date` constructor reads
      back and the category id is not empty. */
  lemma CreateRoundTrip(t: Todo, id: string, now: int, toDate: Value -> Option<int>, encodeDate: int -> Value)
    requires t.title != ""
    requires t.categoryId != Some("")
    requires forall d :: Truthy(encodeDate(d)) && toDate(encodeDate(d)) == Some(d)
    ensures var body := Encode(t, encodeDate);
      && NewRow(body, id, now, toDate).Some?
      && NewRow(body, id, now, toDate).value.AsTodo() == t.(id := id)
  {
    var body := Encode(t, encodeDate);
    assert Get(body, "title") == Str(t.title);
    assert Get(body, "isImportant") == Bool(t.isImportant);
    assert Get(body, "status") == Str(StatusName(t.status));
    var due := Get(body, "dueDate");
    if t.dueDate.Some? {
      var d := t.dueDate.value;
      assert due == encodeDate(d);
      assert Truthy(encodeDate(d)) && toDate(encodeDate(d)) == Some(d);
      assert DueDateColumn(due, toDate) == Some(t.dueDate);
    } else {
      assert DueDateColumn(due, toDate) == Some(None);
    }
    var category := Get(body, "categoryId");
    assert CategoryColumn(category) == Some(t.categoryId);
    var labels := Get(body, "labels");
    assert labels.Arr? && |labels.items| == |t.labels|;
    assert forall i :: 0 <= i < |t.labels| ==> labels.items[i] == Str(t.labels[i]);
    assert AllStrings(labels.items);
    assert Strings(labels.items) == t.labels;
    assert LabelsColumn(labels) == Some(t.labels);
  }

  /** The create handler; `freshId` is the `uuidv4()` the handler draws and
      `now` the time of the request. */
  method Create(db: Db, body: Value, freshId: string, now: int, toDate: Value -> Option<int>)
    returns (r: Response<TodoRow>)
    requires db.Valid() && freshId !in db.todos
    modifies db
    ensures db.Valid()
    ensures db.categories == old(db.categories) && db.labels == old(db.labels)
    ensures r.Error? ==> db.todos == old(db.todos)
    ensures IsNullish(body) ==> r == Error(ServerError, CreateFailed)
    ensures !IsNullish(body) && !IsNonEmptyString(Get(body, "title")) ==> r == Error(BadRequest, InvalidTitle)
    ensures !IsNullish(body) && IsNonEmptyString(Get(body, "title")) ==>
      && (NewRow(body, freshId, now, toDate).None? ==> r == Error(ServerError, CreateFailed))
      // the `categoryId` foreign key: a category that does not exist fails the insert
      && (NewRow(body, freshId, now, toDate).Some? &&
          !Insertable(NewRow(body, freshId, now, toDate).value, old(db.categories).Keys) ==>
            r == Error(ServerError, CreateFailed))
      && (NewRow(body, freshId, now, toDate).Some? &&
          Insertable(NewRow(body, freshId, now, toDate).value, old(db.categories).Keys) ==>
            && r == Ok(NewRow(body, freshId, now, toDate).value)
            && db.todos == old(db.todos)[freshId := r.body])
    ensures r.Ok? ==> r.body.id == freshId && r.body.title == Get(body, "title").s
    ensures r.Ok? ==> r.body.position == 0 && r.body.updatedAt == now
  {
    if IsNullish(body) {
      return Error(ServerError, CreateFailed);
    }
    if !IsNonEmptyString(Get(body, "title")) {
      return Error(BadRequest, InvalidTitle);
    }
    var row := NewRow(body, freshId, now, toDate);
    if row.None? || !Insertable(row.value, db.categories.Keys) {
      return Error(ServerError, CreateFailed);
    }
    db.InsertTodo(row.value);
    r := Ok(row.value);
  }
}
