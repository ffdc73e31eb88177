/** The relational store behind the routes, standing in for the Prisma
    client: one table per entity, each a map from id to row, with the
    queries and writes the routes issue. Rows that tie under a query's
    `orderBy` come back in a store-defined order, so each query promises
    only that its result lists the selected rows and is sorted. */
module Store {
  import opened Options
  import opened Entities
  import opened Sorting
  import Text

  /** `rows` lists the values of `m`: as many rows as keys, and a row is in
      the list exactly when it is stored under some key. With rows keyed by
      their own id (`Db.Valid`), this is a listing without repetition. */
  ghost predicate Lists<V(!new)>(rows: seq<V>, m: map<string, V>) {
    |rows| == |m| && forall v :: v in rows <==> v in m.Values
  }

  /** The rows of `m` whose id is in `ids` (`where: { id: { in: ids } }`). */
  function WithIds<V>(m: map<string, V>, ids: set<string>): (r: map<string, V>)
    ensures r.Keys == m.Keys * ids
    ensures forall k :: k in r ==> r[k] == m[k]
  {
    map k | k in m && k in ids :: m[k]
  }

  /** The ids a reorder request names, in request order. */
  function IdsOf(es: seq<PositionEntry>): (ids: seq<string>)
    ensures |ids| == |es|
    ensures forall i :: 0 <= i < |es| ==> ids[i] == es[i].id
  {
    seq(|es|, i requires 0 <= i < |es| => es[i].id)
  }

  function SetOf(ids: seq<string>): (r: set<string>)
    ensures forall k :: k in r <==> k in ids
  {
    set i | 0 <= i < |ids| :: ids[i]
  }

  predicate Distinct(ids: seq<string>) {
    forall i, j :: 0 <= i < j < |ids| ==> ids[i] != ids[j]
  }

  /** A list has as many different ids as elements exactly when no id repeats. */
  lemma {:induction false} SetOfSize(ids: seq<string>)
    ensures |SetOf(ids)| <= |ids|
    ensures |SetOf(ids)| == |ids| <==> Distinct(ids)
  {
    if ids != [] {
      var rest := ids[1..];
      SetOfSize(rest);
      assert SetOf(ids) == {ids[0]} + SetOf(rest);
      if ids[0] in SetOf(rest) {
        var j :| 0 <= j < |rest| && rest[j] == ids[0];
        assert ids[j + 1] == ids[0];
      } else {
        assert Distinct(ids) <==> Distinct(rest) by {
          if Distinct(rest) {
            forall i, j | 0 <= i < j < |ids| ensures ids[i] != ids[j] {
              if i > 0 {
                assert ids[i] == rest[i - 1] && ids[j] == rest[j - 1];
              } else {
                assert ids[j] in rest;
              }
            }
          }
        }
      }
    }
  }

  lemma {:induction false} SubsetSize(a: set<string>, b: set<string>)
    requires a <= b
    ensures |a| <= |b|
    decreases |b|
  {
    if a != {} {
      var x :| x in a;
      SubsetSize(a - {x}, b - {x});
    }
  }

  /** The existence check of the reorder routes: the store holds as many
      distinct rows with the requested ids as there are ids requested
      exactly when every id exists and none is repeated. */
  lemma {:induction false} AllFoundIff(ids: seq<string>, keys: set<string>)
    ensures |keys * SetOf(ids)| == |ids| <==> Distinct(ids) && SetOf(ids) <= keys
  {
    SetOfSize(ids);
    var s := SetOf(ids);
    if !(s <= keys) {
      var x :| x in s && x !in keys;
      assert keys * s <= s - {x};
      SubsetSize(keys * s, s - {x});
    } else {
      assert keys * s == s;
    }
  }

  function StatusLe(a: Status, b: Status): bool { StatusRank(a) <= StatusRank(b) }

  /** `orderBy: { position: 'asc' }` on categories. */
  const CategoryOrder: (CategoryRow, CategoryRow) -> bool :=
    On(IntLe, (c: CategoryRow) => c.position)

  /** `orderBy: { name: 'asc' }` on labels, under the store's collation
      `collate`. */
  function LabelOrder(collate: (string, string) -> bool): (LabelRow, LabelRow) -> bool {
    On(collate, (l: LabelRow) => l.name)
  }

  /** `[{ status: 'asc' }, { isImportant: 'desc' }, { dueDate: 'asc' }, { updatedAt: 'desc' }]`. */
  const TodoListOrder: (TodoRow, TodoRow) -> bool :=
    Then(On(StatusLe, (t: TodoRow) => t.status),
    Then(Desc(On(BoolLe, (t: TodoRow) => t.isImportant)),
    Then(On(NullsLast(IntLe), (t: TodoRow) => t.dueDate),
         Desc(On(IntLe, (t: TodoRow) => t.updatedAt)))))

  /** `[{ categoryId: 'asc' }, { status: 'asc' }, { position: 'asc' }]`,
      with category ids compared under the store's collation `collate`. */
  function TodoReorderOrder(collate: (string, string) -> bool): (TodoRow, TodoRow) -> bool {
    Then(On(NullsLast(collate), (t: TodoRow) => t.categoryId),
    Then(On(StatusLe, (t: TodoRow) => t.status),
         On(IntLe, (t: TodoRow) => t.position)))
  }

  /** Binary collation, which compares strings character by character, is
      one collation the store may use. */
  lemma StrLePreorder()
    ensures TotalPreorder(Text.StrLe)
  {
    forall a, b ensures Text.StrLe(a, b) || Text.StrLe(b, a) {
      Text.StrLeTotal(a, b);
    }
    forall a, b, c | Text.StrLe(a, b) && Text.StrLe(b, c) ensures Text.StrLe(a, c) {
      Text.StrLeTransitive(a, b, c);
    }
  }

  lemma OrdersArePreorders()
    ensures TotalPreorder(CategoryOrder)
    ensures TotalPreorder(TodoListOrder)
  {
    assert TotalPreorder(IntLe);
    assert TotalPreorder(BoolLe);
    assert TotalPreorder(StatusLe);
    NullsLastPreorder(IntLe);
    OnPreorder(IntLe, (c: CategoryRow) => c.position);

    var byStatus := On(StatusLe, (t: TodoRow) => t.status);
    var byImportant := On(BoolLe, (t: TodoRow) => t.isImportant);
    var byDue := On(NullsLast(IntLe), (t: TodoRow) => t.dueDate);
    var byUpdated := On(IntLe, (t: TodoRow) => t.updatedAt);
    OnPreorder(StatusLe, (t: TodoRow) => t.status);
    OnPreorder(BoolLe, (t: TodoRow) => t.isImportant);
    OnPreorder(NullsLast(IntLe), (t: TodoRow) => t.dueDate);
    OnPreorder(IntLe, (t: TodoRow) => t.updatedAt);
    DescPreorder(byImportant);
    DescPreorder(byUpdated);
    ThenPreorder(byDue, Desc(byUpdated));
    ThenPreorder(Desc(byImportant), Then(byDue, Desc(byUpdated)));
    ThenPreorder(byStatus, Then(Desc(byImportant), Then(byDue, Desc(byUpdated))));
  }

  /** Under any collation that is a total preorder, the two orders that
      compare strings are total preorders. */
  lemma CollatedOrdersArePreorders(collate: (string, string) -> bool)
    requires TotalPreorder(collate)
    ensures TotalPreorder(LabelOrder(collate))
    ensures TotalPreorder(TodoReorderOrder(collate))
  {
    assert TotalPreorder(IntLe);
    assert TotalPreorder(StatusLe);
    OnPreorder(collate, (l: LabelRow) => l.name);
    NullsLastPreorder(collate);
    var byCategory := On(NullsLast(collate), (t: TodoRow) => t.categoryId);
    var byStatus := On(StatusLe, (t: TodoRow) => t.status);
    var byPosition := On(IntLe, (t: TodoRow) => t.position);
    OnPreorder(NullsLast(collate), (t: TodoRow) => t.categoryId);
    OnPreorder(StatusLe, (t: TodoRow) => t.status);
    OnPreorder(IntLe, (t: TodoRow) => t.position);
    ThenPreorder(byStatus, byPosition);
    ThenPreorder(byCategory, Then(byStatus, byPosition));
  }

  /** In a list sorted for display, every DONE todo comes after every todo
      that is not DONE, whatever their positions. */
  lemma DoneLast(rows: seq<TodoRow>)
    requires SortedBy(rows, TodoListOrder)
    ensures forall i, j :: 0 <= i < j < |rows| && rows[i].status == DONE ==> rows[j].status == DONE
  {
    forall i, j | 0 <= i < j < |rows| && rows[i].status == DONE ensures rows[j].status == DONE {
      assert TodoListOrder(rows[i], rows[j]);
      assert StatusLe(rows[i].status, rows[j].status);
    }
  }

  /** Reads every row of `m`, in whatever order the store walks its keys. */
  method Collect<V(!new)>(m: map<string, V>) returns (rows: seq<V>)
    ensures Lists(rows, m)
  {
    rows := [];
    var rest := m.Keys;
    while rest != {}
      invariant rest <= m.Keys
      invariant |rows| + |rest| == |m|
      invariant forall v :: v in rows <==> exists k :: k in m && k !in rest && m[k] == v
      decreases |rest|
    {
      var k :| k in rest;
      rows := rows + [m[k]];
      rest := rest - {k};
    }
  }

  /** Reads every row of `m` and sorts them by `le`. */
  method CollectSorted<V(!new)>(m: map<string, V>, le: (V, V) -> bool) returns (rows: seq<V>)
    requires TotalPreorder(le)
    ensures Lists(rows, m) && SortedBy(rows, le)
  {
    var all := Collect(m);
    rows := Sort(all, le);
    SortSorted(all, le);
    assert forall v :: v in rows <==> v in multiset(all);
  }

  /** The todos a `where` clause of the todo routes selects. */
  datatype TodoWhere = AnyTodo | CategoryIs(categoryId: Option<string>) | IdIn(ids: set<string>)

  predicate Selects(w: TodoWhere, t: TodoRow) {
    match w
    case AnyTodo => true
    case CategoryIs(c) => t.categoryId == c
    case IdIn(ids) => t.id in ids
  }

  function Matching(m: map<string, TodoRow>, w: TodoWhere): (r: map<string, TodoRow>)
    ensures forall k :: k in r <==> k in m && Selects(w, m[k])
    ensures forall k :: k in r ==> r[k] == m[k]
  {
    map k | k in m && Selects(w, m[k]) :: m[k]
  }

  /** Prisma's `Int` is a signed 32-bit column: the store refuses to write
      a value outside this range. */
  const MinInt := -0x8000_0000
  const MaxInt := 0x7FFF_FFFF

  predicate IsInt32(n: int) {
    MinInt <= n <= MaxInt
  }

  /** A todo table whose rows are keyed by their ids, have positions that
      fit the column, and refer only to categories in `categoryIds` (the
      `categoryId` relation). */
  ghost predicate TodoTable(m: map<string, TodoRow>, categoryIds: set<string>) {
    forall k :: k in m ==>
      && m[k].id == k && IsInt32(m[k].position)
      && (m[k].categoryId.Some? ==> m[k].categoryId.value in categoryIds)
  }

  ghost predicate CategoryTable(m: map<string, CategoryRow>) {
    forall k :: k in m ==> m[k].id == k && IsInt32(m[k].position)
  }

  ghost predicate LabelTable(m: map<string, LabelRow>) {
    forall k :: k in m ==> m[k].id == k
  }

  /** `row` may join the todo table: its position fits and its category,
      if any, exists. */
  predicate Insertable(row: TodoRow, categoryIds: set<string>) {
    IsInt32(row.position) && (row.categoryId.Some? ==> row.categoryId.value in categoryIds)
  }

  class Db {
    var todos: map<string, TodoRow>
    var categories: map<string, CategoryRow>
    var labels: map<string, LabelRow>
    /** The collation `orderBy` uses on strings, which the database
        defines; any total preorder. */
    const collation: (string, string) -> bool

    /** Every row is stored under its own id, every position fits its
        column, every category a todo names exists, and the collation is a
        total preorder. */
    ghost predicate Valid()
      reads this
    {
      && TodoTable(todos, categories.Keys)
      && CategoryTable(categories)
      && LabelTable(labels)
      && TotalPreorder(collation)
    }

    constructor (collation: (string, string) -> bool)
      requires TotalPreorder(collation)
      ensures Valid()
      ensures todos == map[] && categories == map[] && labels == map[]
      ensures this.collation == collation
    {
      todos, categories, labels := map[], map[], map[];
      this.collation := collation;
    }

    /** `category.findMany({ orderBy: { position: 'asc' } })`. */
    method FindCategoriesByPosition() returns (rows: seq<CategoryRow>)
      ensures Lists(rows, categories) && SortedBy(rows, CategoryOrder)
    {
      OrdersArePreorders();
      rows := CollectSorted(categories, CategoryOrder);
    }

    /** `category.findMany({ where: { id: { in: ids } } })`. */
    method FindCategoriesIn(ids: set<string>) returns (rows: seq<CategoryRow>)
      ensures Lists(rows, WithIds(categories, ids))
    {
      rows := Collect(WithIds(categories, ids));
    }

    /** `category.findFirst({ orderBy: { position: 'desc' }, select: { position: true } })`:
        the highest position, or `null` on an empty table. */
    method HighestCategoryPosition() returns (h: Option<int>)
      ensures h.None? <==> categories == map[]
      ensures h.Some? ==> exists k :: k in categories && categories[k].position == h.value
      ensures h.Some? ==> forall k :: k in categories ==> categories[k].position <= h.value
    {
      var rows := FindCategoriesByPosition();
      if rows == [] {
        h := None;
        assert |categories| == 0;
      } else {
        var top := rows[|rows| - 1];
        h := Some(top.position);
        assert top in categories.Values;
        forall k | k in categories ensures categories[k].position <= h.value {
          assert categories[k] in categories.Values;
          var i :| 0 <= i < |rows| && rows[i] == categories[k];
          if i < |rows| - 1 {
            assert CategoryOrder(rows[i], top);
            assert IntLe(rows[i].position, top.position);
          }
        }
      }
    }

    /** `category.create(...)` with a fresh id. */
    method InsertCategory(row: CategoryRow)
      requires Valid() && row.id !in categories && IsInt32(row.position)
      modifies this
      ensures Valid()
      ensures categories == old(categories)[row.id := row]
      ensures todos == old(todos) && labels == old(labels)
    {
      categories := categories[row.id := row];
    }

    /** `category.update({ where: { id }, data: { position } })`, for a
        position the column holds. */
    method UpdateCategoryPosition(id: string, position: int)
      requires Valid() && id in categories && IsInt32(position)
      modifies this
      ensures Valid()
      ensures categories == old(categories)[id := old(categories)[id].(position := position)]
      ensures todos == old(todos) && labels == old(labels)
    {
      categories := categories[id := categories[id].(position := position)];
    }

    /** A transaction's rollback: the category table returns to a state it
        held before, which has every category the todos name. */
    method RollbackCategories(snapshot: map<string, CategoryRow>)
      requires Valid()
      requires CategoryTable(snapshot) && TodoTable(todos, snapshot.Keys)
      modifies this
      ensures Valid()
      ensures categories == snapshot
      ensures todos == old(todos) && labels == old(labels)
    {
      categories := snapshot;
    }

    /** `label.findMany({ orderBy: { name: 'asc' } })`. */
    method FindLabelsByName() returns (rows: seq<LabelRow>)
      requires Valid()
      ensures Lists(rows, labels) && SortedBy(rows, LabelOrder(collation))
    {
      CollatedOrdersArePreorders(collation);
      rows := CollectSorted(labels, LabelOrder(collation));
    }

    /** `label.create(...)` with a fresh id. */
    method InsertLabel(row: LabelRow)
      requires Valid() && row.id !in labels
      modifies this
      ensures Valid()
      ensures labels == old(labels)[row.id := row]
      ensures todos == old(todos) && categories == old(categories)
    {
      labels := labels[row.id := row];
    }

    /** `todo.findMany({ where, orderBy: [status, isImportant desc, dueDate, updatedAt desc] })`. */
    method FindTodosListOrder(w: TodoWhere) returns (rows: seq<TodoRow>)
      ensures Lists(rows, Matching(todos, w)) && SortedBy(rows, TodoListOrder)
    {
      OrdersArePreorders();
      rows := CollectSorted(Matching(todos, w), TodoListOrder);
    }

    /** `todo.findMany({ where: { id: { in: ids } } })`, in no particular order. */
    method FindTodosIn(ids: set<string>) returns (rows: seq<TodoRow>)
      ensures Lists(rows, Matching(todos, IdIn(ids)))
    {
      rows := Collect(Matching(todos, IdIn(ids)));
    }

    /** `todo.findMany({ where: { id: { in: ids } }, orderBy: [categoryId, status, position] })`. */
    method FindTodosInReorderOrder(ids: set<string>) returns (rows: seq<TodoRow>)
      requires Valid()
      ensures Lists(rows, Matching(todos, IdIn(ids))) && SortedBy(rows, TodoReorderOrder(collation))
    {
      CollatedOrdersArePreorders(collation);
      rows := CollectSorted(Matching(todos, IdIn(ids)), TodoReorderOrder(collation));
    }

    /** A transaction's rollback: the todo table returns to a state it
        held before. */
    method RollbackTodos(snapshot: map<string, TodoRow>)
      requires Valid()
      requires TodoTable(snapshot, categories.Keys)
      modifies this
      ensures Valid()
      ensures todos == snapshot
      ensures categories == old(categories) && labels == old(labels)
    {
      todos := snapshot;
    }

    /** `todo.create(...)` with a fresh id, for a row the store accepts. */
    method InsertTodo(row: TodoRow)
      requires Valid() && row.id !in todos && Insertable(row, categories.Keys)
      modifies this
      ensures Valid()
      ensures todos == old(todos)[row.id := row]
      ensures categories == old(categories) && labels == old(labels)
    {
      todos := todos[row.id := row];
    }

    /** `todo.update({ where: { id }, data: { position } })` at time `now`,
        for a position the column holds: the `@updatedAt` column takes the
        time of the write. */
    method UpdateTodoPosition(id: string, position: int, now: int)
      requires Valid() && id in todos && IsInt32(position)
      modifies this
      ensures Valid()
      ensures todos == old(todos)[id := old(todos)[id].(position := position, updatedAt := now)]
      ensures categories == old(categories) && labels == old(labels)
    {
      todos := todos[id := todos[id].(position := position, updatedAt := now)];
    }
  }
}
