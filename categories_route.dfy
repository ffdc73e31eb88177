/** `GET /api/categories` and `POST /api/categories`: list the categories
    in position order, and create a category at the end of that order. */
module CategoriesRoute {
  import opened Options
  import opened Js
  import opened Http
  import opened Entities
  import opened Sorting
  import opened Store

  const InvalidName := "Invalid category name"
  const CreateFailed := "Failed to create category"

  /** Every category, by position. */
  method List(db: Db) returns (r: Response<seq<CategoryRow>>)
    ensures r.Ok? && Lists(r.body, db.categories) && SortedBy(r.body, CategoryOrder)
  {
    var rows := db.FindCategoriesByPosition();
    r := Ok(rows);
  }

  /** `highestPosition ? highestPosition.position + 1 : 0`. */
  function NextPosition(highest: Option<int>): int {
    if highest.Some? then highest.value + 1 else 0
  }

  /** `h` is what `findFirst` ordered by position descending returns for
      the table `m`: nothing on an empty table, otherwise the highest
      position. */
  ghost predicate IsHighest(h: Option<int>, m: map<string, CategoryRow>) {
    && (h.None? <==> m == map[])
    && (h.Some? ==> exists k :: k in m && m[k].position == h.value)
    && (h.Some? ==> forall k :: k in m ==> m[k].position <= h.value)
  }

  /** The positions in use. */
  ghost function Positions(m: map<string, CategoryRow>): set<int> {
    set k | k in m :: m[k].position
  }

  /** The integers `0 .. n-1`. */
  function Range(n: nat): (r: set<int>)
    ensures forall i :: i in r <==> 0 <= i < n
  {
    if n == 0 then {} else Range(n - 1) + {n - 1}
  }

  /** A new category comes after every existing one. */
  lemma NextPositionIsLast(h: Option<int>, m: map<string, CategoryRow>)
    requires IsHighest(h, m)
    ensures forall k :: k in m ==> m[k].position < NextPosition(h)
    ensures m == map[] ==> NextPosition(h) == 0
  {
  }

  /** When the positions in use are exactly `0 .. n-1`, as they are for
      categories created one by one through this route, the new category
      takes position `n` and the positions stay gap-free. */
  lemma {:induction false} NextPositionDense(h: Option<int>, m: map<string, CategoryRow>, n: nat)
    requires IsHighest(h, m)
    requires Positions(m) == Range(n)
    ensures NextPosition(h) == n
    ensures Positions(m) + {NextPosition(h)} == Range(n + 1)
  {
    assert forall k :: k in m ==> m[k].position in Positions(m);
    if n == 0 {
      assert m.Keys == {};
    } else {
      assert n - 1 in Positions(m);
      var k :| k in m && m[k].position == n - 1;
      assert h.Some?;
      var top :| top in m && m[top].position == h.value;
      assert m[top].position in Positions(m);
    }
  }

  /** Some category already holds the largest position the `Int` column
      can store, so the next position does not fit. */
  ghost predicate TopPositionTaken(m: map<string, CategoryRow>) {
    exists k :: k in m && m[k].position == MaxInt
  }

  /** The create handler; `freshId` is the id the store generates. */
  method Create(db: Db, body: Value, freshId: string) returns (r: Response<CategoryRow>)
    requires db.Valid() && freshId !in db.categories
    modifies db
    ensures db.Valid()
    ensures db.todos == old(db.todos) && db.labels == old(db.labels)
    ensures r.Error? ==> db.categories == old(db.categories)
    ensures IsNullish(body) ==> r == Error(ServerError, CreateFailed)
    ensures !IsNullish(body) && !IsNonEmptyString(Get(body, "name")) ==> r == Error(BadRequest, InvalidName)
    ensures !IsNullish(body) && IsNonEmptyString(Get(body, "name")) && TopPositionTaken(old(db.categories)) ==>
      r == Error(ServerError, CreateFailed)
    ensures !IsNullish(body) && IsNonEmptyString(Get(body, "name")) && !TopPositionTaken(old(db.categories)) ==>
      && r.Ok?
      && r.body.id == freshId
      && r.body.name == Get(body, "name").s
      && (forall k :: k in old(db.categories) ==> old(db.categories)[k].position < r.body.position)
      && (old(db.categories) == map[] ==> r.body.position == 0)
      && (old(db.categories) != map[] ==> exists k :: k in old(db.categories) && r.body.position == old(db.categories)[k].position + 1)
      && db.categories == old(db.categories)[freshId := r.body]
  {
    if IsNullish(body) {
      return Error(ServerError, CreateFailed);
    }
    var name := Get(body, "name");
    if !IsNonEmptyString(name) {
      return Error(BadRequest, InvalidName);
    }
    var highest := db.HighestCategoryPosition();
    NextPositionIsLast(highest, db.categories);
    if highest == Some(MaxInt) {
      // `highest + 1` does not fit the column: the insert fails
      return Error(ServerError, CreateFailed);
    }
    var row := CategoryRow(freshId, name.s, NextPosition(highest));
    db.InsertCategory(row);
    r := Ok(row);
  }
}
