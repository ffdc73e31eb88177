/** `POST /api/categories/reorder`: rewrites the position of every
    submitted category inside one transaction, then answers with the whole
    category table in position order. */
module CategoriesReorder {
  import opened Js
  import opened Http
  import opened Entities
  import opened Sorting
  import opened Store
  import opened ReorderEntries

  /** How far a request gets before the transaction. Unlike the todo route,
      an empty array is accepted. */
  datatype Request =
    | BodyThrows
    | NotAnArray
    | BadEntry
    | EntryThrows
    | Submitted(entries: seq<PositionEntry>)

  function ParseRequest(body: Value): (r: Request)
    ensures r.BodyThrows? <==> IsNullish(body)
    ensures r.NotAnArray? <==> !IsNullish(body) && !Get(body, "categories").Arr?
    ensures r.Submitted? ==>
      !IsNullish(body) && Get(body, "categories").Arr? && |r.entries| == |Get(body, "categories").items|
    ensures !IsNullish(body) && Get(body, "categories") == Arr([]) ==> r == Submitted([])
  {
    if IsNullish(body) then BodyThrows
    else
      var categories := Get(body, "categories");
      if !categories.Arr? then NotAnArray
      else match CheckEntries(categories.items, false)
        case Throws => EntryThrows
        case Malformed => BadEntry
        case Entries(es) => Submitted(es)
  }

  /** `a` is `b` with at most its position changed. */
  predicate SameButPosition(a: CategoryRow, b: CategoryRow) {
    a == b.(position := a.position)
  }

  /** The category table after writing each entry's position in turn: only
      positions change and categories not named keep their row. */
  function ApplyPositions(m: map<string, CategoryRow>, es: seq<PositionEntry>): (r: map<string, CategoryRow>)
    requires forall i :: 0 <= i < |es| ==> es[i].id in m
    ensures r.Keys == m.Keys
    ensures forall k :: k in m ==> SameButPosition(r[k], m[k])
    ensures forall k :: k in m && k !in IdsOf(es) ==> r[k] == m[k]
    decreases |es|
  {
    if es == [] then m
    else
      var e := es[0];
      assert IdsOf(es) == [e.id] + IdsOf(es[1..]);
      ApplyPositions(m[e.id := m[e.id].(position := e.position)], es[1..])
  }

  /** Writing the entries from `n` on is writing entry `n`, then the rest. */
  lemma ApplyPositionsFrom(m: map<string, CategoryRow>, es: seq<PositionEntry>, n: int)
    requires forall j :: 0 <= j < |es| ==> es[j].id in m
    requires 0 <= n < |es|
    ensures ApplyPositions(m, es[n..]) ==
      ApplyPositions(m[es[n].id := m[es[n].id].(position := es[n].position)], es[n + 1..])
  {
    assert es[n..][1..] == es[n + 1..];
  }

  /** A named category ends with the position of the last entry naming it. */
  lemma {:induction false} ApplyPositionsLast(m: map<string, CategoryRow>, es: seq<PositionEntry>, i: int)
    requires forall j :: 0 <= j < |es| ==> es[j].id in m
    requires 0 <= i < |es| && LastFor(es, i)
    ensures ApplyPositions(m, es)[es[i].id].position == es[i].position
    decreases |es|
  {
    var e := es[0];
    var m' := m[e.id := m[e.id].(position := e.position)];
    var tail := es[1..];
    if i == 0 {
      assert e.id !in IdsOf(tail) by {
        forall j | 0 <= j < |tail| ensures IdsOf(tail)[j] != e.id {
          assert tail[j] == es[j + 1];
        }
      }
    } else {
      assert LastFor(tail, i - 1) by {
        forall j | i - 1 < j < |tail| ensures tail[j].id != tail[i - 1].id {
          assert tail[j] == es[j + 1];
        }
      }
      ApplyPositionsLast(m', tail, i - 1);
    }
  }

  /** Without repeated ids, every named category ends with its entry's position. */
  lemma ApplyPositionsDistinct(m: map<string, CategoryRow>, es: seq<PositionEntry>)
    requires forall j :: 0 <= j < |es| ==> es[j].id in m
    requires Distinct(IdsOf(es))
    ensures forall i :: 0 <= i < |es| ==> ApplyPositions(m, es)[es[i].id].position == es[i].position
  {
    forall i | 0 <= i < |es| ensures ApplyPositions(m, es)[es[i].id].position == es[i].position {
      assert LastFor(es, i) by {
        forall j | i < j < |es| ensures es[j].id != es[i].id {
          assert IdsOf(es)[i] != IdsOf(es)[j];
        }
      }
      ApplyPositionsLast(m, es, i);
    }
  }

  /** The position writes inside the transaction, one entry at a time,
      up to the first write the store refuses. */
  method WriteUntilFailure(db: Db, es: seq<PositionEntry>, failing: set<string>) returns (n: nat)
    requires db.Valid()
    requires forall i :: 0 <= i < |es| ==> es[i].id in db.categories
    modifies db
    ensures db.Valid()
    ensures db.todos == old(db.todos) && db.labels == old(db.labels)
    ensures n == FirstFailing(es, failing)
    ensures n == |es| ==> db.categories == ApplyPositions(old(db.categories), es)
  {
    n := 0;
    while n < |es| && !Refused(es[n], failing)
      invariant n <= FirstFailing(es, failing)
      invariant db.Valid()
      invariant db.todos == old(db.todos) && db.labels == old(db.labels)
      invariant db.categories.Keys == old(db.categories).Keys
      invariant ApplyPositions(db.categories, es[n..]) == ApplyPositions(old(db.categories), es)
    {
      ApplyPositionsFrom(db.categories, es, n);
      db.UpdateCategoryPosition(es[n].id, es[n].position);
      n := n + 1;
    }
  }

  /** The transaction: all writes, or none when one of them fails. */
  method WritePositions(db: Db, es: seq<PositionEntry>, failing: set<string>) returns (failed: bool)
    requires db.Valid()
    requires forall i :: 0 <= i < |es| ==> es[i].id in db.categories
    modifies db
    ensures db.Valid()
    ensures db.todos == old(db.todos) && db.labels == old(db.labels)
    ensures failed <==> exists i :: 0 <= i < |es| && Refused(es[i], failing)
    ensures failed ==> db.categories == old(db.categories)
    ensures !failed ==> db.categories == ApplyPositions(old(db.categories), es)
  {
    var snapshot := db.categories;
    var n := WriteUntilFailure(db, es, failing);
    failed := n < |es|;
    if failed {
      // the transaction rolls back
      db.RollbackCategories(snapshot);
    }
  }

  const InvalidData := "Invalid categories data"
  const InvalidFormat := "Invalid category format - each category must have an id and position"
  const CategoriesNotFound := "One or more categories could not be found"
  const ReorderFailed := "Failed to reorder categories"

  /** The transaction and the read-back, for well-formed entries. */
  method Reorder(db: Db, es: seq<PositionEntry>, failing: set<string>) returns (r: Response<seq<CategoryRow>>)
    requires db.Valid()
    modifies db
    ensures db.Valid()
    ensures db.todos == old(db.todos) && db.labels == old(db.labels)
    ensures r.Error? ==> db.categories == old(db.categories)
    ensures !AllFound(IdsOf(es), old(db.categories).Keys) ==> r == Error(NotFound, CategoriesNotFound)
    ensures AllFound(IdsOf(es), old(db.categories).Keys) ==>
      && (r.Error? <==> exists i :: 0 <= i < |es| && Refused(es[i], failing))
      && (r.Error? ==> r == Error(ServerError, ReorderFailed))
      && (r.Ok? ==> db.categories == ApplyPositions(old(db.categories), es))
      && (r.Ok? ==> forall i :: 0 <= i < |es| ==> db.categories[es[i].id].position == es[i].position)
      && (r.Ok? ==> Lists(r.body, db.categories))
      && (r.Ok? ==> SortedBy(r.body, CategoryOrder))
  {
    var ids := IdsOf(es);
    var existing := db.FindCategoriesIn(SetOf(ids));
    AllFoundIff(ids, db.categories.Keys);
    if |existing| != |es| {
      return Error(NotFound, CategoriesNotFound);
    }
    assert forall i :: 0 <= i < |es| ==> es[i].id in db.categories by {
      forall i | 0 <= i < |es| ensures es[i].id in db.categories {
        assert ids[i] in SetOf(ids);
      }
    }
    var failed := WritePositions(db, es, failing);
    if failed {
      return Error(ServerError, ReorderFailed);
    }
    ApplyPositionsDistinct(old(db.categories), es);
    var rows := db.FindCategoriesByPosition();
    return Ok(rows);
  }

  /** The whole handler. `failing` holds the ids whose position write the
      store refuses for a reason outside the model (any other store error
      inside the transaction). */
  method Post(db: Db, body: Value, failing: set<string>) returns (r: Response<seq<CategoryRow>>)
    requires db.Valid()
    modifies db
    ensures db.Valid()
    ensures db.todos == old(db.todos) && db.labels == old(db.labels)
    // all or nothing: a failed request leaves the category table as it was
    ensures r.Error? ==> db.categories == old(db.categories)
    ensures ParseRequest(body).BodyThrows? ==> r == Error(ServerError, ReorderFailed)
    ensures ParseRequest(body).NotAnArray? ==> r == Error(BadRequest, InvalidData)
    ensures ParseRequest(body).BadEntry? ==> r == Error(BadRequest, InvalidFormat)
    ensures ParseRequest(body).EntryThrows? ==> r == Error(ServerError, ReorderFailed)
    ensures ParseRequest(body).Submitted? && !AllFound(IdsOf(ParseRequest(body).entries), old(db.categories).Keys) ==>
      r == Error(NotFound, CategoriesNotFound)
    ensures ParseRequest(body).Submitted? && AllFound(IdsOf(ParseRequest(body).entries), old(db.categories).Keys) ==>
      var es := ParseRequest(body).entries;
      && (r.Error? <==> exists i :: 0 <= i < |es| && Refused(es[i], failing))
      && (r.Error? ==> r == Error(ServerError, ReorderFailed))
      && (r.Ok? ==> db.categories == ApplyPositions(old(db.categories), es))
      && (r.Ok? ==> forall i :: 0 <= i < |es| ==> db.categories[es[i].id].position == es[i].position)
      && (r.Ok? ==> Lists(r.body, db.categories))
      && (r.Ok? ==> SortedBy(r.body, CategoryOrder))
  {
    match ParseRequest(body) {
      case BodyThrows => return Error(ServerError, ReorderFailed);
      case NotAnArray => return Error(BadRequest, InvalidData);
      case BadEntry => return Error(BadRequest, InvalidFormat);
      case EntryThrows => return Error(ServerError, ReorderFailed);
      case Submitted(es) => r := Reorder(db, es, failing);
    }
  }
}
