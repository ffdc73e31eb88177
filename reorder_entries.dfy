/** The request check shared by the two reorder routes: each entry of the
    submitted array must carry an id and a position, and the existence
    check inside the transaction must find one stored row per entry. */
module ReorderEntries {
  import opened Options
  import opened Js
  import opened Entities
  import opened Store

  /** The outcome of `every(...)` over the submitted entries: all
      entries well formed, one of them malformed, or a TypeError thrown
      from reading a property of a `null` entry. */
  datatype Checked = Entries(entries: seq<PositionEntry>) | Malformed | Throws

  /** An entry with a string `id`, a numeric `position` and, when the
      route checks it (todos do, categories do not), a `status` that is one
      of the three status names. */
  predicate WellFormed(v: Value, checksStatus: bool)
    requires !IsNullish(v)
  {
    && Get(v, "id").Str?
    && Get(v, "position").Num?
    && (checksStatus ==> Get(v, "status").Str? && ParseStatus(Get(v, "status").s).Some?)
  }

  predicate WellFormedAt(items: seq<Value>, i: int, checksStatus: bool)
    requires 0 <= i < |items|
  {
    !IsNullish(items[i]) && WellFormed(items[i], checksStatus)
  }

  /** Reading entry `i` throws: it is `null` or `undefined` and every entry
      before it passed the test, so `every` reached it. */
  predicate ThrowsAt(items: seq<Value>, i: int, checksStatus: bool) {
    && 0 <= i < |items| && IsNullish(items[i])
    && forall j :: 0 <= j < i ==> WellFormedAt(items, j, checksStatus)
  }

  /** Well-formedness of the entries after the first. */
  lemma TailWellFormed(items: seq<Value>, checksStatus: bool)
    requires items != []
    ensures forall i :: 0 <= i < |items| - 1 ==>
      (WellFormedAt(items[1..], i, checksStatus) <==> WellFormedAt(items, i + 1, checksStatus))
  {
    var tail := items[1..];
    forall i | 0 <= i < |tail| ensures WellFormedAt(tail, i, checksStatus) <==> WellFormedAt(items, i + 1, checksStatus) {
      assert tail[i] == items[i + 1];
    }
  }

  /** Behind a well-formed first entry, the entries throw exactly when
      the entries after it do. */
  lemma TailThrows(items: seq<Value>, checksStatus: bool)
    requires items != [] && WellFormedAt(items, 0, checksStatus)
    ensures (exists i :: ThrowsAt(items[1..], i, checksStatus)) <==> (exists i :: ThrowsAt(items, i, checksStatus))
  {
    var tail := items[1..];
    TailWellFormed(items, checksStatus);
    if i :| ThrowsAt(tail, i, checksStatus) {
      assert tail[i] == items[i + 1];
      forall j | 0 <= j < i + 1 ensures WellFormedAt(items, j, checksStatus) {
        if j > 0 { assert WellFormedAt(tail, j - 1, checksStatus); }
      }
      assert ThrowsAt(items, i + 1, checksStatus);
    }
    if i :| ThrowsAt(items, i, checksStatus) {
      assert i > 0;
      assert tail[i - 1] == items[i];
      forall j | 0 <= j < i - 1 ensures WellFormedAt(tail, j, checksStatus) {
        assert WellFormedAt(items, j + 1, checksStatus);
      }
      assert ThrowsAt(tail, i - 1, checksStatus);
    }
  }

  /** `todos.every(todo => ...)`, which stops at the first entry for which
      the test is false and throws at a `null` entry reached before that. */
  function CheckEntries(items: seq<Value>, checksStatus: bool): (c: Checked)
    ensures c.Entries? <==> forall i :: 0 <= i < |items| ==> WellFormedAt(items, i, checksStatus)
    ensures c.Entries? ==> |c.entries| == |items|
    ensures c.Entries? ==> forall i :: 0 <= i < |items| ==>
      WellFormedAt(items, i, checksStatus) &&
      c.entries[i] == PositionEntry(Get(items[i], "id").s, Get(items[i], "position").n)
    ensures c.Throws? <==> exists i :: ThrowsAt(items, i, checksStatus)
  {
    if items == [] then Entries([])
    else if IsNullish(items[0]) then
      assert ThrowsAt(items, 0, checksStatus) && !WellFormedAt(items, 0, checksStatus);
      Throws
    else if !WellFormed(items[0], checksStatus) then
      assert !WellFormedAt(items, 0, checksStatus);
      assert forall i :: !ThrowsAt(items, i, checksStatus);
      Malformed
    else
      var e := PositionEntry(Get(items[0], "id").s, Get(items[0], "position").n);
      var tail := items[1..];
      assert WellFormedAt(items, 0, checksStatus);
      TailWellFormed(items, checksStatus);
      TailThrows(items, checksStatus);
      match CheckEntries(tail, checksStatus)
      case Entries(rest) =>
        assert forall i :: 0 <= i < |items| ==> WellFormedAt(items, i, checksStatus) by {
          forall i | 0 <= i < |items| ensures WellFormedAt(items, i, checksStatus) {
            if i > 0 { assert WellFormedAt(tail, i - 1, checksStatus); }
          }
        }
        Entries([e] + rest)
      case Malformed =>
        assert !(forall i :: 0 <= i < |items| ==> WellFormedAt(items, i, checksStatus)) by {
          var k :| 0 <= k < |tail| && !WellFormedAt(tail, k, checksStatus);
          assert !WellFormedAt(items, k + 1, checksStatus);
        }
        Malformed
      case Throws =>
        assert !(forall i :: 0 <= i < |items| ==> WellFormedAt(items, i, checksStatus)) by {
          var k :| ThrowsAt(tail, k, checksStatus);
          assert tail[k] == items[k + 1];
          assert !WellFormedAt(items, k + 1, checksStatus);
        }
        Throws
  }

  /** A request entry is the last one naming its id. */
  predicate LastFor(es: seq<PositionEntry>, i: int)
    requires 0 <= i < |es|
  {
    forall j :: i < j < |es| ==> es[j].id != es[i].id
  }

  /** The store refuses to write entry `e`: its position does not fit the
      32-bit `Int` column, or the write fails for a reason outside the
      model (an id in `failing`). */
  predicate Refused(e: PositionEntry, failing: set<string>) {
    e.id in failing || !IsInt32(e.position)
  }

  /** The index of the first entry whose write fails, or the number of
      entries when none does. */
  function FirstFailing(es: seq<PositionEntry>, failing: set<string>): (n: nat)
    ensures n <= |es|
    ensures forall i :: 0 <= i < n ==> !Refused(es[i], failing)
    ensures n < |es| ==> Refused(es[n], failing)
  {
    if es == [] || Refused(es[0], failing) then 0 else 1 + FirstFailing(es[1..], failing)
  }

  /** The existence check passes: every id is stored and none repeats. */
  predicate AllFound(ids: seq<string>, keys: set<string>) {
    Distinct(ids) && SetOf(ids) <= keys
  }
}
