/** The important-tasks view of `src/components/ImportantTasks.tsx`: the
    important todos, narrowed by the view's status filter (ACTIVE unless the
    user picks another), in sort order: unfinished before finished, then by
    due date with undated todos last. */
module ImportantTasks {
  import opened Options
  import opened Seqs
  import opened Sorting
  import opened Entities

  /** The filter the view opens with. */
  const DefaultFilter: StatusFilter := ACTIVE

  /** `importantTodos`: the important todos the status filter lets through,
      in their input order. */
  function ImportantTodos(todos: seq<Todo>, f: StatusFilter): (r: seq<Todo>)
    ensures forall t :: t in r <==> t in todos && t.isImportant && StatusMatches(f, t.status)
  {
    Filter(Filter(todos, (t: Todo) => t.isImportant), (t: Todo) => StatusMatches(f, t.status))
  }

  // ---------------------------------------------------------------------
  // The comparator as written

  /** The comparator passed to `sort`, as written: a negative result puts
      `a` first. Both branches of the status test answer from `a`'s status
      alone. */
  function CompareAsWritten(a: Todo, b: Todo): int {
    if a.status != b.status then (if a.status == DONE then 1 else -1)
    else if a.dueDate.Some? && b.dueDate.Some? then a.dueDate.value - b.dueDate.value
    else if a.dueDate.Some? && b.dueDate.None? then -1
    else if a.dueDate.None? && b.dueDate.Some? then 1
    else 0
  }

  /** An INBOX todo and a TODO todo each compare before the other, whatever
      their dates: the comparator is not consistent, and the order `sort`
      gives such a pair is left to the engine. */
  lemma CompareAsWrittenInconsistent(a: Todo, b: Todo)
    requires a.status == INBOX && b.status == TODO
    ensures CompareAsWritten(a, b) < 0 && CompareAsWritten(b, a) < 0
  {
  }

  // ---------------------------------------------------------------------
  // The corrected comparator: "active first, then by due date"

  function IsDone(t: Todo): bool { t.status == DONE }

  /** Unfinished before finished; among those, dated todos by ascending due
      time, then the undated ones. */
  const ImportantOrder: (Todo, Todo) -> bool :=
    Then(On(BoolLe, (t: Todo) => IsDone(t)), On(NullsLast(IntLe), (t: Todo) => t.dueDate))

  /** `ImportantOrder` spelled out. */
  lemma ImportantOrderIs(a: Todo, b: Todo)
    ensures ImportantOrder(a, b) <==>
      if IsDone(a) != IsDone(b) then !IsDone(a)
      else if a.dueDate.None? then b.dueDate.None?
      else b.dueDate.None? || a.dueDate.value <= b.dueDate.value
  {
    var byDone := On(BoolLe, (t: Todo) => IsDone(t));
    var byDue := On(NullsLast(IntLe), (t: Todo) => t.dueDate);
    assert byDone(a, b) == BoolLe(IsDone(a), IsDone(b));
    assert byDone(b, a) == BoolLe(IsDone(b), IsDone(a));
    assert byDue(a, b) == NullsLast(IntLe)(a.dueDate, b.dueDate);
    assert NullsLast(IntLe)(a.dueDate, b.dueDate) ==
      if a.dueDate.None? then b.dueDate.None?
      else b.dueDate.None? || IntLe(a.dueDate.value, b.dueDate.value);
    assert ImportantOrder(a, b) == (byDone(a, b) && (byDone(b, a) ==> byDue(a, b)));
  }

  /** The comparator with the status test made symmetric: it tells apart
      only finished from unfinished todos. */
  function Compare(a: Todo, b: Todo): int {
    if IsDone(a) != IsDone(b) then (if IsDone(a) then 1 else -1)
    else if a.dueDate.Some? && b.dueDate.Some? then a.dueDate.value - b.dueDate.value
    else if a.dueDate.Some? && b.dueDate.None? then -1
    else if a.dueDate.None? && b.dueDate.Some? then 1
    else 0
  }

  /** The corrected comparator is consistent: swapping its arguments flips
      its sign, and a non-positive answer is exactly `ImportantOrder`. */
  lemma CompareConsistent(a: Todo, b: Todo)
    ensures Compare(a, b) < 0 <==> Compare(b, a) > 0
    ensures Compare(a, b) == 0 <==> Compare(b, a) == 0
    ensures Compare(a, b) <= 0 <==> ImportantOrder(a, b)
  {
    ImportantOrderIs(a, b);
  }

  /** The correction changes nothing except on a pair of different
      statuses that are both unfinished (INBOX against TODO). */
  lemma CompareAgreesAsWritten(a: Todo, b: Todo)
    requires a.status == b.status || IsDone(a) || IsDone(b)
    ensures Compare(a, b) == CompareAsWritten(a, b)
  {
  }

  lemma ImportantOrderPreorder()
    ensures TotalPreorder(ImportantOrder)
  {
    assert TotalPreorder(BoolLe);
    assert TotalPreorder(IntLe);
    NullsLastPreorder(IntLe);
    OnPreorder(BoolLe, (t: Todo) => IsDone(t));
    OnPreorder(NullsLast(IntLe), (t: Todo) => t.dueDate);
    ThenPreorder(On(BoolLe, (t: Todo) => IsDone(t)), On(NullsLast(IntLe), (t: Todo) => t.dueDate));
  }

  /** `sortedImportantTodos`: a sorted copy; the input list is a value and
      is left as it was. */
  function SortedImportantTodos(todos: seq<Todo>, f: StatusFilter): (r: seq<Todo>)
    ensures multiset(r) == multiset(ImportantTodos(todos, f))
    ensures forall t :: t in r <==> t in todos && t.isImportant && StatusMatches(f, t.status)
  {
    var r := Sort(ImportantTodos(todos, f), ImportantOrder);
    assert forall t :: t in r <==> t in multiset(r);
    r
  }

  lemma SortedImportantTodosSorted(todos: seq<Todo>, f: StatusFilter)
    ensures SortedBy(SortedImportantTodos(todos, f), ImportantOrder)
  {
    ImportantOrderPreorder();
    SortSorted(ImportantTodos(todos, f), ImportantOrder);
  }

  /** Every unfinished todo is listed before every finished one. */
  lemma DoneLast(todos: seq<Todo>, f: StatusFilter, i: int, j: int)
    requires 0 <= i < j < |SortedImportantTodos(todos, f)|
    requires SortedImportantTodos(todos, f)[i].status == DONE
    ensures SortedImportantTodos(todos, f)[j].status == DONE
  {
    var r := SortedImportantTodos(todos, f);
    SortedImportantTodosSorted(todos, f);
    assert ImportantOrder(r[i], r[j]);
    ImportantOrderIs(r[i], r[j]);
  }

  /** Among todos of the same status, dated ones come in ascending due
      time, and come before the undated ones. */
  lemma DueDatesAscending(todos: seq<Todo>, f: StatusFilter, i: int, j: int)
    requires 0 <= i < j < |SortedImportantTodos(todos, f)|
    requires SortedImportantTodos(todos, f)[i].status == SortedImportantTodos(todos, f)[j].status
    ensures SortedImportantTodos(todos, f)[j].dueDate.Some? ==> SortedImportantTodos(todos, f)[i].dueDate.Some?
    ensures SortedImportantTodos(todos, f)[i].dueDate.Some? && SortedImportantTodos(todos, f)[j].dueDate.Some? ==>
      SortedImportantTodos(todos, f)[i].dueDate.value <= SortedImportantTodos(todos, f)[j].dueDate.value
  {
    var r := SortedImportantTodos(todos, f);
    SortedImportantTodosSorted(todos, f);
    assert ImportantOrder(r[i], r[j]);
    ImportantOrderIs(r[i], r[j]);
  }

  /** Undated todos of one status tie, and the sort keeps them in the
      order they had in the input. */
  lemma UndatedKeepOrder(todos: seq<Todo>, f: StatusFilter, s: Status)
    ensures Filter(SortedImportantTodos(todos, f), (t: Todo) => t.dueDate.None? && t.status == s)
         == Filter(ImportantTodos(todos, f), (t: Todo) => t.dueDate.None? && t.status == s)
  {
    var tied := (t: Todo) => t.dueDate.None? && t.status == s;
    forall a, b | tied(a) && tied(b) ensures ImportantOrder(a, b) {
      ImportantOrderIs(a, b);
    }
    SortStable(ImportantTodos(todos, f), ImportantOrder, tied);
  }
}
