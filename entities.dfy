/** The records of the application: the client-side `Todo` of
    `src/types/todo.ts`, the rows the store keeps for todos, categories and
    labels, and the partial update (`Partial<Todo>`) the components send. */
module Entities {
  import opened Options

  /** `'INBOX' | 'TODO' | 'DONE'`, in declaration order. */
  datatype Status = INBOX | TODO | DONE

  /** The position of a status in the enum, which is what `status: 'asc'`
      sorts by. */
  function StatusRank(s: Status): (r: nat)
    ensures r <= 2
    ensures s == DONE <==> r == 2
  {
    match s
    case INBOX => 0
    case TODO => 1
    case DONE => 2
  }

  /** The status a request names, if it names one of the three. */
  function ParseStatus(s: string): (r: Option<Status>)
    ensures r.Some? <==> s in {"INBOX", "TODO", "DONE"}
    ensures r.Some? ==> StatusName(r.value) == s
  {
    if s == "INBOX" then Some(INBOX)
    else if s == "TODO" then Some(TODO)
    else if s == "DONE" then Some(DONE)
    else None
  }

  function StatusName(s: Status): string {
    match s
    case INBOX => "INBOX"
    case TODO => "TODO"
    case DONE => "DONE"
  }

  lemma StatusNameRoundTrip(s: Status)
    ensures ParseStatus(StatusName(s)) == Some(s)
  {
  }

  /** A todo as the components see it. Dates are milliseconds since the
      epoch. */
  datatype Todo = Todo(
    id: string,
    title: string,
    dueDate: Option<int>,
    isImportant: bool,
    status: Status,
    categoryId: Option<string>,
    labels: seq<string>)

  /** A todo as the store keeps it: the fields of `Todo`, the manual order
      `position` and the last-modification time `updatedAt`. */
  datatype TodoRow = TodoRow(
    id: string,
    title: string,
    dueDate: Option<int>,
    isImportant: bool,
    status: Status,
    categoryId: Option<string>,
    labels: seq<string>,
    position: int,
    updatedAt: int)
  {
    /** The row as the client reads it from a JSON response. */
    function AsTodo(): Todo {
      Todo(id, title, dueDate, isImportant, status, categoryId, labels)
    }
  }

  datatype CategoryRow = CategoryRow(id: string, name: string, position: int)

  datatype LabelRow = LabelRow(id: string, name: string, color: string)

  /** One element of a reorder request once validated: an id and the
      position to write for it. */
  datatype PositionEntry = PositionEntry(id: string, position: int)

  /** `Partial<Todo>`: `None` means the key is absent. For the optional
      fields the inner `Option` is the value, where `None` is `undefined`. */
  datatype Patch = Patch(
    id: Option<string>,
    title: Option<string>,
    dueDate: Option<Option<int>>,
    isImportant: Option<bool>,
    status: Option<Status>,
    categoryId: Option<Option<string>>,
    labels: Option<seq<string>>)

  /** `{}`. */
  const NoChange := Patch(None, None, None, None, None, None, None)

  function Override<X>(current: X, update: Option<X>): X {
    if update.Some? then update.value else current
  }

  /** `{ ...todo, ...updates }`: every key present in the patch replaces
      the todo's value, including a key present with value `undefined`. */
  function Merge(t: Todo, p: Patch): Todo {
    Todo(
      Override(t.id, p.id),
      Override(t.title, p.title),
      Override(t.dueDate, p.dueDate),
      Override(t.isImportant, p.isImportant),
      Override(t.status, p.status),
      Override(t.categoryId, p.categoryId),
      Override(t.labels, p.labels))
  }

  lemma MergeNoChange(t: Todo)
    ensures Merge(t, NoChange) == t
  {
  }

  /** Applying the same patch twice is applying it once. */
  lemma MergeIdempotent(t: Todo, p: Patch)
    ensures Merge(Merge(t, p), p) == Merge(t, p)
  {
  }

  /** The `'ALL' | 'ACTIVE' | 'COMPLETED'` status filter of the list views. */
  datatype StatusFilter = ALL | ACTIVE | COMPLETED

  /** ALL keeps everything, COMPLETED keeps DONE, ACTIVE keeps the rest. */
  predicate StatusMatches(f: StatusFilter, s: Status) {
    match f
    case ALL => true
    case ACTIVE => s != DONE
    case COMPLETED => s == DONE
  }

  /** Every status passes exactly one of ACTIVE and COMPLETED. */
  lemma ActiveCompletedPartition(s: Status)
    ensures StatusMatches(ACTIVE, s) != StatusMatches(COMPLETED, s)
    ensures StatusMatches(ALL, s)
  {
  }
}
