/** The counters of `src/components/TodoStatistics.tsx`, computed from the
    todos of the selected view. The date tests of `date-fns` and the week's
    end are read off a clock given as a parameter. */
module TodoStatistics {
  import opened Options
  import opened Seqs
  import opened Entities

  /** What the todos query answered: a list, or something else (an error
      body, say), which the component treats as no todos. */
  datatype Data = TodoArray(todos: seq<Todo>) | NotAnArray

  /** The clock: `isPast`, `isToday` and `isTomorrow` of a due time, and
      `addDays(new Date(), 7)` in milliseconds. */
  datatype Clock = Clock(isPast: int -> bool, isToday: int -> bool, isTomorrow: int -> bool, weekEnd: int)

  datatype Stats = Stats(
    total: nat,
    completed: nat,
    active: nat,
    important: nat,
    overdue: nat,
    dueToday: nat,
    dueTomorrow: nat,
    dueThisWeek: nat,
    completionRate: nat)

  /** `Array.isArray(todos) ? todos : []`. */
  function ValidTodos(d: Data): seq<Todo> {
    if d.TodoArray? then d.todos else []
  }

  predicate IsDone(t: Todo) { t.status == DONE }

  predicate Overdue(c: Clock, t: Todo) { t.dueDate.Some? && c.isPast(t.dueDate.value) && !IsDone(t) }

  predicate DueToday(c: Clock, t: Todo) { t.dueDate.Some? && c.isToday(t.dueDate.value) && !IsDone(t) }

  predicate DueTomorrow(c: Clock, t: Todo) { t.dueDate.Some? && c.isTomorrow(t.dueDate.value) && !IsDone(t) }

  /** Due later this week: not done, dated, none of the three above, and
      no later than seven days from now. */
  predicate DueThisWeek(c: Clock, t: Todo) {
    && t.dueDate.Some? && !IsDone(t)
    && !c.isPast(t.dueDate.value) && !c.isToday(t.dueDate.value) && !c.isTomorrow(t.dueDate.value)
    && t.dueDate.value <= c.weekEnd
  }

  /** `Math.round(part / whole * 100)` in exact arithmetic: the percentage
      rounded to the nearest integer, halves up. */
  function Percent(part: nat, whole: nat): (r: nat)
    requires 0 < whole
    ensures 200 * part - whole < r * (2 * whole) <= 200 * part + whole
    ensures part <= whole ==> r <= 100
    ensures part == 0 ==> r == 0
    ensures part == whole ==> r == 100
  {
    RoundedQuotient(part, whole, (200 * part + whole) / (2 * whole));
    (200 * part + whole) / (2 * whole)
  }

  lemma MulLe(a: nat, b: nat, c: nat)
    requires a <= b
    ensures a * c <= b * c
  {
  }

  lemma RoundedQuotient(part: nat, whole: nat, r: nat)
    requires 0 < whole
    requires r == (200 * part + whole) / (2 * whole)
    ensures 200 * part - whole < r * (2 * whole) <= 200 * part + whole
    ensures part <= whole ==> r <= 100
    ensures part == 0 ==> r == 0
    ensures part == whole ==> r == 100
  {
    var w2 := 2 * whole;
    var n := 200 * part + whole;
    var m := n % w2;
    assert r * w2 + m == n && 0 <= m < w2;
    if part <= whole && r > 100 {
      MulLe(101, r, w2);
      assert false;
    }
    if part == 0 && r > 0 {
      MulLe(1, r, w2);
      assert false;
    }
    if part == whole && r < 100 {
      MulLe(r, 99, w2);
      assert false;
    }
  }

  /** The `stats` block. */
  function ComputeStats(d: Data, c: Clock): (s: Stats)
    ensures s.total == |ValidTodos(d)|
    ensures s.completed + s.active == s.total
    ensures s.important <= s.total
    ensures s.overdue <= s.active && s.dueToday <= s.active && s.dueTomorrow <= s.active
    ensures s.dueThisWeek + s.overdue <= s.active
    ensures s.dueThisWeek + s.dueToday <= s.active
    ensures s.dueThisWeek + s.dueTomorrow <= s.active
    ensures s.completionRate <= 100
    ensures s.total == 0 ==> s.completionRate == 0
    ensures d.NotAnArray? ==> s == Stats(0, 0, 0, 0, 0, 0, 0, 0, 0)
  {
    var todos := ValidTodos(d);
    var total := |todos|;
    var completed := Count(todos, IsDone);
    var notDone := (t: Todo) => !IsDone(t);
    CountSplit(todos, IsDone, notDone);
    var active := total - completed;
    var important := Count(todos, (t: Todo) => t.isImportant);
    var overdue := Count(todos, t => Overdue(c, t));
    var dueToday := Count(todos, t => DueToday(c, t));
    var dueTomorrow := Count(todos, t => DueTomorrow(c, t));
    var dueThisWeek := Count(todos, t => DueThisWeek(c, t));
    CountMonotonic(todos, t => Overdue(c, t), notDone);
    CountMonotonic(todos, t => DueToday(c, t), notDone);
    CountMonotonic(todos, t => DueTomorrow(c, t), notDone);
    ThisWeekDisjoint(todos, t => Overdue(c, t), c, notDone);
    ThisWeekDisjoint(todos, t => DueToday(c, t), c, notDone);
    ThisWeekDisjoint(todos, t => DueTomorrow(c, t), c, notDone);
    Stats(total, completed, active, important, overdue, dueToday, dueTomorrow, dueThisWeek,
          if total > 0 then Percent(completed, total) else 0)
  }

  /** `dueThisWeek` never counts a todo another counter `p` of unfinished
      dated todos counts, provided `p` implies one of the three date tests. */
  lemma ThisWeekDisjoint(todos: seq<Todo>, p: Todo -> bool, c: Clock, notDone: Todo -> bool)
    requires forall t :: notDone(t) <==> !IsDone(t)
    requires forall t :: p(t) ==>
      && !IsDone(t) && t.dueDate.Some?
      && (c.isPast(t.dueDate.value) || c.isToday(t.dueDate.value) || c.isTomorrow(t.dueDate.value))
    ensures Count(todos, t => DueThisWeek(c, t)) + Count(todos, p) <= Count(todos, notDone)
  {
    var week := (t: Todo) => DueThisWeek(c, t);
    var either := (t: Todo) => week(t) || p(t);
    CountDisjoint(todos, week, p, either);
    CountMonotonic(todos, either, notDone);
  }

  /** With a clock whose three date tests never hold together (which
      `isPast` and `isToday` do for a time earlier today), the four date
      counters count different todos, so they add up to at most `active`. */
  lemma DateCountersBound(d: Data, c: Clock)
    requires forall ms :: !(c.isPast(ms) && c.isToday(ms))
    requires forall ms :: !(c.isPast(ms) && c.isTomorrow(ms))
    requires forall ms :: !(c.isToday(ms) && c.isTomorrow(ms))
    ensures ComputeStats(d, c).overdue + ComputeStats(d, c).dueToday + ComputeStats(d, c).dueTomorrow
          + ComputeStats(d, c).dueThisWeek <= ComputeStats(d, c).active
  {
    var todos := ValidTodos(d);
    var overdue := (t: Todo) => Overdue(c, t);
    var today := (t: Todo) => DueToday(c, t);
    var tomorrow := (t: Todo) => DueTomorrow(c, t);
    var week := (t: Todo) => DueThisWeek(c, t);
    var upToToday := (t: Todo) => overdue(t) || today(t);
    var upToTomorrow := (t: Todo) => upToToday(t) || tomorrow(t);
    var all := (t: Todo) => upToTomorrow(t) || week(t);
    var notDone := (t: Todo) => !IsDone(t);
    forall t: Todo | t.dueDate.Some?
      ensures !(overdue(t) && today(t)) && !(upToToday(t) && tomorrow(t))
    {
      var ms := t.dueDate.value;
      assert !(c.isPast(ms) && c.isToday(ms));
      assert !(c.isPast(ms) && c.isTomorrow(ms));
      assert !(c.isToday(ms) && c.isTomorrow(ms));
    }
    CountDisjoint(todos, overdue, today, upToToday);
    CountDisjoint(todos, upToToday, tomorrow, upToTomorrow);
    CountDisjoint(todos, upToTomorrow, week, all);
    CountMonotonic(todos, all, notDone);
    CountSplit(todos, IsDone, notDone);
  }

  /** The subtitle of the Important card: the share of important todos, 0
      for an empty view, at most 100. */
  function ImportantShare(s: Stats): (r: nat)
    requires s.important <= s.total
    ensures r <= 100
    ensures s.total == 0 ==> r == 0
  {
    Percent(s.important, if s.total > 1 then s.total else 1)
  }
}
