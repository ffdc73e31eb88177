/** The list view of `src/components/TodoList.tsx`: a local list of todos
    and the add form's fields, the category and status filter that selects
    what is shown, and the two list operations, add and update. */
module TodoList {
  import opened Options
  import opened Seqs
  import opened Entities
  import Text

  /** `!value` is false: a category id that is set and not empty. */
  predicate IsSet(categoryId: Option<string>) {
    categoryId.Some? && categoryId.value != ""
  }

  /** The category half of the view filter: a selected category shows the
      todos in it; with none selected (the inbox) only the todos without a
      category are shown. */
  predicate InView(selectedCategory: Option<string>, t: Todo) {
    if IsSet(selectedCategory) then t.categoryId == selectedCategory else !IsSet(t.categoryId)
  }

  /** `filteredTodos`: the todos of the view that the status filter lets
      through, in list order. */
  function Visible(todos: seq<Todo>, selectedCategory: Option<string>, f: StatusFilter): (r: seq<Todo>)
    ensures forall t :: t in r <==>
      && t in todos
      && (if IsSet(selectedCategory) then t.categoryId == selectedCategory else !IsSet(t.categoryId))
      && StatusMatches(f, t.status)
  {
    Filter(todos, (t: Todo) => InView(selectedCategory, t) && StatusMatches(f, t.status))
  }

  /** The ACTIVE and COMPLETED views of a category split its ALL view. */
  lemma {:induction false} StatusViewsSplit(todos: seq<Todo>, selectedCategory: Option<string>)
    ensures |Visible(todos, selectedCategory, ACTIVE)| + |Visible(todos, selectedCategory, COMPLETED)|
         == |Visible(todos, selectedCategory, ALL)|
  {
    if todos != [] {
      StatusViewsSplit(todos[1..], selectedCategory);
    }
  }

  /** A todo appended to the list shows at the end of every view it
      belongs to, and leaves the other views as they were. */
  lemma VisibleAfterAppend(todos: seq<Todo>, t: Todo, selectedCategory: Option<string>, f: StatusFilter)
    ensures Visible(todos + [t], selectedCategory, f) ==
      Visible(todos, selectedCategory, f) + (if InView(selectedCategory, t) && StatusMatches(f, t.status) then [t] else [])
  {
    FilterSnoc(todos, t, (t: Todo) => InView(selectedCategory, t) && StatusMatches(f, t.status));
  }

  /** `prev.map(todo => todo.id === id ? { ...todo, ...updates } : todo)`. */
  function UpdateAll(todos: seq<Todo>, id: string, updates: Patch): (r: seq<Todo>)
    ensures |r| == |todos|
    ensures forall i :: 0 <= i < |r| ==> r[i] == if todos[i].id == id then Merge(todos[i], updates) else todos[i]
  {
    if todos == [] then []
    else [if todos[0].id == id then Merge(todos[0], updates) else todos[0]] + UpdateAll(todos[1..], id, updates)
  }

  /** Sending the same update twice has the effect of sending it once,
      even when the update renames the todo. */
  lemma UpdateAllIdempotent(todos: seq<Todo>, id: string, updates: Patch)
    ensures UpdateAll(UpdateAll(todos, id, updates), id, updates) == UpdateAll(todos, id, updates)
  {
    var once := UpdateAll(todos, id, updates);
    var twice := UpdateAll(once, id, updates);
    forall i | 0 <= i < |todos| ensures twice[i] == once[i] {
      if todos[i].id == id {
        MergeIdempotent(todos[i], updates);
      }
    }
  }

  /** An update for an id no todo has changes nothing. */
  lemma UpdateAllMissing(todos: seq<Todo>, id: string, updates: Patch)
    requires forall i :: 0 <= i < |todos| ==> todos[i].id != id
    ensures UpdateAll(todos, id, updates) == todos
  {
  }

  /** The component's state: the list and the fields of the add form. */
  class TodoList {
    var todos: seq<Todo>
    var newTodoTitle: string
    var newTodoCategory: Option<string>
    var dueDate: Option<int>
    var newTodoLabels: seq<string>
    var filter: StatusFilter

    /** The initial state of every `useState`. */
    constructor()
      ensures todos == [] && newTodoTitle == "" && newTodoCategory == None
      ensures dueDate == None && newTodoLabels == [] && filter == ALL
    {
      todos := [];
      newTodoTitle := "";
      newTodoCategory := None;
      dueDate := None;
      newTodoLabels := [];
      filter := ALL;
    }

    /** `addTodo`. A blank title changes nothing. Otherwise the todo built
        from the form, with the fresh id `freshId` standing for
        `crypto.randomUUID()`, goes at the end of the list and the form is
        cleared; the status filter is kept. */
    method AddTodo(freshId: string)
      modifies this
      ensures Text.IsBlank(old(newTodoTitle)) ==> todos == old(todos)
      ensures Text.IsBlank(old(newTodoTitle)) ==> newTodoTitle == old(newTodoTitle)
      ensures Text.IsBlank(old(newTodoTitle)) ==> newTodoCategory == old(newTodoCategory)
      ensures Text.IsBlank(old(newTodoTitle)) ==> dueDate == old(dueDate) && newTodoLabels == old(newTodoLabels)
      ensures !Text.IsBlank(old(newTodoTitle)) ==>
        todos == old(todos) + [Todo(freshId, old(newTodoTitle), old(dueDate), false, INBOX,
                                    old(newTodoCategory), old(newTodoLabels))]
      ensures !Text.IsBlank(old(newTodoTitle)) ==>
        newTodoTitle == "" && newTodoCategory == None && dueDate == None && newTodoLabels == []
      ensures filter == old(filter)
    {
      if !Text.IsBlank(newTodoTitle) {
        var t := Todo(freshId, newTodoTitle, dueDate, false, INBOX, newTodoCategory, newTodoLabels);
        todos := todos + [t];
        newTodoTitle := "";
        dueDate := None;
        newTodoLabels := [];
        newTodoCategory := None;
      }
    }

    /** `updateTodo`: the updates are merged into every todo with the id;
        the form and the filter are untouched. */
    method UpdateTodo(id: string, updates: Patch)
      modifies this
      ensures todos == UpdateAll(old(todos), id, updates)
      ensures newTodoTitle == old(newTodoTitle) && newTodoCategory == old(newTodoCategory)
      ensures dueDate == old(dueDate) && newTodoLabels == old(newTodoLabels) && filter == old(filter)
    {
      todos := UpdateAll(todos, id, updates);
    }
  }
}
