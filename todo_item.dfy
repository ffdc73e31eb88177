/** The edit state of one todo item, `src/components/todo/TodoItem.tsx`:
    a quick edit of the title, a full edit of title, category, due date and
    labels, and the updates the item sends to its `onUpdate` callback. */
module TodoItem {
  import opened Options
  import opened Entities
  import Text

  /** One call of `onUpdate(id, updates)`. */
  datatype Update = Update(id: string, updates: Patch)

  /** `{ title }`. */
  function TitleOnly(title: string): Patch {
    NoChange.(title := Some(title))
  }

  /** What a full edit sends: every edited field, where a cleared due date
      or category is sent as a key present with value `undefined`. */
  function FullEdit(title: string, categoryId: Option<string>, dueDate: Option<int>, labels: seq<string>): Patch {
    NoChange.(title := Some(title), categoryId := Some(categoryId), dueDate := Some(dueDate), labels := Some(labels))
  }

  /** `{ status }`. */
  function StatusOnly(s: Status): Patch {
    NoChange.(status := Some(s))
  }

  /** Ctrl+Space: a finished todo is reopened as TODO, any other is
      finished. */
  function Toggled(s: Status): (r: Status)
    ensures r == DONE <==> s != DONE
  {
    if s == DONE then TODO else DONE
  }

  /** The checkbox: checked finishes the todo, unchecked makes it TODO. */
  function Checked(checked: bool): (r: Status)
    ensures r == DONE <==> checked
  {
    if checked then DONE else TODO
  }

  /** Ctrl+Space twice gives back a TODO or DONE status; INBOX comes back
      as TODO, not INBOX. */
  lemma ToggledTwice(s: Status)
    ensures s != INBOX ==> Toggled(Toggled(s)) == s
    ensures s == INBOX ==> Toggled(Toggled(s)) == TODO
  {
  }

  /** Ctrl+Space does what clicking the checkbox of its current state does. */
  lemma ToggledIsCheckbox(s: Status)
    ensures Toggled(s) == Checked(s != DONE)
  {
  }

  /** Merged into the todo, a quick edit changes the title alone and a full
      edit the four fields of the form. */
  lemma EditsMerge(t: Todo, title: string, categoryId: Option<string>, dueDate: Option<int>, labels: seq<string>)
    ensures Merge(t, TitleOnly(title)) == t.(title := title)
    ensures Merge(t, FullEdit(title, categoryId, dueDate, labels))
         == t.(title := title, categoryId := categoryId, dueDate := dueDate, labels := labels)
    ensures Merge(t, StatusOnly(Toggled(t.status))).status == Toggled(t.status)
  {
  }

  class TodoItem {
    var todo: Todo
    var isEditing: bool
    var isFullEditing: bool
    var editTitle: string
    var editCategoryId: Option<string>
    var editDueDate: Option<int>
    var editLabels: seq<string>
    /** Every call of `onUpdate` so far, oldest first. */
    var sent: seq<Update>

    /** The two edit modes exclude each other. */
    predicate Valid()
      reads this
    {
      !(isEditing && isFullEditing)
    }

    /** The edit fields hold the todo's values. */
    predicate FieldsFromTodo()
      reads this
    {
      && editTitle == todo.title && editCategoryId == todo.categoryId
      && editDueDate == todo.dueDate && editLabels == todo.labels
    }

    constructor(t: Todo)
      ensures Valid() && FieldsFromTodo()
      ensures todo == t && !isEditing && !isFullEditing && sent == []
    {
      todo := t;
      isEditing := false;
      isFullEditing := false;
      editTitle := t.title;
      editCategoryId := t.categoryId;
      editDueDate := t.dueDate;
      editLabels := t.labels;
      sent := [];
    }

    /** The effect that runs after a render in which the todo or one of the
        two flags changed: the edit fields are reloaded from the todo. */
    method ResetFields()
      modifies this
      ensures FieldsFromTodo()
      ensures todo == old(todo) && isEditing == old(isEditing) && isFullEditing == old(isFullEditing)
      ensures sent == old(sent)
    {
      editTitle := todo.title;
      editCategoryId := todo.categoryId;
      editDueDate := todo.dueDate;
      editLabels := todo.labels;
    }

    /** `handleStartEdit` (F2, the context menu, a double-click on the
        title): quick edit on, full edit off, the title reloaded. */
    method StartEdit()
      modifies this
      ensures Valid() && isEditing && !isFullEditing
      ensures editTitle == todo.title
      ensures (old(isEditing) && !old(isFullEditing)) ==>
        editCategoryId == old(editCategoryId) && editDueDate == old(editDueDate) && editLabels == old(editLabels)
      ensures !(old(isEditing) && !old(isFullEditing)) ==> FieldsFromTodo()
      ensures todo == old(todo) && sent == old(sent)
    {
      var changed := !isEditing || isFullEditing;
      isEditing := true;
      isFullEditing := false;
      editTitle := todo.title;
      if changed {
        ResetFields();
      }
    }

    /** `handleStartFullEdit`: full edit on, quick edit off. */
    method StartFullEdit()
      modifies this
      ensures Valid() && !isEditing && isFullEditing
      ensures (!old(isEditing) && old(isFullEditing)) ==>
        && editTitle == old(editTitle) && editCategoryId == old(editCategoryId)
        && editDueDate == old(editDueDate) && editLabels == old(editLabels)
      ensures !(!old(isEditing) && old(isFullEditing)) ==> FieldsFromTodo()
      ensures todo == old(todo) && sent == old(sent)
    {
      var changed := isEditing || !isFullEditing;
      isFullEditing := true;
      isEditing := false;
      if changed {
        ResetFields();
      }
    }

    /** `handleSave`. A blank title, or no edit in progress, changes
        nothing and sends nothing. A quick edit sends the title alone, a
        full edit the four fields of its form; either way the edit ends. */
    method Save()
      requires Valid()
      modifies this
      ensures Valid()
      ensures todo == old(todo)
      ensures Text.IsBlank(old(editTitle)) || (!old(isEditing) && !old(isFullEditing)) ==>
        && sent == old(sent) && isEditing == old(isEditing) && isFullEditing == old(isFullEditing)
        && editTitle == old(editTitle) && editCategoryId == old(editCategoryId)
        && editDueDate == old(editDueDate) && editLabels == old(editLabels)
      ensures !Text.IsBlank(old(editTitle)) && old(isEditing) ==>
        && sent == old(sent) + [Update(todo.id, TitleOnly(old(editTitle)))]
        && !isEditing && !isFullEditing && FieldsFromTodo()
      ensures !Text.IsBlank(old(editTitle)) && old(isFullEditing) ==>
        && sent == old(sent) + [Update(todo.id, FullEdit(old(editTitle), old(editCategoryId), old(editDueDate), old(editLabels)))]
        && !isEditing && !isFullEditing && FieldsFromTodo()
    {
      if Text.IsBlank(editTitle) {
        return;
      }
      if isEditing {
        sent := sent + [Update(todo.id, TitleOnly(editTitle))];
        isEditing := false;
        ResetFields();
      } else if isFullEditing {
        sent := sent + [Update(todo.id, FullEdit(editTitle, editCategoryId, editDueDate, editLabels))];
        isFullEditing := false;
        ResetFields();
      }
    }

    /** `handleCancel`: the edit fields are reloaded from the todo, both
        edits end, nothing is sent. */
    method Cancel()
      modifies this
      ensures Valid() && !isEditing && !isFullEditing && FieldsFromTodo()
      ensures todo == old(todo) && sent == old(sent)
    {
      ResetFields();
      isEditing := false;
      isFullEditing := false;
    }

    /** `handleKeyDown`: F2 starts a quick edit; Ctrl+Space sends a status
        update and nothing else; any other key does nothing. */
    method KeyDown(key: string, ctrlKey: bool)
      requires Valid()
      modifies this
      ensures Valid()
      ensures key == "F2" ==> isEditing && !isFullEditing && editTitle == todo.title && sent == old(sent)
      ensures key == "F2" && old(isEditing) && !old(isFullEditing) ==>
        editCategoryId == old(editCategoryId) && editDueDate == old(editDueDate) && editLabels == old(editLabels)
      ensures key == "F2" && !(old(isEditing) && !old(isFullEditing)) ==> FieldsFromTodo()
      ensures key != "F2" && key == " " && ctrlKey ==>
        && sent == old(sent) + [Update(todo.id, StatusOnly(Toggled(todo.status)))]
        && isEditing == old(isEditing) && isFullEditing == old(isFullEditing)
        && editTitle == old(editTitle)
      ensures key != "F2" && !(key == " " && ctrlKey) ==>
        && sent == old(sent) && isEditing == old(isEditing) && isFullEditing == old(isFullEditing)
        && editTitle == old(editTitle)
      ensures todo == old(todo)
      ensures key != "F2" ==>
        editCategoryId == old(editCategoryId) && editDueDate == old(editDueDate) && editLabels == old(editLabels)
    {
      if key == "F2" {
        StartEdit();
      } else if key == " " && ctrlKey {
        sent := sent + [Update(todo.id, StatusOnly(Toggled(todo.status)))];
      }
    }

    /** The checkbox's `onChange` (`TodoCheckbox`): a status update. */
    method CheckboxChange(checked: bool)
      modifies this
      ensures sent == old(sent) + [Update(todo.id, StatusOnly(Checked(checked)))]
      ensures todo == old(todo) && isEditing == old(isEditing) && isFullEditing == old(isFullEditing)
      ensures editTitle == old(editTitle) && editCategoryId == old(editCategoryId)
      ensures editDueDate == old(editDueDate) && editLabels == old(editLabels)
    {
      sent := sent + [Update(todo.id, StatusOnly(Checked(checked)))];
    }

    /** A new `todo` object from the parent (the list was fetched again):
        the effect, which compares objects by identity, reloads the fields;
        the edit mode carries on. */
    method ReceiveTodo(t: Todo)
      modifies this
      ensures todo == t && FieldsFromTodo()
      ensures isEditing == old(isEditing) && isFullEditing == old(isFullEditing) && sent == old(sent)
    {
      todo := t;
      ResetFields();
    }
  }
}
