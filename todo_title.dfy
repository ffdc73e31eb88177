/** The title of a todo item, `src/components/todo/TodoTitle.tsx`: a text
    input while the item is in quick edit, a label otherwise. Each event
    it handles becomes one of the item's callbacks, or none. */
module TodoTitle {
  import Text

  /** The callback an event runs: `onSave`, `onCancel`, `onStartEdit`, or
      no callback at all. */
  datatype Action = Save | Cancel | StartEdit | NoAction

  /** A key pressed in the input: Enter saves a title that is not blank
      once trimmed, Escape cancels whatever the title. */
  function OnKeyDown(key: string, editTitle: string): (a: Action)
    ensures a == Save <==> key == "Enter" && !Text.IsBlank(editTitle)
    ensures a == Cancel <==> key == "Escape"
    ensures a != StartEdit
  {
    if key == "Enter" && !Text.IsBlank(editTitle) then Save
    else if key == "Escape" then Cancel
    else NoAction
  }

  /** Leaving the input: a title that is not blank is saved, a blank one
      is given up. */
  function OnBlur(editTitle: string): (a: Action)
    ensures a == Save || a == Cancel
    ensures a == Save <==> !Text.IsBlank(editTitle)
  {
    if !Text.IsBlank(editTitle) then Save else Cancel
  }

  /** Double-clicking the title: the label, which has the handler, is only
      shown when the item is not in quick edit. */
  function OnDoubleClick(isEditing: bool): (a: Action)
    ensures a == StartEdit <==> !isEditing
    ensures a == StartEdit || a == NoAction
  {
    if isEditing then NoAction else StartEdit
  }

  /** Enter, when it does anything, does what leaving the input would do. */
  lemma EnterAgreesWithBlur(editTitle: string)
    ensures OnKeyDown("Enter", editTitle) == NoAction || OnKeyDown("Enter", editTitle) == OnBlur(editTitle)
    ensures OnKeyDown("Enter", editTitle) == NoAction <==> OnBlur(editTitle) == Cancel
  {
  }

  /** A title of spaces alone is not saved, by Enter or by leaving the
      input. */
  lemma SpacesAreNotSaved(editTitle: string)
    requires forall i :: 0 <= i < |editTitle| ==> editTitle[i] == ' '
    ensures OnKeyDown("Enter", editTitle) == NoAction
    ensures OnBlur(editTitle) == Cancel
  {
    Text.BlankIffAllWhitespace(editTitle);
  }
}
