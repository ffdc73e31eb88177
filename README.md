# todo-cockpit, modelled in Dafny

todo-cockpit is a small todo application. It has a Next.js back end with
route handlers over a Prisma store, and React components that filter, sort,
count and edit todos. This project models the core of both halves and proves
what the code promises.

**Back end.** The store is a class `Store.Db` with one map per table
(todos, categories, labels), each keyed by row id. Every store query the
routes issue is a method on it: a loop collects the selected rows, then an
insertion sort orders them by the query's `orderBy`. The route handlers are
methods that take the parsed request body (a JavaScript value, `Js.Value`)
and answer with an `Http.Response`:

- `GET`/`POST /api/categories`;
- `GET`/`POST /api/labels`;
- `GET`/`POST /api/todos`;
- the two reorder routes.

Each reorder route validates the entries, checks that every id exists,
writes the positions one by one inside a transaction, and reads the result
back. A failing write rolls the table back to its snapshot.

**Front end.** These are the parts of the components that are logic rather
than markup:

- the important-tasks filter and sort;
- the list view's filter, add and update;
- the statistics counters;
- the label picker's toggle and contrast colour;
- the title editor's key and blur rules;
- the edit state of a todo item, which is a class whose methods are the
  handlers.

Modules follow the source files. Shared helpers sit in their own modules:

| module | holds |
|---|---|
| `Seqs` | filter and count |
| `Sorting` | total preorders, order combinators, insertion sort |
| `Text` | trimming, string order, hexadecimal digits |
| `Js` | JavaScript values and truthiness |
| `Entities` | the records of `src/types/todo.ts` and partial updates |
| `ReorderEntries` | the entry check shared by both reorder routes |

## Model

| member | source | states |
|---|---|---|
| Entities.StatusRank | src/app/api/todos/route.ts:25 | the enum order INBOX < TODO < DONE used by `status: 'asc'`; DONE is last |
| Entities.ParseStatus | src/app/api/todos/reorder/route.ts:18 | a string is a status exactly when it is "INBOX", "TODO" or "DONE", and then it names that status |
| Entities.StatusNameRoundTrip | src/types/todo.ts:6 | parsing a status's name gives the status back |
| Entities.MergeNoChange | src/components/TodoList.tsx:68 | spreading an empty update over a todo leaves it unchanged |
| Entities.MergeIdempotent | src/components/TodoList.tsx:68 | spreading the same update twice is spreading it once |
| Entities.ActiveCompletedPartition | src/components/TodoList.tsx:37-42 | every status passes exactly one of ACTIVE and COMPLETED, and ALL passes everything |
| Seqs.Filter | src/components/TodoList.tsx:30-45 | `Array.filter`: keeps an element exactly when it is in the input and passes the test, and is no longer than the input |
| Sorting.Sort | src/components/ImportantTasks.tsx:38 | sorting a copy gives a permutation of the input |
| Sorting.SortSorted | src/components/ImportantTasks.tsx:38-54 | with a total preorder, the sorted copy is sorted |
| Sorting.SortStable | src/components/ImportantTasks.tsx:50-53 | the sort is stable: elements that tie keep their input order |
| Text.BlankIffAllWhitespace | src/components/TodoList.tsx:48 | `!s.trim()` holds exactly when every character of `s` is white space |
| Text.StrLeTotal | src/app/api/labels/route.ts:8 | binary code-point order compares any two names |
| Text.StrLeTransitive | src/app/api/labels/route.ts:8 | binary code-point order is transitive |
| Text.StrLeAntisymmetric | src/app/api/labels/route.ts:8 | two names that sort both ways round under binary order are equal |
| Text.HexDigitValue | src/components/LabelPicker.tsx:75-77 | a hexadecimal digit is worth less than 16 |
| Text.HexDigitRoundTrip | src/components/LabelPicker.tsx:75-77 | a digit's value written back as a digit is the digit in lower case |
| Js.Get | src/app/api/todos/route.ts:43 | a property of a primitive or array, or a missing key, reads as `undefined` |
| Js.NonEmptyStringIsTruthyString | src/app/api/categories/route.ts:20 | `!name \|\| typeof name !== 'string'` fails exactly for a non-empty string |
| Js.DecimalString | src/app/api/todos/reorder/route.ts:31-32 | `String(n)` of an integer is non-empty and starts with a digit or a minus sign |
| Js.NonStringKeysAreOwn | src/app/api/todos/reorder/route.ts:31-35 | a number, boolean, `null` or object used as a record key never names a property inherited from `Object.prototype` |
| Js.SingletonArrayKey | src/app/api/todos/reorder/route.ts:31-35 | a one-element array is keyed like its element, so `["constructor"]` names the same property as `"constructor"` |
| Store.WithIds | src/app/api/categories/reorder/route.ts:30-32 | `where: { id: { in: ids } }` keeps exactly the stored rows whose id is in `ids`, unchanged |
| Store.SetOfSize | src/app/api/todos/reorder/route.ts:41-46 | the ids of a request name at most as many rows as there are entries, and exactly as many when no id repeats |
| Store.AllFoundIff | src/app/api/todos/reorder/route.ts:46 | the count of matching rows equals the number of entries exactly when the ids are distinct and all stored |
| Store.OrdersArePreorders | src/app/api/todos/route.ts:24-29 | the two `orderBy` lists without a string column are total preorders |
| Store.StrLePreorder | src/app/api/labels/route.ts:8 | binary code-point order is a collation the store may use: a total preorder |
| Store.CollatedOrdersArePreorders | src/app/api/todos/reorder/route.ts:60-63 | the `orderBy` lists on `name` and on `categoryId` are total preorders for any collation that is one |
| Store.DoneLast | src/app/api/todos/route.ts:25 | in a list sorted for display, every todo after a DONE todo is DONE |
| Store.Collect | src/app/api/categories/route.ts:6-8 | the rows a query reads list the table: one per key, and every stored row |
| Store.CollectSorted | src/app/api/categories/route.ts:6-8 | a `findMany` with `orderBy` lists the table, sorted by the order |
| Store.Matching | src/app/api/todos/route.ts:22-23 | a `where` clause keeps exactly the stored todos it selects, unchanged |
| Store.Db.constructor | src/app/api/todos/route.ts:2 | the store starts with three empty tables and the given collation |
| Store.Db.FindCategoriesByPosition | src/app/api/categories/route.ts:6-8 | every category, sorted by position |
| Store.Db.FindCategoriesIn | src/app/api/categories/reorder/route.ts:30-32 | exactly the categories whose id is in the set |
| Store.Db.HighestCategoryPosition | src/app/api/categories/route.ts:25-28 | none exactly when there are no categories; otherwise a stored position that no stored position exceeds |
| Store.Db.InsertCategory | src/app/api/categories/route.ts:32-34 | for a position that fits the 32-bit column, the category table gains exactly the new row; the other tables are unchanged |
| Store.Db.UpdateCategoryPosition | src/app/api/categories/reorder/route.ts:40-43 | for a position that fits the 32-bit column, only the position of the one category changes |
| Store.Db.RollbackCategories | src/app/api/categories/reorder/route.ts:27-45 | an aborted transaction restores the category table to its snapshot, which still holds every category a todo names |
| Store.Db.FindLabelsByName | src/app/api/labels/route.ts:7-9 | every label, sorted by name under the store's collation |
| Store.Db.InsertLabel | src/app/api/labels/route.ts:30-32 | the label table gains exactly the new row; the other tables are unchanged |
| Store.Db.FindTodosListOrder | src/app/api/todos/route.ts:22-30 | exactly the todos the clause selects, by status, then importance descending, then due date with nulls last, then newest update first |
| Store.Db.FindTodosIn | src/app/api/todos/reorder/route.ts:42-44 | exactly the todos whose id is in the set |
| Store.Db.FindTodosInReorderOrder | src/app/api/todos/reorder/route.ts:60-63 | exactly the todos whose id is in the set, by category id under the store's collation with nulls last, then status, then position |
| Store.Db.RollbackTodos | src/app/api/todos/reorder/route.ts:39-57 | an aborted transaction restores the todo table to its snapshot |
| Store.Db.InsertTodo | src/app/api/todos/route.ts:56-66 | for a row whose position fits and whose category exists, the todo table gains exactly that row; the other tables are unchanged |
| Store.Db.UpdateTodoPosition | src/app/api/todos/reorder/route.ts:52-55 | for a position that fits the 32-bit column, only the position of the one todo changes, and its `updatedAt` becomes the time of the write |
| ReorderEntries.TailWellFormed | src/app/api/todos/reorder/route.ts:14-19 | entry `i+1` of the entries is entry `i` of the entries after the first |
| ReorderEntries.TailThrows | src/app/api/todos/reorder/route.ts:14-19 | behind a well-formed first entry, reading some entry throws exactly when reading some later entry throws |
| ReorderEntries.CheckEntries | src/app/api/todos/reorder/route.ts:14-26 | `every` passes exactly when every entry is well formed, and then yields each entry's id and position; it throws exactly when it reaches a `null` or `undefined` entry before any malformed one |
| ReorderEntries.FirstFailing | src/app/api/todos/reorder/route.ts:51-56 | the index of the first write that fails (a position outside the 32-bit range, or a store error): every earlier write succeeds |
| TodosReorder.ParseRequest | src/app/api/todos/reorder/route.ts:7-26 | a nullish body throws; a missing, non-array or empty `todos` is rejected; a submitted request has one entry per element, none of them nullish |
| TodosReorder.KeysOf | src/app/api/todos/reorder/route.ts:31 | the group keys are exactly the keys of the entries |
| TodosReorder.GroupStep | src/app/api/todos/reorder/route.ts:32-35 | pushing one entry whose key is not inherited creates its group when missing and extends the grouping by that entry |
| TodosReorder.GroupByCategory | src/app/api/todos/reorder/route.ts:29-36 | the push throws exactly when some entry's key names a property inherited from `Object.prototype`; otherwise one group per key, holding the entries under that key in request order |
| TodosReorder.ApplyPositions | src/app/api/todos/reorder/route.ts:51-56 | the writes keep the set of ids, change at most the position and update time of each todo, give every named todo the time of the write, and leave unnamed todos alone |
| TodosReorder.ApplyPositionsFrom | src/app/api/todos/reorder/route.ts:51-56 | writing the entries from `n` on is writing entry `n`, then the rest |
| TodosReorder.ApplyPositionsLast | src/app/api/todos/reorder/route.ts:51-56 | a named todo ends with the position of the last entry naming it |
| TodosReorder.ApplyPositionsDistinct | src/app/api/todos/reorder/route.ts:51-56 | without repeated ids, each named todo ends with its entry's position |
| TodosReorder.WriteUntilFailure | src/app/api/todos/reorder/route.ts:51-56 | the loop stops at the first failing write; when none fails, the table is the one the writes give |
| TodosReorder.WritePositions | src/app/api/todos/reorder/route.ts:39-57 | all or nothing: it fails exactly when some write fails, and then the todo table is as before |
| TodosReorder.Reorder | src/app/api/todos/reorder/route.ts:39-74 | 404 with nothing written unless the ids are distinct and stored; 500 with nothing written exactly when a write fails; otherwise every submitted position and the time of the write are stored and the answer is the submitted todos in reorder order |
| TodosReorder.Post | src/app/api/todos/reorder/route.ts:5-76 | each rejection gives its status and message (400 invalid data, 400 invalid format, 500 for a TypeError from a `null` body or entry or from an inherited group key, 404 not found), and a failed request leaves the table as it was |
| TodosReorder.InheritedCategoryKeyThrows | src/app/api/todos/reorder/route.ts:29-36 | a well-formed entry with `categoryId: "constructor"` passes the entry check and then makes the grouping throw |
| CategoriesReorder.ParseRequest | src/app/api/categories/reorder/route.ts:7-24 | a nullish body throws; a non-array is rejected; an empty array is submitted as no entries |
| CategoriesReorder.ApplyPositions | src/app/api/categories/reorder/route.ts:39-44 | the writes keep the set of ids, change at most positions, and leave unnamed categories alone |
| CategoriesReorder.ApplyPositionsFrom | src/app/api/categories/reorder/route.ts:39-44 | writing the entries from `n` on is writing entry `n`, then the rest |
| CategoriesReorder.ApplyPositionsLast | src/app/api/categories/reorder/route.ts:39-44 | a named category ends with the position of the last entry naming it |
| CategoriesReorder.ApplyPositionsDistinct | src/app/api/categories/reorder/route.ts:39-44 | without repeated ids, each named category ends with its entry's position |
| CategoriesReorder.WriteUntilFailure | src/app/api/categories/reorder/route.ts:39-44 | the loop stops at the first failing write; when none fails, the table is the one the writes give |
| CategoriesReorder.WritePositions | src/app/api/categories/reorder/route.ts:27-45 | all or nothing: it fails exactly when some write fails, and then the category table is as before |
| CategoriesReorder.Reorder | src/app/api/categories/reorder/route.ts:27-64 | 404 unless the ids are distinct and stored; 500 exactly when a write fails; otherwise every submitted position is stored and the answer is every category by position |
| CategoriesReorder.Post | src/app/api/categories/reorder/route.ts:5-66 | each rejection gives its status and message, and a failed request leaves the table as it was |
| CategoriesRoute.List | src/app/api/categories/route.ts:4-14 | every category, sorted by position |
| CategoriesRoute.Range | src/app/api/categories/route.ts:30 | the integers 0 to n-1 |
| CategoriesRoute.NextPositionIsLast | src/app/api/categories/route.ts:25-30 | the new position exceeds every stored position, and is 0 for an empty table |
| CategoriesRoute.NextPositionDense | src/app/api/categories/route.ts:25-34 | when the positions are 0 to n-1, the new one is n, so successive creates give 0, 1, 2, … |
| CategoriesRoute.Create | src/app/api/categories/route.ts:16-41 | a nullish body gives 500 and an invalid name 400, both with nothing stored; when a stored position is already the largest 32-bit integer, 500 with nothing stored; otherwise one category is added, with the given name and the highest position plus one (0 in an empty table), after every existing one |
| LabelsRoute.List | src/app/api/labels/route.ts:5-15 | every label, sorted by name under the store's collation |
| LabelsRoute.HexColorExamples | src/app/api/labels/route.ts:25 | "#3b82f6" is a colour and "red", "#fff", "#GGGGGG" are not |
| LabelsRoute.Create | src/app/api/labels/route.ts:17-39 | an invalid name or colour gives 400 with nothing stored; otherwise exactly the label with the fresh id, name and colour is added |
| TodosRoute.ViewFilter | src/app/api/todos/route.ts:8-19 | no parameter selects every todo, an empty one the uncategorized todos, any other the todos of that category |
| TodosRoute.List | src/app/api/todos/route.ts:5-37 | the todos the filter selects, in display order |
| TodosRoute.CategoryColumn | src/app/api/todos/route.ts:51-54 | `undefined`, `null` and `''` are stored as null, and a non-empty string as itself |
| TodosRoute.DueDateColumn | src/app/api/todos/route.ts:60 | a falsy due date is stored as null, and a truthy one as the date it denotes |
| TodosRoute.ImportantColumn | src/app/api/todos/route.ts:61 | a nullish flag is stored as false, and a boolean as itself |
| TodosRoute.StatusColumn | src/app/api/todos/route.ts:62 | a falsy status is stored as INBOX, and a truthy one only when it names a status |
| TodosRoute.Strings | src/app/api/todos/route.ts:64 | the strings of an array of strings, in order |
| TodosRoute.LabelsColumn | src/app/api/todos/route.ts:64 | falsy labels are stored as none, and a truthy value only when it is an array of strings |
| TodosRoute.TitleOnlyDefaults | src/app/api/todos/route.ts:56-66 | a body with only a title gives an INBOX todo that is not important and has no labels, category or due date, at position 0 |
| TodosRoute.CreateRoundTrip | src/app/api/todos/route.ts:56-66 | creating from a todo's own body stores that todo under the fresh id |
| TodosRoute.Create | src/app/api/todos/route.ts:39-73 | 500 for a nullish body and 400 for an invalid title, with nothing stored; 500 with nothing stored when a column has the wrong type or the `categoryId` names no category; otherwise the row built from the body is stored under the fresh id |
| ImportantTasks.ImportantTodos | src/components/ImportantTasks.tsx:28-35 | a todo is kept exactly when it is important and passes the status filter |
| ImportantTasks.CompareAsWrittenInconsistent | src/components/ImportantTasks.tsx:40-42 | the comparator as written puts an INBOX todo before a TODO todo and also the TODO todo before the INBOX todo |
| ImportantTasks.ImportantOrderIs | src/components/ImportantTasks.tsx:38-54 | the order used: unfinished before done, then dated before undated, then earlier due date first |
| ImportantTasks.CompareConsistent | src/components/ImportantTasks.tsx:38-54 | the corrected comparator is antisymmetric in sign, and `<= 0` is that order |
| ImportantTasks.CompareAgreesAsWritten | src/components/ImportantTasks.tsx:40-53 | the corrected comparator answers as the written one whenever the statuses are equal or one is DONE |
| ImportantTasks.ImportantOrderPreorder | src/components/ImportantTasks.tsx:38-54 | the order is a total preorder |
| ImportantTasks.SortedImportantTodos | src/components/ImportantTasks.tsx:38 | a permutation of the filtered todos, so it holds exactly the important todos that pass the filter |
| ImportantTasks.SortedImportantTodosSorted | src/components/ImportantTasks.tsx:38-54 | the result is sorted by the order |
| ImportantTasks.DoneLast | src/components/ImportantTasks.tsx:40-42 | every todo after a DONE todo is DONE |
| ImportantTasks.DueDatesAscending | src/components/ImportantTasks.tsx:45-51 | within one status, dated todos come first, by ascending due date |
| ImportantTasks.UndatedKeepOrder | src/components/ImportantTasks.tsx:50-53 | undated todos of one status keep their input order |
| TodoList.Visible | src/components/TodoList.tsx:30-45 | a todo is shown exactly when it is in the selected category (none selected: uncategorized) and passes the status filter |
| TodoList.StatusViewsSplit | src/components/TodoList.tsx:37-42 | the ACTIVE and COMPLETED views of a category add up to its ALL view |
| TodoList.VisibleAfterAppend | src/components/TodoList.tsx:60 | an appended todo appears at the end of each view it belongs to, and other views are unchanged |
| TodoList.UpdateAll | src/components/TodoList.tsx:68 | same length and order; exactly the todos with the id have the update merged in |
| TodoList.UpdateAllIdempotent | src/components/TodoList.tsx:67-69 | sending the same update twice is sending it once |
| TodoList.UpdateAllMissing | src/components/TodoList.tsx:67-69 | an update for an id no todo has changes nothing |
| TodoList.TodoList.constructor | src/components/TodoList.tsx:18-28 | the initial state: no todos, an empty form, filter ALL |
| TodoList.TodoList.AddTodo | src/components/TodoList.tsx:47-65 | a blank title changes nothing; otherwise one INBOX, unimportant todo built from the form goes at the end and the form is cleared |
| TodoList.TodoList.UpdateTodo | src/components/TodoList.tsx:67-69 | the list becomes the merged list; the form and filter are unchanged |
| TodoStatistics.Percent | src/components/TodoStatistics.tsx:58 | the percentage rounded to the nearest integer: at most 100 for a part of the whole, 0 for none, 100 for all |
| TodoStatistics.RoundedQuotient | src/components/TodoStatistics.tsx:58 | the rounding bounds behind `Percent` |
| TodoStatistics.ComputeStats | src/components/TodoStatistics.tsx:14-71 | non-arrays count as empty; completed plus active is total; important at most total; each date counter at most active; this-week disjoint from the other three; completion rate at most 100 and 0 for no todos |
| TodoStatistics.ThisWeekDisjoint | src/components/TodoStatistics.tsx:46-55 | this-week never counts a todo that a counter of past, today or tomorrow counts |
| TodoStatistics.DateCountersBound | src/components/TodoStatistics.tsx:31-55 | with date tests that exclude each other, the four date counters add up to at most active |
| TodoStatistics.ImportantShare | src/components/TodoStatistics.tsx:93 | the important share is at most 100, and 0 for no todos |
| LabelPicker.Toggle | src/components/LabelPicker.tsx:29-36 | the label ends selected exactly when it was not, and every other id keeps its membership |
| LabelPicker.ToggleKeepsOthers | src/components/LabelPicker.tsx:31-34 | the other ids keep their order |
| LabelPicker.ToggleTwice | src/components/LabelPicker.tsx:29-36 | toggling an absent label twice gives the selection back |
| LabelPicker.ToggleAppends | src/components/LabelPicker.tsx:34 | toggling an absent label appends exactly its id at the end |
| LabelPicker.ParseTwoDigits | src/components/LabelPicker.tsx:75-77 | `parseInt` of two hex digits is their value, 0 to 255 |
| LabelPicker.ParseIntHexNaN | src/components/LabelPicker.tsx:75-77 | "", "0x" and "zz" parse to NaN |
| LabelPicker.ParseIntHexNegative | src/components/LabelPicker.tsx:75-77 | a leading minus negates the digits |
| LabelPicker.ParseIntHexLeadingSpace | src/components/LabelPicker.tsx:75-77 | leading white space is skipped |
| LabelPicker.ParseIntHexNoDigit | src/components/LabelPicker.tsx:75-77 | any text without a hexadecimal digit after its leading white space (and with no sign) parses to NaN |
| LabelPicker.ParseIntHexSkipsSpace | src/components/LabelPicker.tsx:75-77 | prefixing a white-space character never changes the value |
| LabelPicker.ParseIntHexNegates | src/components/LabelPicker.tsx:75-77 | a minus sign before unsigned text negates its value and keeps NaN as NaN |
| LabelPicker.Substring | src/components/LabelPicker.tsx:75-77 | `substring` with clamped ends is no longer than the range |
| LabelPicker.ContrastingTextColor | src/components/LabelPicker.tsx:70-84 | black or white, and black exactly when all three channels parse and the weighted luminance exceeds one half |
| LabelPicker.ContrastingForHexColor | src/components/LabelPicker.tsx:70-84 | for an accepted `#rrggbb` colour, black exactly when 299·rr + 587·gg + 114·bb of the three digit pairs exceeds 127500 |
| LabelPicker.HexColorChannels | src/components/LabelPicker.tsx:72-77 | for a colour the label route accepts, the channels are the values of digit pairs 1-2, 3-4 and 5-6, each 0 to 255 |
| LabelPicker.ChannelAt | src/components/LabelPicker.tsx:75-77 | one channel of an accepted colour is the value of its two digits |
| LabelPicker.ShortColourReadAnyway | src/components/LabelPicker.tsx:72-83 | "ffff00", which the label route rejects, still gets black text |
| LabelPicker.BlueGetsWhite | src/components/LabelPicker.tsx:80-83 | "#3b82f6" gets white text |
| LabelPicker.OrangeGetsBlack | src/components/LabelPicker.tsx:80-83 | "#f97316" gets black text |
| TodoTitle.OnKeyDown | src/components/todo/TodoTitle.tsx:39-42 | Enter saves exactly a non-blank title, Escape always cancels, and no key starts an edit |
| TodoTitle.OnBlur | src/components/todo/TodoTitle.tsx:43-47 | exactly one of save and cancel runs: save exactly for a non-blank title |
| TodoTitle.OnDoubleClick | src/components/todo/TodoTitle.tsx:77 | a double-click starts an edit exactly when none is in progress |
| TodoTitle.EnterAgreesWithBlur | src/components/todo/TodoTitle.tsx:39-47 | Enter, when it does anything, does what blur does, and does nothing exactly when blur cancels |
| TodoTitle.SpacesAreNotSaved | src/components/todo/TodoTitle.tsx:40-46 | a title of spaces is saved neither by Enter nor by blur |
| TodoItem.Toggled | src/components/todo/TodoItem.tsx:92 | Ctrl+Space gives DONE exactly when the status is not DONE |
| TodoItem.Checked | src/components/todo/TodoCheckbox.tsx:14 | the checkbox gives DONE exactly when checked |
| TodoItem.ToggledTwice | src/components/todo/TodoItem.tsx:92 | toggling twice restores TODO and DONE, and turns INBOX into TODO |
| TodoItem.ToggledIsCheckbox | src/components/todo/TodoItem.tsx:92 | Ctrl+Space does what clicking the checkbox from the current state does |
| TodoItem.EditsMerge | src/components/todo/TodoItem.tsx:59-68 | merged into the todo, a quick edit changes only the title, and a full edit only the four form fields |
| TodoItem.TodoItem.constructor | src/components/todo/TodoItem.tsx:20-27 | no edit in progress; the edit fields hold the todo's values |
| TodoItem.TodoItem.ResetFields | src/components/todo/TodoItem.tsx:33-38 | the effect reloads the four edit fields from the todo and touches nothing else |
| TodoItem.TodoItem.StartEdit | src/components/todo/TodoItem.tsx:41-45 | quick edit on, full edit off, the title reloaded from the todo |
| TodoItem.TodoItem.StartFullEdit | src/components/todo/TodoItem.tsx:48-51 | full edit on, quick edit off |
| TodoItem.TodoItem.Save | src/components/todo/TodoItem.tsx:54-71 | a blank title or no edit sends nothing and changes nothing; a quick edit sends only the title, a full edit the four fields; then the edit ends |
| TodoItem.TodoItem.Cancel | src/components/todo/TodoItem.tsx:74-83 | both edits end and the edit fields hold the todo's values; nothing is sent |
| TodoItem.TodoItem.KeyDown | src/components/todo/TodoItem.tsx:86-94 | F2 starts a quick edit, keeping the other edit fields during a quick edit and reloading them from the todo otherwise; Ctrl+Space sends only the toggled status; other keys do nothing |
| TodoItem.TodoItem.CheckboxChange | src/components/todo/TodoCheckbox.tsx:14 | sends only the checkbox's status |
| TodoItem.TodoItem.ReceiveTodo | src/components/todo/TodoItem.tsx:33-38 | a new todo from the parent reloads the edit fields; the edit mode carries on |

Every contract on `Store.Db` and the handler methods keeps `Db.Valid()`:
each row is stored under its own id, every position fits the 32-bit `Int`
column, every category a todo names exists, and the collation the store
sorts strings by is a total preorder.

## Left out

- I/O is outside the model: `request.json()`, `NextResponse` and console logging. A body is a parsed `Js.Value`, and a response is a status with a body or an error message.
- A body that is not valid JSON is not modelled, since it needs the parser.
- Store read failures are not modelled. These are the `Failed to fetch …` 500s of the `GET` handlers and an error of the read-back after a reorder transaction. Only failing position writes are modelled, as the `failing` parameter.
- Real transactions, isolation and concurrent requests are not modelled. A transaction is one method that either applies every write or restores the snapshot.
- `uuidv4()`, `crypto.randomUUID()` and the store's own id generation are left out. Each becomes a `freshId` parameter that the table does not hold.
- The clock is left out: `isPast`, `isToday`, `isTomorrow`, `addDays(new Date(), 7)` and `new Date()`. It becomes the `TodoStatistics.Clock` parameter and the `now` parameter of `TodosRoute.Create` and `TodosReorder.Post`. Times are integers in milliseconds, and `new Date(v)` is a parameter `toDate`.
- Floating point is left out. `TodoStatistics.Percent` computes `Math.round(p / w * 100)` exactly, rounding halves up. Double rounding can differ from this at an exact half.
- LabelPicker.Bright: compares the luminance against one half in exact arithmetic, so a colour whose luminance is within a rounding error of one half may be classed differently than in JavaScript.
- JSON numbers are integers in the model. A fractional `position` is not modelled.
- The schema is assumed, not read:
  - the order of the status enum is INBOX, TODO, DONE;
  - `null` sorts after every value for `asc` and before for `desc`;
  - a new todo's `position` defaults to 0;
  - `updatedAt` is an `@updatedAt` column: a create and every position write set it to the time of the request, and all the writes of one reorder request share that time;
  - `position` is a 32-bit `Int` column, so a write of a position outside that range fails, and inside a reorder transaction rolls the table back;
  - `categoryId` is a foreign key to the categories, so a todo naming no category cannot be stored (the `[id]` category route clears it before a delete);
  - a column value of the wrong type is refused by the store with a 500 (`TodosRoute.NewRow` returns `None`).
- Store.Db.FindLabelsByName: sorts by any collation that is a total preorder, the store's `collation`. Which collation the database uses is not in the code; `Text.StrLe`, binary code-point order, is one, proved a total preorder by `Store.StrLePreorder`. The same holds for `Store.Db.FindTodosInReorderOrder`, `LabelsRoute.List` and the read-back of `TodosReorder.Post`.
- The todo reorder route groups entries by their truthy `categoryId`, else `'uncategorized'`. The key is the string the value becomes as a property key. The grouping has no effect on a successful answer, but an inherited key such as `"constructor"` makes it throw (see `TodosReorder.GroupByCategory`).
- Js.ToPropertyKey: writes every integer in plain decimal, where JavaScript switches to exponent form from 10^21 on. No such key names an inherited property either way, so the grouping's outcome is the same.
- A todo's labels are not checked against the stored labels, because no route does so. The code is followed here; the written description of the data model implies such a check.
- ImportantTasks.SortedImportantTodos: sorts with the corrected comparator. `Array.prototype.sort` with the comparator as written is not a consistent order, so its result is up to the JavaScript engine (see Findings).
- TodoItem.TodoItem.ReceiveTodo: assumes that every todo the parent passes is a new object, as it is after each refetch, so the effect always reloads the fields. A re-render that passes the same object is not modelled.
- The React hooks and rendering are not modelled: `useQuery`, `useMemo`, `useEffect` scheduling, JSX, styles and icons. Each handler is one method that runs with the effect folded in.
- `src/app/hooks/api.ts` and `src/app/hooks/useLocalStorage.ts` are not part of this model. They are fetch and cache plumbing and browser storage.
- The components that only render are left out: the date picker, the category select, the view toggle, the category list, the metadata, the actions, the edit form and the legacy `src/components/TodoItem.tsx`. The edit form's setters are plain field assignments of `TodoItem.TodoItem`.
- The routes under `[id]` and `todos/all` are outside the modelled core.
- TodoStatistics.DateCountersBound: requires date tests that exclude each other. With `date-fns`, `isPast` and `isToday` both hold for a time earlier today. Such a todo is counted as both overdue and due today, so the four counters can add up to more than `active`.

## Findings

| source | as written | input that shows it | evidently intended | confidence | as-written member | corrected member |
|---|---|---|---|---|---|---|
| src/components/ImportantTasks.tsx:40-42 | `if (a.status !== b.status) return a.status === 'DONE' ? 1 : -1` for any two different statuses | an INBOX todo `a` and a TODO todo `b`: `compare(a, b)` and `compare(b, a)` are both -1, so each sorts before the other | only DONE versus not DONE decides, then the due date | not executed | ImportantTasks.CompareAsWrittenInconsistent | ImportantTasks.CompareConsistent |
