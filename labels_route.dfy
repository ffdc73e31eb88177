/** `GET /api/labels` and `POST /api/labels`: list the labels by name, and
    create a label with a name and a `#rrggbb` colour. */
module LabelsRoute {
  import opened Js
  import opened Http
  import opened Entities
  import opened Sorting
  import opened Store
  import Text

  const InvalidName := "Invalid label name"
  const InvalidColor := "Invalid label color"
  const CreateFailed := "Failed to create label"

  /** Every label, by name. */
  method List(db: Db) returns (r: Response<seq<LabelRow>>)
    requires db.Valid()
    ensures r.Ok? && Lists(r.body, db.labels) && SortedBy(r.body, LabelOrder(db.collation))
  {
    var rows := db.FindLabelsByName();
    r := Ok(rows);
  }

  /** `/^#[0-9A-Fa-f]{6}$/`: a `#` and exactly six hexadecimal digits. */
  predicate IsHexColor(s: string) {
    |s| == 7 && s[0] == '#' && forall i :: 1 <= i < 7 ==> Text.IsHexDigit(s[i])
  }

  /** The colours the route accepts and rejects by way of example. */
  lemma HexColorExamples()
    ensures IsHexColor("#3b82f6")
    ensures !IsHexColor("red") && !IsHexColor("#fff") && !IsHexColor("#GGGGGG")
  {
    assert !Text.IsHexDigit("#GGGGGG"[1]);
  }

  /** The create handler; `freshId` is the `uuidv4()` the handler draws. */
  method Create(db: Db, body: Value, freshId: string) returns (r: Response<LabelRow>)
    requires db.Valid() && freshId !in db.labels
    modifies db
    ensures db.Valid()
    ensures db.todos == old(db.todos) && db.categories == old(db.categories)
    ensures r.Error? ==> db.labels == old(db.labels)
    ensures IsNullish(body) ==> r == Error(ServerError, CreateFailed)
    ensures !IsNullish(body) && !IsNonEmptyString(Get(body, "name")) ==> r == Error(BadRequest, InvalidName)
    ensures !IsNullish(body) && IsNonEmptyString(Get(body, "name")) ==>
      var color := Get(body, "color");
      && (!(color.Str? && IsHexColor(color.s)) ==> r == Error(BadRequest, InvalidColor))
      && (color.Str? && IsHexColor(color.s) ==>
            && r == Ok(LabelRow(freshId, Get(body, "name").s, color.s))
            && db.labels == old(db.labels)[freshId := r.body])
  {
    if IsNullish(body) {
      return Error(ServerError, CreateFailed);
    }
    var name := Get(body, "name");
    if !IsNonEmptyString(name) {
      return Error(BadRequest, InvalidName);
    }
    var color := Get(body, "color");
    // `!color` is covered: the empty string fails the pattern
    if !color.Str? || !IsHexColor(color.s) {
      return Error(BadRequest, InvalidColor);
    }
    var row := LabelRow(freshId, name.s, color.s);
    db.InsertLabel(row);
    r := Ok(row);
  }
}
