/** The rows of the `user_tasks`, `user_notes` and `user_goals` tables and the
    SQL statements the API runs on them, as functions on sequences of rows
    (app.py). */
module StoreTables {
  import opened Wire

  /** A value SQLite keeps in a column. */
  datatype Value = NullV | Text(s: string) | Integer(n: int)

  /** How a JSON value from `request.get_json()` is bound as a statement
      parameter: None as NULL, str as TEXT, int as INTEGER. */
  function Bind(j: Json): Value {
    match j
    case Null => NullV
    case Str(s) => Text(s)
    case Num(n) => Integer(n)
  }

  /** `data.get(key, default)`: a key that is present wins, even with a null value. */
  function Get(data: Payload, key: string, default: Value): Value {
    if key in data then Bind(data[key]) else default
  }

  /** One row of each table; `created_at` is not modelled. */
  datatype Row =
    | TaskRow(id: int, userId: int, title: Value, description: Value, completed: bool,
              priority: Value, category: Value)
    | NoteRow(id: int, userId: int, title: Value, content: Value, category: Value, color: Value)
    | GoalRow(id: int, userId: int, title: Value, description: Value, targetDate: Value,
              progress: Value, status: Value)

  /** The table a row belongs to. */
  function TableOf(r: Row): Kind {
    if r.TaskRow? then Tasks else if r.NoteRow? then Notes else Goals
  }

  /** `WHERE id = ? AND user_id = ?`. */
  predicate Owned(r: Row, id: int, uid: int) {
    r.id == id && r.userId == uid
  }

  /** Row ids grow along the table (AUTOINCREMENT), so they are unique. */
  ghost predicate IdsIncreasing(rows: seq<Row>) {
    forall i, j :: 0 <= i < j < |rows| ==> rows[i].id < rows[j].id
  }

  // ---------------------------------------------------------------------------
  // Statements on a table
  // ---------------------------------------------------------------------------

  /** `SELECT … WHERE id = ? AND user_id = ?` with `fetchone()`. */
  function FindOwned(rows: seq<Row>, id: int, uid: int): (r: Option<Row>)
    ensures r.Some? ==> r.value in rows && Owned(r.value, id, uid)
    ensures r.None? <==> forall x :: x in rows ==> !Owned(x, id, uid)
  {
    if rows == [] then None
    else if Owned(rows[0], id, uid) then Some(rows[0])
    else FindOwned(rows[1..], id, uid)
  }

  /** `SELECT * … WHERE user_id = ?`: the rows of one user, in table order. */
  function OwnedBy(rows: seq<Row>, uid: int): (r: seq<Row>)
    ensures forall x :: x in r <==> x in rows && x.userId == uid
    ensures forall x :: multiset(r)[x] == if x.userId == uid then multiset(rows)[x] else 0
    ensures |r| <= |rows|
  {
    if rows == [] then []
    else
      assert rows == [rows[0]] + rows[1..];
      (if rows[0].userId == uid then [rows[0]] else []) + OwnedBy(rows[1..], uid)
  }

  /** `DELETE … WHERE id = ? AND user_id = ?`. */
  function DeleteOwned(rows: seq<Row>, id: int, uid: int): (r: seq<Row>)
    ensures forall x :: x in r <==> x in rows && !Owned(x, id, uid)
    ensures |r| <= |rows|
    ensures (forall x :: x in rows ==> !Owned(x, id, uid)) ==> r == rows
  {
    if rows == [] then []
    else
      var rest := DeleteOwned(rows[1..], id, uid);
      if Owned(rows[0], id, uid) then rest else [rows[0]] + rest
  }

  /** Deleting keeps the ids increasing, so a later insert still gets the
      largest id. */
  lemma {:induction false} DeleteKeepsIncreasing(rows: seq<Row>, id: int, uid: int)
    requires IdsIncreasing(rows)
    ensures IdsIncreasing(DeleteOwned(rows, id, uid))
  {
    if rows != [] {
      var rest := DeleteOwned(rows[1..], id, uid);
      DeleteKeepsIncreasing(rows[1..], id, uid);
      if !Owned(rows[0], id, uid) {
        var r := [rows[0]] + rest;
        forall i, j | 0 <= i < j < |r| ensures r[i].id < r[j].id {
          if i == 0 {
            assert r[j] in rows[1..];
            var k :| 0 <= k < |rows[1..]| && rows[1..][k] == r[j];
            assert rows[k + 1] == r[j];
          } else {
            assert r[i] == rest[i - 1] && r[j] == rest[j - 1];
          }
        }
      }
    }
  }

  /** The SET clause of an UPDATE. */
  datatype Patch =
    | TaskFields(title: Value, description: Value, priority: Value, category: Value)
    | NoteFields(title: Value, content: Value, category: Value, color: Value)
    | GoalFields(title: Value, description: Value, targetDate: Value, progress: Value)
    | SetCompleted(done: bool)

  /** A SET clause applied to a row of the table it was written for. */
  function Apply(r: Row, p: Patch): Row {
    match p
    case TaskFields(t, d, pr, c) =>
      if r.TaskRow? then r.(title := t, description := d, priority := pr, category := c) else r
    case NoteFields(t, c, cat, col) =>
      if r.NoteRow? then r.(title := t, content := c, category := cat, color := col) else r
    case GoalFields(t, d, date, prog) =>
      if r.GoalRow? then r.(title := t, description := d, targetDate := date, progress := prog) else r
    case SetCompleted(b) =>
      if r.TaskRow? then r.(completed := b) else r
  }

  /** `UPDATE … SET <patch> WHERE id = ? AND user_id = ?`. */
  function UpdateOwned(rows: seq<Row>, id: int, uid: int, p: Patch): (r: seq<Row>)
    ensures |r| == |rows|
    ensures forall i :: 0 <= i < |rows| ==>
      r[i] == if Owned(rows[i], id, uid) then Apply(rows[i], p) else rows[i]
  {
    if rows == [] then []
    else [if Owned(rows[0], id, uid) then Apply(rows[0], p) else rows[0]]
         + UpdateOwned(rows[1..], id, uid, p)
  }

  // ---------------------------------------------------------------------------
  // Rows built from request bodies
  // ---------------------------------------------------------------------------

  /** The INSERT of `api_tasks` (POST), or None when the request fails before
      or at the INSERT: `data['title']` missing (KeyError) or null (the NOT
      NULL constraint). Omitted columns take the schema defaults. */
  function NewTask(id: int, uid: int, data: Payload): (r: Option<Row>)
    ensures r.None? <==> "title" !in data || data["title"] == Null
    ensures r.Some? ==> r.value.TaskRow? && r.value.id == id && r.value.userId == uid
    ensures r.Some? ==> !r.value.completed && r.value.title == Bind(data["title"])
    ensures r.Some? && "description" !in data ==> r.value.description == Text("")
    ensures r.Some? && "priority" !in data ==> r.value.priority == Text("medium")
    ensures r.Some? && "category" !in data ==> r.value.category == Text("general")
    ensures r.Some? ==> r.value.description == Get(data, "description", Text(""))
    ensures r.Some? ==> r.value.priority == Get(data, "priority", Text("medium"))
    ensures r.Some? ==> r.value.category == Get(data, "category", Text("general"))
  {
    if "title" !in data || Bind(data["title"]) == NullV then None
    else Some(TaskRow(id, uid, Bind(data["title"]), Get(data, "description", Text("")), false,
                      Get(data, "priority", Text("medium")), Get(data, "category", Text("general"))))
  }

  /** The INSERT of `api_notes` (POST); as `NewTask`. */
  function NewNote(id: int, uid: int, data: Payload): (r: Option<Row>)
    ensures r.None? <==> "title" !in data || data["title"] == Null
    ensures r.Some? ==> r.value.NoteRow? && r.value.id == id && r.value.userId == uid
    ensures r.Some? ==> r.value.title == Bind(data["title"])
    ensures r.Some? && "content" !in data ==> r.value.content == Text("")
    ensures r.Some? && "category" !in data ==> r.value.category == Text("general")
    ensures r.Some? && "color" !in data ==> r.value.color == Text("#ff99c8")
    ensures r.Some? ==> r.value.content == Get(data, "content", Text(""))
    ensures r.Some? ==> r.value.category == Get(data, "category", Text("general"))
    ensures r.Some? ==> r.value.color == Get(data, "color", Text("#ff99c8"))
  {
    if "title" !in data || Bind(data["title"]) == NullV then None
    else Some(NoteRow(id, uid, Bind(data["title"]), Get(data, "content", Text("")),
                      Get(data, "category", Text("general")), Get(data, "color", Text("#ff99c8"))))
  }

  /** The INSERT of `api_goals` (POST); progress and status are never taken
      from the body, so a new goal is always at 0 and 'active'. */
  function NewGoal(id: int, uid: int, data: Payload): (r: Option<Row>)
    ensures r.None? <==> "title" !in data || data["title"] == Null
    ensures r.Some? ==> r.value.GoalRow? && r.value.id == id && r.value.userId == uid
    ensures r.Some? ==> r.value.progress == Integer(0) && r.value.status == Text("active")
    ensures r.Some? ==> r.value.title == Bind(data["title"])
    ensures r.Some? && "description" !in data ==> r.value.description == Text("")
    ensures r.Some? && "target_date" !in data ==> r.value.targetDate == NullV
    ensures r.Some? ==> r.value.description == Get(data, "description", Text(""))
    ensures r.Some? ==> r.value.targetDate == Get(data, "target_date", NullV)
  {
    if "title" !in data || Bind(data["title"]) == NullV then None
    else Some(GoalRow(id, uid, Bind(data["title"]), Get(data, "description", Text("")),
                      Get(data, "target_date", NullV), Integer(0), Text("active")))
  }

  /** `a` and `b` differ at most in the four columns a task PUT writes. */
  predicate TaskPutOnly(a: Row, b: Row) {
    a.TaskRow? && b.TaskRow? &&
    b == a.(title := b.title, description := b.description, priority := b.priority, category := b.category)
  }

  /** `a` and `b` differ at most in the four columns a note PUT writes. */
  predicate NotePutOnly(a: Row, b: Row) {
    a.NoteRow? && b.NoteRow? &&
    b == a.(title := b.title, content := b.content, category := b.category, color := b.color)
  }

  /** `a` and `b` differ at most in the four columns a goal PUT writes;
      in particular `status` never changes. */
  predicate GoalPutOnly(a: Row, b: Row) {
    a.GoalRow? && b.GoalRow? &&
    b == a.(title := b.title, description := b.description, targetDate := b.targetDate, progress := b.progress)
  }

  /** The UPDATE of `api_task_actions` (PUT) on the tasks table, or None when
      the request fails: `data['title']` missing, or null while a row matches. */
  function PutTask(rows: seq<Row>, id: int, uid: int, data: Payload): (r: Option<seq<Row>>)
    requires forall x :: x in rows ==> TableOf(x) == Tasks
    ensures r.None? <==> "title" !in data || (data["title"] == Null && FindOwned(rows, id, uid).Some?)
    ensures r.Some? ==> |r.value| == |rows|
    ensures r.Some? ==> forall i :: 0 <= i < |rows| && !Owned(rows[i], id, uid) ==> r.value[i] == rows[i]
    ensures r.Some? ==> forall i :: 0 <= i < |rows| && Owned(rows[i], id, uid) ==>
      TaskPutOnly(rows[i], r.value[i]) && r.value[i].title == Bind(data["title"]) &&
      r.value[i].description == Get(data, "description", Text("")) &&
      r.value[i].priority == Get(data, "priority", Text("medium")) &&
      r.value[i].category == Get(data, "category", Text("general"))
  {
    if "title" !in data then None
    else
      assert forall i :: 0 <= i < |rows| ==> rows[i] in rows && TableOf(rows[i]) == TableOf(rows[0]);
      var title := Bind(data["title"]);
      if title == NullV && FindOwned(rows, id, uid).Some? then None
      else Some(UpdateOwned(rows, id, uid, TaskFields(title, Get(data, "description", Text("")),
                            Get(data, "priority", Text("medium")), Get(data, "category", Text("general")))))
  }

  /** The UPDATE of `api_note_actions` (PUT); as `PutTask`. */
  function PutNote(rows: seq<Row>, id: int, uid: int, data: Payload): (r: Option<seq<Row>>)
    requires forall x :: x in rows ==> TableOf(x) == Notes
    ensures r.None? <==> "title" !in data || (data["title"] == Null && FindOwned(rows, id, uid).Some?)
    ensures r.Some? ==> |r.value| == |rows|
    ensures r.Some? ==> forall i :: 0 <= i < |rows| && !Owned(rows[i], id, uid) ==> r.value[i] == rows[i]
    ensures r.Some? ==> forall i :: 0 <= i < |rows| && Owned(rows[i], id, uid) ==>
      NotePutOnly(rows[i], r.value[i]) && r.value[i].title == Bind(data["title"]) &&
      r.value[i].content == Get(data, "content", Text("")) &&
      r.value[i].category == Get(data, "category", Text("general")) &&
      r.value[i].color == Get(data, "color", Text("#ff99c8"))
  {
    if "title" !in data then None
    else
      assert forall i :: 0 <= i < |rows| ==> rows[i] in rows && TableOf(rows[i]) == TableOf(rows[0]);
      var title := Bind(data["title"]);
      if title == NullV && FindOwned(rows, id, uid).Some? then None
      else Some(UpdateOwned(rows, id, uid, NoteFields(title, Get(data, "content", Text("")),
                            Get(data, "category", Text("general")), Get(data, "color", Text("#ff99c8")))))
  }

  /** The UPDATE of `api_goal_actions` (PUT): progress becomes the value sent,
      or 0 when none is sent; status is never written. */
  function PutGoal(rows: seq<Row>, id: int, uid: int, data: Payload): (r: Option<seq<Row>>)
    requires forall x :: x in rows ==> TableOf(x) == Goals
    ensures r.None? <==> "title" !in data || (data["title"] == Null && FindOwned(rows, id, uid).Some?)
    ensures r.Some? ==> |r.value| == |rows|
    ensures r.Some? ==> forall i :: 0 <= i < |rows| && !Owned(rows[i], id, uid) ==> r.value[i] == rows[i]
    ensures r.Some? ==> forall i :: 0 <= i < |rows| && Owned(rows[i], id, uid) ==>
      GoalPutOnly(rows[i], r.value[i]) && r.value[i].status == rows[i].status &&
      r.value[i].title == Bind(data["title"]) &&
      r.value[i].description == Get(data, "description", Text("")) &&
      r.value[i].targetDate == Get(data, "target_date", NullV) &&
      r.value[i].progress == (if "progress" in data then Bind(data["progress"]) else Integer(0))
  {
    if "title" !in data then None
    else
      assert forall i :: 0 <= i < |rows| ==> rows[i] in rows && TableOf(rows[i]) == TableOf(rows[0]);
      var title := Bind(data["title"]);
      if title == NullV && FindOwned(rows, id, uid).Some? then None
      else Some(UpdateOwned(rows, id, uid, GoalFields(title, Get(data, "description", Text("")),
                            Get(data, "target_date", NullV), Get(data, "progress", Integer(0)))))
  }

  // ---------------------------------------------------------------------------
  // Toggle
  // ---------------------------------------------------------------------------

  function Flip(r: Row): Row {
    if r.TaskRow? then r.(completed := !r.completed) else r
  }

  /** Every owned task row with its `completed` flag negated; the meaning of
      `api_toggle_task` when ids are unique. */
  function FlipOwned(rows: seq<Row>, id: int, uid: int): (r: seq<Row>)
    ensures |r| == |rows|
    ensures forall i :: 0 <= i < |rows| ==>
      r[i] == if Owned(rows[i], id, uid) then Flip(rows[i]) else rows[i]
  {
    if rows == [] then []
    else [if Owned(rows[0], id, uid) then Flip(rows[0]) else rows[0]] + FlipOwned(rows[1..], id, uid)
  }

  /** Toggling twice restores the table. */
  lemma {:induction false} FlipTwice(rows: seq<Row>, id: int, uid: int)
    ensures FlipOwned(FlipOwned(rows, id, uid), id, uid) == rows
  {
    var once := FlipOwned(rows, id, uid);
    var twice := FlipOwned(once, id, uid);
    forall i | 0 <= i < |rows| ensures twice[i] == rows[i] {
      assert Owned(once[i], id, uid) == Owned(rows[i], id, uid);
    }
  }

  /** Toggling an id the user does not own changes nothing. */
  lemma {:induction false} FlipMissing(rows: seq<Row>, id: int, uid: int)
    requires FindOwned(rows, id, uid).None?
    ensures FlipOwned(rows, id, uid) == rows
  {
    var r := FlipOwned(rows, id, uid);
    forall i | 0 <= i < |rows| ensures r[i] == rows[i] {
      assert rows[i] in rows;
    }
  }

  /** With unique ids, the read-then-write of `api_toggle_task` (read the
      owned row's flag, then set every owned row to its negation) flips
      exactly that row. */
  lemma ReadThenWriteFlips(rows: seq<Row>, id: int, uid: int)
    requires IdsIncreasing(rows) && forall x :: x in rows ==> x.TaskRow?
    requires FindOwned(rows, id, uid).Some?
    ensures UpdateOwned(rows, id, uid, SetCompleted(!FindOwned(rows, id, uid).value.completed))
         == FlipOwned(rows, id, uid)
  {
    var t := FindOwned(rows, id, uid).value;
    var a := UpdateOwned(rows, id, uid, SetCompleted(!t.completed));
    var b := FlipOwned(rows, id, uid);
    forall i | 0 <= i < |rows| ensures a[i] == b[i] {
      if Owned(rows[i], id, uid) {
        var j :| 0 <= j < |rows| && rows[j] == t;
        SameIdSameRow(rows, i, j);
      }
    }
  }

  /** With increasing ids, two positions holding the same id are one. */
  lemma SameIdSameRow(rows: seq<Row>, i: nat, j: nat)
    requires IdsIncreasing(rows) && i < |rows| && j < |rows| && rows[i].id == rows[j].id
    ensures i == j
  {
  }
}
