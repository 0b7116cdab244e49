/** The add/edit dialogs of the dashboard as a state machine, the request a
    submission dispatches to, and the effects each write handler emits
    (static/dashboard.js). */
module DashboardForms {
  import opened Wire

  // ---------------------------------------------------------------------------
  // Dialog state: the modal, its heading and the form's mode marker
  // ---------------------------------------------------------------------------

  /** `form.dataset.mode` / `form.dataset.editId`: absent, or 'edit' with an id. */
  datatype Mode = Create | Edit(id: int)

  /** The values in a form's fields, one variant per kind of form. */
  datatype Entry =
    | TaskEntry(title: string, description: string, priority: string, category: string)
    | NoteEntry(title: string, content: string, category: string, color: string)
    | GoalEntry(title: string, description: string, targetDate: string)

  function KindOf(e: Entry): Kind {
    match e
    case TaskEntry(_, _, _, _) => Tasks
    case NoteEntry(_, _, _, _) => Notes
    case GoalEntry(_, _, _) => Goals
  }

  /** One modal with its form. `fields == None` stands for the default values
      the page markup gives the fields, which `form.reset()` restores. */
  datatype Dialog = Dialog(shown: bool, heading: string, mode: Mode, fields: Option<Entry>)

  function AddHeading(k: Kind): string {
    match k
    case Tasks => "Add New Task"
    case Notes => "Add New Note"
    case Goals => "Add New Goal"
  }

  function EditHeading(k: Kind): string {
    match k
    case Tasks => "Edit Task"
    case Notes => "Edit Note"
    case Goals => "Edit Goal"
  }

  function ModalId(k: Kind): string {
    match k
    case Tasks => "addTaskModal"
    case Notes => "addNoteModal"
    case Goals => "addGoalModal"
  }

  /** The dialog whose modal has the element id `id`, if any. */
  function ModalKind(id: string): (r: Option<Kind>)
    ensures r.Some? <==> id in {"addTaskModal", "addNoteModal", "addGoalModal"}
    ensures r.Some? ==> ModalId(r.value) == id
  {
    if id == "addTaskModal" then Some(Tasks)
    else if id == "addNoteModal" then Some(Notes)
    else if id == "addGoalModal" then Some(Goals)
    else None
  }

  /** The heading agrees with the mode marker, and a hidden dialog is never
      left in edit mode (so reopening it never submits a stale edit). */
  predicate Coherent(k: Kind, d: Dialog) {
    && d.heading == (if d.mode.Edit? then EditHeading(k) else AddHeading(k))
    && (!d.shown ==> d.mode == Create)
  }

  /** The dialog as the page loads it. */
  function Initial(k: Kind): (d: Dialog)
    ensures Coherent(k, d) && !d.shown && d.mode == Create
  {
    Dialog(false, AddHeading(k), Create, None)
  }

  /** `resetTaskForm`/`resetNoteForm`/`resetGoalForm`: field defaults, no mode
      marker, the "Add New …" heading; visibility untouched. */
  function Reset(d: Dialog, k: Kind): (r: Dialog)
    ensures Coherent(k, r) && r.mode == Create && r.fields == None
    ensures r.shown == d.shown
  {
    d.(heading := AddHeading(k), mode := Create, fields := None)
  }

  /** `closeModal(id)` and the outside-click listener: hide, then reset. */
  function Close(d: Dialog, k: Kind): (r: Dialog)
    ensures r == Initial(k)
  {
    Reset(d.(shown := false), k)
  }

  /** `showAdd…Modal`: display the modal as it is. */
  function Open(d: Dialog, k: Kind): (r: Dialog)
    ensures r.shown && r.mode == d.mode && r.fields == d.fields
    ensures Coherent(k, d) ==> Coherent(k, r)
    ensures Coherent(k, d) && !d.shown ==> r.mode == Create && r.heading == AddHeading(k)
  {
    d.(shown := true)
  }

  /** `e.target.reset()`: field defaults only; the mode marker stays. */
  function ClearFields(d: Dialog, k: Kind): (r: Dialog)
    ensures r.fields == None && r.mode == d.mode && r.shown == d.shown
    ensures Coherent(k, d) ==> Coherent(k, r)
  {
    d.(fields := None)
  }

  /** `editTask`/`editNote`/`editGoal` once the record is found: fill the
      fields, set the mode marker and edit id, retitle, show. */
  function StartEdit(k: Kind, id: int, e: Entry): (r: Dialog)
    ensures Coherent(k, r) && r.shown && r.mode == Edit(id) && r.fields == Some(e)
  {
    Dialog(true, EditHeading(k), Edit(id), Some(e))
  }

  // ---------------------------------------------------------------------------
  // Submission
  // ---------------------------------------------------------------------------

  /** The JSON object `handleAdd…` builds from the form: every value is a
      string read from a field, the title among them, and there is no
      `progress`. */
  function AddBody(e: Entry): (r: Payload)
    ensures "title" in r && r["title"] == Str(e.title)
    ensures "progress" !in r
    ensures forall key :: key in r ==> r[key].Str?
    ensures e.TaskEntry? ==>
      && r.Keys == {"title", "description", "priority", "category"}
      && r["description"] == Str(e.description)
      && r["priority"] == Str(e.priority)
      && r["category"] == Str(e.category)
    ensures e.NoteEntry? ==>
      && r.Keys == {"title", "content", "category", "color"}
      && r["content"] == Str(e.content)
      && r["category"] == Str(e.category)
      && r["color"] == Str(e.color)
    ensures e.GoalEntry? ==>
      && r.Keys == {"title", "description", "target_date"}
      && r["description"] == Str(e.description)
      && r["target_date"] == Str(e.targetDate)
  {
    match e
    case TaskEntry(t, d, p, c) =>
      map["title" := Str(t), "description" := Str(d), "priority" := Str(p), "category" := Str(c)]
    case NoteEntry(t, c, cat, col) =>
      map["title" := Str(t), "content" := Str(c), "category" := Str(cat), "color" := Str(col)]
    case GoalEntry(t, d, date) =>
      map["title" := Str(t), "description" := Str(d), "target_date" := Str(date)]
  }

  /** The JSON object `handleUpdate…` builds: the same fields, except that a
      goal update also carries the literal `progress: 0`. */
  function UpdateBody(e: Entry): (r: Payload)
    ensures forall key :: key in AddBody(e) ==> key in r && r[key] == AddBody(e)[key]
    ensures "progress" in r <==> e.GoalEntry?
    ensures "progress" in r ==> r["progress"] == Num(0)
    ensures forall key :: key in r && key != "progress" ==> key in AddBody(e)
  {
    match e
    case GoalEntry(_, _, _) => AddBody(e)["progress" := Num(0)]
    case _ => AddBody(e)
  }

  /** The submit listener: update the record named by the edit id exactly
      when the mode marker says edit, otherwise add a new one. */
  function Dispatch(mode: Mode, e: Entry): (r: Request)
    ensures r.kind == KindOf(e)
    ensures r.Put? <==> mode.Edit?
    ensures r.Put? ==> r.id == mode.id
    ensures "title" in r.body && r.body["title"] == Str(e.title)
    ensures r.Post? ==> "progress" !in r.body
    ensures r.Put? && e.GoalEntry? ==> "progress" in r.body && r.body["progress"] == Num(0)
    ensures r.Put? && !e.GoalEntry? ==> "progress" !in r.body
    ensures forall key :: key in AddBody(e) ==> key in r.body && r.body[key] == AddBody(e)[key]
    ensures forall key :: key in r.body && key != "progress" ==> key in AddBody(e)
  {
    match mode
    case Create => Post(KindOf(e), AddBody(e))
    case Edit(id) => Put(KindOf(e), id, UpdateBody(e))
  }

  // ---------------------------------------------------------------------------
  // Effects of the write handlers
  // ---------------------------------------------------------------------------

  datatype Level = Success | Error

  datatype Action = Adding | Updating | Deleting

  /** What a handler does besides awaiting its request: a pop-up, closing or
      resetting a dialog, re-fetching a collection, re-fetching the stats. */
  datatype Effect =
    | Notify(level: Level, message: string)
    | CloseModal(kind: Kind)     // closeModal(...), which also resets the form
    | ResetForm(kind: Kind)      // reset…Form()
    | ResetFields(kind: Kind)    // e.target.reset()
    | Load(kind: Kind)           // load…()
    | LoadStats                  // loadDashboardStats()

  function Noun(k: Kind): string {
    match k
    case Tasks => "task"
    case Notes => "note"
    case Goals => "goal"
  }

  function CapitalNoun(k: Kind): string {
    match k
    case Tasks => "Task"
    case Notes => "Note"
    case Goals => "Goal"
  }

  function SuccessMessage(k: Kind, a: Action): string {
    CapitalNoun(k) + (match a
                      case Adding => " added successfully!"
                      case Updating => " updated successfully!"
                      case Deleting => " deleted successfully!")
  }

  function ErrorMessage(k: Kind, a: Action): string {
    (match a
     case Adding => "Error adding "
     case Updating => "Error updating "
     case Deleting => "Error deleting ") + Noun(k)
  }

  /** The levels of the notifications in an effect list, in order. */
  function Notices(effects: seq<Effect>): seq<Level> {
    if effects == [] then []
    else (if effects[0].Notify? then [effects[0].level] else []) + Notices(effects[1..])
  }

  lemma {:induction false} QuietNotices(effects: seq<Effect>)
    requires forall e :: e in effects ==> !e.Notify?
    ensures Notices(effects) == []
  {
    if effects != [] {
      QuietNotices(effects[1..]);
    }
  }

  /** The collection is re-fetched, and after it the stats, as the last two effects. */
  predicate EndsWithReloads(effects: seq<Effect>, k: Kind) {
    |effects| >= 2 && effects[|effects| - 2] == Load(k) && effects[|effects| - 1] == LoadStats
  }

  /** `handleAddTask`/`handleAddNote`/`handleAddGoal` once the POST settles. */
  function AddEffects(k: Kind, outcome: Response<()>): (r: seq<Effect>)
    ensures Notices(r) == [if outcome.Ok? then Success else Error]
    ensures outcome.Ok? ==> |r| == 5 && r[0] == Notify(Success, SuccessMessage(k, Adding))
    ensures outcome.Ok? ==> r[1] == CloseModal(k) && r[2] == ResetFields(k) && EndsWithReloads(r, k)
    ensures !outcome.Ok? ==> r == [Notify(Error, ErrorMessage(k, Adding))]
  {
    if outcome.Ok? then
      var rest := [CloseModal(k), ResetFields(k), Load(k), LoadStats];
      QuietNotices(rest);
      [Notify(Success, SuccessMessage(k, Adding))] + rest
    else
      [Notify(Error, ErrorMessage(k, Adding))]
  }

  /** `handleUpdateTask`/`handleUpdateNote`/`handleUpdateGoal` once the PUT settles. */
  function UpdateEffects(k: Kind, outcome: Response<()>): (r: seq<Effect>)
    ensures Notices(r) == [if outcome.Ok? then Success else Error]
    ensures outcome.Ok? ==> |r| == 5 && r[0] == Notify(Success, SuccessMessage(k, Updating))
    ensures outcome.Ok? ==> r[1] == CloseModal(k) && r[2] == ResetForm(k) && EndsWithReloads(r, k)
    ensures !outcome.Ok? ==> r == [Notify(Error, ErrorMessage(k, Updating))]
  {
    if outcome.Ok? then
      var rest := [CloseModal(k), ResetForm(k), Load(k), LoadStats];
      QuietNotices(rest);
      [Notify(Success, SuccessMessage(k, Updating))] + rest
    else
      [Notify(Error, ErrorMessage(k, Updating))]
  }

  /** `deleteTask`/`deleteNote`/`deleteGoal` once the DELETE settles: a non-2xx
      answer is ignored silently; only a rejected request reports an error. */
  function DeleteEffects(k: Kind, outcome: Response<()>): (r: seq<Effect>)
    ensures r == [] <==> outcome.NotOk?
    ensures Notices(r) == (match outcome
                           case Ok(_) => [Success]
                           case NotOk => []
                           case Thrown => [Error])
    ensures outcome.Ok? ==> EndsWithReloads(r, k)
    ensures outcome.Ok? ==> |r| == 3 && r[0] == Notify(Success, SuccessMessage(k, Deleting))
    ensures outcome.Thrown? ==> r == [Notify(Error, ErrorMessage(k, Deleting))]
    ensures forall e :: e in r ==> !e.CloseModal? && !e.ResetForm? && !e.ResetFields?
  {
    match outcome
    case Ok(_) =>
      var rest := [Load(k), LoadStats];
      QuietNotices(rest);
      [Notify(Success, SuccessMessage(k, Deleting))] + rest
    case NotOk => []
    case Thrown => [Notify(Error, ErrorMessage(k, Deleting))]
  }

  /** `toggleTask` once the POST settles: reloads on success, never a pop-up. */
  function ToggleEffects(outcome: Response<()>): (r: seq<Effect>)
    ensures Notices(r) == []
    ensures r != [] <==> outcome.Ok?
    ensures outcome.Ok? ==> EndsWithReloads(r, Tasks) && |r| == 2
  {
    if outcome.Ok? then [Load(Tasks), LoadStats] else []
  }

  // ---------------------------------------------------------------------------
  // What the effects do to a dialog
  // ---------------------------------------------------------------------------

  function Step(d: Dialog, k: Kind, e: Effect): Dialog {
    match e
    case CloseModal(k') => if k' == k then Close(d, k) else d
    case ResetForm(k') => if k' == k then Reset(d, k) else d
    case ResetFields(k') => if k' == k then ClearFields(d, k) else d
    case _ => d
  }

  /** The dialog of kind `k` after the effects run in order. */
  function Perform(d: Dialog, k: Kind, effects: seq<Effect>): Dialog
    decreases |effects|
  {
    if effects == [] then d else Perform(Step(d, k, effects[0]), k, effects[1..])
  }

  /** After an add or update: success leaves the dialog hidden and in create
      mode, exactly as on page load; failure leaves it as it was (still open,
      in edit mode for a failed update). */
  lemma {:induction false} WriteSettlesDialog(d: Dialog, k: Kind, outcome: Response<()>)
    ensures Perform(d, k, AddEffects(k, outcome)) == if outcome.Ok? then Initial(k) else d
    ensures Perform(d, k, UpdateEffects(k, outcome)) == if outcome.Ok? then Initial(k) else d
  {
    var add, upd := AddEffects(k, outcome), UpdateEffects(k, outcome);
    if outcome.Ok? {
      var shut := Close(d, k);
      assert add[1..] == [CloseModal(k), ResetFields(k), Load(k), LoadStats];
      assert Perform(d, k, add) == Perform(shut, k, [ResetFields(k), Load(k), LoadStats]);
      assert Perform(shut, k, [ResetFields(k), Load(k), LoadStats])
          == Perform(shut, k, [Load(k), LoadStats]);
      assert Perform(shut, k, [Load(k), LoadStats]) == Perform(shut, k, [LoadStats]);
      assert Perform(shut, k, [LoadStats]) == Perform(shut, k, []);
      assert upd[1..] == [CloseModal(k), ResetForm(k), Load(k), LoadStats];
      assert Perform(d, k, upd) == Perform(shut, k, [ResetForm(k), Load(k), LoadStats]);
      assert Perform(shut, k, [ResetForm(k), Load(k), LoadStats])
          == Perform(shut, k, [Load(k), LoadStats]);
    } else {
      assert Perform(d, k, add) == Perform(d, k, []);
      assert Perform(d, k, upd) == Perform(d, k, []);
    }
  }

  /** Deleting or toggling never touches a dialog. */
  lemma {:induction false} DeleteAndToggleKeepDialog(d: Dialog, k: Kind, outcome: Response<()>)
    ensures Perform(d, k, DeleteEffects(k, outcome)) == d
    ensures Perform(d, k, ToggleEffects(outcome)) == d
  {
    var del, tog := DeleteEffects(k, outcome), ToggleEffects(outcome);
    if outcome.Ok? {
      assert del[1..] == [Load(k), LoadStats];
      assert Perform(d, k, del) == Perform(d, k, [Load(k), LoadStats]);
      assert Perform(d, k, [Load(k), LoadStats]) == Perform(d, k, [LoadStats]);
      assert Perform(d, k, [LoadStats]) == Perform(d, k, []);
      assert tog[1..] == [LoadStats];
      assert Perform(d, k, tog) == Perform(d, k, [LoadStats]);
    } else if outcome.Thrown? {
      assert Perform(d, k, del) == Perform(d, k, []);
    }
  }

  /** Editing a record and submitting sends a PUT to that record; closing the
      dialog in between turns the same submission into a POST. */
  lemma EditThenSubmit(k: Kind, id: int, filled: Entry, entered: Entry)
    ensures Dispatch(StartEdit(k, id, filled).mode, entered) == Put(KindOf(entered), id, UpdateBody(entered))
    ensures Dispatch(Close(StartEdit(k, id, filled), k).mode, entered) == Post(KindOf(entered), AddBody(entered))
  {
  }
}
