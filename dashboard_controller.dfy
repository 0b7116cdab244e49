/** The dashboard's mutable state — the current section, the three record
    caches, what the grids show, the overview figures and the three dialogs —
    and the event handlers that update it (static/dashboard.js). */
module DashboardController {
  import opened Wire
  import opened DashboardView
  import opened DashboardForms

  /** `loadSectionData`: what selecting a section fetches. */
  function SectionEffects(section: string): (r: seq<Effect>)
    ensures section == "tasks" <==> r == [Load(Tasks)]
    ensures section == "notes" <==> r == [Load(Notes)]
    ensures section == "goals" <==> r == [Load(Goals)]
    ensures section == "overview" <==> r == [LoadStats]
    ensures |r| <= 1
  {
    if section == "tasks" then [Load(Tasks)]
    else if section == "notes" then [Load(Notes)]
    else if section == "goals" then [Load(Goals)]
    else if section == "overview" then [LoadStats]
    else []
  }

  /** `showAddModal`: the dialog the "add" button opens from a section. */
  function AddDialogFor(section: string): (k: Kind)
    ensures k == Notes <==> section == "notes"
    ensures k == Goals <==> section == "goals"
    ensures k == Tasks <==> section != "notes" && section != "goals"
  {
    if section == "notes" then Notes
    else if section == "goals" then Goals
    else Tasks
  }

  /** The form fields `editTask`/`editNote`/`editGoal` fill from a cached record. */
  function TaskEntryOf(t: Task): (e: Entry)
    ensures e.TaskEntry? && KindOf(e) == Tasks
    ensures e.title == t.title && e.priority == t.priority && e.category == t.category
    ensures e.description == (if t.description.Some? then t.description.value else "")
  {
    TaskEntry(t.title, OrEmpty(t.description), t.priority, t.category)
  }

  function NoteEntryOf(n: Note): (e: Entry)
    ensures e.NoteEntry? && KindOf(e) == Notes
    ensures e.title == n.title && e.category == n.category && e.color == n.color
    ensures e.content == (if n.content.Some? then n.content.value else "")
  {
    NoteEntry(n.title, OrEmpty(n.content), n.category, n.color)
  }

  function GoalEntryOf(g: Goal): (e: Entry)
    ensures e.GoalEntry? && KindOf(e) == Goals && e.title == g.title
    ensures e.description == (if g.description.Some? then g.description.value else "")
    ensures e.targetDate == (if g.targetDate.Some? then g.targetDate.value else "")
  {
    GoalEntry(g.title, OrEmpty(g.description), OrEmpty(g.targetDate))
  }

  class Controller {
    var currentSection: string
    /** The section element carrying the `active` class, if any. */
    var visibleSection: Option<string>
    var userTasks: seq<Task>
    var userNotes: seq<Note>
    var userGoals: seq<Goal>
    var tasksGrid: seq<Element>
    var notesGrid: seq<Element>
    var goalsGrid: seq<Element>
    /** The overview figures last written, if any were. */
    var stats: Option<Stats>
    var taskDialog: Dialog
    var noteDialog: Dialog
    var goalDialog: Dialog

    /** Every dialog's heading agrees with its mode marker, and no hidden
        dialog is in edit mode. */
    ghost predicate Valid()
      reads this`taskDialog, this`noteDialog, this`goalDialog
    {
      Coherent(Tasks, DialogOf(Tasks)) && Coherent(Notes, DialogOf(Notes)) && Coherent(Goals, DialogOf(Goals))
    }

    function DialogOf(k: Kind): Dialog
      reads this`taskDialog, this`noteDialog, this`goalDialog
    {
      match k
      case Tasks => taskDialog
      case Notes => noteDialog
      case Goals => goalDialog
    }

    /** The page as loaded: the overview section, empty caches, every dialog
        hidden in create mode. The markup's initial grid contents and figures
        are not modelled. */
    constructor ()
      ensures Valid()
      ensures currentSection == "overview" && visibleSection == Some("overview")
      ensures userTasks == [] && userNotes == [] && userGoals == []
      ensures stats == None
      ensures forall k :: DialogOf(k) == Initial(k)
    {
      currentSection, visibleSection := "overview", Some("overview");
      userTasks, userNotes, userGoals := [], [], [];
      tasksGrid, notesGrid, goalsGrid := [], [], [];
      stats := None;
      taskDialog, noteDialog, goalDialog := Initial(Tasks), Initial(Notes), Initial(Goals);
    }

    method SetDialog(k: Kind, d: Dialog)
      modifies this`taskDialog, this`noteDialog, this`goalDialog
      ensures DialogOf(k) == d
      ensures forall k' :: k' != k ==> DialogOf(k') == old(DialogOf(k'))
      ensures currentSection == old(currentSection) && visibleSection == old(visibleSection)
      ensures userTasks == old(userTasks) && userNotes == old(userNotes) && userGoals == old(userGoals)
      ensures tasksGrid == old(tasksGrid) && notesGrid == old(notesGrid) && goalsGrid == old(goalsGrid)
      ensures stats == old(stats)
    {
      match k
      case Tasks => taskDialog := d;
      case Notes => noteDialog := d;
      case Goals => goalDialog := d;
    }

    /** `showSection(name)`, where `present` holds the sections whose element
        exists in the page. Every section is deactivated first; only an existing
        target is then activated, becomes current and has its data fetched. */
    method ShowSection(name: string, present: set<string>) returns (effects: seq<Effect>)
      requires Valid()
      modifies this`currentSection, this`visibleSection
      ensures Valid()
      ensures name in present ==> currentSection == name && visibleSection == Some(name)
      ensures name in present ==> effects == SectionEffects(name)
      ensures name !in present ==> currentSection == old(currentSection) && visibleSection == None
      ensures name !in present ==> effects == []
      ensures userTasks == old(userTasks) && userNotes == old(userNotes) && userGoals == old(userGoals)
      ensures forall k :: DialogOf(k) == old(DialogOf(k))
    {
      visibleSection := None;
      effects := [];
      if name in present {
        visibleSection := Some(name);
        currentSection := name;
        effects := SectionEffects(name);
      }
    }

    /** `showAddModal`: shows the dialog chosen by the current section. */
    method ShowAddModal() returns (k: Kind)
      requires Valid()
      modifies this`taskDialog, this`noteDialog, this`goalDialog
      ensures Valid()
      ensures k == AddDialogFor(currentSection)
      ensures DialogOf(k) == Open(old(DialogOf(k)), k)
      ensures !old(DialogOf(k)).shown ==> DialogOf(k).mode == Create
      ensures forall k' :: k' != k ==> DialogOf(k') == old(DialogOf(k'))
      ensures currentSection == old(currentSection)
    {
      k := AddDialogFor(currentSection);
      SetDialog(k, Open(DialogOf(k), k));
    }

    /** `loadTasks`: a 2xx answer replaces the whole cache and re-renders the
        grid; a non-2xx answer or a failed request changes nothing. */
    method LoadTasks(response: Response<seq<Task>>)
      requires Valid()
      modifies this`userTasks, this`tasksGrid
      ensures Valid()
      ensures response.Ok? ==> userTasks == response.body
      ensures response.Ok? ==> Displays(tasksGrid, Tasks, response.body, TaskCardOf)
      ensures !response.Ok? ==> userTasks == old(userTasks) && tasksGrid == old(tasksGrid)
      ensures userNotes == old(userNotes) && userGoals == old(userGoals)
      ensures notesGrid == old(notesGrid) && goalsGrid == old(goalsGrid)
      ensures forall k :: DialogOf(k) == old(DialogOf(k))
      ensures currentSection == old(currentSection) && stats == old(stats)
    {
      if response.Ok? {
        userTasks := response.body;
        tasksGrid := Render(Tasks, response.body, TaskCardOf);
      }
    }

    /** `loadNotes`: as `loadTasks`, for the notes cache and grid. */
    method LoadNotes(response: Response<seq<Note>>)
      requires Valid()
      modifies this`userNotes, this`notesGrid
      ensures Valid()
      ensures response.Ok? ==> userNotes == response.body
      ensures response.Ok? ==> Displays(notesGrid, Notes, response.body, NoteCardOf)
      ensures !response.Ok? ==> userNotes == old(userNotes) && notesGrid == old(notesGrid)
      ensures userTasks == old(userTasks) && userGoals == old(userGoals)
      ensures tasksGrid == old(tasksGrid) && goalsGrid == old(goalsGrid)
      ensures forall k :: DialogOf(k) == old(DialogOf(k))
      ensures currentSection == old(currentSection) && stats == old(stats)
    {
      if response.Ok? {
        userNotes := response.body;
        notesGrid := Render(Notes, response.body, NoteCardOf);
      }
    }

    /** `loadGoals`: as `loadTasks`, for the goals cache and grid. */
    method LoadGoals(response: Response<seq<Goal>>)
      requires Valid()
      modifies this`userGoals, this`goalsGrid
      ensures Valid()
      ensures response.Ok? ==> userGoals == response.body
      ensures response.Ok? ==> Displays(goalsGrid, Goals, response.body, GoalCardOf)
      ensures !response.Ok? ==> userGoals == old(userGoals) && goalsGrid == old(goalsGrid)
      ensures userTasks == old(userTasks) && userNotes == old(userNotes)
      ensures tasksGrid == old(tasksGrid) && notesGrid == old(notesGrid)
      ensures forall k :: DialogOf(k) == old(DialogOf(k))
      ensures currentSection == old(currentSection) && stats == old(stats)
    {
      if response.Ok? {
        userGoals := response.body;
        goalsGrid := Render(Goals, response.body, GoalCardOf);
      }
    }

    /** `loadDashboardStats` once its three fetches settle: `fetched` holds the
        three parsed arrays, or None when a request or a parse threw, in which
        case the figures shown stay as they were. The caches are not touched. */
    method RefreshStats(fetched: Option<(seq<Task>, seq<Note>, seq<Goal>)>)
      requires Valid()
      modifies this`stats
      ensures Valid()
      ensures fetched.Some? ==> stats == Some(ComputeStats(fetched.value.0, fetched.value.1, fetched.value.2))
      ensures fetched.None? ==> stats == old(stats)
      ensures userTasks == old(userTasks) && userNotes == old(userNotes) && userGoals == old(userGoals)
      ensures forall k :: DialogOf(k) == old(DialogOf(k))
    {
      if fetched.Some? {
        stats := Some(ComputeStats(fetched.value.0, fetched.value.1, fetched.value.2));
      }
    }

    /** `editTask(id)`: with the first cached task of that id, fill the form,
        switch it to edit mode on that id and show it; with none, do nothing. */
    method EditTask(id: int)
      requires Valid()
      modifies this`taskDialog
      ensures Valid()
      ensures FindIndex(userTasks, TaskId, id).None? ==> taskDialog == old(taskDialog)
      ensures FindIndex(userTasks, TaskId, id).Some? ==>
        taskDialog == StartEdit(Tasks, id, TaskEntryOf(userTasks[FindIndex(userTasks, TaskId, id).value]))
      ensures noteDialog == old(noteDialog) && goalDialog == old(goalDialog)
      ensures userTasks == old(userTasks) && userNotes == old(userNotes) && userGoals == old(userGoals)
      ensures currentSection == old(currentSection)
    {
      var i := FindIndex(userTasks, TaskId, id);
      if i.None? {
        return;
      }
      taskDialog := StartEdit(Tasks, id, TaskEntryOf(userTasks[i.value]));
    }

    /** `editNote(id)`: as `editTask`, on the notes cache and note form. */
    method EditNote(id: int)
      requires Valid()
      modifies this`noteDialog
      ensures Valid()
      ensures FindIndex(userNotes, NoteId, id).None? ==> noteDialog == old(noteDialog)
      ensures FindIndex(userNotes, NoteId, id).Some? ==>
        noteDialog == StartEdit(Notes, id, NoteEntryOf(userNotes[FindIndex(userNotes, NoteId, id).value]))
      ensures taskDialog == old(taskDialog) && goalDialog == old(goalDialog)
      ensures userTasks == old(userTasks) && userNotes == old(userNotes) && userGoals == old(userGoals)
      ensures currentSection == old(currentSection)
    {
      var i := FindIndex(userNotes, NoteId, id);
      if i.None? {
        return;
      }
      noteDialog := StartEdit(Notes, id, NoteEntryOf(userNotes[i.value]));
    }

    /** `editGoal(id)`: as `editTask`, on the goals cache and goal form. */
    method EditGoal(id: int)
      requires Valid()
      modifies this`goalDialog
      ensures Valid()
      ensures FindIndex(userGoals, GoalId, id).None? ==> goalDialog == old(goalDialog)
      ensures FindIndex(userGoals, GoalId, id).Some? ==>
        goalDialog == StartEdit(Goals, id, GoalEntryOf(userGoals[FindIndex(userGoals, GoalId, id).value]))
      ensures taskDialog == old(taskDialog) && noteDialog == old(noteDialog)
      ensures userTasks == old(userTasks) && userNotes == old(userNotes) && userGoals == old(userGoals)
      ensures currentSection == old(currentSection)
    {
      var i := FindIndex(userGoals, GoalId, id);
      if i.None? {
        return;
      }
      goalDialog := StartEdit(Goals, id, GoalEntryOf(userGoals[i.value]));
    }

    /** `closeModal(ModalId(k))`: hide the dialog and reset its form. */
    method CloseModal(k: Kind)
      requires Valid()
      modifies this`taskDialog, this`noteDialog, this`goalDialog
      ensures Valid()
      ensures DialogOf(k) == Initial(k)
      ensures forall k' :: k' != k ==> DialogOf(k') == old(DialogOf(k'))
      ensures userTasks == old(userTasks) && userNotes == old(userNotes) && userGoals == old(userGoals)
    {
      SetDialog(k, Close(DialogOf(k), k));
    }

    /** The window click listener: a click whose target is a modal backdrop
        hides that modal and, for the three record dialogs, resets its form. */
    method OutsideClick(targetIsModal: bool, targetId: string)
      requires Valid()
      modifies this`taskDialog, this`noteDialog, this`goalDialog
      ensures Valid()
      ensures targetIsModal && ModalKind(targetId).Some? ==>
        DialogOf(ModalKind(targetId).value) == Initial(ModalKind(targetId).value)
      ensures forall k :: !(targetIsModal && ModalKind(targetId) == Some(k)) ==> DialogOf(k) == old(DialogOf(k))
      ensures userTasks == old(userTasks) && userNotes == old(userNotes) && userGoals == old(userGoals)
    {
      if targetIsModal {
        match ModalKind(targetId)
        case Some(k) =>
          SetDialog(k, Close(DialogOf(k), k));
        case None =>
      }
    }

    /** The submit listener of the form `entered` was read from. */
    method Submit(entered: Entry) returns (request: Request)
      ensures request.Put? <==> DialogOf(KindOf(entered)).mode.Edit?
      ensures request.Put? ==> request.id == DialogOf(KindOf(entered)).mode.id
      ensures request.kind == KindOf(entered)
      ensures forall key :: key in AddBody(entered) ==>
        key in request.body && request.body[key] == AddBody(entered)[key]
      ensures forall key :: key in request.body && key != "progress" ==> key in AddBody(entered)
      ensures "progress" in request.body <==> request.Put? && entered.GoalEntry?
      ensures "progress" in request.body ==> request.body["progress"] == Num(0)
    {
      request := Dispatch(DialogOf(KindOf(entered)).mode, entered);
    }

    /** `handleAdd…` once its POST settles: returns the effects, in order, and
        applies those that concern the dialog; the caches change only when the
        `Load` effect's own request later settles. */
    method HandleAdd(k: Kind, outcome: Response<()>) returns (effects: seq<Effect>)
      requires Valid()
      modifies this`taskDialog, this`noteDialog, this`goalDialog
      ensures Valid()
      ensures effects == AddEffects(k, outcome)
      ensures DialogOf(k) == Perform(old(DialogOf(k)), k, effects)
      ensures DialogOf(k) == if outcome.Ok? then Initial(k) else old(DialogOf(k))
      ensures forall k' :: k' != k ==> DialogOf(k') == old(DialogOf(k'))
      ensures userTasks == old(userTasks) && userNotes == old(userNotes) && userGoals == old(userGoals)
      ensures currentSection == old(currentSection) && stats == old(stats)
    {
      effects := AddEffects(k, outcome);
      WriteSettlesDialog(DialogOf(k), k, outcome);
      SetDialog(k, Perform(DialogOf(k), k, effects));
    }

    /** `handleUpdate…` once its PUT settles; as `HandleAdd`. */
    method HandleUpdate(k: Kind, outcome: Response<()>) returns (effects: seq<Effect>)
      requires Valid()
      modifies this`taskDialog, this`noteDialog, this`goalDialog
      ensures Valid()
      ensures effects == UpdateEffects(k, outcome)
      ensures DialogOf(k) == Perform(old(DialogOf(k)), k, effects)
      ensures DialogOf(k) == if outcome.Ok? then Initial(k) else old(DialogOf(k))
      ensures forall k' :: k' != k ==> DialogOf(k') == old(DialogOf(k'))
      ensures userTasks == old(userTasks) && userNotes == old(userNotes) && userGoals == old(userGoals)
      ensures currentSection == old(currentSection) && stats == old(stats)
    {
      effects := UpdateEffects(k, outcome);
      WriteSettlesDialog(DialogOf(k), k, outcome);
      SetDialog(k, Perform(DialogOf(k), k, effects));
    }
  }
}
