/** What the API does with the requests the dashboard's forms send. */
module EndToEnd {
  import opened Wire
  import opened StoreTables
  import F = DashboardForms
  import D = Database

  /** A form submission always carries a string title, so neither the INSERT
      nor the UPDATE it turns into can fail on the title. */
  lemma SubmissionsNeverFail(mode: F.Mode, e: F.Entry, rows: seq<Row>, id: int, uid: int)
    requires forall x :: x in rows ==> TableOf(x) == F.KindOf(e)
    ensures var req := F.Dispatch(mode, e);
      && (req.Post? ==> D.NewRow(req.kind, id, uid, req.body).Some?)
      && (req.Put? ==> D.PutRows(req.kind, rows, req.id, uid, req.body).Some?)
  {
  }

  /** Adding a task from the form stores a pending task holding exactly the
      entered fields. */
  lemma AddedTaskIsPending(e: F.Entry, id: int, uid: int)
    requires e.TaskEntry?
    ensures var req := F.Dispatch(F.Create, e);
      && req == Post(Tasks, F.AddBody(e))
      && var row := D.NewRow(Tasks, id, uid, req.body);
      && row.Some? && !row.value.completed
      && row.value == TaskRow(id, uid, Text(e.title), Text(e.description), false,
                              Text(e.priority), Text(e.category))
  {
  }

  /** Adding a note from the form stores exactly the entered fields; none of
      the column defaults applies, since the form sends every field. */
  lemma AddedNoteIsStored(e: F.Entry, id: int, uid: int)
    requires e.NoteEntry?
    ensures var req := F.Dispatch(F.Create, e);
      && req.Post? && req.kind == Notes
      && D.NewRow(Notes, id, uid, req.body) ==
         Some(NoteRow(id, uid, Text(e.title), Text(e.content), Text(e.category), Text(e.color)))
  {
  }

  /** Adding a goal from the form stores an active goal at progress 0 with
      the entered fields. A blank date field is stored as the empty text,
      never as NULL, because the form always sends `target_date`. */
  lemma AddedGoalIsActive(e: F.Entry, id: int, uid: int)
    requires e.GoalEntry?
    ensures var req := F.Dispatch(F.Create, e);
      && req.Post? && req.kind == Goals
      && D.NewRow(Goals, id, uid, req.body) ==
         Some(GoalRow(id, uid, Text(e.title), Text(e.description), Text(e.targetDate),
                      Integer(0), Text("active")))
      && D.NewRow(Goals, id, uid, req.body).value.targetDate != NullV
  {
  }

  /** Editing a goal through the dashboard sends `progress: 0`, so the owned
      row's progress is reset to 0 whatever it was, while its status stays. */
  lemma EditedGoalLosesProgress(rows: seq<Row>, id: int, uid: int, filled: F.Entry, entered: F.Entry)
    requires entered.GoalEntry?
    requires forall x :: x in rows ==> TableOf(x) == Goals
    ensures var req := F.Dispatch(F.StartEdit(Goals, id, filled).mode, entered);
      && req.Put? && req.kind == Goals && req.id == id
      && var after := PutGoal(rows, id, uid, req.body);
      && after.Some?
      && forall i :: 0 <= i < |rows| && Owned(rows[i], id, uid) ==>
           after.value[i].progress == Integer(0) && after.value[i].status == rows[i].status
  {
    F.EditThenSubmit(Goals, id, filled, entered);
  }
}
