/** The records the dashboard caches, the cards it renders for them and the
    summary statistics it derives from them (static/dashboard.js). */
module DashboardView {
  import opened Wire

  // ---------------------------------------------------------------------------
  // Records, as the dashboard receives them from `GET /api/<kind>`
  // ---------------------------------------------------------------------------

  /** `created_at` is only ever passed to `formatDate`, which is not modelled. */
  datatype Task = Task(id: int, title: string, description: Option<string>,
                       completed: bool, priority: string, category: string)

  datatype Note = Note(id: int, title: string, content: Option<string>,
                       category: string, color: string)

  datatype Goal = Goal(id: int, title: string, description: Option<string>,
                       targetDate: Option<string>, progress: int, status: string)

  /** JavaScript's `value || ''` for an optional text column. */
  function OrEmpty(s: Option<string>): string {
    match s
    case Some(v) => v
    case None => ""
  }

  function TaskId(t: Task): int { t.id }
  function NoteId(n: Note): int { n.id }
  function GoalId(g: Goal): int { g.id }

  /** `records.find(r => r.id === id)`: the position of the first record with
      that id, if there is one. */
  function FindIndex<R>(records: seq<R>, idOf: R -> int, id: int): (r: Option<nat>)
    ensures r.Some? ==> r.value < |records| && idOf(records[r.value]) == id
    ensures r.Some? ==> forall j :: 0 <= j < r.value ==> idOf(records[j]) != id
    ensures r.None? ==> forall j :: 0 <= j < |records| ==> idOf(records[j]) != id
  {
    if records == [] then None
    else if idOf(records[0]) == id then Some(0)
    else match FindIndex(records[1..], idOf, id)
      case None => None
      case Some(i) => Some(i + 1)
  }

  // ---------------------------------------------------------------------------
  // Rendering: one placeholder for an empty collection, else one card per record
  // ---------------------------------------------------------------------------

  /** What a card shows, with the markup abstracted away. */
  datatype Card =
    | TaskCard(id: int, title: string, description: string, priority: string,
               category: string, completed: bool)
    | NoteCard(id: int, title: string, content: string, category: string, color: string)
    | GoalCard(id: int, title: string, description: string, progress: int,
               targetDate: Option<string>, status: string)

  /** A child of a grid container: the empty-state block or a card. */
  datatype Element = Placeholder(kind: Kind) | Shown(card: Card)

  /** `createTaskCard`: the card's buttons act on the task's id, and an
      absent description shows as empty text. */
  function TaskCardOf(t: Task): (c: Card)
    ensures c.TaskCard? && c.id == t.id && c.title == t.title && c.completed == t.completed
    ensures c.priority == t.priority && c.category == t.category
    ensures c.description == "" <==> t.description.None? || t.description == Some("")
    ensures t.description.Some? ==> c.description == t.description.value
  {
    TaskCard(t.id, t.title, OrEmpty(t.description), t.priority, t.category, t.completed)
  }

  /** `createNoteCard`: an absent content shows as empty text. */
  function NoteCardOf(n: Note): (c: Card)
    ensures c.NoteCard? && c.id == n.id && c.title == n.title
    ensures c.category == n.category && c.color == n.color
    ensures c.content == "" <==> n.content.None? || n.content == Some("")
    ensures n.content.Some? ==> c.content == n.content.value
  {
    NoteCard(n.id, n.title, OrEmpty(n.content), n.category, n.color)
  }

  /** `createGoalCard`: the progress bar and the status come from the goal;
      an absent description shows as empty text. */
  function GoalCardOf(g: Goal): (c: Card)
    ensures c.GoalCard? && c.id == g.id && c.title == g.title
    ensures c.progress == g.progress && c.targetDate == g.targetDate && c.status == g.status
    ensures c.description == "" <==> g.description.None? || g.description == Some("")
    ensures g.description.Some? ==> c.description == g.description.value
  {
    GoalCard(g.id, g.title, OrEmpty(g.description), g.progress, g.targetDate, g.status)
  }

  /** The rendering rule: a grid shows exactly one empty-state block for an
      empty collection, and otherwise one card per record, in input order. */
  ghost predicate Displays<R>(view: seq<Element>, kind: Kind, records: seq<R>, cardOf: R -> Card) {
    && (|records| == 0 ==> view == [Placeholder(kind)])
    && (|records| > 0 ==>
          |view| == |records| && forall i :: 0 <= i < |records| ==> view[i] == Shown(cardOf(records[i])))
  }

  /** `renderTasks`/`renderNotes`/`renderGoals`: clear the container, then
      either put the empty-state block in it or append one card per record in
      the order received. Returns the container's new children. */
  method Render<R>(kind: Kind, records: seq<R>, cardOf: R -> Card) returns (view: seq<Element>)
    ensures Displays(view, kind, records, cardOf)
  {
    view := [];
    if |records| == 0 {
      view := [Placeholder(kind)];
      return;
    }
    var i := 0;
    while i < |records|
      invariant 0 <= i <= |records|
      invariant |view| == i
      invariant forall j :: 0 <= j < i ==> view[j] == Shown(cardOf(records[j]))
    {
      view := view + [Shown(cardOf(records[i]))];
      i := i + 1;
    }
  }

  // ---------------------------------------------------------------------------
  // Summary statistics (loadDashboardStats)
  // ---------------------------------------------------------------------------

  /** JavaScript's `Array.prototype.filter`. */
  function Filter<T(!new)>(s: seq<T>, keep: T -> bool): (r: seq<T>)
    ensures |r| <= |s|
    ensures forall x :: x in r <==> x in s && keep(x)
  {
    if s == [] then [] else (if keep(s[0]) then [s[0]] else []) + Filter(s[1..], keep)
  }

  lemma {:induction false} FilterAppend<T(!new)>(a: seq<T>, b: seq<T>, keep: T -> bool)
    ensures Filter(a + b, keep) == Filter(a, keep) + Filter(b, keep)
  {
    if a == [] {
      assert a + b == b;
    } else {
      assert (a + b)[0] == a[0];
      assert (a + b)[1..] == a[1..] + b;
      FilterAppend(a[1..], b, keep);
    }
  }

  /** Filtering keeps every element exactly when all pass, and none exactly
      when none pass. */
  lemma {:induction false} FilterExtremes<T(!new)>(s: seq<T>, keep: T -> bool)
    ensures |Filter(s, keep)| == |s| <==> forall x :: x in s ==> keep(x)
    ensures |Filter(s, keep)| == 0 <==> forall x :: x in s ==> !keep(x)
  {
    if s != [] {
      FilterExtremes(s[1..], keep);
      assert forall x :: x in s <==> x == s[0] || x in s[1..];
    }
  }

  predicate IsPending(t: Task) { !t.completed }
  predicate IsDone(t: Task) { t.completed }
  predicate IsActive(g: Goal) { g.status == "active" }

  function PendingCount(tasks: seq<Task>): nat { |Filter(tasks, IsPending)| }
  function CompletedCount(tasks: seq<Task>): nat { |Filter(tasks, IsDone)| }
  function ActiveGoalCount(goals: seq<Goal>): nat { |Filter(goals, IsActive)| }

  /** Every task is either pending or completed, never both. */
  lemma {:induction false} PendingPlusCompleted(tasks: seq<Task>)
    ensures PendingCount(tasks) + CompletedCount(tasks) == |tasks|
  {
    if tasks != [] {
      PendingPlusCompleted(tasks[1..]);
    }
  }

  /** Adding a task changes the pending count by one exactly when the new task
      is not completed (a freshly created task never is). */
  lemma AppendTaskPending(tasks: seq<Task>, t: Task)
    ensures PendingCount(tasks + [t]) == PendingCount(tasks) + (if t.completed then 0 else 1)
  {
    FilterAppend(tasks, [t], IsPending);
  }

  /** Marking one pending task completed lowers the pending count by one. */
  lemma CompleteTaskPending(tasks: seq<Task>, i: nat)
    requires i < |tasks| && !tasks[i].completed
    ensures PendingCount(tasks[i := tasks[i].(completed := true)]) == PendingCount(tasks) - 1
  {
    var t' := tasks[i].(completed := true);
    assert tasks == tasks[..i] + [tasks[i]] + tasks[i + 1..];
    assert tasks[i := t'] == tasks[..i] + [t'] + tasks[i + 1..];
    FilterAppend(tasks[..i] + [tasks[i]], tasks[i + 1..], IsPending);
    FilterAppend(tasks[..i], [tasks[i]], IsPending);
    FilterAppend(tasks[..i] + [t'], tasks[i + 1..], IsPending);
    FilterAppend(tasks[..i], [t'], IsPending);
  }

  /** `Math.round((completed / total) * 100)`, or 0 with no tasks. Rounding is
      idealised as exact half-up rounding of the rational 100*c/n. */
  function CompletionPercent(tasks: seq<Task>): (p: nat)
    ensures p <= 100
    ensures |tasks| == 0 ==> p == 0
    ensures |tasks| > 0 ==>
      2 * |tasks| * p <= 200 * CompletedCount(tasks) + |tasks| < 2 * |tasks| * (p + 1)
    ensures |tasks| > 0 && CompletedCount(tasks) == |tasks| ==> p == 100
    ensures CompletedCount(tasks) == 0 ==> p == 0
  {
    var n, c := |tasks|, CompletedCount(tasks);
    if n > 0 then HalfUp(c, n) else 0
  }

  /** round-half-up(100 * c / n), for 0 <= c <= n. */
  function HalfUp(c: nat, n: nat): (p: nat)
    requires 0 < n && c <= n
    ensures 2 * n * p <= 200 * c + n < 2 * n * (p + 1)
    ensures p <= 100
    ensures c == n ==> p == 100
    ensures c == 0 ==> p == 0
  {
    var p := (200 * c + n) / (2 * n);
    HalfUpFacts(c, n, p);
    p
  }

  lemma HalfUpFacts(c: nat, n: nat, p: nat)
    requires 0 < n && c <= n && p == (200 * c + n) / (2 * n)
    ensures 2 * n * p <= 200 * c + n < 2 * n * (p + 1)
    ensures p <= 100
    ensures c == n ==> p == 100
    ensures c == 0 ==> p == 0
  {
    var m, a := 2 * n, 200 * c + n;
    DivBounds(a, m, p);
    assert a <= 201 * n;
    if p >= 101 {
      MulMono(m, 101, p);
      assert false;
    }
    if c == n && p <= 99 {
      MulMono(m, p + 1, 100);
      assert false;
    }
    if c == 0 && p >= 1 {
      MulMono(m, 1, p);
      assert false;
    }
  }

  // DivBounds and MulMono are arithmetic helpers that only serve HalfUpFacts.

  lemma DivBounds(a: nat, m: nat, p: nat)
    requires m > 0 && p == a / m
    ensures m * p <= a < m * (p + 1)
  {
    assert a == m * p + a % m;
  }

  lemma MulMono(k: nat, x: nat, y: nat)
    requires x <= y
    ensures k * x <= k * y
  {
  }

  /** The four figures of the overview panel. */
  datatype Stats = Stats(pending: nat, notes: nat, activeGoals: nat, percent: nat)

  /** The figures `loadDashboardStats` writes, from the three fetched arrays. */
  function ComputeStats(tasks: seq<Task>, notes: seq<Note>, goals: seq<Goal>): (s: Stats)
    ensures s.pending + CompletedCount(tasks) == |tasks|
    ensures s.notes == |notes|
    ensures s.activeGoals == ActiveGoalCount(goals)
    ensures s.percent == CompletionPercent(tasks)
    ensures s.pending == |tasks| <==> forall t :: t in tasks ==> !t.completed
    ensures s.pending == 0 <==> forall t :: t in tasks ==> t.completed
    ensures s.activeGoals <= |goals|
    ensures s.activeGoals == |goals| <==> forall g :: g in goals ==> g.status == "active"
    ensures s.activeGoals == 0 <==> forall g :: g in goals ==> g.status != "active"
    ensures s.percent <= 100
    ensures s.pending == 0 && |tasks| > 0 ==> s.percent == 100
    ensures s.pending == |tasks| ==> s.percent == 0
  {
    PendingPlusCompleted(tasks);
    FilterExtremes(tasks, IsPending);
    FilterExtremes(goals, IsActive);
    assert PendingCount(tasks) == |tasks| <==> forall t :: t in tasks ==> IsPending(t);
    assert PendingCount(tasks) == 0 <==> forall t :: t in tasks ==> !IsPending(t);
    assert ActiveGoalCount(goals) == |goals| <==> forall g :: g in goals ==> IsActive(g);
    assert ActiveGoalCount(goals) == 0 <==> forall g :: g in goals ==> !IsActive(g);
    Stats(PendingCount(tasks), |notes|, ActiveGoalCount(goals), CompletionPercent(tasks))
  }
}
