/** The SQLite database behind the Flask API (app.py): the `users` table and
    the three per-user tables, each with its AUTOINCREMENT counter, and the
    endpoints that change them. A request's session is `Some(user_id)` once
    logged in and `None` otherwise. */
module Database {
  import opened Wire
  import opened StoreTables
  import opened SignupRules

  /** `hash_password`: SHA-256 is kept abstract, as an injective digest. */
  datatype Digest = Sha256(password: string)

  datatype UserRow = UserRow(id: int, username: string, password: Digest, email: string,
                             profileColor: string)

  /** What an API endpoint answers: 401 when not logged in, 500 when the
      statement raises, else a success body. */
  datatype Reply<+T> = NotAuthenticated | ServerError | Success(value: T)

  /** `check_auth`: the session's user id, or the 401 reply. */
  function CheckAuth(session: Option<int>): (r: Reply<int>)
    ensures r.NotAuthenticated? <==> session.None?
    ensures r.Success? <==> session.Some?
    ensures r.Success? ==> r.value == session.value
  {
    match session
    case None => NotAuthenticated
    case Some(uid) => Success(uid)
  }

  /** The outcome of a signup form submission. */
  datatype SignupResult = Incomplete | BadEmail | UsernameTaken | Created(userId: int)

  // ---------------------------------------------------------------------------
  // Rows built from request bodies, by table
  // ---------------------------------------------------------------------------

  /** The row the POST endpoint of table `k` inserts, or None when it fails. */
  function NewRow(k: Kind, id: int, uid: int, data: Payload): (r: Option<Row>)
    ensures r.None? <==> "title" !in data || data["title"] == Null
    ensures r.Some? ==> TableOf(r.value) == k && r.value.id == id && r.value.userId == uid
    ensures r.Some? ==> r.value.title == Bind(data["title"]) && r.value.title != NullV
  {
    match k
    case Tasks => NewTask(id, uid, data)
    case Notes => NewNote(id, uid, data)
    case Goals => NewGoal(id, uid, data)
  }

  /** The table after the PUT endpoint of table `k`, or None when it fails. */
  function PutRows(k: Kind, rows: seq<Row>, id: int, uid: int, data: Payload): (r: Option<seq<Row>>)
    requires forall x :: x in rows ==> TableOf(x) == k
    ensures r.None? <==> "title" !in data || (data["title"] == Null && FindOwned(rows, id, uid).Some?)
    ensures r.Some? ==> |r.value| == |rows|
    ensures r.Some? ==> forall i :: 0 <= i < |rows| ==>
      r.value[i].id == rows[i].id && r.value[i].userId == rows[i].userId && TableOf(r.value[i]) == k
    ensures r.Some? ==> forall i :: 0 <= i < |rows| && !Owned(rows[i], id, uid) ==> r.value[i] == rows[i]
    ensures r.Some? ==> forall i :: 0 <= i < |rows| && Owned(rows[i], id, uid) ==>
      r.value[i].title == Bind(data["title"])
  {
    match k
    case Tasks => PutTask(rows, id, uid, data)
    case Notes => PutNote(rows, id, uid, data)
    case Goals => PutGoal(rows, id, uid, data)
  }

  // ---------------------------------------------------------------------------
  // Default content seeded for a new account (create_default_content)
  // ---------------------------------------------------------------------------

  /** An entry of `defaults['tasks']`: title, description, priority, category. */
  type SeedTask = (string, string, string, string)
  /** An entry of `defaults['notes']`: title, content, category, color. */
  type SeedNote = (string, string, string, string)
  /** An entry of `defaults['goals']` without its date: title, description. */
  type SeedGoal = (string, string)

  const DefaultTasks: seq<SeedTask> := [
    ("Welcome to Youth Balance!", "Take a moment to explore your dashboard and customize it to your needs.", "high", "general"),
    ("Set up your morning routine", "Create a morning routine that energizes you for the day ahead.", "medium", "personal"),
    ("Plan your weekly goals", "Think about what you want to achieve this week and break it into smaller steps.", "medium", "personal"),
    ("Practice self-care today", "Do something kind for yourself - take a bath, read a book, or call a friend.", "low", "health")
  ]

  /** The note bodies hold the two characters `\` `n` where a line break was
      evidently meant, exactly as stored. */
  const DefaultNotes: seq<SeedNote> := [
    ("Daily Affirmations", "I am capable of achieving my dreams.\\nI deserve love and happiness.\\nI am growing stronger every day.\\nI trust in my ability to overcome challenges.\\nI believe in myself and my potential.", "inspiration", "#4f46e5"),
    ("Self-Care Ideas", "\U{2022} Take a relaxing bath with essential oils\\n\U{2022} Write in a gratitude journal\\n\U{2022} Go for a peaceful walk in nature\\n\U{2022} Listen to your favorite music\\n\U{2022} Practice deep breathing exercises\\n\U{2022} Treat yourself to something special", "ideas", "#a8e6cf"),
    ("Study Tips", "\U{2022} Use the Pomodoro Technique (25 min study, 5 min break)\\n\U{2022} Create a dedicated study space\\n\U{2022} Break large tasks into smaller ones\\n\U{2022} Reward yourself after completing tasks\\n\U{2022} Stay hydrated and take regular breaks", "general", "#ffd93d"),
    ("Mood Tracker", "Track your daily mood and notice patterns:\\n\\nToday I feel: ___________\\nWhat made me happy: ___________\\nWhat challenged me: ___________\\nTomorrow I want to: ___________", "reminders", "#74b9ff")
  ]

  /** The goals' target dates, 30, 60 and 90 days from the clock, are not
      part of the constant; they are passed in where the goals are seeded. */
  const DefaultGoals: seq<SeedGoal> := [
    ("Develop a consistent self-care routine", "Create and maintain daily habits that support physical and mental wellbeing."),
    ("Improve time management skills", "Learn to prioritize tasks effectively and create a balanced schedule."),
    ("Build confidence and self-esteem", "Practice positive self-talk and celebrate achievements, big and small.")
  ]

  /** The three default lists, as one value. */
  datatype Defaults = Defaults(tasks: seq<SeedTask>, notes: seq<SeedNote>, goals: seq<SeedGoal>)

  /** The lists of `create_default_content` hold 4 tasks, 4 notes and 3 goals. */
  lemma DefaultSizes()
    ensures |DefaultTasks| == 4 && |DefaultNotes| == 4 && |DefaultGoals| == 3
  {
  }

  /** The row one INSERT of a default task writes; `completed` takes the
      schema default. */
  function TaskSeedRow(uid: int, id: int, e: SeedTask): Row {
    TaskRow(id, uid, Text(e.0), Text(e.1), false, Text(e.2), Text(e.3))
  }

  function NoteSeedRow(uid: int, id: int, e: SeedNote): Row {
    NoteRow(id, uid, Text(e.0), Text(e.1), Text(e.2), Text(e.3))
  }

  /** `progress` and `status` take the schema defaults 0 and 'active'. */
  function GoalSeedRow(uid: int, id: int, e: SeedGoal, date: string): Row {
    GoalRow(id, uid, Text(e.0), Text(e.1), Text(date), Integer(0), Text("active"))
  }

  /** The rows seeded from a list of entries, with consecutive ids from `first`. */
  function SeedTaskRows(uid: int, first: int, es: seq<SeedTask>): (r: seq<Row>)
    ensures |r| == |es|
    ensures forall i :: 0 <= i < |es| ==>
      r[i].TaskRow? && r[i].id == first + i && r[i].userId == uid && !r[i].completed
    ensures forall i :: 0 <= i < |es| ==>
      r[i].title == Text(es[i].0) && r[i].description == Text(es[i].1) &&
      r[i].priority == Text(es[i].2) && r[i].category == Text(es[i].3)
  {
    seq(|es|, i requires 0 <= i < |es| => TaskSeedRow(uid, first + i, es[i]))
  }

  function SeedNoteRows(uid: int, first: int, es: seq<SeedNote>): (r: seq<Row>)
    ensures |r| == |es|
    ensures forall i :: 0 <= i < |es| ==> r[i].NoteRow? && r[i].id == first + i && r[i].userId == uid
    ensures forall i :: 0 <= i < |es| ==>
      r[i].title == Text(es[i].0) && r[i].content == Text(es[i].1) &&
      r[i].category == Text(es[i].2) && r[i].color == Text(es[i].3)
  {
    seq(|es|, i requires 0 <= i < |es| => NoteSeedRow(uid, first + i, es[i]))
  }

  function SeedGoalRows(uid: int, first: int, es: seq<SeedGoal>, dates: seq<string>): (r: seq<Row>)
    requires |dates| == |es|
    ensures |r| == |es|
    ensures forall i :: 0 <= i < |es| ==> r[i].GoalRow? && r[i].id == first + i && r[i].userId == uid
    ensures forall i :: 0 <= i < |es| ==>
      r[i].progress == Integer(0) && r[i].status == Text("active")
    ensures forall i :: 0 <= i < |es| ==>
      r[i].title == Text(es[i].0) && r[i].description == Text(es[i].1) && r[i].targetDate == Text(dates[i])
  {
    seq(|es|, i requires 0 <= i < |es| => GoalSeedRow(uid, first + i, es[i], dates[i]))
  }

  /** Every seeded row belongs to the new user; no seeded task is completed;
      every seeded goal is at progress 0 and 'active'. */
  lemma SeedsBelongToUser(uid: int, t: int, n: int, g: int, d: Defaults, dates: seq<string>)
    requires |dates| == |d.goals|
    ensures OwnedBy(SeedTaskRows(uid, t, d.tasks), uid) == SeedTaskRows(uid, t, d.tasks)
    ensures OwnedBy(SeedNoteRows(uid, n, d.notes), uid) == SeedNoteRows(uid, n, d.notes)
    ensures OwnedBy(SeedGoalRows(uid, g, d.goals, dates), uid) == SeedGoalRows(uid, g, d.goals, dates)
    ensures forall x :: x in SeedTaskRows(uid, t, d.tasks) ==> x.TaskRow? && !x.completed
    ensures forall x :: x in SeedGoalRows(uid, g, d.goals, dates) ==>
      x.GoalRow? && x.progress == Integer(0) && x.status == Text("active")
  {
    AllOwned(SeedTaskRows(uid, t, d.tasks), uid);
    AllOwned(SeedNoteRows(uid, n, d.notes), uid);
    AllOwned(SeedGoalRows(uid, g, d.goals, dates), uid);
  }

  /** Listing a user's rows from rows that are all theirs gives them all back. */
  lemma {:induction false} AllOwned(rows: seq<Row>, uid: int)
    requires forall x :: x in rows ==> x.userId == uid
    ensures OwnedBy(rows, uid) == rows
  {
    if rows != [] {
      assert forall x :: x in rows[1..] ==> x in rows;
      AllOwned(rows[1..], uid);
      assert rows == [rows[0]] + rows[1..];
    }
  }

  /** Listing distributes over the rows appended to a table. */
  lemma {:induction false} OwnedByAppend(a: seq<Row>, b: seq<Row>, uid: int)
    ensures OwnedBy(a + b, uid) == OwnedBy(a, uid) + OwnedBy(b, uid)
  {
    if a == [] {
      assert a + b == b;
    } else {
      assert (a + b)[1..] == a[1..] + b;
      OwnedByAppend(a[1..], b, uid);
    }
  }

  // ---------------------------------------------------------------------------
  // The database
  // ---------------------------------------------------------------------------

  /** The schema's constraints on one table: rows of the table's kind, a
      non-null title, ids below the AUTOINCREMENT counter and increasing. */
  ghost predicate TableValid(rows: seq<Row>, k: Kind, next: int) {
    && 0 < next
    && (forall x :: x in rows ==> TableOf(x) == k && x.title != NullV && 0 < x.id < next)
    && IdsIncreasing(rows)
  }

  /** Increasing ids below the counter, and `username TEXT UNIQUE`. */
  ghost predicate UsersValid(users: seq<UserRow>, next: int) {
    && 0 < next
    && (forall u :: u in users ==> 0 < u.id < next)
    && (forall i, j :: 0 <= i < j < |users| ==> users[i].id < users[j].id)
    && (forall i, j :: 0 <= i < j < |users| ==> users[i].username != users[j].username)
  }

  /** Every row belongs to a user id handed out before `nextUser`: rows are
      only written for the session's user, and only `login` sets the session,
      from a `users` row. */
  ghost predicate OwnersBelow(rows: seq<Row>, nextUser: int) {
    forall x :: x in rows ==> 0 < x.userId < nextUser
  }

  /** `session['user_id']` is set only by `login`, from an existing row. */
  predicate Registered(users: seq<UserRow>, uid: int) {
    exists u :: u in users && u.id == uid
  }

  predicate NameInUse(users: seq<UserRow>, name: string) {
    exists u :: u in users && u.username == name
  }

  class Store {
    var users: seq<UserRow>
    var tasks: seq<Row>
    var notes: seq<Row>
    var goals: seq<Row>
    var nextUser: int
    var nextTask: int
    var nextNote: int
    var nextGoal: int
    /** The default lists `create_default_content` seeds from, fixed when the
        store is made. */
    const defaults: Defaults

    ghost predicate Valid()
      reads this
    {
      && UsersValid(users, nextUser)
      && TableValid(tasks, Tasks, nextTask)
      && TableValid(notes, Notes, nextNote)
      && TableValid(goals, Goals, nextGoal)
      && OwnersBelow(tasks, nextUser) && OwnersBelow(notes, nextUser) && OwnersBelow(goals, nextUser)
    }

    function Table(k: Kind): seq<Row>
      reads this
    {
      match k
      case Tasks => tasks
      case Notes => notes
      case Goals => goals
    }

    function Next(k: Kind): int
      reads this
    {
      match k
      case Tasks => nextTask
      case Notes => nextNote
      case Goals => nextGoal
    }

    /** `init_db` on a fresh file: empty tables, counters at 1. */
    constructor ()
      ensures Valid()
      ensures users == [] && tasks == [] && notes == [] && goals == []
      ensures nextUser == 1 && nextTask == 1 && nextNote == 1 && nextGoal == 1
      ensures defaults == Defaults(DefaultTasks, DefaultNotes, DefaultGoals)
    {
      users, tasks, notes, goals := [], [], [], [];
      nextUser, nextTask, nextNote, nextGoal := 1, 1, 1, 1;
      defaults := Defaults(DefaultTasks, DefaultNotes, DefaultGoals);
    }

    method SetTable(k: Kind, rows: seq<Row>, next: int)
      modifies this
      ensures Table(k) == rows && Next(k) == next
      ensures k != Tasks ==> tasks == old(tasks) && nextTask == old(nextTask)
      ensures k != Notes ==> notes == old(notes) && nextNote == old(nextNote)
      ensures k != Goals ==> goals == old(goals) && nextGoal == old(nextGoal)
      ensures users == old(users) && nextUser == old(nextUser)
    {
      match k
      case Tasks => tasks, nextTask := rows, next;
      case Notes => notes, nextNote := rows, next;
      case Goals => goals, nextGoal := rows, next;
    }

    /** `GET /api/<kind>`: the session user's rows; the table is untouched. */
    method List(k: Kind, session: Option<int>) returns (r: Reply<seq<Row>>)
      ensures r.NotAuthenticated? <==> session.None?
      ensures !r.ServerError?
      ensures r.Success? ==> forall x :: x in r.value <==> x in Table(k) && x.userId == session.value
      ensures r.Success? ==> forall x ::
        multiset(r.value)[x] == if x.userId == session.value then multiset(Table(k))[x] else 0
    {
      match CheckAuth(session)
      case Success(uid) => r := Success(OwnedBy(Table(k), uid));
      case _ => r := NotAuthenticated;
    }

    /** `POST /api/<kind>`: insert one row with a fresh id and the column
        defaults; 500 and no change when the title is missing or null. */
    method Post(k: Kind, session: Option<int>, data: Payload) returns (r: Reply<int>)
      requires Valid()
      requires session.Some? ==> Registered(users, session.value)
      modifies this
      ensures Valid()
      ensures session.None? ==> r == NotAuthenticated && unchanged(this)
      ensures session.Some? && NewRow(k, old(Next(k)), session.value, data).None? ==>
        r == ServerError && unchanged(this)
      ensures session.Some? && NewRow(k, old(Next(k)), session.value, data).Some? ==>
        && r == Success(old(Next(k)))
        && Table(k) == old(Table(k)) + [NewRow(k, old(Next(k)), session.value, data).value]
        && Next(k) == old(Next(k)) + 1
        && (forall k' :: k' != k ==> Table(k') == old(Table(k')) && Next(k') == old(Next(k')))
        && users == old(users) && nextUser == old(nextUser)
    {
      match CheckAuth(session)
      case Success(uid) =>
        var id := Next(k);
        match NewRow(k, id, uid, data) {
          case None => r := ServerError;
          case Some(row) =>
            AppendKeepsValid(Table(k), k, id, row);
            AppendKeepsOwners(Table(k), row, users, nextUser);
            SetTable(k, Table(k) + [row], id + 1);
            r := Success(id);
        }
      case _ => r := NotAuthenticated;
    }

    /** `DELETE /api/<kind>/<id>`: remove the session user's row with that
        id, if any; succeeds either way. */
    method Delete(k: Kind, session: Option<int>, id: int) returns (r: Reply<()>)
      requires Valid()
      modifies this
      ensures Valid()
      ensures session.None? ==> r == NotAuthenticated && unchanged(this)
      ensures session.Some? ==>
        && r == Success(())
        && Table(k) == DeleteOwned(old(Table(k)), id, session.value)
        && Next(k) == old(Next(k))
        && (forall k' :: k' != k ==> Table(k') == old(Table(k')) && Next(k') == old(Next(k')))
        && users == old(users) && nextUser == old(nextUser)
    {
      match CheckAuth(session)
      case Success(uid) =>
        var rows := Table(k);
        DeleteKeepsIncreasing(rows, id, uid);
        SetTable(k, DeleteOwned(rows, id, uid), Next(k));
        r := Success(());
      case _ => r := NotAuthenticated;
    }

    /** `PUT /api/<kind>/<id>`: overwrite the written columns of the session
        user's row with that id; 500 and no change when the title is missing,
        or null while such a row exists. */
    method Put(k: Kind, session: Option<int>, id: int, data: Payload) returns (r: Reply<()>)
      requires Valid()
      modifies this
      ensures Valid()
      ensures session.None? ==> r == NotAuthenticated && unchanged(this)
      ensures session.Some? && PutRows(k, old(Table(k)), id, session.value, data).None? ==>
        r == ServerError && unchanged(this)
      ensures session.Some? && PutRows(k, old(Table(k)), id, session.value, data).Some? ==>
        && r == Success(())
        && Table(k) == PutRows(k, old(Table(k)), id, session.value, data).value
        && Next(k) == old(Next(k))
        && (forall k' :: k' != k ==> Table(k') == old(Table(k')) && Next(k') == old(Next(k')))
        && users == old(users) && nextUser == old(nextUser)
    {
      match CheckAuth(session)
      case Success(uid) =>
        var rows := Table(k);
        match PutRows(k, rows, id, uid, data) {
          case None => r := ServerError;
          case Some(updated) =>
            PutKeepsValid(k, rows, id, uid, data, Next(k), nextUser);
            SetTable(k, updated, Next(k));
            r := Success(());
        }
      case _ => r := NotAuthenticated;
    }

    /** `POST /api/tasks/<id>/toggle`: read the row's `completed`, then write
        its negation. Flips exactly that row; succeeds even when there is no
        such row. */
    method Toggle(session: Option<int>, id: int) returns (r: Reply<()>)
      requires Valid()
      modifies this
      ensures Valid()
      ensures session.None? ==> r == NotAuthenticated && unchanged(this)
      ensures session.Some? ==>
        && r == Success(())
        && tasks == FlipOwned(old(tasks), id, session.value)
        && notes == old(notes) && goals == old(goals) && users == old(users)
        && nextTask == old(nextTask) && nextNote == old(nextNote) && nextGoal == old(nextGoal)
        && nextUser == old(nextUser)
    {
      match CheckAuth(session)
      case Success(uid) =>
        var task := FindOwned(tasks, id, uid);
        if task.Some? {
          ReadThenWriteFlips(tasks, id, uid);
          FlipKeepsValid(tasks, id, uid, nextTask, nextUser);
          tasks := UpdateOwned(tasks, id, uid, SetCompleted(!task.value.completed));
        } else {
          FlipMissing(tasks, id, uid);
        }
        r := Success(());
      case _ => r := NotAuthenticated;
    }

    /** `create_default_content`: one INSERT per default entry, tasks, then
        notes, then goals, each row taking the next id of its table; the
        INSERTs join the open transaction, committed as one. `dates` holds one
        target date per default goal. */
    method CreateDefaultContent(uid: int, dates: seq<string>)
      requires Valid() && |dates| == |defaults.goals|
      requires 0 < uid < nextUser
      modifies this
      ensures Valid()
      ensures tasks == old(tasks) + SeedTaskRows(uid, old(nextTask), defaults.tasks)
      ensures notes == old(notes) + SeedNoteRows(uid, old(nextNote), defaults.notes)
      ensures goals == old(goals) + SeedGoalRows(uid, old(nextGoal), defaults.goals, dates)
      ensures nextTask == old(nextTask) + |defaults.tasks|
      ensures nextNote == old(nextNote) + |defaults.notes|
      ensures nextGoal == old(nextGoal) + |defaults.goals|
      ensures users == old(users) && nextUser == old(nextUser)
    {
      var t, nt := InsertSeedTasks(tasks, nextTask, uid, defaults.tasks);
      var n, nn := InsertSeedNotes(notes, nextNote, uid, defaults.notes);
      var g, ng := InsertSeedGoals(goals, nextGoal, uid, defaults.goals, dates);
      SeedsKeepValid(tasks, nextTask, notes, nextNote, goals, nextGoal, uid, defaults, dates);
      SeedsKeepOwners(tasks, nextTask, notes, nextNote, goals, nextGoal, uid, nextUser, defaults, dates);
      tasks, nextTask := t, nt;
      notes, nextNote := n, nn;
      goals, nextGoal := g, ng;
    }

    /** `signup` (POST): the form checks, then the user INSERT, which fails
        on a taken username with nothing written, then the seeding; all in
        one transaction. `dates` holds one target date per default goal. */
    method Signup(username: string, password: string, email: string, dates: seq<string>)
      returns (r: SignupResult)
      requires Valid() && |dates| == |defaults.goals|
      modifies this
      ensures Valid()
      ensures r == Incomplete <==> username == "" || password == ""
      ensures r == BadEmail <==>
        username != "" && password != "" && email != "" && !PatternAccepts(email)
      ensures r == UsernameTaken <==>
        CheckForm(username, password, email) == Acceptable && NameInUse(old(users), username)
      ensures !r.Created? ==> unchanged(this)
      ensures r.Created? ==>
        && r.userId == old(nextUser)
        && users == old(users) + [UserRow(r.userId, username, Sha256(password), email, "#ff99c8")]
        && nextUser == old(nextUser) + 1
        && tasks == old(tasks) + SeedTaskRows(r.userId, old(nextTask), defaults.tasks)
        && notes == old(notes) + SeedNoteRows(r.userId, old(nextNote), defaults.notes)
        && goals == old(goals) + SeedGoalRows(r.userId, old(nextGoal), defaults.goals, dates)
        && nextTask == old(nextTask) + |defaults.tasks|
        && nextNote == old(nextNote) + |defaults.notes|
        && nextGoal == old(nextGoal) + |defaults.goals|
      ensures r.Created? ==>
        && OwnedBy(tasks, r.userId) == SeedTaskRows(r.userId, old(nextTask), defaults.tasks)
        && OwnedBy(notes, r.userId) == SeedNoteRows(r.userId, old(nextNote), defaults.notes)
        && OwnedBy(goals, r.userId) == SeedGoalRows(r.userId, old(nextGoal), defaults.goals, dates)
    {
      match CheckForm(username, password, email)
      case MissingFields => r := Incomplete;
      case InvalidEmail => r := BadEmail;
      case Acceptable =>
        if exists u :: u in users && u.username == username {
          r := UsernameTaken;
        } else {
          var uid := Register(username, password, email, dates);
          r := Created(uid);
        }
    }

    /** The accepted branch of `signup`: the user INSERT, taking the next id
        and the default profile color, then `create_default_content` for the
        new id. The new user owns exactly the seeded rows. */
    method Register(username: string, password: string, email: string, dates: seq<string>)
      returns (uid: int)
      requires Valid() && |dates| == |defaults.goals| && !NameInUse(users, username)
      modifies this
      ensures Valid()
      ensures uid == old(nextUser)
      ensures users == old(users) + [UserRow(uid, username, Sha256(password), email, "#ff99c8")]
      ensures nextUser == old(nextUser) + 1
      ensures tasks == old(tasks) + SeedTaskRows(uid, old(nextTask), defaults.tasks)
      ensures notes == old(notes) + SeedNoteRows(uid, old(nextNote), defaults.notes)
      ensures goals == old(goals) + SeedGoalRows(uid, old(nextGoal), defaults.goals, dates)
      ensures nextTask == old(nextTask) + |defaults.tasks|
      ensures nextNote == old(nextNote) + |defaults.notes|
      ensures nextGoal == old(nextGoal) + |defaults.goals|
      ensures OwnedBy(tasks, uid) == SeedTaskRows(uid, old(nextTask), defaults.tasks)
      ensures OwnedBy(notes, uid) == SeedNoteRows(uid, old(nextNote), defaults.notes)
      ensures OwnedBy(goals, uid) == SeedGoalRows(uid, old(nextGoal), defaults.goals, dates)
    {
      uid := nextUser;
      SignupSeedsNewUser(tasks, notes, goals, uid, nextTask, nextNote, nextGoal, defaults, dates);
      AddUser(UserRow(uid, username, Sha256(password), email, "#ff99c8"));
      CreateDefaultContent(uid, dates);
    }

    /** `INSERT INTO users`: the row takes the counter's id, which advances. */
    method AddUser(user: UserRow)
      requires Valid() && user.id == nextUser && !NameInUse(users, user.username)
      modifies this`users, this`nextUser
      ensures Valid()
      ensures users == old(users) + [user] && nextUser == old(nextUser) + 1
    {
      AddUserKeepsValid(users, nextUser, user);
      OwnersBelowGrow(tasks, nextUser);
      OwnersBelowGrow(notes, nextUser);
      OwnersBelowGrow(goals, nextUser);
      users := users + [user];
      nextUser := nextUser + 1;
    }
  }

  // ---------------------------------------------------------------------------
  // The three loops of create_default_content, on the open transaction
  // ---------------------------------------------------------------------------

  /** `for title, desc, priority, category in defaults['tasks']`: one INSERT
      per entry, each taking the next id. */
  method InsertSeedTasks(rows: seq<Row>, next: int, uid: int, es: seq<SeedTask>)
    returns (rows': seq<Row>, next': int)
    ensures rows' == rows + SeedTaskRows(uid, next, es) && next' == next + |es|
  {
    ghost var seeds := SeedTaskRows(uid, next, es);
    rows', next' := rows, next;
    for i := 0 to |es|
      invariant rows' == rows + seeds[..i] && next' == next + i
    {
      rows' := rows' + [TaskSeedRow(uid, next', es[i])];
      next' := next' + 1;
      assert seeds[..i + 1] == seeds[..i] + [seeds[i]];
    }
    assert seeds[..|es|] == seeds;
  }

  /** `for title, content, category, color in defaults['notes']`. */
  method InsertSeedNotes(rows: seq<Row>, next: int, uid: int, es: seq<SeedNote>)
    returns (rows': seq<Row>, next': int)
    ensures rows' == rows + SeedNoteRows(uid, next, es) && next' == next + |es|
  {
    ghost var seeds := SeedNoteRows(uid, next, es);
    rows', next' := rows, next;
    for i := 0 to |es|
      invariant rows' == rows + seeds[..i] && next' == next + i
    {
      rows' := rows' + [NoteSeedRow(uid, next', es[i])];
      next' := next' + 1;
      assert seeds[..i + 1] == seeds[..i] + [seeds[i]];
    }
    assert seeds[..|es|] == seeds;
  }

  /** `for title, desc, target_date in defaults['goals']`. */
  method InsertSeedGoals(rows: seq<Row>, next: int, uid: int, es: seq<SeedGoal>, dates: seq<string>)
    returns (rows': seq<Row>, next': int)
    requires |dates| == |es|
    ensures rows' == rows + SeedGoalRows(uid, next, es, dates) && next' == next + |es|
  {
    ghost var seeds := SeedGoalRows(uid, next, es, dates);
    rows', next' := rows, next;
    for i := 0 to |es|
      invariant rows' == rows + seeds[..i] && next' == next + i
    {
      rows' := rows' + [GoalSeedRow(uid, next', es[i], dates[i])];
      next' := next' + 1;
      assert seeds[..i + 1] == seeds[..i] + [seeds[i]];
    }
    assert seeds[..|es|] == seeds;
  }

  /** Appending rows of the table's kind with non-null titles and the ids
      `next`, `next + 1`, … keeps the table's constraints. */
  lemma {:induction false} AppendRunKeepsValid(rows: seq<Row>, k: Kind, next: int, run: seq<Row>)
    requires TableValid(rows, k, next)
    decreases |run|
    requires forall i :: 0 <= i < |run| ==>
      TableOf(run[i]) == k && run[i].title != NullV && run[i].id == next + i
    ensures TableValid(rows + run, k, next + |run|)
  {
    if run == [] {
      assert rows + run == rows;
    } else {
      AppendKeepsValid(rows, k, next, run[0]);
      AppendRunKeepsValid(rows + [run[0]], k, next + 1, run[1..]);
      assert rows + run == (rows + [run[0]]) + run[1..];
    }
  }

  /** Seeding keeps every table's constraints, with each counter advanced by
      the number of rows it handed out. */
  lemma SeedsKeepValid(tasks: seq<Row>, nextTask: int, notes: seq<Row>, nextNote: int,
                       goals: seq<Row>, nextGoal: int, uid: int, d: Defaults, dates: seq<string>)
    requires TableValid(tasks, Tasks, nextTask) && TableValid(notes, Notes, nextNote)
    requires TableValid(goals, Goals, nextGoal) && |dates| == |d.goals|
    ensures TableValid(tasks + SeedTaskRows(uid, nextTask, d.tasks), Tasks, nextTask + |d.tasks|)
    ensures TableValid(notes + SeedNoteRows(uid, nextNote, d.notes), Notes, nextNote + |d.notes|)
    ensures TableValid(goals + SeedGoalRows(uid, nextGoal, d.goals, dates), Goals, nextGoal + |d.goals|)
  {
    AppendRunKeepsValid(tasks, Tasks, nextTask, SeedTaskRows(uid, nextTask, d.tasks));
    AppendRunKeepsValid(notes, Notes, nextNote, SeedNoteRows(uid, nextNote, d.notes));
    AppendRunKeepsValid(goals, Goals, nextGoal, SeedGoalRows(uid, nextGoal, d.goals, dates));
  }

  /** A successful PUT keeps the table's constraints: ids do not move, and a
      null title only gets through when no row is written. */
  lemma PutKeepsValid(k: Kind, rows: seq<Row>, id: int, uid: int, data: Payload, next: int,
                      nextUser: int)
    requires TableValid(rows, k, next) && OwnersBelow(rows, nextUser)
    requires PutRows(k, rows, id, uid, data).Some?
    ensures TableValid(PutRows(k, rows, id, uid, data).value, k, next)
    ensures OwnersBelow(PutRows(k, rows, id, uid, data).value, nextUser)
  {
    var r := PutRows(k, rows, id, uid, data).value;
    forall i | 0 <= i < |r|
      ensures TableOf(r[i]) == k && r[i].title != NullV && 0 < r[i].id < next
      ensures 0 < r[i].userId < nextUser
    {
      assert rows[i] in rows;
      if Owned(rows[i], id, uid) {
        assert FindOwned(rows, id, uid).Some?;
      }
    }
  }

  /** Appending a row with the counter's id keeps the table's constraints
      with the counter advanced. */
  lemma AppendKeepsValid(rows: seq<Row>, k: Kind, next: int, row: Row)
    requires TableValid(rows, k, next)
    requires TableOf(row) == k && row.title != NullV && row.id == next
    ensures TableValid(rows + [row], k, next + 1)
  {
    var r := rows + [row];
    forall i, j | 0 <= i < j < |r| ensures r[i].id < r[j].id {
      assert r[i] in rows;
      if j < |rows| {
        assert r[j] == rows[j];
      }
    }
  }

  /** A row written for a registered user keeps every owner below the
      users counter. */
  lemma AppendKeepsOwners(rows: seq<Row>, row: Row, users: seq<UserRow>, nextUser: int)
    requires OwnersBelow(rows, nextUser) && UsersValid(users, nextUser)
    requires Registered(users, row.userId)
    ensures OwnersBelow(rows + [row], nextUser)
  {
  }

  /** Handing out one more user id keeps every owner below the counter. */
  lemma OwnersBelowGrow(rows: seq<Row>, nextUser: int)
    requires OwnersBelow(rows, nextUser)
    ensures OwnersBelow(rows, nextUser + 1)
  {
  }

  /** Seeding for a user below the counter keeps every owner below it. */
  lemma SeedsKeepOwners(tasks: seq<Row>, nextTask: int, notes: seq<Row>, nextNote: int,
                        goals: seq<Row>, nextGoal: int, uid: int, nextUser: int,
                        d: Defaults, dates: seq<string>)
    requires OwnersBelow(tasks, nextUser) && OwnersBelow(notes, nextUser)
    requires OwnersBelow(goals, nextUser) && |dates| == |d.goals| && 0 < uid < nextUser
    ensures OwnersBelow(tasks + SeedTaskRows(uid, nextTask, d.tasks), nextUser)
    ensures OwnersBelow(notes + SeedNoteRows(uid, nextNote, d.notes), nextUser)
    ensures OwnersBelow(goals + SeedGoalRows(uid, nextGoal, d.goals, dates), nextUser)
  {
    SeedsBelongToUser(uid, nextTask, nextNote, nextGoal, d, dates);
  }

  /** Adding a user with the counter's id and an unused name keeps the
      users table's constraints with the counter advanced. */
  lemma AddUserKeepsValid(users: seq<UserRow>, next: int, user: UserRow)
    requires UsersValid(users, next) && user.id == next && 0 < next
    requires !NameInUse(users, user.username)
    ensures UsersValid(users + [user], next + 1)
  {
    var r := users + [user];
    forall i, j | 0 <= i < j < |r| ensures r[i].id < r[j].id && r[i].username != r[j].username {
      assert r[i] in users;
      if j < |users| {
        assert r[j] == users[j];
      }
    }
  }

  /** Toggling keeps the tasks table's constraints. */
  lemma FlipKeepsValid(rows: seq<Row>, id: int, uid: int, next: int, nextUser: int)
    requires TableValid(rows, Tasks, next) && OwnersBelow(rows, nextUser)
    ensures TableValid(FlipOwned(rows, id, uid), Tasks, next)
    ensures OwnersBelow(FlipOwned(rows, id, uid), nextUser)
  {
    var r := FlipOwned(rows, id, uid);
    forall x | x in r
      ensures TableOf(x) == Tasks && x.title != NullV && 0 < x.id < next
      ensures 0 < x.userId < nextUser
    {
      var i :| 0 <= i < |r| && r[i] == x;
      assert rows[i] in rows;
    }
  }

  /** A new account owns exactly its seeded rows in every table, one per
      default entry: every earlier row belongs to a user registered before
      it. */
  lemma SignupSeedsNewUser(tasks: seq<Row>, notes: seq<Row>, goals: seq<Row>, uid: int,
                           t: int, n: int, g: int, d: Defaults, dates: seq<string>)
    requires |dates| == |d.goals|
    requires OwnersBelow(tasks, uid) && OwnersBelow(notes, uid) && OwnersBelow(goals, uid)
    ensures OwnedBy(tasks + SeedTaskRows(uid, t, d.tasks), uid) == SeedTaskRows(uid, t, d.tasks)
    ensures OwnedBy(notes + SeedNoteRows(uid, n, d.notes), uid) == SeedNoteRows(uid, n, d.notes)
    ensures OwnedBy(goals + SeedGoalRows(uid, g, d.goals, dates), uid) ==
      SeedGoalRows(uid, g, d.goals, dates)
  {
    OwnedAfterSeeding(tasks, SeedTaskRows(uid, t, d.tasks), uid);
    OwnedAfterSeeding(notes, SeedNoteRows(uid, n, d.notes), uid);
    OwnedAfterSeeding(goals, SeedGoalRows(uid, g, d.goals, dates), uid);
  }

  /** Rows of earlier users followed by rows of `uid`: listing for `uid`
      gives exactly the latter. */
  lemma OwnedAfterSeeding(rows: seq<Row>, seeds: seq<Row>, uid: int)
    requires OwnersBelow(rows, uid)
    requires forall x :: x in seeds ==> x.userId == uid
    ensures OwnedBy(rows + seeds, uid) == seeds
  {
    OwnedByAppend(rows, seeds, uid);
    NoneOwned(rows, uid);
    AllOwned(seeds, uid);
  }

  /** Listing a user's rows from rows that all belong to earlier users
      gives nothing. */
  lemma {:induction false} NoneOwned(rows: seq<Row>, uid: int)
    requires OwnersBelow(rows, uid)
    ensures OwnedBy(rows, uid) == []
  {
    if rows != [] {
      assert forall x :: x in rows[1..] ==> x in rows;
      NoneOwned(rows[1..], uid);
    }
  }
}
