/** The input checks of the signup form (app.py `signup`): both required
    fields non-empty, and a non-empty email matching
    `^[a-zA-Z0-9._%+-]+@[a-zA-Z0-9.-]+\.[a-zA-Z]{2,}$` under Python's
    `re.match`. */
module SignupRules {
  import opened Wire

  predicate Letter(c: char) { 'a' <= c <= 'z' || 'A' <= c <= 'Z' }
  predicate Digit(c: char) { '0' <= c <= '9' }

  /** `[a-zA-Z0-9._%+-]`, the characters of the part before the `@`. */
  predicate LocalChar(c: char) {
    Letter(c) || Digit(c) || c == '.' || c == '_' || c == '%' || c == '+' || c == '-'
  }

  /** `[a-zA-Z0-9.-]`, the characters of the domain before its last dot. */
  predicate DomainChar(c: char) { Letter(c) || Digit(c) || c == '.' || c == '-' }

  predicate All(s: string, p: char -> bool) {
    forall k :: 0 <= k < |s| ==> p(s[k])
  }

  // ---------------------------------------------------------------------------
  // What the pattern accepts
  // ---------------------------------------------------------------------------

  /** `e` splits at `a` (the `@`) and `j` (the `\.`) into the three runs of
      the pattern: local part, domain, and at least two letters. */
  predicate Split(e: string, a: int, j: int) {
    && 0 < a && a + 1 < j && j + 2 < |e|
    && e[a] == '@' && e[j] == '.'
    && All(e[..a], LocalChar)
    && All(e[a + 1..j], DomainChar)
    && All(e[j + 1..], Letter)
  }

  /** The pattern matches `e` from its first to its last character. */
  ghost predicate WholeMatch(e: string) {
    exists a, j :: Split(e, a, j)
  }

  /** `re.match` succeeds: the final `$` also matches just before one trailing
      line feed, so `e` matches whole or with one "\n" appended. */
  ghost predicate PatternAccepts(e: string) {
    WholeMatch(e) || (|e| > 0 && e[|e| - 1] == '\n' && WholeMatch(e[..|e| - 1]))
  }

  // ---------------------------------------------------------------------------
  // A direct check: split at the first '@' and the last '.' after it
  // ---------------------------------------------------------------------------

  function IndexOf(s: string, c: char): (r: Option<nat>)
    ensures r.Some? ==> r.value < |s| && s[r.value] == c && forall k :: 0 <= k < r.value ==> s[k] != c
    ensures r.None? ==> forall k :: 0 <= k < |s| ==> s[k] != c
  {
    if s == [] then None
    else if s[0] == c then Some(0)
    else match IndexOf(s[1..], c)
      case None => None
      case Some(i) => Some(i + 1)
  }

  function LastIndexOf(s: string, c: char): (r: Option<nat>)
    ensures r.Some? ==> r.value < |s| && s[r.value] == c && forall k :: r.value < k < |s| ==> s[k] != c
    ensures r.None? ==> forall k :: 0 <= k < |s| ==> s[k] != c
  {
    if s == [] then None
    else if s[|s| - 1] == c then Some(|s| - 1)
    else LastIndexOf(s[..|s| - 1], c)
  }

  /** The pattern matches all of `e`, decided by splitting at the first `@`
      and at the last `.` after it. */
  function MatchesWhole(e: string): (b: bool)
    ensures b <==> WholeMatch(e)
  {
    var b := match IndexOf(e, '@')
      case None => false
      case Some(a) =>
        match LastIndexOf(e[a + 1..], '.')
        case None => false
        case Some(j) => Split(e, a, a + 1 + j);
    MatchesWholeCorrect(e, b);
    b
  }

  lemma MatchesWholeCorrect(e: string, b: bool)
    requires b == match IndexOf(e, '@')
      case None => false
      case Some(a) =>
        match LastIndexOf(e[a + 1..], '.')
        case None => false
        case Some(j) => Split(e, a, a + 1 + j)
    ensures b <==> WholeMatch(e)
  {
    if WholeMatch(e) {
      var a, j :| Split(e, a, j);
      SplitAtFirstAt(e, a, j);
      SplitAtLastDot(e, a, j);
    }
  }

  /** In a split, the `@` is the first one: the local part has none. */
  lemma SplitAtFirstAt(e: string, a: int, j: int)
    requires Split(e, a, j)
    ensures IndexOf(e, '@') == Some(a)
  {
    forall k | 0 <= k < a ensures e[k] != '@' {
      assert LocalChar(e[..a][k]);
    }
  }

  /** In a split, the `.` is the last one: only letters follow it. */
  lemma SplitAtLastDot(e: string, a: int, j: int)
    requires Split(e, a, j)
    ensures LastIndexOf(e[a + 1..], '.') == Some(j - a - 1)
  {
    var d := e[a + 1..];
    assert d[j - a - 1] == '.';
    forall k | j - a - 1 < k < |d| ensures d[k] != '.' {
      assert Letter(e[j + 1..][k - (j - a)]);
    }
  }

  /** Whether `re.match(pattern, e)` succeeds. */
  function EmailMatches(e: string): (b: bool)
    ensures b <==> PatternAccepts(e)
  {
    MatchesWhole(e) || (|e| > 0 && e[|e| - 1] == '\n' && MatchesWhole(e[..|e| - 1]))
  }

  /** Addresses the pattern lets through: a two-letter top-level domain, one
      trailing line feed (matched by `$`), and a domain run that is only a dot. */
  lemma AcceptedEmails()
    ensures PatternAccepts("a@b.co")
    ensures PatternAccepts("a@b.co\n")
    ensures PatternAccepts("a@..co")
  {
    assert Split("a@b.co", 1, 3);
    assert "a@b.co\n"[..6] == "a@b.co";
    assert Split("a@..co", 1, 3);
  }

  /** Addresses the pattern refuses: a one-letter top-level domain, and an
      empty local part. */
  lemma RejectedEmails()
    ensures !PatternAccepts("a@b.c")
    ensures !PatternAccepts("@b.co")
  {
    assert !EmailMatches("a@b.c");
    assert !EmailMatches("@b.co");
  }

  // ---------------------------------------------------------------------------
  // The signup form checks
  // ---------------------------------------------------------------------------

  /** The verdict of the form checks that run before the INSERT. */
  datatype FormCheck = MissingFields | InvalidEmail | Acceptable

  /** `if not username or not password` and then `if email and not re.match(…)`. */
  function CheckForm(username: string, password: string, email: string): (r: FormCheck)
    ensures r == MissingFields <==> username == "" || password == ""
    ensures r == InvalidEmail <==>
      username != "" && password != "" && email != "" && !PatternAccepts(email)
    ensures r == Acceptable <==>
      username != "" && password != "" && (email == "" || PatternAccepts(email))
  {
    if username == "" || password == "" then MissingFields
    else if email != "" && !EmailMatches(email) then InvalidEmail
    else Acceptable
  }
}
