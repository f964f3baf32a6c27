/** The content calendar's post list (`getPosts`, app/actions/calendar.ts:16-125): the
    manual posts of the requested month, plus one post per dated project event and per
    dated task that no event already covers, sorted by date.
    The two database queries are inputs (`None` when a query fails), `new Date(s)` is
    the `parse` parameter and `new Date().toISOString()` is the `now` parameter. */
module Calendar {
  import opened Wrappers
  import Text
  import Sorting

  /** What `new Date(s)` gives for a string that parses: the time value in milliseconds
      and the year and 0-based month of that instant in UTC and in the server's zone. */
  datatype Instant = Instant(time: int, utcYear: int, utcMonth: int, localYear: int, localMonth: int)

  /** `new Date(s)`: `None` when the time value is NaN. */
  type Parser = string -> Option<Instant>

  /** A calendar post. `postType` is the source's `type`. */
  datatype Post = Post(
    id: string, client: string, postType: string, status: string,
    date: string, caption: string, createdAt: string)

  /** An entry of a project's `events`; an absent field is the empty string (both are
      falsy for the source's tests). */
  datatype Event = Event(id: string, title: string, eventType: string, date: string)

  /** An entry of a project's `tasks`; an absent field is the empty string. */
  datatype ProjectTask = ProjectTask(id: string, title: string, status: string, endDate: string)

  /** A row of the `projects` query; a missing or non-array `events`/`tasks` is empty. */
  datatype Project = Project(id: string, title: string, events: seq<Event>, tasks: seq<ProjectTask>)

  // --- the month filter ---

  /** The filter applies only when both `year` and `month` are given. */
  predicate Filtering(year: Option<int>, month: Option<int>) {
    year.Some? && month.Some?
  }

  /** An item survives the filter when its UTC (year, month) or, failing that, its local
      (year, month) is the requested one. */
  predicate Kept(at: Instant, year: Option<int>, month: Option<int>) {
    !Filtering(year, month)
    || (at.utcYear == year.value && at.utcMonth == month.value)
    || (at.localYear == year.value && at.localMonth == month.value)
  }

  // --- Date.UTC, for the manual posts' window ---

  /** Days from 1970-01-01 to the given proleptic Gregorian date (`month` 1..12). */
  function DaysFromCivil(year: int, month: int, day: int): int
    requires 1 <= month <= 12
  {
    var y := if month <= 2 then year - 1 else year;
    var era := y / 400;
    var yoe := y - era * 400;
    var mp := (month + 9) % 12;
    var doy := (153 * mp + 2) / 5 + day - 1;
    var doe := yoe * 365 + yoe / 4 - yoe / 100 + doy;
    era * 146097 + doe - 719468
  }

  /** `Date.UTC(year, month, day, hours, minutes, seconds)` before clipping: a month
      outside 0..11 carries into the year, day 0 is the last day of the month before,
      and years 0..99 mean 1900..1999. */
  function UtcTime(year: int, month: int, day: int, hours: int, minutes: int, seconds: int): int {
    var fullYear := if 0 <= year <= 99 then 1900 + year else year;
    var days := DaysFromCivil(fullYear + month / 12, month % 12 + 1, 1) + day - 1;
    days * 86400000 + hours * 3600000 + minutes * 60000 + seconds * 1000
  }

  /** Time values `toISOString` accepts (`TimeClip`); beyond them it throws. */
  predicate Representable(t: int) {
    -8640000000000000 <= t <= 8640000000000000
  }

  /** The bounds the posts query is narrowed to: from day 1 00:00:00 UTC of `month` to
      its last day 23:59:59 UTC; `None` when either bound cannot be printed, where the
      source throws a RangeError out of `getPosts`. */
  function MonthWindow(year: int, month: int): Option<(int, int)> {
    var start := UtcTime(year, month, 1, 0, 0, 0);
    var end := UtcTime(year, month + 1, 0, 23, 59, 59);
    if Representable(start) && Representable(end) then Some((start, end)) else None
  }

  /** The window ends one second before the next month starts. */
  lemma MonthWindowEndsBeforeNextMonth(year: int, month: int)
    requires MonthWindow(year, month).Some?
    ensures MonthWindow(year, month).value.0 == UtcTime(year, month, 1, 0, 0, 0)
    ensures MonthWindow(year, month).value.1 == UtcTime(year, month + 1, 1, 0, 0, 0) - 1000
  {
  }

  /** January 2026: from 2026-01-01T00:00:00Z to 2026-01-31T23:59:59Z. */
  lemma JanuaryWindow()
    ensures MonthWindow(2026, 0) == Some((1767225600000, 1769903999000))
  {
    assert DaysFromCivil(2026, 1, 1) == 20454 by {
      assert 2025 / 400 == 5;
      assert (1 + 9) % 12 == 10;
      assert (153 * 10 + 2) / 5 == 306;
      assert 25 / 4 == 6 && 25 / 100 == 0;
    }
    assert DaysFromCivil(2026, 2, 1) == 20485 by {
      assert 2025 / 400 == 5;
      assert (2 + 9) % 12 == 11;
      assert (153 * 11 + 2) / 5 == 337;
      assert 25 / 4 == 6 && 25 / 100 == 0;
    }
    assert 0 / 12 == 0 && 0 % 12 == 0;
    assert 1 / 12 == 0 && 1 % 12 == 1;
    assert UtcTime(2026, 0, 1, 0, 0, 0) == 20454 * 86400000;
    assert UtcTime(2026, 1, 0, 23, 59, 59) == 20484 * 86400000 + 86399000;
  }

  /** February of the leap year 2024 ends on the 29th. */
  lemma LeapFebruaryWindow()
    ensures MonthWindow(2024, 1) == Some((1706745600000, 1709251199000))
  {
    assert DaysFromCivil(2024, 2, 1) == 19754 by {
      assert 2023 / 400 == 5;
      assert (2 + 9) % 12 == 11;
      assert (153 * 11 + 2) / 5 == 337;
      assert 23 / 4 == 5 && 23 / 100 == 0;
    }
    assert DaysFromCivil(2024, 3, 1) == 19783 by {
      assert 2024 / 400 == 5;
      assert (3 + 9) % 12 == 0;
      assert (153 * 0 + 2) / 5 == 0;
      assert 24 / 4 == 6 && 24 / 100 == 0;
    }
    assert 1 / 12 == 0 && 1 % 12 == 1;
    assert 2 / 12 == 0 && 2 % 12 == 2;
    assert UtcTime(2024, 1, 1, 0, 0, 0) == 19754 * 86400000;
    assert UtcTime(2024, 2, 0, 23, 59, 59) == 19782 * 86400000 + 86399000;
  }

  /** December 2026: the end bound's month 12 carries into January 2027. */
  lemma DecemberWindow()
    ensures MonthWindow(2026, 11) == Some((1796083200000, 1798761599000))
  {
    assert DaysFromCivil(2026, 12, 1) == 20788 by {
      assert 2026 / 400 == 5;
      assert (12 + 9) % 12 == 9;
      assert (153 * 9 + 2) / 5 == 275;
      assert 26 / 4 == 6 && 26 / 100 == 0;
    }
    assert DaysFromCivil(2027, 1, 1) == 20819 by {
      assert 2026 / 400 == 5;
      assert (1 + 9) % 12 == 10;
      assert (153 * 10 + 2) / 5 == 306;
      assert 26 / 4 == 6 && 26 / 100 == 0;
    }
    assert 11 / 12 == 0 && 11 % 12 == 11;
    assert 12 / 12 == 1 && 12 % 12 == 0;
    assert UtcTime(2026, 11, 1, 0, 0, 0) == 20788 * 86400000;
    assert UtcTime(2026, 12, 0, 23, 59, 59) == 20818 * 86400000 + 86399000;
  }

  /** A two-digit year is read as 19xx: year 26 starts at 1926-01-01T00:00:00Z. */
  lemma TwoDigitYearWindow()
    ensures MonthWindow(26, 0).Some? && MonthWindow(26, 0).value.0 == -1388534400000
  {
    assert DaysFromCivil(1926, 1, 1) == -16071 by {
      assert 1925 / 400 == 4;
      assert (1 + 9) % 12 == 10;
      assert (153 * 10 + 2) / 5 == 306;
      assert 325 / 4 == 81 && 325 / 100 == 3;
    }
    assert DaysFromCivil(1926, 2, 1) == -16040 by {
      assert 1925 / 400 == 4;
      assert (2 + 9) % 12 == 11;
      assert (153 * 11 + 2) / 5 == 337;
      assert 325 / 4 == 81 && 325 / 100 == 3;
    }
    assert 0 / 12 == 0 && 0 % 12 == 0;
    assert 1 / 12 == 0 && 1 % 12 == 1;
    assert UtcTime(26, 0, 1, 0, 0, 0) == -16071 * 86400000;
    assert UtcTime(26, 1, 0, 23, 59, 59) == -16041 * 86400000 + 86399000;
  }

  // --- the posts query ---

  /** The time value the final sort compares. Every post this module sorts has a date
      that parses (see `GetPosts`), so the fallback 0 is never used. */
  function TimeOf(parse: Parser, p: Post): int {
    match parse(p.date)
    case Some(at) => at.time
    case None => 0
  }

  predicate AllDatesParse(parse: Parser, posts: seq<Post>) {
    forall k :: 0 <= k < |posts| ==> parse(posts[k].date).Some?
  }

  /** The sort key of `getPosts`: the time value of a post's date. */
  function ByTime(parse: Parser): Post -> int {
    (p: Post) => TimeOf(parse, p)
  }

  lemma AllDatesParseAppend(parse: Parser, a: seq<Post>, b: seq<Post>)
    requires AllDatesParse(parse, a) && AllDatesParse(parse, b)
    ensures AllDatesParse(parse, a + b)
  {
    forall k | 0 <= k < |a + b| ensures parse((a + b)[k].date).Some? {
      if k >= |a| {
        assert (a + b)[k] == b[k - |a|];
      }
    }
  }

  /** The manual posts: none when the query failed, and within the window when one is
      given (the query's `gte`/`lte`), in the order the query returns them. */
  function ManualPosts(rows: Option<seq<Post>>, window: Option<(int, int)>, parse: Parser): (r: seq<Post>)
    ensures rows.None? ==> r == []
    ensures forall p :: p in r ==> rows.Some? && p in rows.value
    ensures window.Some? ==> forall p :: p in r ==> window.value.0 <= TimeOf(parse, p) <= window.value.1
    ensures rows.Some? ==> forall p :: p in rows.value && InWindow(window, TimeOf(parse, p)) ==> p in r
    ensures rows.Some? ==> forall p :: multiset(r)[p] == (if InWindow(window, TimeOf(parse, p)) then multiset(rows.value)[p] else 0)
    ensures rows.Some? && window.None? ==> r == rows.value
    decreases if rows.Some? then |rows.value| else 0
  {
    if rows.None? || rows.value == [] then []
    else
      var last := rows.value[|rows.value| - 1];
      var init := ManualPosts(Some(rows.value[..|rows.value| - 1]), window, parse);
      assert rows.value == rows.value[..|rows.value| - 1] + [last];
      if InWindow(window, TimeOf(parse, last)) then init + [last] else init
  }

  predicate InWindow(window: Option<(int, int)>, t: int) {
    window.None? || window.value.0 <= t <= window.value.1
  }

  // --- posts generated from project events and tasks ---

  /** An event yields a post when its date is present, parses and passes the filter. */
  predicate EventAccepted(e: Event, parse: Parser, year: Option<int>, month: Option<int>) {
    e.date != "" && parse(e.date).Some? && Kept(parse(e.date).value, year, month)
  }

  function EventPost(p: Project, e: Event, now: string): Post {
    Post(if e.id != "" then e.id else p.id + "-" + e.title,
         p.title,
         if e.eventType != "" then e.eventType else "task",
         "agendado",
         e.date,
         e.title,
         now)
  }

  /** Some event of the project has a title containing the task's title. */
  predicate CoveredByEvent(p: Project, t: ProjectTask) {
    exists e :: e in p.events && Text.Includes(e.title, t.title)
  }

  /** A task yields a post when its end date is present, no event covers it, and the end
      date parses and passes the filter. */
  predicate TaskAccepted(p: Project, t: ProjectTask, parse: Parser, year: Option<int>, month: Option<int>) {
    t.endDate != "" && !CoveredByEvent(p, t) && parse(t.endDate).Some?
    && Kept(parse(t.endDate).value, year, month)
  }

  function TaskPost(p: Project, t: ProjectTask, now: string): Post {
    Post(if t.id != "" then t.id else p.id + "-" + t.title,
         p.title,
         "task",
         if t.status == "done" then "publicado" else "agendado",
         t.endDate,
         t.title,
         now)
  }

  /** The posts the events `es` of project `p` yield, in order. */
  function EventPosts(p: Project, es: seq<Event>, parse: Parser, year: Option<int>, month: Option<int>, now: string): seq<Post> {
    if es == [] then []
    else
      var e := es[|es| - 1];
      EventPosts(p, es[..|es| - 1], parse, year, month, now)
      + (if EventAccepted(e, parse, year, month) then [EventPost(p, e, now)] else [])
  }

  /** The posts the tasks `ts` of project `p` yield, in order. */
  function TaskPosts(p: Project, ts: seq<ProjectTask>, parse: Parser, year: Option<int>, month: Option<int>, now: string): seq<Post> {
    if ts == [] then []
    else
      var t := ts[|ts| - 1];
      TaskPosts(p, ts[..|ts| - 1], parse, year, month, now)
      + (if TaskAccepted(p, t, parse, year, month) then [TaskPost(p, t, now)] else [])
  }

  /** All generated posts: project by project, events before tasks. */
  function ProjectPosts(ps: seq<Project>, parse: Parser, year: Option<int>, month: Option<int>, now: string): seq<Post> {
    if ps == [] then []
    else
      var p := ps[|ps| - 1];
      ProjectPosts(ps[..|ps| - 1], parse, year, month, now)
      + EventPosts(p, p.events, parse, year, month, now)
      + TaskPosts(p, p.tasks, parse, year, month, now)
  }

  /** The generated posts; none when the projects query failed. */
  function GeneratedPosts(projects: Option<seq<Project>>, parse: Parser, year: Option<int>, month: Option<int>, now: string): seq<Post> {
    if projects.None? then [] else ProjectPosts(projects.value, parse, year, month, now)
  }

  /** `getPosts`. Returns `None` where the source throws (a window bound beyond the
      printable range); otherwise the manual and generated posts, stably sorted by the
      time value of their dates. */
  method GetPosts(
    year: Option<int>, month: Option<int>,
    postRows: Option<seq<Post>>, projects: Option<seq<Project>>,
    parse: Parser, now: string)
    returns (r: Option<seq<Post>>)
    requires postRows.Some? ==> AllDatesParse(parse, postRows.value)
    ensures r.None? <==> Filtering(year, month) && MonthWindow(year.value, month.value).None?
    ensures r.Some? ==>
      var window := if Filtering(year, month) then MonthWindow(year.value, month.value) else None;
      var all := ManualPosts(postRows, window, parse) + GeneratedPosts(projects, parse, year, month, now);
      && r.value == Sorting.SortBy(all, ByTime(parse))
      && AllDatesParse(parse, r.value)
  {
    var window: Option<(int, int)> := None;
    if year.Some? && month.Some? {
      window := MonthWindow(year.value, month.value);
      if window.None? {
        return None;
      }
    }
    var manual := ManualPosts(postRows, window, parse);

    var projectPosts: seq<Post> := [];
    if projects.Some? {
      projectPosts := CollectProjectPosts(projects.value, parse, year, month, now);
    }
    var all := manual + projectPosts;
    GeneratedDatesParse(if projects.Some? then projects.value else [], parse, year, month, now);
    ManualDatesParse(postRows, window, parse);
    AllDatesParseAppend(parse, manual, projectPosts);
    var sorted := Sorting.SortBy(all, ByTime(parse));
    SortedDatesParse(all, sorted, parse);
    r := Some(sorted);
  }

  /** The `projects.forEach` loop: each project's event posts, then its task posts. */
  method CollectProjectPosts(ps: seq<Project>, parse: Parser, year: Option<int>, month: Option<int>, now: string)
    returns (posts: seq<Post>)
    ensures posts == ProjectPosts(ps, parse, year, month, now)
  {
    posts := [];
    var i := 0;
    while i < |ps|
      invariant 0 <= i <= |ps|
      invariant posts == ProjectPosts(ps[..i], parse, year, month, now)
    {
      var p := ps[i];
      var fromEvents := CollectEventPosts(p, parse, year, month, now);
      var fromTasks := CollectTaskPosts(p, parse, year, month, now);
      posts := posts + fromEvents + fromTasks;
      assert ps[..i + 1][..i] == ps[..i];
      i := i + 1;
    }
    assert ps[..i] == ps;
  }

  lemma EventPostsStep(p: Project, es: seq<Event>, j: nat, parse: Parser, year: Option<int>, month: Option<int>, now: string)
    requires j < |es|
    ensures EventPosts(p, es[..j + 1], parse, year, month, now)
         == EventPosts(p, es[..j], parse, year, month, now)
            + (if EventAccepted(es[j], parse, year, month) then [EventPost(p, es[j], now)] else [])
  {
    assert es[..j + 1][..j] == es[..j];
  }

  lemma TaskPostsStep(p: Project, ts: seq<ProjectTask>, j: nat, parse: Parser, year: Option<int>, month: Option<int>, now: string)
    requires j < |ts|
    ensures TaskPosts(p, ts[..j + 1], parse, year, month, now)
         == TaskPosts(p, ts[..j], parse, year, month, now)
            + (if TaskAccepted(p, ts[j], parse, year, month) then [TaskPost(p, ts[j], now)] else [])
  {
    assert ts[..j + 1][..j] == ts[..j];
  }

  /** The `project.events.forEach` callback over all events of `p`. */
  method CollectEventPosts(p: Project, parse: Parser, year: Option<int>, month: Option<int>, now: string)
    returns (posts: seq<Post>)
    ensures posts == EventPosts(p, p.events, parse, year, month, now)
  {
    posts := [];
    var j := 0;
    while j < |p.events|
      invariant 0 <= j <= |p.events|
      invariant posts == EventPosts(p, p.events[..j], parse, year, month, now)
    {
      var e := p.events[j];
      EventPostsStep(p, p.events, j, parse, year, month, now);
      j := j + 1;
      if e.date == "" {
        continue;
      }
      var at := parse(e.date);
      if at.None? {
        continue;
      }
      if year.Some? && month.Some? {
        if at.value.utcYear != year.value || at.value.utcMonth != month.value {
          if at.value.localYear != year.value || at.value.localMonth != month.value {
            continue;
          }
        }
      }
      posts := posts + [EventPost(p, e, now)];
    }
    assert p.events[..j] == p.events;
  }

  /** The `project.tasks.forEach` callback over all tasks of `p`. */
  method CollectTaskPosts(p: Project, parse: Parser, year: Option<int>, month: Option<int>, now: string)
    returns (posts: seq<Post>)
    ensures posts == TaskPosts(p, p.tasks, parse, year, month, now)
  {
    posts := [];
    var j := 0;
    while j < |p.tasks|
      invariant 0 <= j <= |p.tasks|
      invariant posts == TaskPosts(p, p.tasks[..j], parse, year, month, now)
    {
      var t := p.tasks[j];
      TaskPostsStep(p, p.tasks, j, parse, year, month, now);
      j := j + 1;
      if t.endDate == "" {
        continue;
      }
      if CoveredByEvent(p, t) {
        continue;
      }
      var at := parse(t.endDate);
      if at.None? {
        continue;
      }
      if year.Some? && month.Some? {
        if at.value.utcYear != year.value || at.value.utcMonth != month.value {
          if at.value.localYear != year.value || at.value.localMonth != month.value {
            continue;
          }
        }
      }
      posts := posts + [TaskPost(p, t, now)];
    }
    assert p.tasks[..j] == p.tasks;
  }

  lemma ManualDatesParse(rows: Option<seq<Post>>, window: Option<(int, int)>, parse: Parser)
    requires rows.Some? ==> AllDatesParse(parse, rows.value)
    ensures AllDatesParse(parse, ManualPosts(rows, window, parse))
  {
    var r := ManualPosts(rows, window, parse);
    forall k | 0 <= k < |r| ensures parse(r[k].date).Some? {
      assert r[k] in r;
      var j :| 0 <= j < |rows.value| && rows.value[j] == r[k];
    }
  }

  lemma GeneratedDatesParse(ps: seq<Project>, parse: Parser, year: Option<int>, month: Option<int>, now: string)
    ensures AllDatesParse(parse, ProjectPosts(ps, parse, year, month, now))
  {
    var g := ProjectPosts(ps, parse, year, month, now);
    forall k | 0 <= k < |g| ensures parse(g[k].date).Some? {
      assert g[k] in g;
      GeneratedPostFields(ps, g[k], parse, year, month, now);
    }
  }

  lemma SortedDatesParse(all: seq<Post>, sorted: seq<Post>, parse: Parser)
    requires AllDatesParse(parse, all)
    requires multiset(sorted) == multiset(all)
    ensures AllDatesParse(parse, sorted)
  {
    forall k | 0 <= k < |sorted| ensures parse(sorted[k].date).Some? {
      assert sorted[k] in multiset(all);
      var j :| 0 <= j < |all| && all[j] == sorted[k];
    }
  }

  // --- what the generated posts are ---

  /** `post` is the post of an accepted event of `p`. */
  predicate EventOf(p: Project, post: Post, parse: Parser, year: Option<int>, month: Option<int>, now: string) {
    exists j :: 0 <= j < |p.events| && EventAccepted(p.events[j], parse, year, month)
      && post == EventPost(p, p.events[j], now)
  }

  /** `post` is the post of an accepted task of `p`. */
  predicate TaskOf(p: Project, post: Post, parse: Parser, year: Option<int>, month: Option<int>, now: string) {
    exists j :: 0 <= j < |p.tasks| && TaskAccepted(p, p.tasks[j], parse, year, month)
      && post == TaskPost(p, p.tasks[j], now)
  }

  predicate GeneratedBy(p: Project, post: Post, parse: Parser, year: Option<int>, month: Option<int>, now: string) {
    EventOf(p, post, parse, year, month, now) || TaskOf(p, post, parse, year, month, now)
  }

  lemma {:induction false} EventPostsMembers(p: Project, es: seq<Event>, post: Post, parse: Parser, year: Option<int>, month: Option<int>, now: string)
    ensures post in EventPosts(p, es, parse, year, month, now)
        <==> exists j :: 0 <= j < |es| && EventAccepted(es[j], parse, year, month) && post == EventPost(p, es[j], now)
  {
    if es != [] {
      var init := es[..|es| - 1];
      EventPostsMembers(p, init, post, parse, year, month, now);
      if exists j :: 0 <= j < |es| && EventAccepted(es[j], parse, year, month) && post == EventPost(p, es[j], now) {
        var j :| 0 <= j < |es| && EventAccepted(es[j], parse, year, month) && post == EventPost(p, es[j], now);
        if j < |es| - 1 { assert init[j] == es[j]; }
      }
      if exists j :: 0 <= j < |init| && EventAccepted(init[j], parse, year, month) && post == EventPost(p, init[j], now) {
        var j :| 0 <= j < |init| && EventAccepted(init[j], parse, year, month) && post == EventPost(p, init[j], now);
        assert es[j] == init[j];
      }
    }
  }

  lemma {:induction false} TaskPostsMembers(p: Project, ts: seq<ProjectTask>, post: Post, parse: Parser, year: Option<int>, month: Option<int>, now: string)
    ensures post in TaskPosts(p, ts, parse, year, month, now)
        <==> exists j :: 0 <= j < |ts| && TaskAccepted(p, ts[j], parse, year, month) && post == TaskPost(p, ts[j], now)
  {
    if ts != [] {
      var init := ts[..|ts| - 1];
      TaskPostsMembers(p, init, post, parse, year, month, now);
      if exists j :: 0 <= j < |ts| && TaskAccepted(p, ts[j], parse, year, month) && post == TaskPost(p, ts[j], now) {
        var j :| 0 <= j < |ts| && TaskAccepted(p, ts[j], parse, year, month) && post == TaskPost(p, ts[j], now);
        if j < |ts| - 1 { assert init[j] == ts[j]; }
      }
      if exists j :: 0 <= j < |init| && TaskAccepted(p, init[j], parse, year, month) && post == TaskPost(p, init[j], now) {
        var j :| 0 <= j < |init| && TaskAccepted(p, init[j], parse, year, month) && post == TaskPost(p, init[j], now);
        assert ts[j] == init[j];
      }
    }
  }

  /** The posts of the last project come after those of the others. */
  lemma ProjectPostsLast(ps: seq<Project>, post: Post, parse: Parser, year: Option<int>, month: Option<int>, now: string)
    requires ps != []
    ensures post in ProjectPosts(ps, parse, year, month, now)
        <==> post in ProjectPosts(ps[..|ps| - 1], parse, year, month, now)
             || GeneratedBy(ps[|ps| - 1], post, parse, year, month, now)
  {
    var p := ps[|ps| - 1];
    EventPostsMembers(p, p.events, post, parse, year, month, now);
    TaskPostsMembers(p, p.tasks, post, parse, year, month, now);
  }

  /** The generated posts are exactly the posts of accepted events and accepted tasks
      of the projects. */
  lemma {:induction false} GeneratedPostOrigin(ps: seq<Project>, post: Post, parse: Parser, year: Option<int>, month: Option<int>, now: string)
    ensures post in ProjectPosts(ps, parse, year, month, now)
        <==> exists k :: 0 <= k < |ps| && GeneratedBy(ps[k], post, parse, year, month, now)
  {
    if ps != [] {
      var init := ps[..|ps| - 1];
      GeneratedPostOrigin(init, post, parse, year, month, now);
      ProjectPostsLast(ps, post, parse, year, month, now);
      if exists k :: 0 <= k < |ps| && GeneratedBy(ps[k], post, parse, year, month, now) {
        var k :| 0 <= k < |ps| && GeneratedBy(ps[k], post, parse, year, month, now);
        if k < |ps| - 1 { assert init[k] == ps[k]; }
      }
      if exists k :: 0 <= k < |init| && GeneratedBy(init[k], post, parse, year, month, now) {
        var k :| 0 <= k < |init| && GeneratedBy(init[k], post, parse, year, month, now);
        assert ps[k] == init[k];
      }
    }
  }

  /** Every generated post has a present date that parses and passes the month filter,
      the project's title as client, the item's title as caption, and `now` as its
      creation time; event posts are `"agendado"`, task posts are of type `"task"` and
      `"publicado"` exactly when the task is done; a missing id becomes
      `projectId-title`. */
  lemma GeneratedPostFields(ps: seq<Project>, post: Post, parse: Parser, year: Option<int>, month: Option<int>, now: string)
    requires post in ProjectPosts(ps, parse, year, month, now)
    ensures post.date != "" && parse(post.date).Some? && Kept(parse(post.date).value, year, month)
    ensures post.createdAt == now
    ensures exists k :: 0 <= k < |ps| && post.client == ps[k].title && FieldsFrom(ps[k], post)
  {
    GeneratedPostOrigin(ps, post, parse, year, month, now);
    var k :| 0 <= k < |ps| && GeneratedBy(ps[k], post, parse, year, month, now);
    var p := ps[k];
    if EventOf(p, post, parse, year, month, now) {
      var j :| 0 <= j < |p.events| && EventAccepted(p.events[j], parse, year, month)
        && post == EventPost(p, p.events[j], now);
      EventPostFrom(p, p.events[j], post, now);
    } else {
      var j :| 0 <= j < |p.tasks| && TaskAccepted(p, p.tasks[j], parse, year, month)
        && post == TaskPost(p, p.tasks[j], now);
      TaskPostFrom(p, p.tasks[j], post, now);
    }
  }

  lemma EventPostFrom(p: Project, e: Event, post: Post, now: string)
    requires e in p.events && post == EventPost(p, e, now)
    ensures FieldsFrom(p, post)
  {
  }

  lemma TaskPostFrom(p: Project, t: ProjectTask, post: Post, now: string)
    requires t in p.tasks && !CoveredByEvent(p, t) && post == TaskPost(p, t, now)
    ensures FieldsFrom(p, post)
  {
  }

  /** The caption, type, status and id of `post` come from an event or an uncovered task
      of `p` by the source's rules. */
  predicate FieldsFrom(p: Project, post: Post) {
    || (exists e :: e in p.events && post.caption == e.title && post.status == "agendado"
         && post.postType == (if e.eventType != "" then e.eventType else "task")
         && post.id == (if e.id != "" then e.id else p.id + "-" + e.title))
    || (exists t :: t in p.tasks && !CoveredByEvent(p, t) && post.caption == t.title
         && post.postType == "task" && (post.status == "publicado" <==> t.status == "done")
         && post.id == (if t.id != "" then t.id else p.id + "-" + t.title))
  }

  /** The result of `getPosts` is sorted by time value, holds exactly the manual and the
      generated posts (with multiplicity), and keeps the relative order of posts with the
      same time value. */
  lemma GetPostsOrder(all: seq<Post>, parse: Parser, t: int)
    ensures var r := Sorting.SortBy(all, ByTime(parse));
      && (forall i, j :: 0 <= i < j < |r| ==> TimeOf(parse, r[i]) <= TimeOf(parse, r[j]))
      && multiset(r) == multiset(all)
      && Sorting.WithKey(r, ByTime(parse), t) == Sorting.WithKey(all, ByTime(parse), t)
  {
    Sorting.SortByStable(all, ByTime(parse), t);
    var r := Sorting.SortBy(all, ByTime(parse));
    assert forall i, j :: 0 <= i < j < |r| ==> ByTime(parse)(r[i]) <= ByTime(parse)(r[j]);
  }
}
