/** The visit and click counters kept in one JSON file, and the image upload that stores
    a file under a timestamped, whitespace-free name (app/actions/analytics.ts).
    Reading and writing the file, `JSON.parse`/`JSON.stringify`, `Math.random()` and
    `Date.now()` are outside the model: the file's content is an optional record (absent
    when the file is missing or does not parse), the random draw and the clock are
    parameters, and so is whether the write succeeds. */
module Analytics {
  import opened Wrappers
  import Text

  /** The record stored in the analytics file. `recentActivity` is carried along
      verbatim and never read. */
  datatype AnalyticsData = AnalyticsData(
    pageViews: int,
    uniqueVisitors: int,
    ctaClicks: int,
    projectClicks: int,
    contactClicks: int,
    recentActivity: seq<string>)

  /** The argument of `incrementClick`. */
  datatype ClickKind = Cta | Project | Contact

  /** What `getAnalytics` falls back to when the file is missing or corrupt. */
  const Defaults := AnalyticsData(0, 0, 0, 0, 0, [])

  /** What `getAnalytics` returns for a given file content. */
  function ReadStore(file: Option<AnalyticsData>): AnalyticsData {
    file.GetOr(Defaults)
  }

  /** The record `incrementPageView` writes back: one more page view, and one more
      unique visitor when the random draw exceeds 0.8 (`unique`). */
  function PageViewed(d: AnalyticsData, unique: bool): AnalyticsData {
    d.(pageViews := d.pageViews + 1,
       uniqueVisitors := d.uniqueVisitors + if unique then 1 else 0)
  }

  /** The record `incrementClick` writes back. */
  function Clicked(d: AnalyticsData, kind: ClickKind): AnalyticsData {
    match kind
    case Cta => d.(ctaClicks := d.ctaClicks + 1)
    case Project => d.(projectClicks := d.projectClicks + 1)
    case Contact => d.(contactClicks := d.contactClicks + 1)
  }

  /** One call of an increment action, with the outcome of its file write. */
  datatype Hit =
    | PageView(unique: bool, written: bool)
    | Click(kind: ClickKind, written: bool)

  /** The file content after one increment: a failed write is swallowed and leaves the
      file as it was. */
  function Apply(file: Option<AnalyticsData>, h: Hit): Option<AnalyticsData> {
    if !h.written then file
    else match h
      case PageView(unique, _) => Some(PageViewed(ReadStore(file), unique))
      case Click(kind, _) => Some(Clicked(ReadStore(file), kind))
  }

  /** The file content after a sequence of increments, one after the other. */
  function Replay(file: Option<AnalyticsData>, hits: seq<Hit>): Option<AnalyticsData>
    decreases |hits|
  {
    if hits == [] then file else Replay(Apply(file, hits[0]), hits[1..])
  }

  /** Counters that increments alone can produce: none negative, and never more unique
      visitors than page views. A missing file reads as the default, which qualifies. */
  predicate Consistent(file: Option<AnalyticsData>) {
    var d := ReadStore(file);
    0 <= d.uniqueVisitors <= d.pageViews && d.ctaClicks >= 0 && d.projectClicks >= 0
    && d.contactClicks >= 0
  }

  /** `a` is `b` with every counter at least as large and the same `recentActivity`. */
  predicate Grown(a: AnalyticsData, b: AnalyticsData) {
    && a.pageViews >= b.pageViews && a.uniqueVisitors >= b.uniqueVisitors
    && a.ctaClicks >= b.ctaClicks && a.projectClicks >= b.projectClicks
    && a.contactClicks >= b.contactClicks && a.recentActivity == b.recentActivity
  }

  /** A missing or corrupt file reads as five zero counters and no recent activity. */
  lemma MissingFileReadsAsZero()
    ensures var d := ReadStore(None);
      && d.pageViews == 0 && d.uniqueVisitors == 0 && d.ctaClicks == 0
      && d.projectClicks == 0 && d.contactClicks == 0 && d.recentActivity == []
  {
  }

  /** `incrementClick(kind)` raises exactly the counter named by `kind`, by one. */
  lemma ClickRaisesOneCounter(d: AnalyticsData, kind: ClickKind)
    ensures var r := Clicked(d, kind);
      && r.ctaClicks == d.ctaClicks + (if kind == Cta then 1 else 0)
      && r.projectClicks == d.projectClicks + (if kind == Project then 1 else 0)
      && r.contactClicks == d.contactClicks + (if kind == Contact then 1 else 0)
      && r.pageViews == d.pageViews && r.uniqueVisitors == d.uniqueVisitors
      && r.recentActivity == d.recentActivity
  {
  }

  /** `incrementPageView` adds one page view and zero or one unique visitor, and leaves
      the click counters and `recentActivity` alone. */
  lemma PageViewRaisesViews(d: AnalyticsData, unique: bool)
    ensures var r := PageViewed(d, unique);
      && r.pageViews == d.pageViews + 1
      && d.uniqueVisitors <= r.uniqueVisitors <= d.uniqueVisitors + 1
      && r.ctaClicks == d.ctaClicks && r.projectClicks == d.projectClicks
      && r.contactClicks == d.contactClicks && r.recentActivity == d.recentActivity
  {
  }

  /** No sequence of increments lowers a counter or touches `recentActivity`. */
  lemma {:induction false} ReplayGrows(file: Option<AnalyticsData>, hits: seq<Hit>)
    ensures Grown(ReadStore(Replay(file, hits)), ReadStore(file))
    decreases |hits|
  {
    if hits != [] {
      ReplayGrows(Apply(file, hits[0]), hits[1..]);
    }
  }

  /** Increments keep the counters consistent; in particular, starting from a missing
      file, unique visitors never exceed page views. */
  lemma {:induction false} ReplayConsistent(file: Option<AnalyticsData>, hits: seq<Hit>)
    requires Consistent(file)
    ensures Consistent(Replay(file, hits))
    decreases |hits|
  {
    if hits != [] {
      ReplayConsistent(Apply(file, hits[0]), hits[1..]);
    }
  }

  /** Against a missing or corrupt file, a successful increment stores the defaults plus
      that one increment. */
  lemma IncrementOnMissingFile(h: Hit)
    requires h.written
    ensures Apply(None, h) == Some(match h
      case PageView(unique, _) => AnalyticsData(1, if unique then 1 else 0, 0, 0, 0, [])
      case Click(kind, _) => AnalyticsData(0, 0, if kind == Cta then 1 else 0,
                               if kind == Project then 1 else 0,
                               if kind == Contact then 1 else 0, []))
  {
  }

  /** The analytics file: its content is `None` while it is missing or unparseable. */
  class AnalyticsFile {
    var content: Option<AnalyticsData>

    constructor (initial: Option<AnalyticsData>)
      ensures content == initial
    {
      content := initial;
    }

    /** `getAnalytics`: the stored record, or the defaults. */
    method GetAnalytics() returns (d: AnalyticsData)
      ensures content.Some? ==> d == content.value
      ensures content.None? ==>
        (&& d.pageViews == 0 && d.uniqueVisitors == 0 && d.ctaClicks == 0
         && d.projectClicks == 0 && d.contactClicks == 0 && d.recentActivity == [])
    {
      match content
      case Some(stored) => d := stored;
      case None => d := Defaults;
    }

    /** `incrementPageView`: read, add one view (and one unique visitor when the draw
        says so), write back; a failed write changes nothing. */
    method IncrementPageView(unique: bool, written: bool)
      modifies this
      ensures content == Apply(old(content), PageView(unique, written))
      ensures Consistent(old(content)) ==> Consistent(content)
    {
      var data := GetAnalytics();
      data := data.(pageViews := data.pageViews + 1);
      data := data.(uniqueVisitors := data.uniqueVisitors + if unique then 1 else 0);
      if written {
        content := Some(data);
      }
    }

    /** `incrementClick(kind)`: read, add one to the counter for `kind`, write back; a
        failed write changes nothing. */
    method IncrementClick(kind: ClickKind, written: bool)
      modifies this
      ensures content == Apply(old(content), Click(kind, written))
      ensures Consistent(old(content)) ==> Consistent(content)
    {
      var data := GetAnalytics();
      match kind {
        case Cta => data := data.(ctaClicks := data.ctaClicks + 1);
        case Project => data := data.(projectClicks := data.projectClicks + 1);
        case Contact => data := data.(contactClicks := data.contactClicks + 1);
      }
      if written {
        content := Some(data);
      }
    }
  }

  // --- uploads ---

  /** The decimal digits of `n`, as `${n}` prints a non-negative integer. */
  function Decimal(n: nat): (r: string)
    ensures |r| >= 1
    ensures forall i :: 0 <= i < |r| ==> '0' <= r[i] <= '9'
  {
    if n < 10 then [('0' as int + n) as char]
    else Decimal(n / 10) + [('0' as int + n % 10) as char]
  }

  /** The number a string of decimal digits denotes. */
  function DecimalValue(s: string): nat {
    if s == [] then 0
    else
      var d := s[|s| - 1] as int - '0' as int;
      DecimalValue(s[..|s| - 1]) * 10 + (if 0 <= d then d else 0)
  }

  /** The timestamp can be read back from its digits. */
  lemma {:induction false} DecimalRoundTrip(n: nat)
    ensures DecimalValue(Decimal(n)) == n
  {
    if n >= 10 {
      var r := Decimal(n);
      assert r[..|r| - 1] == Decimal(n / 10);
      DecimalRoundTrip(n / 10);
    }
  }

  /** `s.replace(/\s+/g, '-')`: every maximal run of whitespace becomes one `-`. */
  function DashSpaces(s: string): (r: string)
    ensures Text.NoSpace(r)
    ensures |r| <= |s|
    ensures Text.NoSpace(s) ==> r == s
    decreases |s|
  {
    if s == [] then []
    else if Text.IsSpace(s[0]) then
      var rest := Text.TrimStart(s);
      "-" + DashSpaces(rest)
    else [s[0]] + DashSpaces(s[1..])
  }

  /** A non-empty run of whitespace alone becomes a single `-`. */
  lemma DashSpacesOfRun(w: string)
    requires w != [] && forall i :: 0 <= i < |w| ==> Text.IsSpace(w[i])
    ensures DashSpaces(w) == "-"
  {
    RunThenWord(w, []);
    assert w + [] == w;
  }

  /** A whitespace run followed by text that does not start with whitespace is one `-`
      followed by that text's own replacement. */
  lemma RunThenWord(w: string, b: string)
    requires w != [] && forall i :: 0 <= i < |w| ==> Text.IsSpace(w[i])
    requires b == [] || !Text.IsSpace(b[0])
    ensures DashSpaces(w + b) == "-" + DashSpaces(b)
  {
    TrimStartRun(w, b);
  }

  lemma {:induction false} TrimStartRun(w: string, b: string)
    requires forall i :: 0 <= i < |w| ==> Text.IsSpace(w[i])
    requires b == [] || !Text.IsSpace(b[0])
    ensures Text.TrimStart(w + b) == b
  {
    if w == [] {
      assert w + b == b;
    } else {
      assert (w + b)[1..] == w[1..] + b;
      TrimStartRun(w[1..], b);
    }
  }

  /** The replacement works run by run: for a prefix `a` that does not end in
      whitespace, a whitespace run `w`, and a rest `b` that does not start with
      whitespace, the run becomes exactly one `-` between the two replaced parts. */
  lemma {:induction false} DashSpacesSplice(a: string, w: string, b: string)
    requires a == [] || !Text.IsSpace(a[|a| - 1])
    requires w != [] && forall i :: 0 <= i < |w| ==> Text.IsSpace(w[i])
    requires b == [] || !Text.IsSpace(b[0])
    ensures DashSpaces(a + w + b) == DashSpaces(a) + "-" + DashSpaces(b)
    decreases |a|
  {
    if a == [] {
      assert a + w + b == w + b;
      RunThenWord(w, b);
    } else if !Text.IsSpace(a[0]) {
      if |a| > 1 {
        assert a[1..][|a[1..]| - 1] == a[|a| - 1];
      }
      DashSpacesSplice(a[1..], w, b);
      SpliceAfterWordChar(a[0], a[1..], w, b);
      assert [a[0]] + a[1..] == a;
    } else {
      var t := Text.TrimStart(a);
      TrimStartKeepsTail(a, w + b);
      assert t[|t| - 1] == a[|a| - 1];
      DashSpacesSplice(t, w, b);
      SpliceAfterRun(a, w, b);
    }
  }

  /** The step of `DashSpacesSplice` when the prefix starts with an ordinary character
      `c`. */
  lemma SpliceAfterWordChar(c: char, a: string, w: string, b: string)
    requires !Text.IsSpace(c)
    requires DashSpaces(a + w + b) == DashSpaces(a) + "-" + DashSpaces(b)
    ensures DashSpaces([c] + a + w + b) == DashSpaces([c] + a) + "-" + DashSpaces(b)
  {
    KeepsWordChar(c, a + w + b);
    KeepsWordChar(c, a);
    calc {
      DashSpaces([c] + a + w + b);
      { Associative([c] + a, w, b); Associative([c], a, w + b); Associative(a, w, b); }
      DashSpaces([c] + (a + w + b));
      [c] + DashSpaces(a + w + b);
      [c] + (DashSpaces(a) + "-" + DashSpaces(b));
      { Associative([c], DashSpaces(a) + "-", DashSpaces(b)); Associative([c], DashSpaces(a), "-"); }
      ([c] + DashSpaces(a)) + "-" + DashSpaces(b);
      DashSpaces([c] + a) + "-" + DashSpaces(b);
    }
  }

  /** The step of `DashSpacesSplice` when `a` starts with whitespace. */
  lemma SpliceAfterRun(a: string, w: string, b: string)
    requires a != [] && Text.IsSpace(a[0])
    requires Text.TrimStart(a + (w + b)) == Text.TrimStart(a) + (w + b)
    requires var t := Text.TrimStart(a); DashSpaces(t + w + b) == DashSpaces(t) + "-" + DashSpaces(b)
    ensures DashSpaces(a + w + b) == DashSpaces(a) + "-" + DashSpaces(b)
  {
    var t := Text.TrimStart(a);
    RunAtFront(a + w + b);
    RunAtFront(a);
    calc {
      DashSpaces(a + w + b);
      "-" + DashSpaces(Text.TrimStart(a + w + b));
      { Associative(a, w, b); Associative(t, w, b); }
      "-" + DashSpaces(t + w + b);
      "-" + (DashSpaces(t) + "-" + DashSpaces(b));
      { Associative("-", DashSpaces(t) + "-", DashSpaces(b)); Associative("-", DashSpaces(t), "-"); }
      ("-" + DashSpaces(t)) + "-" + DashSpaces(b);
      DashSpaces(a) + "-" + DashSpaces(b);
    }
  }

  lemma Associative(x: string, y: string, z: string)
    ensures x + (y + z) == x + y + z
  {
  }

  lemma KeepsWordChar(c: char, rest: string)
    requires !Text.IsSpace(c)
    ensures DashSpaces([c] + rest) == [c] + DashSpaces(rest)
  {
    assert ([c] + rest)[1..] == rest;
  }

  lemma RunAtFront(s: string)
    requires s != [] && Text.IsSpace(s[0])
    ensures DashSpaces(s) == "-" + DashSpaces(Text.TrimStart(s))
  {
  }

  /** Trimming the front of a string that ends in non-whitespace never reaches what
      follows it. */
  lemma {:induction false} TrimStartKeepsTail(a: string, c: string)
    requires a != [] && !Text.IsSpace(a[|a| - 1])
    ensures Text.TrimStart(a + c) == Text.TrimStart(a) + c
    ensures Text.TrimStart(a) != []
  {
    if Text.IsSpace(a[0]) {
      assert |a| > 1;
      assert (a + c)[1..] == a[1..] + c;
      assert a[1..][|a[1..]| - 1] == a[|a| - 1];
      TrimStartKeepsTail(a[1..], c);
    }
  }

  /** Replacing whitespace runs a second time changes nothing. */
  lemma DashSpacesIdempotent(s: string)
    ensures DashSpaces(DashSpaces(s)) == DashSpaces(s)
  {
  }

  /** A form entry under the key `file`. */
  datatype FormEntry = FileEntry(name: string, bytes: seq<bv8>) | TextEntry(text: string)

  datatype UploadResult = Uploaded(url: string) | UploadFailed(error: string)

  /** The name the upload is stored under: the timestamp, `-`, and the original name
      with whitespace runs replaced. */
  function UploadFileName(now: nat, name: string): string {
    Decimal(now) + "-" + DashSpaces(name)
  }

  /** `uploadImage`: a missing entry, an empty text entry (falsy) and a non-empty text
      entry (which has no `arrayBuffer`) all fail, and so does a failed write; otherwise
      the result is the public url of the stored name. */
  function UploadImage(entry: Option<FormEntry>, now: nat, written: bool): (r: UploadResult)
    ensures r.UploadFailed? ==> r.error == "Failed to upload image"
    ensures r.Uploaded? <==> entry.Some? && entry.value.FileEntry? && written
    ensures r.Uploaded? ==> r.url == "/uploads/" + UploadFileName(now, entry.value.name)
  {
    match entry
    case Some(FileEntry(name, _)) =>
      if written then Uploaded("/uploads/" + UploadFileName(now, name))
      else UploadFailed("Failed to upload image")
    case _ => UploadFailed("Failed to upload image")
  }

  /** The stored name has no whitespace, and both the timestamp and the cleaned name can
      be read back from it. */
  lemma UploadFileNameParts(now: nat, name: string)
    ensures var f := UploadFileName(now, name); var k := |Decimal(now)|;
      && Text.NoSpace(f)
      && k < |f| && f[k] == '-' && DecimalValue(f[..k]) == now
      && f[k + 1..] == DashSpaces(name)
  {
    var f := UploadFileName(now, name);
    var k := |Decimal(now)|;
    assert f[..k] == Decimal(now);
    DecimalRoundTrip(now);
    assert forall i :: 0 <= i < k ==> f[i] == Decimal(now)[i];
  }
}
