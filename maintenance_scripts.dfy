/** The three maintenance scripts that talk to the `analytics` table: scripts/test-db.js
    and scripts/test-db.ts seed the row `main` when they find nothing, and
    scripts/reset-analytics.js overwrites the `data` of row `main` with zeros. Each
    first reads `.env.local` and stops when a connection variable is missing. The table
    is a map from row id to the row's `data`; whether each database call succeeds is a
    parameter, and the logging and the `site_content` query are left out. */
module MaintenanceScripts {
  import opened Wrappers
  import EnvFile

  /** The click maps only the reset record carries. */
  datatype ClickMaps = ClickMaps(
    serviceClicks: map<string, int>,
    projectDetailsClicks: map<string, int>,
    regionData: map<string, int>)

  /** The `data` column of an analytics row. */
  datatype RowData = RowData(
    pageViews: int,
    uniqueVisitors: int,
    ctaClicks: int,
    projectClicks: int,
    contactClicks: int,
    clickMaps: Option<ClickMaps>)

  type Rows = map<string, RowData>

  const MainId: string := "main"

  /** `initData` of the two test scripts: five zero counters and no maps. */
  const InitData: RowData := RowData(0, 0, 0, 0, 0, None)

  /** `emptyData` of the reset script: five zero counters and three empty maps. */
  const EmptyData: RowData := RowData(0, 0, 0, 0, 0, Some(ClickMaps(map[], map[], map[])))

  /** The table after scripts/test-db.js: the query for row `main` succeeds and finds
      nothing, and the insert succeeds; otherwise nothing changes. */
  function SeedIfMainAbsent(rows: Rows, queryOk: bool, insertOk: bool): Rows {
    if queryOk && MainId !in rows && insertOk then rows[MainId := InitData] else rows
  }

  /** The table after scripts/test-db.ts: the query for all rows succeeds and finds
      none, and the insert succeeds; otherwise nothing changes. */
  function SeedIfEmpty(rows: Rows, queryOk: bool, insertOk: bool): Rows {
    if queryOk && |rows| == 0 && insertOk then map[MainId := InitData] else rows
  }

  /** The table after scripts/reset-analytics.js: an update filtered on id `main`
      touches that row only, and none when it is missing. */
  function ResetMain(rows: Rows, updateOk: bool): Rows {
    if updateOk && MainId in rows then rows[MainId := EmptyData] else rows
  }

  /** The `analytics` table. */
  class AnalyticsTable {
    var rows: Rows

    constructor (initial: Rows)
      ensures rows == initial
    {
      rows := initial;
    }

    /** `select('*').eq('id', 'main')`, then the insert when the result is an empty
        array; a failed query gives `null`, which skips the insert. */
    method SeedMainIfAbsent(queryOk: bool, insertOk: bool)
      modifies this
      ensures rows == SeedIfMainAbsent(old(rows), queryOk, insertOk)
    {
      var an: Option<seq<RowData>> := None;
      if queryOk {
        an := Some(if MainId in rows then [rows[MainId]] else []);
      }
      if an.Some? && |an.value| == 0 && insertOk {
        rows := rows[MainId := InitData];
      }
    }

    /** `select('*')`, then the insert when no row at all came back. */
    method SeedIfTableEmpty(queryOk: bool, insertOk: bool)
      modifies this
      ensures rows == SeedIfEmpty(old(rows), queryOk, insertOk)
    {
      var an: Option<nat> := None;
      if queryOk {
        an := Some(|rows|);
      }
      if an.Some? && an.value == 0 && insertOk {
        rows := rows[MainId := InitData];
      }
    }

    /** `update({ data: emptyData }).eq('id', 'main')`. */
    method ResetMainRow(updateOk: bool)
      modifies this
      ensures rows == ResetMain(old(rows), updateOk)
    {
      if updateOk && MainId in rows {
        rows := rows[MainId := EmptyData];
      }
    }
  }

  /** How a script ends: `process.exit(1)` for a missing variable, or after its work. */
  datatype Outcome = MissingVariables | Done

  /** scripts/test-db.js. */
  method TestDbJs(content: string, table: AnalyticsTable, queryOk: bool, insertOk: bool)
    returns (outcome: Outcome)
    modifies table
    ensures outcome == MissingVariables <==> !EnvFile.Configured(EnvFile.ReadEnv(EnvFile.Js, content))
    ensures table.rows == if outcome == MissingVariables then old(table.rows)
                          else SeedIfMainAbsent(old(table.rows), queryOk, insertOk)
  {
    var env := EnvFile.ParseEnvJs(content);
    if !EnvFile.Configured(env) {
      return MissingVariables;
    }
    table.SeedMainIfAbsent(queryOk, insertOk);
    outcome := Done;
  }

  /** scripts/test-db.ts. */
  method TestDbTs(content: string, table: AnalyticsTable, queryOk: bool, insertOk: bool)
    returns (outcome: Outcome)
    modifies table
    ensures outcome == MissingVariables <==> !EnvFile.Configured(EnvFile.ReadEnv(EnvFile.Ts, content))
    ensures table.rows == if outcome == MissingVariables then old(table.rows)
                          else SeedIfEmpty(old(table.rows), queryOk, insertOk)
  {
    var env := EnvFile.ParseEnvTs(content);
    if !EnvFile.Configured(env) {
      return MissingVariables;
    }
    table.SeedIfTableEmpty(queryOk, insertOk);
    outcome := Done;
  }

  /** scripts/reset-analytics.js. */
  method ResetAnalytics(content: string, table: AnalyticsTable, updateOk: bool)
    returns (outcome: Outcome)
    modifies table
    ensures outcome == MissingVariables <==> !EnvFile.Configured(EnvFile.ReadEnv(EnvFile.Js, content))
    ensures table.rows == if outcome == MissingVariables then old(table.rows)
                          else ResetMain(old(table.rows), updateOk)
  {
    var env := EnvFile.ParseEnvJs(content);
    if !EnvFile.Configured(env) {
      return MissingVariables;
    }
    table.ResetMainRow(updateOk);
    outcome := Done;
  }

  /** Seeding never overwrites an existing `main` row, touches no other row, and after
      a successful query and insert the row `main` exists. */
  lemma SeedKeepsExistingRows(rows: Rows, queryOk: bool, insertOk: bool)
    ensures var r := SeedIfMainAbsent(rows, queryOk, insertOk);
      && (MainId in rows ==> r == rows)
      && (forall k :: k in rows ==> k in r && r[k] == rows[k])
      && (forall k :: k in r && k != MainId ==> k in rows)
      && (queryOk && insertOk ==> MainId in r)
      && (MainId in r && MainId !in rows ==> r[MainId] == InitData)
  {
  }

  /** Running the seeding script twice leaves the table as running it once. */
  lemma SeedIdempotent(rows: Rows, queryOk: bool, insertOk: bool)
    ensures var once := SeedIfMainAbsent(rows, queryOk, insertOk);
      SeedIfMainAbsent(once, queryOk, insertOk) == once
  {
  }

  /** The `.ts` script seeds only an empty table, and then the table holds just `main`. */
  lemma SeedIfEmptyOnlyEmpty(rows: Rows, queryOk: bool, insertOk: bool)
    ensures rows != map[] ==> SeedIfEmpty(rows, queryOk, insertOk) == rows
    ensures rows == map[] && queryOk && insertOk ==>
      SeedIfEmpty(rows, queryOk, insertOk) == map[MainId := InitData]
  {
    if rows != map[] {
      var k :| k in rows;
      assert |rows| != 0;
    }
  }

  /** The two test scripts differ on a table that has rows but no `main`: the `.js`
      script adds `main`, the `.ts` script leaves the table alone. */
  lemma SeedRulesDiffer(id: string, data: RowData)
    requires id != MainId
    ensures var rows := map[id := data];
      && MainId in SeedIfMainAbsent(rows, true, true)
      && SeedIfEmpty(rows, true, true) == rows
  {
    SeedIfEmptyOnlyEmpty(map[id := data], true, true);
  }

  /** The reset writes the zero record into `main` when that row exists, and touches no
      other row; resetting twice is the same as resetting once. */
  lemma ResetOnlyMain(rows: Rows, updateOk: bool)
    ensures var r := ResetMain(rows, updateOk);
      && r.Keys == rows.Keys
      && (forall k :: k in rows && k != MainId ==> r[k] == rows[k])
      && (updateOk && MainId in rows ==> r[MainId] == EmptyData)
      && ResetMain(r, updateOk) == r
  {
  }

  /** The reset record and the seed record both have zero counters; only the reset
      record carries the (empty) click maps. */
  lemma SeedAndResetRecords()
    ensures InitData.(clickMaps := None) == EmptyData.(clickMaps := None)
    ensures InitData.pageViews == 0 && InitData.uniqueVisitors == 0 && InitData.ctaClicks == 0
    ensures InitData.projectClicks == 0 && InitData.contactClicks == 0
    ensures InitData.clickMaps.None?
    ensures EmptyData.clickMaps == Some(ClickMaps(map[], map[], map[]))
  {
  }
}
