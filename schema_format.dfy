/** The schema description the text-to-SQL service puts into its prompt:
    the catalog's (table, column, type) rows turned into a `Table:` header per
    run of same-table rows and one line per column
    (`get_dynamic_schema` in text-to-sql-api/app/database.py). */
module SchemaFormat {
  import opened PyText

  /** One row of the catalog query over `information_schema.columns`. */
  datatype CatalogRow = CatalogRow(table: string, column: string, dataType: string)

  /** The header opening the rows of `table`. */
  function Header(table: string): string {
    "\nTable: " + table + "\n"
  }

  /** The line one catalog row contributes. */
  function ColumnLine(row: CatalogRow): string {
    "  - " + row.column + " (" + row.dataType + ")\n"
  }

  /** What the formatting loop appends for `rows` when the last header it wrote
      was for `prev`: a header whenever a row's table differs from the previous
      one, then that row's column line. */
  function Emit(prev: string, rows: seq<CatalogRow>): string
    decreases rows
  {
    if rows == [] then ""
    else Lead(prev, rows[0].table) + ColumnLine(rows[0]) + Emit(rows[0].table, rows[1..])
  }

  /** The header written before a row of `table` when the current table is `prev`. */
  function Lead(prev: string, table: string): string {
    if table != prev then Header(table) else ""
  }

  /** The description returned for a non-empty catalog: the accumulated text,
      stripped. The loop starts with no current table (`""`). */
  function Describe(rows: seq<CatalogRow>): string {
    Strip(Emit("", rows))
  }

  /** The formatting loop of `get_dynamic_schema`. */
  method FormatSchema(rows: seq<CatalogRow>) returns (schema: string)
    ensures schema == Describe(rows)
  {
    var schemaStr := "";
    var currentTable := "";
    for i := 0 to |rows|
      invariant schemaStr + Emit(currentTable, rows[i..]) == Emit("", rows)
    {
      var col := rows[i];
      ghost var prev := currentTable;
      var header := "";
      if col.table != currentTable {
        currentTable := col.table;
        header := Header(currentTable);
      }
      assert header == Lead(prev, col.table);
      Advance(schemaStr, prev, rows, i);
      schemaStr := schemaStr + (header + ColumnLine(col));
    }
    assert rows[|rows|..] == [];
    assert Emit(currentTable, rows[|rows|..]) == "";
    assert schemaStr == Emit("", rows);
    schema := Strip(schemaStr);
  }

  /** One step of the loop: appending the row's header, if any, and its
      column line keeps the text accumulated so far a prefix of the whole. */
  lemma Advance(done: string, cur: string, rows: seq<CatalogRow>, i: nat)
    requires i < |rows|
    requires done + Emit(cur, rows[i..]) == Emit("", rows)
    ensures done + (Lead(cur, rows[i].table) + ColumnLine(rows[i])) + Emit(rows[i].table, rows[i + 1..]) == Emit("", rows)
  {
    assert rows[i..][1..] == rows[i + 1..];
    var piece := Lead(cur, rows[i].table) + ColumnLine(rows[i]);
    var rest := Emit(rows[i].table, rows[i + 1..]);
    assert Emit(cur, rows[i..]) == piece + rest;
    assert done + piece + rest == done + (piece + rest);
  }

  // ---------------------------------------------------------------------
  // An independent description: the rows cut into maximal same-table runs

  /** A run of consecutive rows that share one table. */
  datatype Group = Group(table: string, rows: seq<CatalogRow>)

  /** The rows of the groups, one group after another. */
  function Flatten(gs: seq<Group>): seq<CatalogRow> {
    if gs == [] then [] else gs[0].rows + Flatten(gs[1..])
  }

  function TablesOf(rows: seq<CatalogRow>): set<string> {
    set r | r in rows :: r.table
  }

  /** The catalog rows cut into maximal runs of one table each. */
  function Runs(rows: seq<CatalogRow>): (gs: seq<Group>)
    ensures Flatten(gs) == rows
    ensures forall i :: 0 <= i < |gs| ==> gs[i].rows != []
    ensures forall i, k :: 0 <= i < |gs| && 0 <= k < |gs[i].rows| ==> gs[i].rows[k].table == gs[i].table
    ensures forall i :: 0 < i < |gs| ==> gs[i - 1].table != gs[i].table
    ensures rows != [] ==> gs != [] && gs[0].table == rows[0].table
  {
    if rows == [] then []
    else
      var rest := Runs(rows[1..]);
      if rest != [] && rest[0].table == rows[0].table then
        var gs := [Group(rows[0].table, [rows[0]] + rest[0].rows)] + rest[1..];
        assert Flatten(rest) == rest[0].rows + Flatten(rest[1..]);
        assert gs[1..] == rest[1..];
        gs
      else
        var gs := [Group(rows[0].table, [rows[0]])] + rest;
        assert gs[1..] == rest;
        gs
  }

  /** Every run's table is the table of one of the rows. */
  lemma {:induction false} RunTablesOccur(rows: seq<CatalogRow>)
    ensures forall i :: 0 <= i < |Runs(rows)| ==> Runs(rows)[i].table in TablesOf(rows)
  {
    if rows != [] {
      RunTablesOccur(rows[1..]);
      assert rows == [rows[0]] + rows[1..];
      assert TablesOf(rows) == {rows[0].table} + TablesOf(rows[1..]);
    }
  }

  /** The column lines of some rows, in order. */
  function Lines(rows: seq<CatalogRow>): string {
    if rows == [] then "" else ColumnLine(rows[0]) + Lines(rows[1..])
  }

  function RenderGroup(g: Group): string {
    Header(g.table) + Lines(g.rows)
  }

  function RenderGroups(gs: seq<Group>): string {
    if gs == [] then "" else RenderGroup(gs[0]) + RenderGroups(gs[1..])
  }

  /** The column lines the runs contribute, headers left aside. */
  function ColumnLines(gs: seq<Group>): string {
    if gs == [] then "" else Lines(gs[0].rows) + ColumnLines(gs[1..])
  }

  /** Headers aside, the text is one column line per catalog row, in the
      rows' order: the runs' column lines, run after run, are those of the
      rows themselves. */
  lemma {:induction false} EveryRowOneLine(rows: seq<CatalogRow>)
    decreases |rows|
    ensures ColumnLines(Runs(rows)) == Lines(rows)
  {
    if rows != [] {
      var gs, rest := Runs(rows), Runs(rows[1..]);
      EveryRowOneLine(rows[1..]);
      if rest != [] && rest[0].table == rows[0].table {
        assert gs[1..] == rest[1..];
        assert gs[0].rows == [rows[0]] + rest[0].rows;
        assert gs[0].rows[1..] == rest[0].rows;
        calc {
          ColumnLines(gs);
          Lines(gs[0].rows) + ColumnLines(rest[1..]);
          ColumnLine(rows[0]) + Lines(rest[0].rows) + ColumnLines(rest[1..]);
          ColumnLine(rows[0]) + ColumnLines(rest);
        }
      } else {
        assert gs[1..] == rest;
        assert gs[0].rows == [rows[0]];
        assert Lines([rows[0]]) == ColumnLine(rows[0]);
      }
    }
  }

  /** The runs listed one after another, each under its header and with one
      line per row, except that the first run goes without a header when its
      table is `prev`, the one the loop already considers current. */
  function Listing(prev: string, gs: seq<Group>): string {
    if gs == [] then "" else Lead(prev, gs[0].table) + Lines(gs[0].rows) + RenderGroups(gs[1..])
  }

  /** The accumulated text is the listing of the runs. */
  lemma {:induction false} EmitByRuns(prev: string, rows: seq<CatalogRow>)
    decreases rows
    ensures Emit(prev, rows) == Listing(prev, Runs(rows))
  {
    if rows != [] {
      var t := rows[0].table;
      var rest := rows[1..];
      var gs := Runs(rows);
      var lead, line := Lead(prev, t), ColumnLine(rows[0]);
      assert Emit(prev, rows) == lead + line + Emit(t, rest);
      if rest == [] {
        assert gs == [Group(t, [rows[0]])];
        assert Lines([rows[0]]) == line + Lines([]);
        assert RenderGroups(gs[1..]) == "";
        assert Emit(t, rest) == "";
      } else {
        EmitByRuns(t, rest);
        var gs' := Runs(rest);
        var after := RenderGroups(gs'[1..]);
        if rest[0].table == t {
          assert gs == [Group(t, [rows[0]] + gs'[0].rows)] + gs'[1..];
          assert gs[1..] == gs'[1..];
          var lines := Lines(gs'[0].rows);
          assert Lines([rows[0]] + gs'[0].rows) == line + lines by {
            assert ([rows[0]] + gs'[0].rows)[1..] == gs'[0].rows;
          }
          assert Emit(t, rest) == "" + lines + after;
          Regroup(lead, line, lines, after);
        } else {
          assert gs == [Group(t, [rows[0]])] + gs';
          assert gs[1..] == gs';
          assert Lines([rows[0]]) == line + Lines([]);
          assert Emit(t, rest) == RenderGroups(gs') by {
            assert RenderGroups(gs') == RenderGroup(gs'[0]) + after;
          }
        }
      }
    }
  }

  lemma Regroup(a: string, b: string, c: string, d: string)
    ensures a + b + ("" + c + d) == a + (b + c) + d
  {
  }

  /** When the first row's table is not the current one, the accumulated
      text is exactly the runs rendered one after another, each under its own
      header. */
  lemma ListingIsRuns(prev: string, rows: seq<CatalogRow>)
    requires rows != [] && rows[0].table != prev
    ensures Emit(prev, rows) == RenderGroups(Runs(rows))
  {
    EmitByRuns(prev, rows);
  }

  /** `ORDER BY c.table_name` keeps the rows of each table together. */
  ghost predicate Clustered(rows: seq<CatalogRow>) {
    forall i, j, k :: 0 <= i < j < k < |rows| && rows[i].table == rows[k].table ==>
      rows[j].table == rows[i].table
  }

  /** No two groups share a table. */
  predicate DistinctTables(gs: seq<Group>) {
    forall i, j :: 0 <= i < j < |gs| ==> gs[i].table != gs[j].table
  }

  /** In clustered rows whose first two tables differ, the first table does
      not come back later. */
  lemma FirstTableDoesNotReturn(rows: seq<CatalogRow>)
    requires Clustered(rows) && rows != []
    requires |rows| > 1 ==> rows[1].table != rows[0].table
    ensures rows[0].table !in TablesOf(rows[1..])
  {
    var rest := rows[1..];
    forall k | 0 <= k < |rest| ensures rest[k].table != rows[0].table {
      if k > 0 {
        assert rows[k + 1] == rest[k];
        assert rows[1].table != rows[0].table;
      }
    }
  }

  /** For rows that keep each table together, every table is listed under
      exactly one header: no two runs share a table. */
  lemma {:induction false} ClusteredRunsAreDistinct(rows: seq<CatalogRow>)
    requires Clustered(rows)
    ensures DistinctTables(Runs(rows))
  {
    if rows != [] {
      var t := rows[0].table;
      var rest := rows[1..];
      assert Clustered(rest) by {
        forall i, j, k | 0 <= i < j < k < |rest| && rest[i].table == rest[k].table
          ensures rest[j].table == rest[i].table
        {
          assert rows[i + 1].table == rows[k + 1].table;
        }
      }
      ClusteredRunsAreDistinct(rest);
      var gs, gs' := Runs(rows), Runs(rest);
      assert DistinctTables(gs');
      if rest != [] && rest[0].table == t {
        assert gs == [Group(t, [rows[0]] + gs'[0].rows)] + gs'[1..];
        assert gs'[0].table == t;
        forall i | 0 < i < |gs| ensures gs[i] == gs'[i] {
          assert gs[i] == gs'[1..][i - 1];
        }
        forall i, j | 0 <= i < j < |gs| ensures gs[i].table != gs[j].table {
          assert gs[i].table == gs'[i].table;
          assert gs[j].table == gs'[j].table;
        }
      } else {
        assert gs == [Group(t, [rows[0]])] + gs';
        FirstTableDoesNotReturn(rows);
        RunTablesOccur(rest);
        forall i, j | 0 <= i < j < |gs| ensures gs[i].table != gs[j].table {
          assert gs[j] == gs'[j - 1];
          if i > 0 {
            assert gs[i] == gs'[i - 1];
          } else {
            assert gs[0].table == t;
            assert gs'[j - 1].table in TablesOf(rest);
          }
        }
      }
    }
  }

  /** Lexicographic order of table names by code point. PostgreSQL's
      `ORDER BY` may collate differently; all that is used of the order is
      that two names ordered both ways are equal, which holds for any
      collation that tells different names apart. */
  predicate NameLe(a: string, b: string)
    decreases |a|
  {
    a == [] || (b != [] && (a[0] < b[0] || (a[0] == b[0] && NameLe(a[1..], b[1..]))))
  }

  lemma {:induction false} NameLeAntisymmetric(a: string, b: string)
    requires NameLe(a, b) && NameLe(b, a)
    decreases |a|
    ensures a == b
  {
    if a != [] && b != [] {
      NameLeAntisymmetric(a[1..], b[1..]);
      assert a == [a[0]] + a[1..];
      assert b == [b[0]] + b[1..];
    }
  }

  /** The catalog rows as `ORDER BY c.table_name, ...` delivers them. */
  ghost predicate SortedByTable(rows: seq<CatalogRow>) {
    forall i, j :: 0 <= i < j < |rows| ==> NameLe(rows[i].table, rows[j].table)
  }

  lemma SortedIsClustered(rows: seq<CatalogRow>)
    requires SortedByTable(rows)
    ensures Clustered(rows)
  {
    forall i, j, k | 0 <= i < j < k < |rows| && rows[i].table == rows[k].table
      ensures rows[j].table == rows[i].table
    {
      NameLeAntisymmetric(rows[i].table, rows[j].table);
    }
  }

  /** For catalog rows sorted by table, as the catalog query orders them, the
      accumulated text lists every table exactly once, under one header,
      followed by the lines of all its columns. */
  lemma SortedCatalogOneHeaderPerTable(rows: seq<CatalogRow>)
    requires SortedByTable(rows) && rows != [] && rows[0].table != ""
    ensures Emit("", rows) == RenderGroups(Runs(rows))
    ensures DistinctTables(Runs(rows))
  {
    ListingIsRuns("", rows);
    SortedIsClustered(rows);
    ClusteredRunsAreDistinct(rows);
  }

  /** The accumulated text ends with the last row's `)` and a newline. */
  lemma {:induction false} EmitEndsWithColumnLine(prev: string, rows: seq<CatalogRow>)
    requires rows != []
    decreases rows
    ensures var e := Emit(prev, rows);
      |e| >= 2 && e[|e| - 2] == ')' && e[|e| - 1] == '\n'
  {
    if rows[1..] != [] {
      EmitEndsWithColumnLine(rows[0].table, rows[1..]);
    }
  }

  /** A non-empty catalog never formats to the empty (falsy) string. */
  lemma DescribeNonEmpty(rows: seq<CatalogRow>)
    requires rows != []
    ensures Describe(rows) != ""
  {
    var e := Emit("", rows);
    EmitEndsWithColumnLine("", rows);
    StripKeepsNonSpace(e, |e| - 2);
  }

  /** The accumulated text opens with the first table's header. */
  lemma EmitStartsWithHeader(rows: seq<CatalogRow>)
    requires rows != [] && rows[0].table != ""
    ensures var e := Emit("", rows); var t := rows[0].table;
      |e| >= 8 + |t| && e[..8 + |t|] == "\nTable: " + t
  {
    var t := rows[0].table;
    var tail := ColumnLine(rows[0]) + Emit(t, rows[1..]);
    assert Emit("", rows) == Header(t) + tail;
    assert (Header(t) + tail)[..8 + |t|] == "\nTable: " + t;
  }

  /** A text that opens with a `Table:` header and closes with `)` and a
      newline loses exactly its first and its last character to stripping. */
  lemma StripFramed(e: string, t: string)
    requires |e| >= 10 + |t| && e[..8 + |t|] == "\nTable: " + t
    requires e[|e| - 2] == ')' && e[|e| - 1] == '\n'
    ensures "\n" + Strip(e) + "\n" == e
    ensures |Strip(e)| >= 7 + |t| && Strip(e)[..7 + |t|] == "Table: " + t
  {
    assert e[0] == '\n';
    assert e[1] == 'T';
    StripCore(e, 1, |e| - 1);
    var d := e[1..|e| - 1];
    assert e == [e[0]] + d + [e[|e| - 1]];
    assert d[..7 + |t|] == e[1..8 + |t|];
  }

  /** When the first table has a name, stripping removes exactly the leading
      and the trailing newline: the description starts with `Table: ` and the
      first table's name, and neither starts nor ends with whitespace. */
  lemma DescribeTrimsOneNewlineEachSide(rows: seq<CatalogRow>)
    requires rows != [] && rows[0].table != ""
    ensures "\n" + Describe(rows) + "\n" == Emit("", rows)
    ensures var head := "Table: " + rows[0].table;
      |head| <= |Describe(rows)| && Describe(rows)[..|head|] == head
  {
    EmitStartsWithHeader(rows);
    EmitEndsWithColumnLine("", rows);
    StripFramed(Emit("", rows), rows[0].table);
  }
}
