// The MySQL dump (app/utils/backups.py, _quote_mysql_identifier and _dump_mysql_database).

module SqlDump {
  import opened Wrappers
  import opened SqlLiterals

  // What SHOW CREATE TABLE, the inspector and SELECT return for a table; create is None when the
  // first of them returns no row.
  datatype Table = Table(name: string, create: Option<string>, columns: seq<string>, rows: seq<seq<Value>>)

  function QuoteIdentifier(name: string): string {
    "`" + Replace(name, '`', "``") + "`"
  }

  function Join(parts: seq<string>, separator: string): string {
    if parts == [] then []
    else if |parts| == 1 then parts[0]
    else Join(parts[..|parts| - 1], separator) + separator + parts[|parts| - 1]
  }

  function QuotedColumns(columns: seq<string>): seq<string> {
    seq(|columns|, i requires 0 <= i < |columns| => QuoteIdentifier(columns[i]))
  }

  ghost predicate ValidRow(row: seq<Value>) {
    forall v :: v in row ==> ValidValue(v)
  }

  ghost predicate ValidTable(table: Table) {
    forall row :: row in table.rows ==> ValidRow(row)
  }

  function Literals(row: seq<Value>): seq<string>
    requires ValidRow(row)
  {
    seq(|row|, i requires 0 <= i < |row| => MysqlLiteral(row[i]))
  }

  // ---- statements ---------------------------------------------------------------------------

  const TITLE := "MarzbanNext database backup"
  const HEADER := ["SET FOREIGN_KEY_CHECKS=0", "SET NAMES utf8mb4"]
  const FOOTER := "SET FOREIGN_KEY_CHECKS=1"

  function DropStatement(table: Table): string {
    "DROP TABLE IF EXISTS " + QuoteIdentifier(table.name)
  }

  function InsertStatement(table: Table, row: seq<Value>): string
    requires ValidRow(row)
  {
    "INSERT INTO " + QuoteIdentifier(table.name) + " (" + Join(QuotedColumns(table.columns), ", ")
      + ") VALUES (" + Join(Literals(row), ", ") + ")"
  }

  function InsertStatements(table: Table, count: nat): seq<string>
    requires ValidTable(table) && count <= |table.rows|
  {
    seq(count, i requires 0 <= i < count => InsertStatement(table, table.rows[i]))
  }

  function TableStatements(table: Table): seq<string>
    requires ValidTable(table)
  {
    if table.create.None? then []
    else
      [DropStatement(table), table.create.value]
        + if table.columns == [] then [] else InsertStatements(table, |table.rows|)
  }

  function AllTableStatements(tables: seq<Table>): seq<string>
    requires forall table :: table in tables ==> ValidTable(table)
  {
    if tables == [] then []
    else AllTableStatements(tables[..|tables| - 1]) + TableStatements(tables[|tables| - 1])
  }

  // The statements a restore has to run, in order.
  function DumpStatements(tables: seq<Table>): seq<string>
    requires forall table :: table in tables ==> ValidTable(table)
  {
    HEADER + AllTableStatements(tables) + [FOOTER]
  }

  // ---- lines --------------------------------------------------------------------------------

  datatype LineOf = Comment(text: string) | Statement(sql: string) | Blank

  function Line(line: LineOf): string {
    match line
    case Comment(text) => "-- " + text
    case Statement(sql) => sql + ";"
    case Blank => ""
  }

  function LinesOf(lines: seq<LineOf>): seq<string> {
    seq(|lines|, i requires 0 <= i < |lines| => Line(lines[i]))
  }

  // Every line with its line end.
  function Text(lines: seq<LineOf>): string {
    if lines == [] then [] else Text(lines[..|lines| - 1]) + Line(lines[|lines| - 1]) + "\n"
  }

  // The statements among the lines.
  function Sql(lines: seq<LineOf>): seq<string> {
    if lines == [] then []
    else if lines[|lines| - 1].Statement? then Sql(lines[..|lines| - 1]) + [lines[|lines| - 1].sql]
    else Sql(lines[..|lines| - 1])
  }

  lemma {:induction false} JoinIsText(lines: seq<LineOf>)
    requires lines != []
    ensures Join(LinesOf(lines), "\n") + "\n" == Text(lines)
  {
    var n := |lines| - 1;
    if n > 0 {
      assert LinesOf(lines)[..n] == LinesOf(lines[..n]);
      JoinIsText(lines[..n]);
      assert Join(LinesOf(lines), "\n") == Join(LinesOf(lines[..n]), "\n") + "\n" + Line(lines[n]);
    } else {
      assert lines[..0] == [];
    }
  }

  lemma {:induction false} SqlConcat(a: seq<LineOf>, b: seq<LineOf>)
    ensures Sql(a + b) == Sql(a) + Sql(b)
    decreases |b|
  {
    if b == [] {
      assert a + b == a;
    } else {
      assert (a + b)[..|a + b| - 1] == a + b[..|b| - 1];
      SqlConcat(a, b[..|b| - 1]);
    }
  }

  // ---- the dump -----------------------------------------------------------------------------

  function InsertLines(table: Table, count: nat): seq<LineOf>
    requires ValidTable(table) && count <= |table.rows|
  {
    seq(count, i requires 0 <= i < count => Statement(InsertStatement(table, table.rows[i])))
  }

  function TableLines(table: Table): seq<LineOf>
    requires ValidTable(table)
  {
    if table.create.None? then []
    else
      [Statement(DropStatement(table)), Statement(table.create.value), Blank]
        + if table.columns == [] then [] else InsertLines(table, |table.rows|) + [Blank]
  }

  function AllTableLines(tables: seq<Table>): seq<LineOf>
    requires forall table :: table in tables ==> ValidTable(table)
  {
    if tables == [] then []
    else AllTableLines(tables[..|tables| - 1]) + TableLines(tables[|tables| - 1])
  }

  const HEADER_LINES := [Comment(TITLE), Statement(HEADER[0]), Statement(HEADER[1]), Blank]

  function DumpLines(tables: seq<Table>): seq<LineOf>
    requires forall table :: table in tables ==> ValidTable(table)
  {
    HEADER_LINES + AllTableLines(tables) + [Statement(FOOTER)]
  }

  lemma LinesConcat(a: seq<LineOf>, b: seq<LineOf>)
    ensures LinesOf(a + b) == LinesOf(a) + LinesOf(b)
  {
  }

  lemma NextInsert(table: Table, i: nat)
    requires ValidTable(table) && i < |table.rows|
    ensures LinesOf(InsertLines(table, i + 1))
         == LinesOf(InsertLines(table, i)) + [InsertStatement(table, table.rows[i]) + ";"]
  {
  }

  method InsertDump(table: Table) returns (lines: seq<string>)
    requires ValidTable(table)
    ensures lines == LinesOf(InsertLines(table, |table.rows|))
  {
    var quotedTable := QuoteIdentifier(table.name);
    var quotedColumns := Join(QuotedColumns(table.columns), ", ");
    lines := [];
    for i := 0 to |table.rows|
      invariant lines == LinesOf(InsertLines(table, i))
    {
      NextInsert(table, i);
      var values := Join(Literals(table.rows[i]), ", ");
      lines := lines + ["INSERT INTO " + quotedTable + " (" + quotedColumns + ") VALUES (" + values + ")" + ";"];
    }
  }

  method TableDump(table: Table) returns (lines: seq<string>)
    requires ValidTable(table)
    ensures lines == LinesOf(TableLines(table))
  {
    lines := [];
    if table.create.None? {
      return;
    }
    ghost var start := [Statement(DropStatement(table)), Statement(table.create.value), Blank];
    lines := lines + ["DROP TABLE IF EXISTS " + QuoteIdentifier(table.name) + ";", table.create.value + ";", ""];
    assert lines == LinesOf(start);
    if table.columns == [] {
      assert TableLines(table) == start;
      return;
    }
    var inserts := InsertDump(table);
    lines := lines + inserts + [""];
    LinesConcat(InsertLines(table, |table.rows|), [Blank]);
    LinesConcat(start, InsertLines(table, |table.rows|) + [Blank]);
    assert LinesOf([Blank]) == [""];
  }

  method AllTablesDump(tables: seq<Table>) returns (lines: seq<string>)
    requires forall table :: table in tables ==> ValidTable(table)
    ensures lines == LinesOf(AllTableLines(tables))
  {
    lines := [];
    for i := 0 to |tables|
      invariant lines == LinesOf(AllTableLines(tables[..i]))
    {
      assert tables[..i + 1][..i] == tables[..i];
      var more := TableDump(tables[i]);
      LinesConcat(AllTableLines(tables[..i]), TableLines(tables[i]));
      lines := lines + more;
    }
    assert tables[..|tables|] == tables;
  }

  method DumpMysqlDatabase(tables: seq<Table>) returns (text: string)
    requires forall table :: table in tables ==> ValidTable(table)
    ensures text == Text(DumpLines(tables))
  {
    var lines := ["-- " + TITLE, HEADER[0] + ";", HEADER[1] + ";", ""];
    assert lines == LinesOf(HEADER_LINES);
    var more := AllTablesDump(tables);
    lines := lines + more;
    LinesConcat(HEADER_LINES, AllTableLines(tables));
    lines := lines + [FOOTER + ";"];
    LinesConcat(HEADER_LINES + AllTableLines(tables), [Statement(FOOTER)]);
    text := Join(lines, "\n") + "\n";
    JoinIsText(DumpLines(tables));
  }

  lemma SqlAppend(lines: seq<LineOf>, line: LineOf)
    ensures Sql(lines + [line]) == if line.Statement? then Sql(lines) + [line.sql] else Sql(lines)
  {
    assert (lines + [line])[..|lines|] == lines;
  }

  lemma {:induction false} InsertSql(table: Table, count: nat)
    requires ValidTable(table) && count <= |table.rows|
    ensures Sql(InsertLines(table, count)) == InsertStatements(table, count)
  {
    if count > 0 {
      assert InsertLines(table, count)[..count - 1] == InsertLines(table, count - 1);
      InsertSql(table, count - 1);
    }
  }

  lemma TableSql(table: Table)
    requires ValidTable(table)
    ensures Sql(TableLines(table)) == TableStatements(table)
  {
    if table.create.Some? {
      var start := [Statement(DropStatement(table)), Statement(table.create.value), Blank];
      SqlAppend([], start[0]);
      SqlAppend([start[0]], start[1]);
      SqlAppend([start[0], start[1]], start[2]);
      assert [] + [start[0]] == [start[0]] && [start[0]] + [start[1]] == [start[0], start[1]];
      assert start == [start[0], start[1]] + [start[2]];
      if table.columns != [] {
        var inserts := InsertLines(table, |table.rows|);
        InsertSql(table, |table.rows|);
        assert (inserts + [Blank])[..|inserts|] == inserts;
        SqlConcat(start, inserts + [Blank]);
      } else {
        assert start + [] == start;
      }
    }
  }

  lemma {:induction false} AllTableSql(tables: seq<Table>)
    requires forall table :: table in tables ==> ValidTable(table)
    ensures Sql(AllTableLines(tables)) == AllTableStatements(tables)
  {
    if tables != [] {
      AllTableSql(tables[..|tables| - 1]);
      TableSql(tables[|tables| - 1]);
      SqlConcat(AllTableLines(tables[..|tables| - 1]), TableLines(tables[|tables| - 1]));
    }
  }

  lemma HeaderSql()
    ensures Sql(HEADER_LINES) == HEADER
  {
    var h := HEADER_LINES;
    SqlAppend([], h[0]);
    SqlAppend([h[0]], h[1]);
    SqlAppend([h[0], h[1]], h[2]);
    SqlAppend([h[0], h[1], h[2]], h[3]);
    assert [] + [h[0]] == [h[0]] && [h[0]] + [h[1]] == [h[0], h[1]] && [h[0], h[1]] + [h[2]] == [h[0], h[1], h[2]];
    assert h == [h[0], h[1], h[2]] + [h[3]];
  }

  lemma DumpSql(tables: seq<Table>)
    requires forall table :: table in tables ==> ValidTable(table)
    ensures Sql(DumpLines(tables)) == DumpStatements(tables)
  {
    HeaderSql();
    AllTableSql(tables);
    SqlConcat(HEADER_LINES, AllTableLines(tables));
    SqlAppend(HEADER_LINES + AllTableLines(tables), Statement(FOOTER));
  }
}
