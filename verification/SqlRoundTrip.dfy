// Splitting a dump gives back the statements that were written.

module SqlRoundTrip {
  import opened Wrappers
  import opened Text
  import opened SqlLiterals
  import opened SqlLiteralProperties
  import opened SqlSplitter
  import opened SqlSplitterProperties
  import opened SqlIdentifiers
  import opened SqlDumpProperties
  import D = SqlDump

  const IN_TEXT := Quoted('\'', false)

  // ---- literals -----------------------------------------------------------------------------

  // Inside quotes every character of s is kept and the mode is IN_TEXT again, whatever follows.
  ghost predicate KeptBefore(s: string, next: Option<char>) {
    ModeAfter(IN_TEXT, s, next) == IN_TEXT && Output(IN_TEXT, s, next) == Keeps(s)
  }

  ghost predicate Inert(s: string) {
    forall next :: KeptBefore(s, next)
  }

  lemma KeptConcat(a: string, b: string, next: Option<char>)
    requires KeptBefore(a, First(b, next)) && KeptBefore(b, next)
    ensures KeptBefore(a + b, next)
  {
    ModeConcat(IN_TEXT, a, b, next);
    OutputConcat(IN_TEXT, a, b, next);
    assert Keeps(a + b) == Keeps(a) + Keeps(b);
  }

  lemma InertConcat(a: string, b: string)
    requires Inert(a) && Inert(b)
    ensures Inert(a + b)
  {
    forall next ensures KeptBefore(a + b, next) {
      KeptConcat(a, b, next);
    }
  }

  lemma OrdinaryInert(c: char)
    requires c != '\'' && c != '\\'
    ensures Inert([c])
  {
    forall next ensures KeptBefore([c], next) {
      OneChar(IN_TEXT, c, next);
    }
  }

  lemma EscapeInert(c: char)
    ensures Inert(['\\', c])
  {
    var escaped := Quoted('\'', true);
    forall next ensures KeptBefore(['\\', c], next) {
      assert ['\\', c] == ['\\'] + [c];
      ModeConcat(IN_TEXT, ['\\'], [c], next);
      OutputConcat(IN_TEXT, ['\\'], [c], next);
      OneChar(IN_TEXT, '\\', Some(c));
      OneChar(escaped, c, next);
    }
  }

  lemma {:induction false} TextInert(text: string)
    ensures Inert(EscapePass(text))
  {
    if text == [] {
      forall next ensures KeptBefore([], next) {
        assert Keeps([]) == [];
      }
    } else {
      var c := text[|text| - 1];
      TextInert(text[..|text| - 1]);
      if |EscapedChar(c)| == 2 {
        EscapeInert(EscapedChar(c)[1]);
        assert EscapedChar(c) == ['\\', EscapedChar(c)[1]];
      } else {
        OrdinaryInert(c);
      }
      InertConcat(EscapePass(text[..|text| - 1]), EscapedChar(c));
    }
  }

  lemma {:induction false} HexInert(bytes: seq<Byte>)
    ensures Inert(Hex(bytes))
  {
    if bytes == [] {
      TextInert([]);
    } else {
      var high, low := HEX_DIGITS[bytes[0] / 16], HEX_DIGITS[bytes[0] % 16];
      OrdinaryInert(high);
      OrdinaryInert(low);
      HexInert(bytes[1..]);
      InertConcat([high], [low]);
      InertConcat([high] + [low], Hex(bytes[1..]));
      assert [high] + [low] == [high, low];
    }
  }

  lemma QuotedWhole(body: string)
    requires Inert(body)
    ensures Whole("'" + body + "'")
  {
    assert KeptBefore(body, None) && KeptBefore(body, Some('\''));
    PassesChar(Outside, '\'', IN_TEXT);
    PassesChar(IN_TEXT, '\'', Outside);
    ModeConcat(IN_TEXT, body, "'", None);
    OutputConcat(IN_TEXT, body, "'", None);
    assert Keeps(body + "'") == Keeps(body) + Keeps("'");
    PassesConcat(Outside, "'", IN_TEXT, body + "'", Outside);
    assert "'" + body + "'" == "'" + (body + "'");
  }

  lemma TextWhole(text: string)
    ensures Whole("'" + Escape(text) + "'")
  {
    EscapeIsOnePass(text);
    TextInert(text);
    QuotedWhole(EscapePass(text));
  }

  lemma Marked(mark: string, s: string)
    requires Plain(mark) && Whole(s) && (mark != [] ==> mark[|mark| - 1] !in {'-', '/', '*', '#'})
    ensures Whole(mark + s)
  {
    PlainIsWhole(mark);
    WholeConcat(mark, s);
  }

  lemma BytesWhole(bytes: seq<Byte>)
    ensures Whole("X'" + Hex(bytes) + "'")
  {
    HexInert(bytes);
    QuotedWhole(Hex(bytes));
    Marked("X", "'" + Hex(bytes) + "'");
    HexText(Hex(bytes));
  }

  lemma HexText(digits: string)
    ensures "X" + ("'" + digits + "'") == "X'" + digits + "'"
  {
  }

  lemma WordsWhole()
    ensures Whole("NULL") && Whole("0") && Whole("1")
  {
    PlainIsWhole("NULL");
    PlainIsWhole("0");
    PlainIsWhole("1");
  }

  lemma LiteralWhole(v: Value)
    requires ValidValue(v)
    ensures Whole(MysqlLiteral(v))
  {
    match v
    case Null => WordsWhole();
    case Bool(_) => WordsWhole();
    case Number(digits) => PlainIsWhole(digits);
    case Text(text) => TextWhole(text);
    case Bytes(bytes) => BytesWhole(bytes);
  }

  // ---- statements ---------------------------------------------------------------------------

  lemma {:induction false} JoinWhole(parts: seq<string>)
    requires forall part :: part in parts ==> Whole(part)
    ensures Whole(D.Join(parts, ", "))
  {
    PlainIsWhole([]);
    if |parts| > 1 {
      var n := |parts| - 1;
      JoinWhole(parts[..n]);
      PlainIsWhole(", ");
      WholeConcat(D.Join(parts[..n], ", "), ", ");
      WholeConcat(D.Join(parts[..n], ", ") + ", ", parts[n]);
    }
  }

  ghost predicate SafeTable(table: D.Table) {
    && BackslashSafe(table.name)
    && (forall column :: column in table.columns ==> BackslashSafe(column))
    && (table.create.Some? ==> Whole(table.create.value) && table.create.value != [] && Trimmed(table.create.value))
  }

  // A statement that a restore gets back as it is.
  ghost predicate Sound(sql: string) {
    Whole(sql) && sql != [] && Trimmed(sql)
  }

  lemma DropSound(table: D.Table)
    requires SafeTable(table)
    ensures Sound(D.DropStatement(table))
  {
    var start := "DROP TABLE IF EXISTS ";
    PlainIsWhole(start);
    IdentifierWhole(table.name);
    WholeConcat(start, D.QuoteIdentifier(table.name));
    Ends(start, D.QuoteIdentifier(table.name));
  }

  lemma Ends(start: string, end: string)
    requires start != [] && end != [] && !IsSpace(start[0]) && !IsSpace(end[|end| - 1])
    ensures start + end != [] && Trimmed(start + end)
  {
  }

  lemma ColumnsWhole(columns: seq<string>)
    requires forall column :: column in columns ==> BackslashSafe(column)
    ensures Whole(D.Join(D.QuotedColumns(columns), ", "))
  {
    var quoted := D.QuotedColumns(columns);
    forall part | part in quoted ensures Whole(part) {
      var i :| 0 <= i < |quoted| && quoted[i] == part;
      IdentifierWhole(columns[i]);
    }
    JoinWhole(quoted);
  }

  lemma RowWhole(row: seq<Value>)
    requires D.ValidRow(row)
    ensures Whole(D.Join(D.Literals(row), ", "))
  {
    var literals := D.Literals(row);
    forall part | part in literals ensures Whole(part) {
      var i :| 0 <= i < |literals| && literals[i] == part;
      LiteralWhole(row[i]);
    }
    JoinWhole(literals);
  }

  lemma InsertSound(table: D.Table, row: seq<Value>)
    requires SafeTable(table) && D.ValidRow(row)
    ensures Sound(D.InsertStatement(table, row))
  {
    IdentifierWhole(table.name);
    ColumnsWhole(table.columns);
    RowWhole(row);
    InsertMarks();
    PartsWhole(
      "INSERT INTO ", D.QuoteIdentifier(table.name), " (", D.Join(D.QuotedColumns(table.columns), ", "),
      ") VALUES (", D.Join(D.Literals(row), ", "), ")");
  }

  lemma InsertMarks()
    ensures Mark("INSERT INTO ") && Mark(" (") && Mark(") VALUES (") && Mark(")")
  {
  }

  predicate Mark(mark: string) {
    && Plain(mark) && mark != []
    && Neutral(Some(mark[0])) && mark[|mark| - 1] !in {'-', '/', '*', '#'}
  }

  lemma Around(a: string, mark: string, b: string)
    requires Whole(a) && Whole(b) && Mark(mark)
    ensures Whole(a + mark + b)
  {
    PlainIsWhole(mark);
    WholeConcat(a, mark);
    WholeConcat(a + mark, b);
  }

  lemma PartsWhole(m1: string, name: string, m2: string, columns: string, m3: string, values: string, m4: string)
    requires Whole(name) && Whole(columns) && Whole(values)
    requires Mark(m1) && Mark(m2) && Mark(m3) && Mark(m4)
    ensures Whole(m1 + name + m2 + columns + m3 + values + m4)
  {
    Marked(m1, name);
    var s2 := m1 + name;
    Around(s2, m2, columns);
    var s3 := s2 + m2 + columns;
    Around(s3, m3, values);
    PlainIsWhole(m4);
    WholeConcat(s3 + m3 + values, m4);
  }

  // ---- the dump -----------------------------------------------------------------------------

  ghost predicate SoundLine(line: D.LineOf) {
    match line
    case Statement(sql) => Sound(sql)
    case Comment(text) => '\n' !in text
    case Blank => true
  }

  lemma TableLinesSound(table: D.Table)
    requires D.ValidTable(table) && SafeTable(table)
    ensures forall line :: line in D.TableLines(table) ==> SoundLine(line)
  {
    DropSound(table);
    forall line | line in D.InsertLines(table, |table.rows|) ensures SoundLine(line) {
      var i :| 0 <= i < |table.rows| && D.InsertLines(table, |table.rows|)[i] == line;
      InsertSound(table, table.rows[i]);
    }
  }

  lemma {:induction false} AllTableLinesSound(tables: seq<D.Table>)
    requires forall table :: table in tables ==> D.ValidTable(table) && SafeTable(table)
    ensures forall line :: line in D.AllTableLines(tables) ==> SoundLine(line)
  {
    if tables != [] {
      AllTableLinesSound(tables[..|tables| - 1]);
      TableLinesSound(tables[|tables| - 1]);
    }
  }

  predicate WordChar(c: char) {
    'A' <= c <= 'Z' || 'a' <= c <= 'z' || '0' <= c <= '9' || c in {' ', '_', '='}
  }

  predicate Words(s: string) {
    forall i :: 0 <= i < |s| ==> WordChar(s[i])
  }

  lemma SettingSound(setting: string)
    requires Words(setting) && setting != [] && setting[0] != ' ' && setting[|setting| - 1] != ' '
    ensures SoundLine(D.Statement(setting))
  {
    forall i | 0 <= i < |setting| ensures PlainAt(setting, i) {
      assert WordChar(setting[i]);
    }
    assert WordChar(setting[0]) && WordChar(setting[|setting| - 1]);
    PlainIsWhole(setting);
  }

  lemma HeaderSound()
    ensures SoundLine(D.Statement(D.HEADER[0])) && SoundLine(D.Statement(D.HEADER[1]))
  {
    assert Words("SET FOREIGN_KEY_CHECKS=0");
    assert Words("SET NAMES utf8mb4");
    SettingSound(D.HEADER[0]);
    SettingSound(D.HEADER[1]);
  }

  lemma FooterSound()
    ensures SoundLine(D.Statement(D.FOOTER))
  {
    assert Words("SET FOREIGN_KEY_CHECKS=1");
    SettingSound(D.FOOTER);
  }

  lemma FixedLinesSound()
    ensures forall line :: line in D.HEADER_LINES ==> SoundLine(line)
    ensures SoundLine(D.Statement(D.FOOTER))
  {
    HeaderSound();
    FooterSound();
    TitleSound();
  }

  lemma TitleSound()
    ensures SoundLine(D.HEADER_LINES[0])
  {
  }

  lemma {:induction false} SoundStatements(lines: seq<D.LineOf>)
    requires forall line :: line in lines ==> SoundLine(line)
    ensures AllTrimmed(D.Sql(lines))
  {
    if lines != [] {
      SoundStatements(lines[..|lines| - 1]);
      assert lines[|lines| - 1] in lines;
    }
  }

  // The dump is cut into exactly the statements that were written, in their order, whatever the
  // values hold.
  lemma DumpSplits(tables: seq<D.Table>)
    requires forall table :: table in tables ==> D.ValidTable(table) && SafeTable(table)
    ensures Split(D.Text(D.DumpLines(tables))) == D.DumpStatements(tables)
  {
    var lines := D.DumpLines(tables);
    AllTableLinesSound(tables);
    FixedLinesSound();
    forall line | line in lines ensures SoundLine(line) && WellFormed(line) {
      assert line in D.HEADER_LINES || line in D.AllTableLines(tables) || line == D.Statement(D.FOOTER);
    }
    LinesSplit(lines);
    SoundStatements(lines);
    TrimmedEmitted(D.Sql(lines));
    D.DumpSql(tables);
  }

  // Backup and restore, one after the other.
  method DumpAndSplit(tables: seq<D.Table>) returns (statements: seq<string>)
    requires forall table :: table in tables ==> D.ValidTable(table) && SafeTable(table)
    ensures statements == D.DumpStatements(tables)
  {
    var text := D.DumpMysqlDatabase(tables);
    DumpSplits(tables);
    statements := SplitSqlStatements(text);
  }
}
