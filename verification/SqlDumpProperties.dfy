// Splitting the lines of a dump gives back its statements.

module SqlDumpProperties {
  import opened Wrappers
  import opened Seqs
  import opened Text
  import opened SqlSplitter
  import opened SqlSplitterProperties
  import D = SqlDump

  // ---- scanning the lines of a dump ---------------------------------------------------------

  function LineEvents(line: D.LineOf): seq<Event> {
    match line
    case Statement(sql) => Keeps(sql) + [Break] + Keeps("\n")
    case _ => Keeps("\n")
  }

  ghost predicate WellFormed(line: D.LineOf) {
    match line
    case Statement(sql) => Whole(sql)
    case Comment(text) => '\n' !in text
    case Blank => true
  }

  lemma LineEnd(next: Option<char>)
    ensures ModeAfter(Outside, "\n", next) == Outside && Output(Outside, "\n", next) == Keeps("\n")
  {
    OneChar(Outside, '\n', next);
  }

  lemma {:induction false} CommentAt(s: string, i: nat, next: Option<char>)
    requires 0 < i <= |s| && |s| >= 2 && s[0] == '-' && s[1] == '-' && '\n' !in s
    ensures ModeAt(Outside, s, i, next) == InLine(NextAt(s, i, next)) && OutputAt(Outside, s, i, next) == []
  {
    if i == 1 {
      assert ModeAt(Outside, s, 0, next) == Outside;
    } else {
      CommentAt(s, i - 1, next);
      assert s[i - 1] in s;
    }
  }

  lemma CommentScan(text: string, next: char)
    requires '\n' !in text
    ensures ModeAfter(Outside, "-- " + text, Some(next)) == InLine(Some(next))
    ensures Output(Outside, "-- " + text, Some(next)) == []
  {
    CommentAt("-- " + text, |text| + 3, Some(next));
  }

  lemma LineScan(line: D.LineOf, next: Option<char>)
    requires WellFormed(line)
    ensures ModeAfter(Outside, D.Line(line) + "\n", next) == Outside
    ensures Output(Outside, D.Line(line) + "\n", next) == LineEvents(line)
  {
    LineEnd(next);
    ModeConcat(Outside, D.Line(line), "\n", next);
    OutputConcat(Outside, D.Line(line), "\n", next);
    match line
    case Statement(sql) =>
      assert sql + ";" + [] == sql + ";";
      BreakOutput(sql, [], Some('\n'));
    case Comment(text) => CommentScan(text, '\n');
    case Blank =>
  }

  function Emitted(statements: seq<string>): seq<string> {
    if statements == [] then []
    else WithStatement(Emitted(statements[..|statements| - 1]), statements[|statements| - 1])
  }

  ghost predicate AllSpace(s: string) {
    forall c :: c in s ==> IsSpace(c)
  }

  lemma KeptThenBreak(events: seq<Event>, sql: string)
    requires AllSpace(Collect(events).buffer)
    ensures Statements(events + Keeps(sql)) == WithStatement(Collect(events).statements, sql)
  {
    CollectKeeps(events, sql);
    StripLeadingSpace(Collect(events).buffer, sql);
  }

  lemma StatementCollects(events: seq<Event>, sql: string)
    requires AllSpace(Collect(events).buffer)
    ensures Collect(events + LineEvents(D.Statement(sql)))
         == Collected(WithStatement(Collect(events).statements, sql), "\n")
  {
    var kept, end := events + Keeps(sql), Keeps("\n");
    KeptThenBreak(events, sql);
    CollectBreak(kept, end);
    KeepsCollect("\n");
    Regroup(events, Keeps(sql) + [Break], end);
    Regroup(events, Keeps(sql), [Break]);
  }

  ghost predicate Scanned(lines: seq<D.LineOf>, events: seq<Event>) {
    Collect(events).statements == Emitted(D.Sql(lines)) && AllSpace(Collect(events).buffer)
  }

  lemma LineCollects(lines: seq<D.LineOf>, line: D.LineOf, events: seq<Event>)
    requires Scanned(lines, events)
    ensures Scanned(lines + [line], events + LineEvents(line))
  {
    D.SqlAppend(lines, line);
    if line.Statement? {
      StatementCollects(events, line.sql);
      var sql := D.Sql(lines);
      assert (sql + [line.sql])[..|sql|] == sql;
    } else {
      CollectKeeps(events, "\n");
    }
  }

  lemma {:induction false} TextMode(lines: seq<D.LineOf>, next: Option<char>)
    requires forall line :: line in lines ==> WellFormed(line)
    ensures ModeAfter(Outside, D.Text(lines), next) == Outside
  {
    if lines != [] {
      var n := |lines| - 1;
      var earlier, line := D.Text(lines[..n]), D.Line(lines[n]) + "\n";
      TextMode(lines[..n], First(line, next));
      LineScan(lines[n], next);
      assert D.Text(lines) == earlier + line;
      ModeConcat(Outside, earlier, line, next);
    }
  }

  lemma OneMoreLine(lines: seq<D.LineOf>, line: D.LineOf, text: string, next: Option<char>)
    requires WellFormed(line)
    requires var seam := First(D.Line(line) + "\n", next);
      ModeAfter(Outside, text, seam) == Outside && Scanned(lines, Output(Outside, text, seam))
    ensures Scanned(lines + [line], Output(Outside, text + (D.Line(line) + "\n"), next))
  {
    var seam := First(D.Line(line) + "\n", next);
    LineScan(line, next);
    OutputConcat(Outside, text, D.Line(line) + "\n", next);
    LineCollects(lines, line, Output(Outside, text, seam));
  }

  lemma TextStep(lines: seq<D.LineOf>, n: nat)
    requires n < |lines|
    ensures lines[..n + 1] == lines[..n] + [lines[n]]
    ensures D.Text(lines[..n + 1]) == D.Text(lines[..n]) + (D.Line(lines[n]) + "\n")
  {
    assert lines[..n + 1][..n] == lines[..n];
  }

  lemma {:induction false} TextScan(lines: seq<D.LineOf>, n: nat, next: Option<char>)
    requires n <= |lines| && forall line :: line in lines ==> WellFormed(line)
    ensures Scanned(lines[..n], Output(Outside, D.Text(lines[..n]), next))
  {
    if n > 0 {
      var seam := First(D.Line(lines[n - 1]) + "\n", next);
      TextMode(lines[..n - 1], seam);
      TextScan(lines, n - 1, seam);
      TextStep(lines, n - 1);
      OneMoreLine(lines[..n - 1], lines[n - 1], D.Text(lines[..n - 1]), next);
    }
  }

  lemma {:induction false} SpaceStripsAway(s: string)
    requires AllSpace(s)
    ensures Strip(s) == []
  {
    assert s + [] == s;
    StripLeadingSpace(s, []);
  }

  lemma LinesSplit(lines: seq<D.LineOf>)
    requires forall line :: line in lines ==> WellFormed(line)
    ensures Split(D.Text(lines)) == Emitted(D.Sql(lines))
  {
    TextScan(lines, |lines|, None);
    assert lines[..|lines|] == lines;
    SpaceStripsAway(Collect(Output(Outside, D.Text(lines), None)).buffer);
  }

  lemma {:induction false} TrimmedEmitted(statements: seq<string>)
    requires AllTrimmed(statements)
    ensures Emitted(statements) == statements
  {
    if statements != [] {
      var n := |statements| - 1;
      assert statements == statements[..n] + [statements[n]];
      TrimmedEmitted(statements[..n]);
      StripFixed(statements[n]);
    }
  }
}
