// Quoted identifiers under the statement splitter. The splitter takes a backslash inside backticks
// for an escape, MySQL does not: which identifiers survive is decided by the parity of the
// backslashes in front of every backtick and of the end.

module SqlIdentifiers {
  import opened Wrappers
  import opened Text
  import opened SqlLiterals
  import opened SqlSplitter
  import opened SqlSplitterProperties
  import opened SqlDump

  // s ends in an odd number of backslashes.
  predicate OddBackslashes(s: string) {
    s != [] && s[|s| - 1] == '\\' && !OddBackslashes(s[..|s| - 1])
  }

  predicate BacktickEscaped(name: string, i: nat)
    requires i < |name|
  {
    name[i] == '`' && OddBackslashes(name[..i])
  }

  predicate BackslashSafe(name: string) {
    !OddBackslashes(name) && forall i :: 0 <= i < |name| ==> !BacktickEscaped(name, i)
  }

  lemma NoBackslashIsSafe(name: string)
    requires '\\' !in name
    ensures BackslashSafe(name)
  {
  }

  const IN_NAME := Quoted('`', false)

  function Doubled(name: string): string {
    Replace(name, '`', "``")
  }

  function Unit(c: char): string {
    if c == '`' then "``" else [c]
  }

  lemma DoubledStep(name: string, n: nat)
    requires n < |name|
    ensures Doubled(name[..n + 1]) == Doubled(name[..n]) + Unit(name[n])
  {
    assert name[..n + 1][..n] == name[..n];
  }

  lemma UnitScan(m: Mode, c: char, next: Option<char>)
    ensures c == '`' ==>
      && ModeAfter(m, Unit(c), next) == NextMode(NextMode(m, c, Some(c)), c, next)
      && Output(m, Unit(c), next) == Emits(m, c, Some(c)) + Emits(NextMode(m, c, Some(c)), c, next)
    ensures c != '`' ==>
      ModeAfter(m, Unit(c), next) == NextMode(m, c, next) && Output(m, Unit(c), next) == Emits(m, c, next)
  {
    if c == '`' {
      assert "``" == "`" + "`";
      ModeConcat(m, "`", "`", next);
      OutputConcat(m, "`", "`", next);
      OneChar(m, '`', Some('`'));
      OneChar(NextMode(m, '`', Some('`')), '`', next);
    } else {
      OneChar(m, c, next);
    }
  }

  lemma NameStep(earlier: string, c: char, escaped: bool, next: Option<char>)
    requires ModeAfter(IN_NAME, earlier, Some(c)) == Quoted('`', escaped) && !(c == '`' && escaped)
    requires Output(IN_NAME, earlier, Some(c)) == Keeps(earlier)
    ensures ModeAfter(IN_NAME, earlier + Unit(c), next) == Quoted('`', c == '\\' && !escaped)
    ensures Output(IN_NAME, earlier + Unit(c), next) == Keeps(earlier + Unit(c))
  {
    ModeConcat(IN_NAME, earlier, Unit(c), next);
    OutputConcat(IN_NAME, earlier, Unit(c), next);
    UnitScan(Quoted('`', escaped), c, next);
    assert Keeps(earlier + Unit(c)) == Keeps(earlier) + Keeps(Unit(c));
  }

  // As long as no backtick is escaped, the scanner stays inside the name.
  lemma {:induction false} NameScan(name: string, n: nat, next: Option<char>)
    requires n <= |name| && forall i :: 0 <= i < n ==> !BacktickEscaped(name, i)
    ensures ModeAfter(IN_NAME, Doubled(name[..n]), next) == Quoted('`', OddBackslashes(name[..n]))
    ensures Output(IN_NAME, Doubled(name[..n]), next) == Keeps(Doubled(name[..n]))
  {
    if n > 0 {
      var c := name[n - 1];
      DoubledStep(name, n - 1);
      NameScan(name, n - 1, Some(c));
      assert !BacktickEscaped(name, n - 1);
      NameStep(Doubled(name[..n - 1]), c, OddBackslashes(name[..n - 1]), next);
      assert name[..n][..n - 1] == name[..n - 1];
    }
  }

  lemma IdentifierWhole(name: string)
    requires BackslashSafe(name)
    ensures Whole(QuoteIdentifier(name))
  {
    NameScan(name, |name|, None);
    assert name[..|name|] == name;
    var body := Doubled(name);
    OneChar(Outside, '`', None);
    OneChar(IN_NAME, '`', None);
    PassesConcat(Outside, "`", IN_NAME, body, IN_NAME);
    PassesConcat(Outside, "`" + body, IN_NAME, "`", Outside);
  }

  // ---- unsafe identifiers -------------------------------------------------------------------

  ghost predicate Lost(m: Mode, next: Option<char>) {
    && !(m.Quoted? && m.quote == '`')
    && (m == BlockClose ==> next == Some('/'))
    && (m == BlockOpen ==> next == Some('*'))
  }

  lemma LostStep(earlier: string, c: char, next: Option<char>)
    requires
      var m := ModeAfter(IN_NAME, earlier, Some(c));
      Lost(m, Some(c)) || (m == Quoted('`', true) && c == '`')
    ensures Lost(ModeAfter(IN_NAME, earlier + Unit(c), next), next)
  {
    ModeConcat(IN_NAME, earlier, Unit(c), next);
    UnitScan(ModeAfter(IN_NAME, earlier, Some(c)), c, next);
  }

  // Once outside the name, every later backtick of it comes as a pair and leads back outside.
  lemma {:induction false} LostScan(name: string, k: nat, n: nat, next: Option<char>)
    requires k < n <= |name| && BacktickEscaped(name, k)
    requires forall i :: 0 <= i < k ==> !BacktickEscaped(name, i)
    ensures Lost(ModeAfter(IN_NAME, Doubled(name[..n]), next), next)
  {
    var c := name[n - 1];
    if n == k + 1 {
      NameScan(name, k, Some(c));
    } else {
      LostScan(name, k, n - 1, Some(c));
    }
    LostStep(Doubled(name[..n - 1]), c, next);
    DoubledStep(name, n - 1);
  }

  // The mode in front of the closing backtick of an unsafe name.
  lemma UnsafeMode(name: string)
    requires !BackslashSafe(name)
    ensures
      var m := ModeAfter(IN_NAME, Doubled(name), Some('`'));
      Lost(m, Some('`')) || m == Quoted('`', true)
  {
    assert name[..|name|] == name;
    if exists i :: 0 <= i < |name| && BacktickEscaped(name, i) {
      var k := FirstEscaped(name, 0);
      LostScan(name, k, |name|, Some('`'));
    } else {
      NameScan(name, |name|, Some('`'));
    }
  }

  lemma {:induction false} FirstEscaped(name: string, from: nat) returns (k: nat)
    requires from <= |name| && exists i :: from <= i < |name| && BacktickEscaped(name, i)
    requires forall i :: 0 <= i < from ==> !BacktickEscaped(name, i)
    ensures k < |name| && BacktickEscaped(name, k)
    ensures forall i :: 0 <= i < k ==> !BacktickEscaped(name, i)
    decreases |name| - from
  {
    if BacktickEscaped(name, from) {
      k := from;
    } else {
      k := FirstEscaped(name, from + 1);
    }
  }

  // The end of an unsafe statement: the semicolon is text, or the last two characters are dropped.
  lemma UnsafeEnd(name: string)
    requires !BackslashSafe(name)
    ensures
      var s := QuoteIdentifier(name);
      var events := Output(Outside, s + ";", None);
      || (exists kept :: events == kept + [Keep(';')])
      || events == Output(Outside, "`" + Doubled(name), Some('`'))
  {
    var body := "`" + Doubled(name);
    var m := ModeAfter(IN_NAME, Doubled(name), Some('`'));
    UnsafeMode(name);
    OneChar(Outside, '`', First(Doubled(name), Some('`')));
    ModeConcat(Outside, "`", Doubled(name), Some('`'));
    assert ModeAfter(Outside, body, Some('`')) == m;
    assert QuoteIdentifier(name) + ";" == body + ("`" + ";");
    OutputConcat(Outside, body, "`" + ";", None);
    ClosingOutput(m);
    var kept, last := Output(Outside, body, Some('`')), Output(m, "`" + ";", None);
    if last == [] {
      assert kept + last == kept;
    } else {
      assert kept + last == (kept + [Keep('`')]) + [Keep(';')];
    }
  }

  // The closing backtick and the semicolon, read from a mode that the name does not end in.
  lemma ClosingOutput(m: Mode)
    requires Lost(m, Some('`')) || m == Quoted('`', true)
    ensures Output(m, "`" + ";", None) == [] || Output(m, "`" + ";", None) == [Keep('`')] + [Keep(';')]
  {
    OutputConcat(m, "`", ";", None);
    OneChar(m, '`', Some(';'));
    OneChar(NextMode(m, '`', Some(';')), ';', None);
  }

  function Total(statements: seq<string>): nat {
    if statements == [] then 0 else Total(statements[..|statements| - 1]) + |statements[|statements| - 1]|
  }

  lemma {:induction false} StripShortens(s: string)
    ensures |Strip(s)| <= |s|
  {
    StripLeftShortens(s);
    StripRightShortens(StripLeft(s));
  }

  lemma {:induction false} StripLeftShortens(s: string)
    ensures |StripLeft(s)| <= |s|
  {
    if s != [] && IsSpace(s[0]) {
      StripLeftShortens(s[1..]);
    }
  }

  lemma {:induction false} StripRightShortens(s: string)
    ensures |StripRight(s)| <= |s|
  {
    if s != [] && IsSpace(s[|s| - 1]) {
      StripRightShortens(s[..|s| - 1]);
    }
  }

  // Statements hold no more characters than were kept.
  lemma WithStatementTotal(statements: seq<string>, buffer: string)
    ensures Total(WithStatement(statements, buffer)) <= Total(statements) + |buffer|
  {
    StripShortens(buffer);
    var all := statements + [Strip(buffer)];
    assert all[..|statements|] == statements;
  }

  lemma {:induction false} CollectTotal(events: seq<Event>, k: nat)
    requires k <= |events|
    ensures Total(CollectTo(events, k).statements) + |CollectTo(events, k).buffer| <= k
  {
    if k > 0 {
      CollectTotal(events, k - 1);
      var c := CollectTo(events, k - 1);
      WithStatementTotal(c.statements, c.buffer);
    }
  }

  lemma StatementsTotal(events: seq<Event>)
    ensures Total(Statements(events)) <= |events|
  {
    CollectTotal(events, |events|);
    WithStatementTotal(Collect(events).statements, Collect(events).buffer);
  }

  lemma {:induction false} OutputLength(m: Mode, s: string, i: nat, next: Option<char>)
    requires i <= |s|
    ensures |OutputAt(m, s, i, next)| <= i
  {
    if i > 0 {
      OutputLength(m, s, i - 1, next);
    }
  }

  lemma {:induction false} StripKeepsEnd(s: string)
    requires s != [] && !IsSpace(s[|s| - 1])
    ensures Strip(s) != [] && Strip(s)[|Strip(s)| - 1] == s[|s| - 1]
  {
    StripLeftKeepsEnd(s);
  }

  lemma {:induction false} StripLeftKeepsEnd(s: string)
    requires s != [] && !IsSpace(s[|s| - 1])
    ensures StripLeft(s) != [] && StripLeft(s)[|StripLeft(s)| - 1] == s[|s| - 1]
  {
    if IsSpace(s[0]) {
      StripLeftKeepsEnd(s[1..]);
    }
  }

  lemma KeptEnd(kept: seq<Event>)
    ensures
      var statements := Statements(kept + [Keep(';')]);
      statements != [] && statements[|statements| - 1] != [] && statements[|statements| - 1][|statements[|statements| - 1]| - 1] == ';'
  {
    CollectPrefix(kept, [Keep(';')], |kept|);
    StripKeepsEnd(Collect(kept).buffer + [';']);
  }

  lemma WholeStatements(s: string)
    requires Trimmed(s) && s != []
    ensures Statements(Keeps(s)) == [s]
  {
    KeepsCollect(s);
    StripFixed(s);
  }

  lemma WholeSplits(s: string)
    requires Whole(s) && Trimmed(s) && s != []
    ensures Split(s + ";") == [s]
  {
    WholeStatements(s);
    SplitComposes(s, []);
    assert s + ";" + [] == s + ";";
  }

  // A quoted identifier survives as a statement exactly when it is backslash-safe.
  lemma IdentifierSurvivesExactlyWhen(name: string)
    ensures Split(QuoteIdentifier(name) + ";") == [QuoteIdentifier(name)] <==> BackslashSafe(name)
  {
    var s := QuoteIdentifier(name);
    if BackslashSafe(name) {
      IdentifierWhole(name);
      WholeSplits(s);
    } else {
      var events := Output(Outside, s + ";", None);
      UnsafeEnd(name);
      if events == Output(Outside, "`" + Doubled(name), Some('`')) {
        OutputLength(Outside, "`" + Doubled(name), |"`" + Doubled(name)|, Some('`'));
        StatementsTotal(events);
        assert [s][..0] == [];
        assert Total([s]) == |s|;
      } else {
        var kept :| events == kept + [Keep(';')];
        KeptEnd(kept);
      }
    }
  }

  // A name that ends in a backslash does not come back.
  lemma TrailingBackslashIsLost()
    ensures Split(QuoteIdentifier("a\\") + ";") != [QuoteIdentifier("a\\")]
  {
    var name := "a\\";
    assert name[..1] == "a" && name[|name| - 1] == '\\';
    assert !OddBackslashes("a") && OddBackslashes(name);
    IdentifierSurvivesExactlyWhen(name);
  }
}
