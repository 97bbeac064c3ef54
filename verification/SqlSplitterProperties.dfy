// What the statement splitter promises: it composes at a semicolon outside quotes and comments, and
// every statement is non-empty and trimmed.

module SqlSplitterProperties {
  import opened Wrappers
  import opened Seqs
  import opened Text
  import opened SqlSplitter

  function First(s: string, next: Option<char>): Option<char> {
    if s == [] then next else Some(s[0])
  }

  lemma {:induction false} PrefixScan(m: Mode, a: string, b: string, i: nat, next: Option<char>)
    requires i <= |a|
    ensures ModeAt(m, a + b, i, next) == ModeAt(m, a, i, First(b, next))
    ensures OutputAt(m, a + b, i, next) == OutputAt(m, a, i, First(b, next))
  {
    if i > 0 {
      PrefixScan(m, a, b, i - 1, next);
    }
  }

  lemma {:induction false} SuffixMode(m: Mode, a: string, b: string, i: nat, next: Option<char>)
    requires i <= |b|
    ensures ModeAt(m, a + b, |a| + i, next) == ModeAt(ModeAfter(m, a, First(b, next)), b, i, next)
  {
    if i == 0 {
      PrefixScan(m, a, b, |a|, next);
    } else {
      SuffixMode(m, a, b, i - 1, next);
    }
  }

  lemma SameEmission(m: Mode, a: string, b: string, i: nat, next: Option<char>) returns (emitted: seq<Event>)
    requires 0 < i <= |b|
    ensures OutputAt(m, a + b, |a| + i, next) == OutputAt(m, a + b, |a| + i - 1, next) + emitted
    ensures
      var m' := ModeAfter(m, a, First(b, next));
      OutputAt(m', b, i, next) == OutputAt(m', b, i - 1, next) + emitted
  {
    SuffixMode(m, a, b, i - 1, next);
    emitted := Emits(ModeAt(ModeAfter(m, a, First(b, next)), b, i - 1, next), b[i - 1], NextAt(b, i, next));
  }

  lemma {:induction false} SuffixOutput(m: Mode, a: string, b: string, i: nat, next: Option<char>)
    requires i <= |b|
    ensures OutputAt(m, a + b, |a| + i, next)
         == Output(m, a, First(b, next)) + OutputAt(ModeAfter(m, a, First(b, next)), b, i, next)
  {
    if i == 0 {
      PrefixScan(m, a, b, |a|, next);
    } else {
      SuffixOutput(m, a, b, i - 1, next);
      var emitted := SameEmission(m, a, b, i, next);
      Regroup(Output(m, a, First(b, next)), OutputAt(ModeAfter(m, a, First(b, next)), b, i - 1, next), emitted);
    }
  }

  lemma ModeConcat(m: Mode, a: string, b: string, next: Option<char>)
    ensures ModeAfter(m, a + b, next) == ModeAfter(ModeAfter(m, a, First(b, next)), b, next)
  {
    SuffixMode(m, a, b, |b|, next);
  }

  lemma OutputConcat(m: Mode, a: string, b: string, next: Option<char>)
    ensures Output(m, a + b, next)
         == Output(m, a, First(b, next)) + Output(ModeAfter(m, a, First(b, next)), b, next)
  {
    SuffixOutput(m, a, b, |b|, next);
  }

  // What follows the text is not seen before its last character.
  lemma {:induction false} InnerScan(m: Mode, s: string, i: nat, a: Option<char>, b: Option<char>)
    requires i < |s|
    ensures ModeAt(m, s, i, a) == ModeAt(m, s, i, b) && OutputAt(m, s, i, a) == OutputAt(m, s, i, b)
  {
    if i > 0 {
      InnerScan(m, s, i - 1, a, b);
    }
  }

  predicate Neutral(next: Option<char>) {
    next.None? || next.value !in {'-', '*', '/', '\n'}
  }

  // Only these characters tell the scanner anything before it reaches them.
  lemma NextIrrelevant(m: Mode, s: string, a: Option<char>, b: Option<char>)
    requires Neutral(a) && Neutral(b)
    ensures ModeAfter(m, s, a) == ModeAfter(m, s, b) && Output(m, s, a) == Output(m, s, b)
  {
    if s != [] {
      InnerScan(m, s, |s| - 1, a, b);
    }
  }

  lemma {:induction false} CollectBreakTo(before: seq<Event>, after: seq<Event>, k: nat)
    requires k <= |after|
    ensures CollectTo(before + [Break] + after, |before| + 1 + k)
         == Collected(Statements(before) + CollectTo(after, k).statements, CollectTo(after, k).buffer)
  {
    var all := before + [Break] + after;
    if k == 0 {
      assert all == before + ([Break] + after);
      CollectPrefix(before, [Break] + after, |before|);
    } else {
      CollectBreakTo(before, after, k - 1);
      assert all[|before| + k] == after[k - 1];
    }
  }

  lemma CollectBreak(before: seq<Event>, after: seq<Event>)
    ensures Collect(before + [Break] + after)
         == Collected(Statements(before) + Collect(after).statements, Collect(after).buffer)
  {
    CollectBreakTo(before, after, |after|);
  }

  lemma StatementsBreak(before: seq<Event>, after: seq<Event>)
    ensures Statements(before + [Break] + after) == Statements(before) + Statements(after)
  {
    CollectBreak(before, after);
  }

  lemma BreakOutput(a: string, b: string, next: Option<char>)
    requires ModeAfter(Outside, a, None) == Outside
    ensures ModeAfter(Outside, a + ";" + b, next) == ModeAfter(Outside, b, next)
    ensures Output(Outside, a + ";" + b, next) == Output(Outside, a, None) + [Break] + Output(Outside, b, next)
  {
    NextIrrelevant(Outside, a, None, Some(';'));
    ModeConcat(Outside, a, ";", First(b, next));
    OutputConcat(Outside, a, ";", First(b, next));
    OneChar(Outside, ';', First(b, next));
    ModeConcat(Outside, a + ";", b, next);
    OutputConcat(Outside, a + ";", b, next);
  }

  // A semicolon outside quotes and comments cuts the work in two.
  lemma SplitComposes(a: string, b: string)
    requires ModeAfter(Outside, a, None) == Outside
    ensures Split(a + ";" + b) == Split(a) + Split(b)
  {
    BreakOutput(a, b, None);
    StatementsBreak(Output(Outside, a, None), Output(Outside, b, None));
  }

  lemma OneChar(m: Mode, c: char, next: Option<char>)
    ensures ModeAfter(m, [c], next) == NextMode(m, c, next)
    ensures Output(m, [c], next) == Emits(m, c, next)
  {
    assert ModeAt(m, [c], 0, next) == m && OutputAt(m, [c], 0, next) == [];
    assert OutputAt(m, [c], 1, next) == [] + Emits(m, c, next);
  }

  ghost predicate AllTrimmed(statements: seq<string>) {
    forall s :: s in statements ==> s != [] && Trimmed(s)
  }

  lemma {:induction false} CollectTrimmed(events: seq<Event>, k: nat)
    requires k <= |events|
    ensures AllTrimmed(CollectTo(events, k).statements)
  {
    if k > 0 {
      CollectTrimmed(events, k - 1);
      StripTrims(CollectTo(events, k - 1).buffer);
    }
  }

  lemma StatementsTrimmed(sql: string)
    ensures AllTrimmed(Split(sql))
  {
    CollectTrimmed(Output(Outside, sql, None), |Output(Outside, sql, None)|);
    StripTrims(Collect(Output(Outside, sql, None)).buffer);
  }

  // ---- text the splitter leaves alone -------------------------------------------------------

  function Keeps(s: string): (events: seq<Event>)
    ensures |events| == |s| && forall i :: 0 <= i < |s| ==> events[i] == Keep(s[i])
  {
    seq(|s|, i requires 0 <= i < |s| => Keep(s[i]))
  }

  lemma {:induction false} CollectKeepsTo(events: seq<Event>, s: string, k: nat)
    requires k <= |s|
    ensures CollectTo(events + Keeps(s), |events| + k)
         == Collected(Collect(events).statements, Collect(events).buffer + s[..k])
  {
    if k == 0 {
      CollectPrefix(events, Keeps(s), |events|);
    } else {
      CollectKeepsTo(events, s, k - 1);
      assert s[..k] == s[..k - 1] + [s[k - 1]];
    }
  }

  lemma CollectKeeps(events: seq<Event>, s: string)
    ensures Collect(events + Keeps(s)) == Collected(Collect(events).statements, Collect(events).buffer + s)
  {
    CollectKeepsTo(events, s, |s|);
    assert s[..|s|] == s;
  }

  lemma KeepsCollect(s: string)
    ensures Collect(Keeps(s)) == Collected([], s)
  {
    CollectKeeps([], s);
    assert [] + Keeps(s) == Keeps(s);
  }

  // Scanned from m to m', every character is kept.
  ghost predicate Passes(m: Mode, s: string, m': Mode) {
    ModeAfter(m, s, None) == m' && Output(m, s, None) == Keeps(s)
  }

  // Text without comments and without semicolons outside quotes, its quotes all closed.
  ghost predicate Whole(s: string) {
    Passes(Outside, s, Outside)
  }

  predicate Seamless(a: string, b: string) {
    a == [] || b == [] || Neutral(Some(b[0])) || a[|a| - 1] !in {'-', '/', '*', '#'}
  }

  lemma SeamHidden(m: Mode, a: string, b: string)
    requires Seamless(a, b) && b != [] && ModeAfter(m, a, None) !in {Line, Block}
    ensures ModeAfter(m, a, Some(b[0])) == ModeAfter(m, a, None)
    ensures Output(m, a, Some(b[0])) == Output(m, a, None)
  {
    if a != [] {
      InnerScan(m, a, |a| - 1, Some(b[0]), None);
    }
  }

  lemma PassesConcat(m: Mode, a: string, m': Mode, b: string, m'': Mode)
    requires Passes(m, a, m') && Passes(m', b, m'') && Seamless(a, b) && m' !in {Line, Block}
    ensures Passes(m, a + b, m'')
  {
    ModeConcat(m, a, b, None);
    OutputConcat(m, a, b, None);
    if b != [] {
      SeamHidden(m, a, b);
    }
    assert Keeps(a + b) == Keeps(a) + Keeps(b);
  }

  lemma WholeConcat(a: string, b: string)
    requires Whole(a) && Whole(b) && Seamless(a, b)
    ensures Whole(a + b)
  {
    PassesConcat(Outside, a, Outside, b, Outside);
  }

  lemma PassesChar(m: Mode, c: char, m': Mode)
    requires NextMode(m, c, None) == m' && Emits(m, c, None) == [Keep(c)]
    ensures Passes(m, [c], m')
  {
    OneChar(m, c, None);
  }

  predicate PlainAt(s: string, i: nat)
    requires i < |s|
  {
    && s[i] !in QUOTES && s[i] != '#' && s[i] != ';'
    && !(s[i] == '-' && Peek(s, i + 1) == Some('-'))
    && !(s[i] == '/' && Peek(s, i + 1) == Some('*'))
  }

  predicate Plain(s: string) {
    forall i :: 0 <= i < |s| ==> PlainAt(s, i)
  }

  lemma {:induction false} PlainScan(s: string, n: nat)
    requires Plain(s) && n <= |s|
    ensures ModeAt(Outside, s, n, None) == Outside && OutputAt(Outside, s, n, None) == Keeps(s[..n])
  {
    if n > 0 {
      PlainScan(s, n - 1);
      assert PlainAt(s, n - 1);
      assert Keeps(s[..n]) == Keeps(s[..n - 1]) + [Keep(s[n - 1])];
    }
  }

  lemma PlainIsWhole(s: string)
    requires Plain(s)
    ensures Whole(s)
  {
    PlainScan(s, |s|);
    assert s[..|s|] == s;
  }
}
