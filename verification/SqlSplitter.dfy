// Cutting SQL text into statements (app/utils/backups.py, _split_sql_statements). The scanner of the
// source jumps over comments by index; its meaning is given by an automaton that looks one character
// ahead and says of every character whether it is kept, dropped or ends a statement.

module SqlSplitter {
  import opened Wrappers
  import opened Text

  datatype Mode =
    | Outside
    | Quoted(quote: char, escaped: bool)
    | Line         // in a comment up to the end of its line
    | BlockOpen    // between the two characters that open a block comment
    | Block
    | BlockClose   // between the two characters that close it

  datatype Event = Keep(kept: char) | Break

  const QUOTES: set<char> := {'\'', '"', '`'}

  predicate OpensLine(c: char, next: Option<char>) {
    (c == '-' && next == Some('-')) || c == '#'
  }

  predicate OpensBlock(c: char, next: Option<char>) {
    c == '/' && next == Some('*')
  }

  function InLine(next: Option<char>): Mode {
    if next == Some('\n') then Outside else Line
  }

  function NextMode(m: Mode, c: char, next: Option<char>): Mode {
    match m
    case Outside =>
      if OpensLine(c, next) then InLine(next)
      else if OpensBlock(c, next) then BlockOpen
      else if c in QUOTES then Quoted(c, false)
      else Outside
    case Quoted(quote, escaped) =>
      if escaped then Quoted(quote, false)
      else if c == '\\' then Quoted(quote, true)
      else if c == quote then Outside
      else m
    case Line => InLine(next)
    case BlockOpen => Block
    case Block => if c == '*' && next == Some('/') then BlockClose else Block
    case BlockClose => Outside
  }

  function Emits(m: Mode, c: char, next: Option<char>): seq<Event> {
    match m
    case Outside =>
      if OpensLine(c, next) || OpensBlock(c, next) then []
      else if c == ';' then [Break]
      else [Keep(c)]
    case Quoted(_, _) => [Keep(c)]
    case _ => []
  }

  // The character at i, or the one that follows s.
  function NextAt(s: string, i: nat, next: Option<char>): Option<char> {
    if i < |s| then Some(s[i]) else next
  }

  // The mode before index i of s, when the character next follows s.
  function ModeAt(m: Mode, s: string, i: nat, next: Option<char>): Mode
    requires i <= |s|
  {
    if i == 0 then m else NextMode(ModeAt(m, s, i - 1, next), s[i - 1], NextAt(s, i, next))
  }

  function OutputAt(m: Mode, s: string, i: nat, next: Option<char>): seq<Event>
    requires i <= |s|
  {
    if i == 0 then []
    else OutputAt(m, s, i - 1, next) + Emits(ModeAt(m, s, i - 1, next), s[i - 1], NextAt(s, i, next))
  }

  function ModeAfter(m: Mode, s: string, next: Option<char>): Mode {
    ModeAt(m, s, |s|, next)
  }

  function Output(m: Mode, s: string, next: Option<char>): seq<Event> {
    OutputAt(m, s, |s|, next)
  }

  datatype Collected = Collected(statements: seq<string>, buffer: string)

  function WithStatement(statements: seq<string>, buffer: string): seq<string> {
    if Strip(buffer) != [] then statements + [Strip(buffer)] else statements
  }

  function Gather(c: Collected, e: Event): Collected {
    match e
    case Keep(kept) => Collected(c.statements, c.buffer + [kept])
    case Break => Collected(WithStatement(c.statements, c.buffer), [])
  }

  function CollectTo(events: seq<Event>, k: nat): Collected
    requires k <= |events|
  {
    if k == 0 then Collected([], []) else Gather(CollectTo(events, k - 1), events[k - 1])
  }

  function Collect(events: seq<Event>): Collected {
    CollectTo(events, |events|)
  }

  function Statements(events: seq<Event>): seq<string> {
    WithStatement(Collect(events).statements, Collect(events).buffer)
  }

  function Split(sql: string): seq<string> {
    Statements(Output(Outside, sql, None))
  }

  // ---- the scanner --------------------------------------------------------------------------

  function Peek(s: string, i: nat): Option<char> {
    if i < |s| then Some(s[i]) else None
  }

  // What the scanner has when it stands before index i.
  datatype Scan = Scan(mode: Mode, collected: Collected)

  function GatherAny(c: Collected, emitted: seq<Event>): Collected {
    if emitted == [] then c else Gather(c, emitted[0])
  }

  function ScanTo(sql: string, i: nat): Scan
    requires i <= |sql|
  {
    if i == 0 then Scan(Outside, Collected([], []))
    else
      var before, c, next := ScanTo(sql, i - 1), sql[i - 1], Peek(sql, i);
      Scan(NextMode(before.mode, c, next), GatherAny(before.collected, Emits(before.mode, c, next)))
  }

  ghost predicate At(sql: string, i: nat, m: Mode, statements: seq<string>, buffer: string)
    requires i <= |sql|
  {
    ScanTo(sql, i) == Scan(m, Collected(statements, buffer))
  }

  lemma {:induction false} CollectPrefix(a: seq<Event>, b: seq<Event>, k: nat)
    requires k <= |a|
    ensures CollectTo(a + b, k) == CollectTo(a, k)
  {
    if k > 0 {
      CollectPrefix(a, b, k - 1);
    }
  }

  lemma CollectAppend(events: seq<Event>, emitted: seq<Event>)
    requires |emitted| <= 1
    ensures Collect(events + emitted) == GatherAny(Collect(events), emitted)
  {
    CollectPrefix(events, emitted, |events|);
    if emitted == [] {
      assert events + emitted == events;
    }
  }

  lemma EmitsAtMostOne(m: Mode, c: char, next: Option<char>)
    ensures |Emits(m, c, next)| <= 1
  {
  }

  lemma OutputStep(m: Mode, s: string, i: nat, next: Option<char>)
    requires 0 < i <= |s|
    ensures OutputAt(m, s, i, next)
         == OutputAt(m, s, i - 1, next) + Emits(ModeAt(m, s, i - 1, next), s[i - 1], NextAt(s, i, next))
  {
  }

  lemma ScanStep(sql: string, i: nat, m: Mode, c: Collected)
    requires 0 < i <= |sql| && ScanTo(sql, i - 1) == Scan(m, c)
    ensures ScanTo(sql, i).collected == GatherAny(c, Emits(m, sql[i - 1], NextAt(sql, i, None)))
  {
  }

  lemma {:induction false} ScanMode(sql: string, i: nat)
    requires i <= |sql|
    ensures ScanTo(sql, i).mode == ModeAt(Outside, sql, i, None)
  {
    if i > 0 {
      ScanMode(sql, i - 1);
    }
  }

  // Step by step the scanner has what the automaton emits.
  lemma {:induction false} ScanCollected(sql: string, i: nat)
    requires i <= |sql|
    ensures ScanTo(sql, i).collected == Collect(OutputAt(Outside, sql, i, None))
  {
    if i > 0 {
      var m, next := ModeAt(Outside, sql, i - 1, None), NextAt(sql, i, None);
      var events := OutputAt(Outside, sql, i - 1, None);
      ScanCollected(sql, i - 1);
      ScanMode(sql, i - 1);
      ScanStep(sql, i, m, Collect(events));
      OutputStep(Outside, sql, i, None);
      EmitsAtMostOne(m, sql[i - 1], next);
      CollectAppend(events, Emits(m, sql[i - 1], next));
    }
  }

  lemma Advance(sql: string, i: nat, m: Mode, statements: seq<string>, buffer: string)
    requires i < |sql| && At(sql, i, m, statements, buffer)
    ensures
      var next := Peek(sql, i + 1);
      ScanTo(sql, i + 1)
      == Scan(NextMode(m, sql[i], next), GatherAny(Collected(statements, buffer), Emits(m, sql[i], next)))
  {
  }

  lemma KeepsChar(sql: string, i: nat, m: Mode, statements: seq<string>, buffer: string)
    requires i < |sql| && At(sql, i, m, statements, buffer)
    requires Emits(m, sql[i], Peek(sql, i + 1)) == [Keep(sql[i])]
    ensures At(sql, i + 1, NextMode(m, sql[i], Peek(sql, i + 1)), statements, buffer + [sql[i]])
  {
    Advance(sql, i, m, statements, buffer);
  }

  lemma EndsStatement(sql: string, i: nat, statements: seq<string>, buffer: string)
    requires i < |sql| && At(sql, i, Outside, statements, buffer) && sql[i] == ';'
    ensures At(sql, i + 1, Outside, WithStatement(statements, buffer), [])
  {
    Advance(sql, i, Outside, statements, buffer);
  }

  predicate Stands(s: string, text: string, i: nat) {
    i + |text| <= |s| && s[i..i + |text|] == text
  }

  method Find(s: string, text: string, start: nat) returns (found: Option<nat>)
    requires start <= |s| && |text| > 0
    ensures found.Some? ==> start <= found.value && Stands(s, text, found.value)
    ensures forall i :: start <= i < (if found.Some? then found.value else |s|) ==> !Stands(s, text, i)
  {
    for i := start to |s|
      invariant forall k :: start <= k < i ==> !Stands(s, text, k)
    {
      if Stands(s, text, i) {
        return Some(i);
      }
    }
    found := None;
  }

  // A line comment is dropped up to the line's end.
  lemma {:induction false} SkipLine(sql: string, i: nat, k: nat, statements: seq<string>, buffer: string)
    requires i < k <= |sql| && At(sql, i, Outside, statements, buffer)
    requires OpensLine(sql[i], Peek(sql, i + 1))
    requires forall j :: i <= j < k ==> sql[j] != '\n'
    ensures At(sql, k, InLine(Peek(sql, k)), statements, buffer)
  {
    if k == i + 1 {
      Advance(sql, i, Outside, statements, buffer);
    } else {
      SkipLine(sql, i, k - 1, statements, buffer);
      Advance(sql, k - 1, Line, statements, buffer);
    }
  }

  // Inside a block comment nothing is kept before it closes.
  lemma {:induction false} SkipBlock(sql: string, i: nat, k: nat, statements: seq<string>, buffer: string)
    requires i + 2 <= k <= |sql| && At(sql, i, Outside, statements, buffer)
    requires OpensBlock(sql[i], Peek(sql, i + 1))
    requires forall j :: i + 2 <= j < k ==> !(sql[j] == '*' && Peek(sql, j + 1) == Some('/'))
    ensures At(sql, k, Block, statements, buffer)
  {
    if k == i + 2 {
      Advance(sql, i, Outside, statements, buffer);
      Advance(sql, i + 1, BlockOpen, statements, buffer);
    } else {
      SkipBlock(sql, i, k - 1, statements, buffer);
      Advance(sql, k - 1, Block, statements, buffer);
    }
  }

  lemma LeaveBlock(sql: string, k: nat, statements: seq<string>, buffer: string)
    requires k + 2 <= |sql| && At(sql, k, Block, statements, buffer)
    requires sql[k] == '*' && sql[k + 1] == '/'
    ensures At(sql, k + 2, Outside, statements, buffer)
  {
    Advance(sql, k, Block, statements, buffer);
    Advance(sql, k + 1, BlockClose, statements, buffer);
  }

  lemma PairStands(s: string, a: char, b: char, i: nat)
    requires i <= |s|
    ensures Stands(s, [a, b], i) <==> i < |s| && s[i] == a && Peek(s, i + 1) == Some(b)
  {
    if i + 2 <= |s| {
      assert s[i..i + 2] == [s[i], s[i + 1]];
    }
  }

  method SplitSqlStatements(sql: string) returns (statements: seq<string>)
    ensures statements == Split(sql)
  {
    statements := [];
    var buffer: string := [];
    var quote: Option<char> := None;
    var escaped := false;
    var index := 0;
    while index < |sql|
      invariant index <= |sql|
      invariant quote.None? ==> !escaped
      invariant At(sql, index, if quote.Some? then Quoted(quote.value, escaped) else Outside, statements, buffer)
      decreases |sql| - index
    {
      var c := sql[index];
      var next := Peek(sql, index + 1);
      if quote.Some? {
        KeepsChar(sql, index, Quoted(quote.value, escaped), statements, buffer);
        buffer := buffer + [c];
        if escaped {
          escaped := false;
        } else if c == '\\' {
          escaped := true;
        } else if c == quote.value {
          quote := None;
        }
        index := index + 1;
      } else if OpensLine(c, next) {
        var end := FindLineEnd(sql, index);
        SkipLine(sql, index, if end.Some? then end.value else |sql|, statements, buffer);
        if end.None? {
          break;
        }
        index := end.value;
      } else if OpensBlock(c, next) {
        var end := FindBlockEnd(sql, index + 2);
        SkipBlock(sql, index, if end.Some? then end.value else |sql|, statements, buffer);
        if end.None? {
          break;
        }
        LeaveBlock(sql, end.value, statements, buffer);
        index := end.value + 2;
      } else if c in QUOTES {
        KeepsChar(sql, index, Outside, statements, buffer);
        quote := Some(c);
        buffer := buffer + [c];
        index := index + 1;
      } else if c == ';' {
        EndsStatement(sql, index, statements, buffer);
        var statement := Strip(buffer);
        if statement != [] {
          statements := statements + [statement];
        }
        buffer := [];
        index := index + 1;
      } else {
        KeepsChar(sql, index, Outside, statements, buffer);
        buffer := buffer + [c];
        index := index + 1;
      }
    }
    ScanCollected(sql, |sql|);
    var statement := Strip(buffer);
    if statement != [] {
      statements := statements + [statement];
    }
  }

  method FindLineEnd(sql: string, start: nat) returns (end: Option<nat>)
    requires start < |sql| && sql[start] != '\n'
    ensures end.Some? ==> start < end.value < |sql| && sql[end.value] == '\n'
    ensures forall j :: start <= j < (if end.Some? then end.value else |sql|) ==> sql[j] != '\n'
  {
    end := Find(sql, "\n", start);
    forall j | start <= j < |sql| ensures Stands(sql, "\n", j) <==> sql[j] == '\n' {
      assert sql[j..j + 1] == [sql[j]];
    }
  }

  method FindBlockEnd(sql: string, start: nat) returns (end: Option<nat>)
    requires start <= |sql|
    ensures end.Some? ==> start <= end.value && end.value + 2 <= |sql| && sql[end.value] == '*' && sql[end.value + 1] == '/'
    ensures forall j :: start <= j < (if end.Some? then end.value else |sql|) ==>
      !(sql[j] == '*' && Peek(sql, j + 1) == Some('/'))
  {
    end := Find(sql, "*/", start);
    forall j | start <= j < |sql| ensures Stands(sql, "*/", j) <==> sql[j] == '*' && Peek(sql, j + 1) == Some('/') {
      PairStands(sql, '*', '/', j);
    }
  }
}
