// The chain of replacements is one pass, and every written value is read back.

module SqlLiteralProperties {
  import opened Wrappers
  import opened SqlLiterals

  // ---- the chain of replacements is one pass ------------------------------------------------

  function EscapedChar(c: char): string {
    if c == '\\' then "\\\\"
    else if c == '\'' then "\\'"
    else if c == '\0' then "\\0"
    else if c == '\n' then "\\n"
    else if c == '\r' then "\\r"
    else if c == CONTROL_Z then "\\Z"
    else [c]
  }

  function EscapePass(s: string): string {
    if s == [] then [] else EscapePass(s[..|s| - 1]) + EscapedChar(s[|s| - 1])
  }

  lemma {:induction false} ReplaceConcat(a: string, b: string, c: char, image: string)
    ensures Replace(a + b, c, image) == Replace(a, c, image) + Replace(b, c, image)
    decreases |b|
  {
    if b == [] {
      assert a + b == a;
    } else {
      var n := |b| - 1;
      assert (a + b)[..|a + b| - 1] == a + b[..n];
      ReplaceConcat(a, b[..n], c, image);
    }
  }

  lemma ReplaceAbsent(s: string, c: char, image: string)
    requires c !in s
    ensures Replace(s, c, image) == s
  {
  }

  lemma ReplaceOne(c: char, image: string)
    ensures Replace([c], c, image) == image
  {
    assert [c][..0] == [];
    assert Replace([], c, image) == [];
  }

  lemma EscapeConcat(a: string, b: string)
    ensures Escape(a + b) == Escape(a) + Escape(b)
  {
    var a1, b1 := Replace(a, '\\', "\\\\"), Replace(b, '\\', "\\\\");
    var a2, b2 := Replace(a1, '\'', "\\'"), Replace(b1, '\'', "\\'");
    var a3, b3 := Replace(a2, '\0', "\\0"), Replace(b2, '\0', "\\0");
    var a4, b4 := Replace(a3, '\n', "\\n"), Replace(b3, '\n', "\\n");
    var a5, b5 := Replace(a4, '\r', "\\r"), Replace(b4, '\r', "\\r");
    ReplaceConcat(a, b, '\\', "\\\\");
    ReplaceConcat(a1, b1, '\'', "\\'");
    ReplaceConcat(a2, b2, '\0', "\\0");
    ReplaceConcat(a3, b3, '\n', "\\n");
    ReplaceConcat(a4, b4, '\r', "\\r");
    ReplaceConcat(a5, b5, CONTROL_Z, "\\Z");
  }

  // What the first k replacements make of one character.
  function Stage(c: char, k: nat): string {
    if k >= 1 && c == '\\' then "\\\\"
    else if k >= 2 && c == '\'' then "\\'"
    else if k >= 3 && c == '\0' then "\\0"
    else if k >= 4 && c == '\n' then "\\n"
    else if k >= 5 && c == '\r' then "\\r"
    else if k >= 6 && c == CONTROL_Z then "\\Z"
    else [c]
  }

  // No later replacement touches what an earlier one wrote.
  lemma EarlyStages(c: char)
    ensures Replace([c], '\\', "\\\\") == Stage(c, 1)
    ensures Replace(Stage(c, 1), '\'', "\\'") == Stage(c, 2)
    ensures Replace(Stage(c, 2), '\0', "\\0") == Stage(c, 3)
  {
    StageOne([c], c, '\\', "\\\\", Stage(c, 1));
    StageOne(Stage(c, 1), c, '\'', "\\'", Stage(c, 2));
    StageOne(Stage(c, 2), c, '\0', "\\0", Stage(c, 3));
  }

  lemma LineStage(c: char)
    ensures Replace(Stage(c, 3), '\n', "\\n") == Stage(c, 4)
  {
    StageOne(Stage(c, 3), c, '\n', "\\n", Stage(c, 4));
  }

  lemma ReturnStage(c: char)
    ensures Replace(Stage(c, 4), '\r', "\\r") == Stage(c, 5)
  {
    StageOne(Stage(c, 4), c, '\r', "\\r", Stage(c, 5));
  }

  lemma LastStage(c: char)
    ensures Replace(Stage(c, 5), CONTROL_Z, "\\Z") == Stage(c, 6)
  {
    StageOne(Stage(c, 5), c, CONTROL_Z, "\\Z", Stage(c, 6));
  }

  lemma EscapeOne(c: char)
    ensures Escape([c]) == EscapedChar(c)
  {
    EarlyStages(c);
    LineStage(c);
    ReturnStage(c);
    LastStage(c);
  }

  lemma StageOne(before: string, c: char, target: char, image: string, after: string)
    requires c == target ==> before == [c] && after == image
    requires c != target ==> target !in before && after == before
    ensures Replace(before, target, image) == after
  {
    if c == target {
      ReplaceOne(c, image);
    } else {
      ReplaceAbsent(before, target, image);
    }
  }

  lemma {:induction false} EscapeIsOnePass(text: string)
    ensures Escape(text) == EscapePass(text)
  {
    if text != [] {
      var n := |text| - 1;
      assert text == text[..n] + [text[n]];
      EscapeConcat(text[..n], [text[n]]);
      EscapeOne(text[n]);
      EscapeIsOnePass(text[..n]);
    }
  }

  // ---- reading back what was written --------------------------------------------------------

  lemma {:induction false} PassHead(text: string)
    requires text != []
    ensures EscapePass(text) == EscapedChar(text[0]) + EscapePass(text[1..])
  {
    var n := |text| - 1;
    if n > 0 {
      PassHead(text[..n]);
      assert text[..n][1..] == text[1..][..n - 1];
    }
  }

  lemma ReadsEscaped(c: char, rest: string)
    ensures ReadText(EscapedChar(c) + rest) == Prefixed([c], ReadText(rest))
  {
    var image := EscapedChar(c);
    var written := image + rest;
    assert written[|image|..] == rest;
    if |image| == 2 {
      assert written[0] == '\\' && written[1] == image[1];
      assert Unescaped(image[1]) == [c];
    } else {
      assert written[0] == c;
    }
  }

  lemma {:induction false} TextRoundTrip(text: string)
    ensures ReadText(EscapePass(text) + "'") == Some(text)
  {
    if text != [] {
      PassHead(text);
      TextRoundTrip(text[1..]);
      var rest := EscapePass(text[1..]) + "'";
      assert EscapePass(text) + "'" == EscapedChar(text[0]) + rest;
      ReadsEscaped(text[0], rest);
      assert text == [text[0]] + text[1..];
    }
  }

  lemma HexDigitReads(d: nat)
    requires d < 16
    ensures HexValue(HexDigit(d)) == Some(d)
  {
  }

  lemma {:induction false} HexRoundTrip(bytes: seq<Byte>)
    ensures ReadHex(Hex(bytes) + "'") == Some(bytes)
  {
    if bytes != [] {
      HexRoundTrip(bytes[1..]);
      HexStep(bytes[0], bytes[1..]);
      assert bytes == [bytes[0]] + bytes[1..];
    }
  }

  lemma HexStep(first: Byte, rest: seq<Byte>)
    requires ReadHex(Hex(rest) + "'") == Some(rest)
    ensures ReadHex(Hex([first] + rest) + "'") == Some([first] + rest)
  {
    HexDigitReads(first / 16);
    HexDigitReads(first % 16);
    assert ([first] + rest)[1..] == rest;
    ReadHexStep(HexDigit(first / 16), HexDigit(first % 16), Hex(rest), first, rest);
  }

  lemma ReadHexStep(high: char, low: char, text: string, first: Byte, rest: seq<Byte>)
    requires HexValue(high) == Some(first / 16) && HexValue(low) == Some(first % 16)
    requires ReadHex(text + "'") == Some(rest)
    ensures ReadHex([high, low] + text + "'") == Some([first] + rest)
  {
    assert ([high, low] + text + "'")[2..] == text + "'";
  }

  lemma NumberReads(digits: string)
    requires NumberText(digits)
    ensures ReadLiteral(digits) == Some(Number(digits))
  {
    assert digits[0] !in {'N', 'X', '\''};
  }

  lemma BytesRead(bytes: seq<Byte>)
    ensures ReadLiteral("X'" + Hex(bytes) + "'") == Some(Bytes(bytes))
  {
    var s := "X'" + Hex(bytes) + "'";
    HexRoundTrip(bytes);
    assert s[2..] == Hex(bytes) + "'" && s[..2] == "X'";
    assert s[0] == 'X';
  }

  lemma QuotedReads(body: string, text: string)
    requires ReadText(body + "'") == Some(text)
    ensures ReadLiteral("'" + body + "'") == Some(Text(text))
  {
    var s := "'" + body + "'";
    assert s[1..] == body + "'";
    assert s[0] == '\'' && s[..2][0] == '\'';
  }

  // MySQL reads every written value back.
  lemma LiteralRoundTrip(v: Value)
    requires ValidValue(v)
    ensures ReadLiteral(MysqlLiteral(v)) == Some(Stored(v))
  {
    match v
    case Null =>
    case Bytes(bytes) => BytesRead(bytes);
    case Bool(truth) => NumberReads(if truth then "1" else "0");
    case Number(digits) => NumberReads(digits);
    case Text(text) =>
      EscapeIsOnePass(text);
      TextRoundTrip(text);
      QuotedReads(EscapePass(text), text);
  }
}
