// Values as MySQL literals (app/utils/backups.py, _mysql_literal) and how MySQL reads them back
// (MySQL 8.0 Reference Manual, sections 9.1.1 and 9.1.4).

module SqlLiterals {
  import opened Wrappers

  type Byte = b: nat | b < 256

  // Numbers come with the text Python prints for them.
  datatype Value =
    | Null
    | Bytes(bytes: seq<Byte>)
    | Bool(truth: bool)
    | Number(digits: string)
    | Text(text: string)

  // str.replace of one character.
  function Replace(s: string, c: char, image: string): string {
    if s == [] then []
    else Replace(s[..|s| - 1], c, image) + if s[|s| - 1] == c then image else [s[|s| - 1]]
  }

  const CONTROL_Z: char := '\U{1a}'

  function Escape(text: string): string {
    Replace(
      Replace(
        Replace(
          Replace(
            Replace(
              Replace(text, '\\', "\\\\"),
              '\'', "\\'"),
            '\0', "\\0"),
          '\n', "\\n"),
        '\r', "\\r"),
      CONTROL_Z, "\\Z")
  }

  const HEX_DIGITS: string := "0123456789abcdef"

  function Hex(bytes: seq<Byte>): string {
    if bytes == [] then []
    else [HexDigit(bytes[0] / 16), HexDigit(bytes[0] % 16)] + Hex(bytes[1..])
  }

  function HexDigit(d: nat): char
    requires d < 16
  {
    HEX_DIGITS[d]
  }

  // The shape of what Python prints for a finite number.
  predicate NumberText(s: string) {
    && s != []
    && (s[0] == '-' || '0' <= s[0] <= '9')
    && (forall i :: 0 <= i < |s| ==> '0' <= s[i] <= '9' || s[i] in {'-', '+', '.', 'e'})
    && (forall i :: 0 <= i < |s| - 1 ==> s[i] == '-' ==> s[i + 1] != '-')
    && s[|s| - 1] != '-'
  }

  predicate ValidValue(v: Value) {
    match v
    case Number(digits) => NumberText(digits)
    case _ => true
  }

  function MysqlLiteral(v: Value): string
    requires ValidValue(v)
  {
    match v
    case Null => "NULL"
    case Bytes(bytes) => "X'" + Hex(bytes) + "'"
    case Bool(truth) => if truth then "1" else "0"
    case Number(digits) => digits
    case Text(text) => "'" + Escape(text) + "'"
  }

  // ---- reading a literal --------------------------------------------------------------------

  // The character an escape sequence stands for; a backslash before any other character but the two
  // wildcards is dropped.
  function Unescaped(c: char): string {
    if c == '0' then ['\0']
    else if c == 'b' then ['\U{8}']
    else if c == 'n' then "\n"
    else if c == 'r' then "\r"
    else if c == 't' then "\t"
    else if c == 'Z' then [CONTROL_Z]
    else if c == '%' || c == '_' then ['\\', c]
    else [c]
  }

  // The rest of a string literal after its opening quote.
  function ReadText(s: string): Option<string> {
    if s == [] then None
    else if s[0] == '\'' then
      if |s| == 1 then Some([])
      else if s[1] == '\'' then Prefixed("'", ReadText(s[2..]))
      else None
    else if s[0] == '\\' then
      if |s| == 1 then None else Prefixed(Unescaped(s[1]), ReadText(s[2..]))
    else Prefixed([s[0]], ReadText(s[1..]))
  }

  function Prefixed(start: string, rest: Option<string>): Option<string> {
    match rest
    case Some(text) => Some(start + text)
    case None => None
  }

  function HexValue(c: char): (d: Option<nat>)
    ensures d.Some? ==> d.value < 16
  {
    if '0' <= c <= '9' then Some((c - '0') as nat)
    else if 'a' <= c <= 'f' then Some((c - 'a') as nat + 10)
    else if 'A' <= c <= 'F' then Some((c - 'A') as nat + 10)
    else None
  }

  function ReadHex(s: string): Option<seq<Byte>> {
    if s == "'" then Some([])
    else if |s| < 3 then None
    else
      match (HexValue(s[0]), HexValue(s[1]), ReadHex(s[2..]))
      case (Some(high), Some(low), Some(rest)) => Some([16 * high + low] + rest)
      case _ => None
  }

  function ReadLiteral(s: string): Option<Value> {
    if s == "NULL" then Some(Null)
    else if |s| >= 2 && s[..2] == "X'" then
      match ReadHex(s[2..])
      case Some(bytes) => Some(Bytes(bytes))
      case None => None
    else if s != [] && s[0] == '\'' then
      match ReadText(s[1..])
      case Some(text) => Some(Text(text))
      case None => None
    else if NumberText(s) then Some(Number(s))
    else None
  }

  // MySQL has no truth values of its own.
  function Stored(v: Value): Value {
    match v
    case Bool(truth) => Number(if truth then "1" else "0")
    case _ => v
  }
}
