/** A reader for JSON text (RFC 8259 sections 2 to 7), and for files of printed log records.

    The same reader serves two dialects. `RFC` is the standard. `PRINTED` also accepts raw
    control characters inside strings and a member without a value, which is all that the
    printer can emit beyond the standard. */
module LogReader {
  import opened Decimal

  datatype Dialect = Dialect(rawControls: bool, emptyValues: bool)

  const RFC := Dialect(false, false)
  const PRINTED := Dialect(true, true)

  datatype Json =
    | Null
    | Bool(b: bool)
    | Number(digits: string)
    | String(chars: string)
    | Array(items: seq<Json>)
    | Object(members: seq<(string, Json)>)
    | Empty

  datatype Parse<+T> = Fail | Ok(value: T, rest: string)

  predicate IsSpace(c: char) {
    c == ' ' || c == '\t' || c == '\n' || c == '\r'
  }

  function SkipSpace(s: string): (r: string)
    ensures |r| <= |s|
    ensures r != [] ==> !IsSpace(r[0])
  {
    if s != [] && IsSpace(s[0]) then SkipSpace(s[1..]) else s
  }

  // ---------- strings (section 7) ----------

  predicate IsHex(c: char) {
    IsDigit(c) || 'a' <= c <= 'f' || 'A' <= c <= 'F'
  }

  function HexValue(c: char): nat
    requires IsHex(c)
  {
    if IsDigit(c) then (c - '0') as nat
    else if 'a' <= c <= 'f' then 10 + (c - 'a') as nat
    else 10 + (c - 'A') as nat
  }

  /** One escape sequence after its backslash; a surrogate half reads as the replacement character. */
  function ReadEscape(s: string): (r: Parse<char>)
    ensures r.Ok? ==> |r.rest| < |s|
  {
    if s == [] then Fail
    else match s[0]
      case '"' => Ok('"', s[1..])
      case '\\' => Ok('\\', s[1..])
      case '/' => Ok('/', s[1..])
      case 'b' => Ok('\U{8}', s[1..])
      case 'f' => Ok('\U{C}', s[1..])
      case 'n' => Ok('\n', s[1..])
      case 'r' => Ok('\r', s[1..])
      case 't' => Ok('\t', s[1..])
      case 'u' =>
        if |s| >= 5 && IsHex(s[1]) && IsHex(s[2]) && IsHex(s[3]) && IsHex(s[4]) then
          var code := 4096 * HexValue(s[1]) + 256 * HexValue(s[2]) + 16 * HexValue(s[3]) + HexValue(s[4]);
          Ok(if 0xD800 <= code < 0xE000 then '\U{FFFD}' else code as char, s[5..])
        else Fail
      case _ => Fail
  }

  /** The rest of a string literal whose opening quote has been read. */
  function ReadString(d: Dialect, s: string): (r: Parse<string>)
    ensures r.Ok? ==> |r.rest| < |s|
  {
    if s == [] then Fail
    else if s[0] == '"' then Ok("", s[1..])
    else if s[0] == '\\' then
      match ReadEscape(s[1..])
      case Fail => Fail
      case Ok(c, rest) => Prepend(c, ReadString(d, rest))
    else if s[0] < ' ' && !d.rawControls then Fail
    else Prepend(s[0], ReadString(d, s[1..]))
  }

  function Prepend(c: char, r: Parse<string>): Parse<string> {
    match r
    case Fail => Fail
    case Ok(chars, rest) => Ok([c] + chars, rest)
  }

  // ---------- numbers (section 6) ----------

  /** The length of the longest prefix of digits. */
  function DigitRun(s: string): (n: nat)
    ensures n <= |s|
  {
    if s != [] && IsDigit(s[0]) then 1 + DigitRun(s[1..]) else 0
  }

  function FractionLength(s: string): (n: nat)
    ensures n <= |s|
  {
    if s != [] && s[0] == '.' && DigitRun(s[1..]) > 0 then 1 + DigitRun(s[1..]) else 0
  }

  /** Digits with an optional sign before them. */
  function SignedRun(s: string): (n: nat)
    ensures n <= |s|
  {
    if s != [] && (s[0] == '+' || s[0] == '-') then
      if DigitRun(s[1..]) > 0 then 1 + DigitRun(s[1..]) else 0
    else DigitRun(s)
  }

  function ExponentLength(s: string): (n: nat)
    ensures n <= |s|
  {
    if s != [] && (s[0] == 'e' || s[0] == 'E') && SignedRun(s[1..]) > 0 then 1 + SignedRun(s[1..]) else 0
  }

  /** The length of the number that `s` starts with, 0 if none: no leading zeros. */
  function NumberLength(s: string): (n: nat)
    ensures n <= |s|
  {
    var sign := if s != [] && s[0] == '-' then 1 else 0;
    var whole := if sign < |s| && s[sign] == '0' then 1 else DigitRun(s[sign..]);
    if whole == 0 then 0
    else
      var point := sign + whole;
      var exponent := point + FractionLength(s[point..]);
      exponent + ExponentLength(s[exponent..])
  }

  // ---------- values, arrays and objects (sections 3 to 5) ----------

  predicate StartsWith(s: string, prefix: string) {
    |prefix| <= |s| && s[..|prefix|] == prefix
  }

  function ReadValue(d: Dialect, s: string): (r: Parse<Json>)
    ensures r.Ok? ==> |r.rest| <= |s|
    decreases |s|, 1
  {
    if s == [] then Fail
    else if s[0] == '"' then
      match ReadString(d, s[1..])
      case Fail => Fail
      case Ok(chars, rest) => Ok(String(chars), rest)
    else if s[0] == '{' then ReadObject(d, s)
    else if s[0] == '[' then
      var inner := SkipSpace(s[1..]);
      if inner != [] && inner[0] == ']' then Ok(Array([]), inner[1..])
      else match ReadElements(d, inner)
        case Fail => Fail
        case Ok(items, rest) => Ok(Array(items), rest)
    else if NumberLength(s) > 0 then Ok(Number(s[..NumberLength(s)]), s[NumberLength(s)..])
    else if StartsWith(s, "true") then Ok(Bool(true), s[4..])
    else if StartsWith(s, "false") then Ok(Bool(false), s[5..])
    else if StartsWith(s, "null") then Ok(Null, s[4..])
    else if d.emptyValues && (s[0] == ',' || s[0] == '}') then Ok(Empty, s)
    else Fail
  }

  function ReadElements(d: Dialect, s: string): (r: Parse<seq<Json>>)
    ensures r.Ok? ==> |r.rest| <= |s|
    decreases |s|, 2
  {
    match ReadValue(d, s)
    case Fail => Fail
    case Ok(item, afterItem) =>
      var tail := SkipSpace(afterItem);
      if tail == [] then Fail
      else if tail[0] == ']' then Ok([item], tail[1..])
      else if tail[0] != ',' then Fail
      else match ReadElements(d, SkipSpace(tail[1..]))
        case Fail => Fail
        case Ok(items, rest) => Ok([item] + items, rest)
  }

  function ReadObject(d: Dialect, s: string): (r: Parse<Json>)
    ensures r.Ok? ==> |r.rest| < |s|
    decreases |s|, 0
  {
    if s == [] || s[0] != '{' then Fail
    else
      var inner := SkipSpace(s[1..]);
      if inner != [] && inner[0] == '}' then Ok(Object([]), inner[1..])
      else match ReadMembers(d, inner)
        case Fail => Fail
        case Ok(members, rest) => Ok(Object(members), rest)
  }

  /** One `name : value`, with the space around it. */
  function ReadMember(d: Dialect, s: string): (r: Parse<(string, Json)>)
    ensures r.Ok? ==> |r.rest| < |s|
    decreases |s|, 0
  {
    var start := SkipSpace(s);
    if start == [] || start[0] != '"' then Fail
    else match ReadString(d, start[1..])
      case Fail => Fail
      case Ok(name, afterName) =>
        var colon := SkipSpace(afterName);
        if colon == [] || colon[0] != ':' then Fail
        else match ReadValue(d, SkipSpace(colon[1..]))
          case Fail => Fail
          case Ok(value, rest) => Ok((name, value), SkipSpace(rest))
  }

  function ReadMembers(d: Dialect, s: string): (r: Parse<seq<(string, Json)>>)
    ensures r.Ok? ==> |r.rest| < |s|
    decreases |s|, 1
  {
    match ReadMember(d, s)
    case Fail => Fail
    case Ok(member, tail) =>
      if tail == [] then Fail
      else if tail[0] == '}' then Ok([member], tail[1..])
      else if tail[0] != ',' then Fail
      else match ReadMembers(d, tail[1..])
        case Fail => Fail
        case Ok(members, rest) => Ok([member] + members, rest)
  }

  // ---------- records and files ----------

  /** One object and the line break that ends its record. */
  function ReadRecord(d: Dialect, s: string): (r: Parse<Json>)
    ensures r.Ok? ==> |r.rest| < |s|
  {
    match ReadObject(d, s)
    case Fail => Fail
    case Ok(record, rest) => if rest != [] && rest[0] == '\n' then Ok(record, rest[1..]) else Fail
  }

  /** A whole file of records. */
  function ReadLog(d: Dialect, s: string): Parse<seq<Json>>
    decreases |s|
  {
    if s == [] then Ok([], [])
    else match ReadRecord(d, s)
      case Fail => Fail
      case Ok(record, rest) =>
        match ReadLog(d, rest)
        case Fail => Fail
        case Ok(records, end) => Ok([record] + records, end)
  }
}
