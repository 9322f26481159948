/**
 A parser for JSON texts, section by section of RFC 8259: whitespace (2), values (3), objects (4),
 arrays (5), numbers (6) and strings (7). Strings become code points, numbers keep their spelling.
 It shares nothing with the encoder.
 */
module Json {
  import opened Wrappers
  import opened Utf8

  datatype Json =
    | Null
    | Bool(b: bool)
    | Number(lexeme: bytes)
    | Text(chars: seq<nat>)
    | Array(items: seq<Json>)
    | Object(members: seq<Member>)

  datatype Member = Member(key: seq<nat>, value: Json)

  /** What was read and the bytes after it. */
  datatype Parse<+T> = Fail | Got(value: T, rest: bytes)

  const QUOTE: byte := 0x22
  const BACKSLASH: byte := 0x5C
  const LBRACE: byte := 0x7B
  const RBRACE: byte := 0x7D
  const LBRACKET: byte := 0x5B
  const RBRACKET: byte := 0x5D
  const COLON: byte := 0x3A
  const COMMA: byte := 0x2C
  const SPACE: byte := 0x20
  const MINUS: byte := 0x2D
  const ZERO: byte := 0x30
  const TRUE: bytes := [0x74, 0x72, 0x75, 0x65]
  const FALSE: bytes := [0x66, 0x61, 0x6C, 0x73, 0x65]
  const NULL: bytes := [0x6E, 0x75, 0x6C, 0x6C]

  // Section 2: whitespace

  predicate IsBlank(b: byte) {
    b == 0x20 || b == 0x09 || b == 0x0A || b == 0x0D
  }

  function SkipBlanks(s: bytes): (t: bytes)
    ensures |t| <= |s|
  {
    if s != [] && IsBlank(s[0]) then SkipBlanks(s[1..]) else s
  }

  // Section 7: strings

  function HexValue(b: byte): Option<nat> {
    if 0x30 <= b <= 0x39 then Some(b as int - 0x30)
    else if 0x41 <= b <= 0x46 then Some(b as int - 0x41 + 10)
    else if 0x61 <= b <= 0x66 then Some(b as int - 0x61 + 10)
    else None
  }

  function Hex4(s: bytes): Option<nat> {
    if |s| < 4 then None else
    match (HexValue(s[0]), HexValue(s[1]), HexValue(s[2]), HexValue(s[3]))
    case (Some(a), Some(b), Some(c), Some(d)) => Some(a * 0x1000 + b * 0x100 + c * 0x10 + d)
    case _ => None
  }

  function ShortEscape(b: byte): Option<nat> {
    match b
    case 0x22 => Some(0x22)
    case 0x5C => Some(0x5C)
    case 0x2F => Some(0x2F)
    case 0x62 => Some(0x08)
    case 0x66 => Some(0x0C)
    case 0x6E => Some(0x0A)
    case 0x72 => Some(0x0D)
    case 0x74 => Some(0x09)
    case _ => None
  }

  /** The code point that two escaped UTF-16 code units stand for, if they are a surrogate pair. */
  function Paired(high: nat, low: Option<nat>): Option<nat> {
    if 0xD800 <= high < 0xDC00 && low.Some? && 0xDC00 <= low.value < 0xE000
    then Some(0x10000 + (high - 0xD800) * 0x400 + (low.value - 0xDC00))
    else None
  }

  /** An escape sequence; `s` starts with the backslash. */
  function Escaped(s: bytes): (r: Parse<nat>)
    ensures r.Got? ==> |r.rest| < |s|
  {
    if |s| < 2 then Fail
    else if s[1] == 0x75 then
      match Hex4(s[2..])
      case None => Fail
      case Some(unit) =>
        var low := if |s| >= 12 && s[6] == BACKSLASH && s[7] == 0x75 then Hex4(s[8..]) else None;
        match Paired(unit, low)
        case Some(c) => Got(c, s[12..])
        case None => Got(unit, s[6..])
    else
      match ShortEscape(s[1])
      case Some(c) => Got(c, s[2..])
      case None => Fail
  }

  /** One character of a string, escaped or not. */
  function Char(s: bytes): (r: Parse<nat>)
    requires s != []
    ensures r.Got? ==> |r.rest| < |s|
  {
    if s[0] == BACKSLASH then Escaped(s)
    else if s[0] < 0x20 || WellFormedPrefix(s) == 0 then Fail
    else Got(DecodeRune(s).code, s[DecodeRune(s).size..])
  }

  /** The characters up to and including the closing quotation mark. */
  function Chars(s: bytes): (r: Parse<seq<nat>>)
    ensures r.Got? ==> |r.rest| < |s|
    decreases |s|
  {
    if s == [] then Fail
    else if s[0] == QUOTE then Got([], s[1..])
    else
      match Char(s)
      case Fail => Fail
      case Got(c, rest) =>
        match Chars(rest)
        case Fail => Fail
        case Got(cs, end) => Got([c] + cs, end)
  }

  // Section 6: numbers

  predicate IsDigit(b: byte) {
    0x30 <= b <= 0x39
  }

  /** How many digits `s` starts with. */
  function Digits(s: bytes): (n: nat)
    ensures n <= |s|
  {
    if s != [] && IsDigit(s[0]) then 1 + Digits(s[1..]) else 0
  }

  function IntLength(s: bytes): (n: nat)
    ensures n <= |s|
  {
    if s != [] && s[0] == ZERO then 1 else Digits(s)
  }

  function FractionLength(s: bytes): (n: Option<nat>)
    ensures n.Some? ==> n.value <= |s|
  {
    if s == [] || s[0] != 0x2E then Some(0)
    else if Digits(s[1..]) == 0 then None
    else Some(1 + Digits(s[1..]))
  }

  function ExponentLength(s: bytes): (n: Option<nat>)
    ensures n.Some? ==> n.value <= |s|
  {
    if s == [] || (s[0] != 0x45 && s[0] != 0x65) then Some(0)
    else
      var sign := if |s| > 1 && (s[1] == 0x2B || s[1] == MINUS) then 2 else 1;
      if Digits(s[sign..]) == 0 then None else Some(sign + Digits(s[sign..]))
  }

  function SignLength(s: bytes): (n: nat)
    ensures n <= |s|
  {
    if s != [] && s[0] == MINUS then 1 else 0
  }

  /** The sign and the integer part; 0 if there is no integer part. */
  function WholeLength(s: bytes): (n: nat)
    ensures n <= |s|
  {
    var sign := SignLength(s);
    if IntLength(s[sign..]) == 0 then 0 else sign + IntLength(s[sign..])
  }

  /** The length of the number `s` starts with; 0 if there is none. */
  function NumberLength(s: bytes): (n: nat)
    ensures n <= |s|
  {
    var whole := WholeLength(s);
    if whole == 0 then 0 else
    match FractionLength(s[whole..])
    case None => 0
    case Some(f) =>
      match ExponentLength(s[whole + f..])
      case None => 0
      case Some(e) => whole + f + e
  }

  predicate IsNumber(s: bytes) {
    s != [] && NumberLength(s) == |s|
  }

  // Sections 3, 4 and 5: values, objects, arrays

  function Literal(s: bytes, word: bytes, value: Json): (r: Parse<Json>)
    requires word != []
    ensures r.Got? ==> |r.rest| < |s|
  {
    if word <= s then Got(value, s[|word|..]) else Fail
  }

  function Value(s: bytes): (r: Parse<Json>)
    ensures r.Got? ==> |r.rest| < |s|
    decreases |s|, 0
  {
    var t := SkipBlanks(s);
    if t == [] then Fail
    else if t[0] == LBRACE then
      match ObjectBody(t[1..])
      case Fail => Fail
      case Got(members, rest) => Got(Object(members), rest)
    else if t[0] == LBRACKET then
      match ArrayBody(t[1..])
      case Fail => Fail
      case Got(items, rest) => Got(Array(items), rest)
    else if t[0] == QUOTE then
      match Chars(t[1..])
      case Fail => Fail
      case Got(chars, rest) => Got(Text(chars), rest)
    else if t[0] == 0x74 then Literal(t, TRUE, Bool(true))
    else if t[0] == 0x66 then Literal(t, FALSE, Bool(false))
    else if t[0] == 0x6E then Literal(t, NULL, Null)
    else if NumberLength(t) == 0 then Fail
    else Got(Number(t[..NumberLength(t)]), t[NumberLength(t)..])
  }

  /** What follows the opening brace. */
  function ObjectBody(s: bytes): (r: Parse<seq<Member>>)
    ensures r.Got? ==> |r.rest| < |s|
    decreases |s|, 1
  {
    var t := SkipBlanks(s);
    if t != [] && t[0] == RBRACE then Got([], t[1..]) else Members(s)
  }

  /** At least one member, up to and including the closing brace. */
  function Members(s: bytes): (r: Parse<seq<Member>>)
    ensures r.Got? ==> |r.rest| < |s|
    decreases |s|, 0
  {
    var t := SkipBlanks(s);
    if t == [] || t[0] != QUOTE then Fail else
    match Chars(t[1..])
    case Fail => Fail
    case Got(key, afterKey) =>
      var u := SkipBlanks(afterKey);
      if u == [] || u[0] != COLON then Fail else
      match Value(u[1..])
      case Fail => Fail
      case Got(value, afterValue) =>
        match MemberTail(afterValue)
        case Fail => Fail
        case Got(members, rest) => Got([Member(key, value)] + members, rest)
  }

  /** What follows a member: a comma and further members, or the closing brace. */
  function MemberTail(s: bytes): (r: Parse<seq<Member>>)
    ensures r.Got? ==> |r.rest| < |s|
    decreases |s|, 0
  {
    var t := SkipBlanks(s);
    if t == [] then Fail
    else if t[0] == COMMA then Members(t[1..])
    else if t[0] == RBRACE then Got([], t[1..])
    else Fail
  }

  /** What follows the opening bracket. */
  function ArrayBody(s: bytes): (r: Parse<seq<Json>>)
    ensures r.Got? ==> |r.rest| < |s|
    decreases |s|, 2
  {
    var t := SkipBlanks(s);
    if t != [] && t[0] == RBRACKET then Got([], t[1..]) else Elements(s)
  }

  function Elements(s: bytes): (r: Parse<seq<Json>>)
    ensures r.Got? ==> |r.rest| < |s|
    decreases |s|, 1
  {
    match Value(s)
    case Fail => Fail
    case Got(value, afterValue) =>
      match ElementTail(afterValue)
      case Fail => Fail
      case Got(items, rest) => Got([value] + items, rest)
  }

  function ElementTail(s: bytes): (r: Parse<seq<Json>>)
    ensures r.Got? ==> |r.rest| < |s|
    decreases |s|, 0
  {
    var t := SkipBlanks(s);
    if t == [] then Fail
    else if t[0] == COMMA then Elements(t[1..])
    else if t[0] == RBRACKET then Got([], t[1..])
    else Fail
  }

  /** A JSON text: one value with nothing but whitespace around it. */
  function Document(s: bytes): Option<Json> {
    match Value(s)
    case Fail => None
    case Got(value, rest) => if SkipBlanks(rest) == [] then Some(value) else None
  }
}
