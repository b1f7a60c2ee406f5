/** JSON values, their serialization, and the parser as functions of the text that is left. */
module JsonText {
  // ----- values -----

  /** An object keeps its entries in the order in which the hash is walked. Real numbers stay
      the text they were written as. */
  datatype Value =
    | Null
    | Bool(b: bool)
    | Int(n: int)
    | Real(digits: string)
    | Str(s: string)
    | List(items: seq<Value>)
    | Obj(entries: seq<Entry>)

  datatype Entry = Entry(name: string, value: Value)

  const BACKSPACE: char := '\U{0008}'
  const FORMFEED: char := '\U{000C}'

  // ----- strings -----

  /** QString::replace of one character. */
  function Replaced(s: string, c: char, text: string): string {
    if s == [] then [] else (if s[0] == c then text else [s[0]]) + Replaced(s[1..], c, text)
  }

  /** sanitizeString, without the quotes: seven replacements, one after the other. */
  function Sanitized(s: string): string {
    var s1 := Replaced(s, '\\', "\\\\");
    var s2 := Replaced(s1, '\"', "\\\"");
    var s3 := Replaced(s2, BACKSPACE, "\\b");
    var s4 := Replaced(s3, FORMFEED, "\\f");
    var s5 := Replaced(s4, '\n', "\\n");
    var s6 := Replaced(s5, '\r', "\\r");
    Replaced(s6, '\t', "\\t")
  }

  /** The letter after the backslash for a character that has to be escaped. */
  function Letter(c: char): string {
    if c == '\\' then "\\" else if c == '\"' then "\"" else if c == BACKSPACE then "b" else if c == FORMFEED then "f"
    else if c == '\n' then "n" else if c == '\r' then "r" else if c == '\t' then "t" else ""
  }

  function Escape(c: char): (r: string)
    ensures |r| == 1 + |Letter(c)|
  {
    if Letter(c) == "" then [c] else "\\" + Letter(c)
  }

  function Escaped(s: string): string {
    if s == [] then [] else Escape(s[0]) + Escaped(s[1..])
  }

  lemma {:induction false} ReplacedConcat(a: string, b: string, c: char, text: string)
    ensures Replaced(a + b, c, text) == Replaced(a, c, text) + Replaced(b, c, text)
  {
    if a == [] {
      assert a + b == b;
    } else {
      ReplacedConcat(a[1..], b, c, text);
      assert (a + b)[1..] == a[1..] + b && (a + b)[0] == a[0];
    }
  }

  lemma {:induction false} SanitizedConcat(a: string, b: string)
    ensures Sanitized(a + b) == Sanitized(a) + Sanitized(b)
  {
    var a1, b1 := Replaced(a, '\\', "\\\\"), Replaced(b, '\\', "\\\\");
    var a2, b2 := Replaced(a1, '\"', "\\\""), Replaced(b1, '\"', "\\\"");
    var a3, b3 := Replaced(a2, BACKSPACE, "\\b"), Replaced(b2, BACKSPACE, "\\b");
    var a4, b4 := Replaced(a3, FORMFEED, "\\f"), Replaced(b3, FORMFEED, "\\f");
    var a5, b5 := Replaced(a4, '\n', "\\n"), Replaced(b4, '\n', "\\n");
    var a6, b6 := Replaced(a5, '\r', "\\r"), Replaced(b5, '\r', "\\r");
    ReplacedConcat(a, b, '\\', "\\\\");
    ReplacedConcat(a1, b1, '\"', "\\\"");
    ReplacedConcat(a2, b2, BACKSPACE, "\\b");
    ReplacedConcat(a3, b3, FORMFEED, "\\f");
    ReplacedConcat(a4, b4, '\n', "\\n");
    ReplacedConcat(a5, b5, '\r', "\\r");
    ReplacedConcat(a6, b6, '\t', "\\t");
  }

  lemma {:induction false} ReplacedOne(x: char, c: char, text: string)
    ensures Replaced([x], c, text) == if x == c then text else [x]
  {
    assert [x][1..] == [];
    assert Replaced([], c, text) == [];
  }

  lemma {:induction false} ReplacedTwo(x: char, y: char, c: char, text: string)
    requires x != c && y != c
    ensures Replaced([x, y], c, text) == [x, y]
  {
    assert [x, y] == [x] + [y];
    ReplacedConcat([x], [y], c, text);
    ReplacedOne(x, c, text);
    ReplacedOne(y, c, text);
  }

  /** A step of the chain on what a single character has become. */
  lemma {:induction false} StepOne(x: char, c: char, text: string, s: string)
    requires s == [x] || (|s| == 2 && s[0] != c && s[1] != c)
    ensures Replaced(s, c, text) == if s == [x] && x == c then text else s
  {
    if s == [x] {
      ReplacedOne(x, c, text);
    } else {
      assert s == [s[0], s[1]];
      ReplacedTwo(s[0], s[1], c, text);
    }
  }

  lemma {:induction false} SanitizedOne(x: char)
    ensures Sanitized([x]) == Escape(x)
  {
    var s1 := Replaced([x], '\\', "\\\\");
    StepOne(x, '\\', "\\\\", [x]);
    var s2 := Replaced(s1, '\"', "\\\"");
    StepOne(x, '\"', "\\\"", s1);
    var s3 := Replaced(s2, BACKSPACE, "\\b");
    StepOne(x, BACKSPACE, "\\b", s2);
    var s4 := Replaced(s3, FORMFEED, "\\f");
    StepOne(x, FORMFEED, "\\f", s3);
    var s5 := Replaced(s4, '\n', "\\n");
    StepOne(x, '\n', "\\n", s4);
    var s6 := Replaced(s5, '\r', "\\r");
    StepOne(x, '\r', "\\r", s5);
    StepOne(x, '\t', "\\t", s6);
  }

  /** The chain of replacements escapes character by character. */
  lemma {:induction false} SanitizedIsEscaped(s: string)
    ensures Sanitized(s) == Escaped(s)
  {
    if s == [] {
      assert Replaced([], '\\', "\\\\") == [];
    } else {
      SanitizedIsEscaped(s[1..]);
      SanitizedConcat([s[0]], s[1..]);
      assert s == [s[0]] + s[1..];
      SanitizedOne(s[0]);
    }
  }

  // ----- numbers -----

  function Digit(d: nat): (c: char)
    requires d < 10
    ensures '0' <= c <= '9' && c as int - '0' as int == d
  {
    ('0' as int + d) as char
  }

  function Digits(n: nat): (r: string)
    ensures |r| > 0
  {
    if n < 10 then [Digit(n)] else Digits(n / 10) + [Digit(n % 10)]
  }

  predicate AllDigits(s: string) {
    forall i :: 0 <= i < |s| ==> '0' <= s[i] <= '9'
  }

  function Number(s: string): nat
    requires AllDigits(s)
  {
    if s == [] then 0 else 10 * Number(s[..|s| - 1]) + DigitValue(s[|s| - 1])
  }

  function DigitValue(c: char): nat
    requires '0' <= c <= '9'
  {
    c as int - '0' as int
  }

  lemma {:induction false} NumberDigits(n: nat)
    ensures AllDigits(Digits(n)) && Number(Digits(n)) == n
  {
    if n >= 10 {
      NumberDigits(n / 10);
      assert Digits(n)[..|Digits(n)| - 1] == Digits(n / 10);
    } else {
      assert Digits(n)[..0] == [];
    }
  }

  const MIN_LONG: int := -0x8000_0000_0000_0000
  const MAX_ULONG: int := 0xFFFF_FFFF_FFFF_FFFF

  function IntText(n: int): string {
    if n < 0 then "-" + Digits(-n) else Digits(n)
  }

  /** What QString's conversions make of the text: a failed conversion yields 0. */
  function NumberOf(t: string): Value {
    if '.' in t then Real(t)
    else if t != [] && t[0] == '-' then
      Int(if |t| > 1 && AllDigits(t[1..]) && 0 - Number(t[1..]) >= MIN_LONG then 0 - Number(t[1..]) else 0)
    else Int(if t != [] && AllDigits(t) && Number(t) <= MAX_ULONG then Number(t) else 0)
  }

  lemma {:induction false} DigitsPlain(n: nat)
    ensures AllDigits(Digits(n)) && Number(Digits(n)) == n && '.' !in Digits(n) && Digits(n)[0] != '-'
  {
    NumberDigits(n);
  }

  lemma {:induction false} NumberOfText(n: int)
    requires MIN_LONG <= n <= MAX_ULONG
    ensures NumberOf(IntText(n)) == Int(n)
  {
    if n < 0 {
      DigitsPlain(-n);
      var t := IntText(n);
      assert t[1..] == Digits(-n) && t[0] == '-' && '.' !in t;
    } else {
      DigitsPlain(n);
    }
  }

  predicate NumberChar(c: char) {
    ('0' <= c <= '9') || c == '+' || c == '-' || c == '.' || c == 'e' || c == 'E'
  }

  function NumberLength(s: string): (k: nat)
    ensures k <= |s|
  {
    if s == [] || !NumberChar(s[0]) then 0 else 1 + NumberLength(s[1..])
  }

  // ----- serialization -----

  function Quoted(s: string): string {
    "\"" + Sanitized(s) + "\""
  }

  function Size(v: Value): nat {
    match v
    case List(items) => |items| + 1
    case Obj(entries) => |entries| + 1
    case _ => 0
  }

  function Serialize(v: Value): string
    decreases v, Size(v)
  {
    match v
    case Null => "null"
    case Bool(b) => if b then "true" else "false"
    case Int(n) => IntText(n)
    case Real(digits) => digits
    case Str(s) => Quoted(s)
    case List(items) => "[ " + Items(v, 0) + " ]"
    case Obj(entries) => "{ " + Entries(v, 0) + " }"
  }

  /** The elements from k on, with separators. */
  function Items(v: Value, k: nat): string
    requires v.List? && k <= |v.items|
    decreases v, |v.items| - k
  {
    if k == |v.items| then ""
    else Serialize(v.items[k]) + (if k + 1 < |v.items| then ", " else "") + Items(v, k + 1)
  }

  function Pair(v: Value, k: nat): string
    requires v.Obj? && k < |v.entries|
    decreases v, 0
  {
    Quoted(v.entries[k].name) + " : " + Serialize(v.entries[k].value)
  }

  function Entries(v: Value, k: nat): string
    requires v.Obj? && k <= |v.entries|
    decreases v, |v.entries| - k
  {
    if k == |v.entries| then ""
    else Pair(v, k) + (if k + 1 < |v.entries| then ", " else "") + Entries(v, k + 1)
  }

  // ----- tokens -----

  datatype Token =
    | NoToken | CurlyOpen | CurlyClose | SquaredOpen | SquaredClose | Comma | Colon
    | StringToken | NumberToken | TrueToken | FalseToken | NullToken

  predicate Space(c: char) {
    c == ' ' || c == '\t' || c == '\n' || c == '\r'
  }

  function Eat(s: string): (r: string)
    ensures |r| <= |s| && (r != [] ==> !Space(r[0]))
  {
    if s != [] && Space(s[0]) then Eat(s[1..]) else s
  }

  predicate Begins(s: string, word: string) {
    |word| <= |s| && s[..|word|] == word
  }

  function CharToken(c: char): Token {
    match c
    case '{' => CurlyOpen
    case '}' => CurlyClose
    case '[' => SquaredOpen
    case ']' => SquaredClose
    case ',' => Comma
    case '\"' => StringToken
    case ':' => Colon
    case '-' => NumberToken
    case _ => if '0' <= c <= '9' then NumberToken else NoToken
  }

  datatype Scan = Scan(token: Token, rest: string)

  /** nextToken. */
  function Next(s: string): (r: Scan)
    ensures |r.rest| <= |s| && (r.token != NoToken ==> |r.rest| < |s|)
  {
    var t := Eat(s);
    if t == [] then Scan(NoToken, t)
    else if CharToken(t[0]) != NoToken then Scan(CharToken(t[0]), t[1..])
    else if Begins(t, "true") then Scan(TrueToken, t[4..])
    else if Begins(t, "false") then Scan(FalseToken, t[5..])
    else if Begins(t, "null") then Scan(NullToken, t[4..])
    else Scan(NoToken, t)
  }

  // ----- the parser -----

  datatype Text = Text(text: string, rest: string, ok: bool)
  datatype Parsed = Parsed(value: Value, rest: string, ok: bool)

  /** The character for an escape letter; letters without a meaning add nothing. */
  function Unescaped(c: char): string {
    match c
    case '\"' => "\""
    case '\\' => "\\"
    case '/' => "/"
    case 'b' => [BACKSPACE]
    case 'f' => [FORMFEED]
    case 'n' => "\n"
    case 'r' => "\r"
    case 't' => "\t"
    case _ => ""
  }

  function HexDigit(c: char): int {
    if '0' <= c <= '9' then c as int - '0' as int
    else if 'a' <= c <= 'f' then c as int - 'a' as int + 10
    else if 'A' <= c <= 'F' then c as int - 'A' as int + 10
    else -1
  }

  /** Four hexadecimal digits; 0 when they are not. Halves of surrogate pairs become the
      replacement character. */
  function UnicodeOf(s: string): char
    requires |s| == 4
  {
    var a, b, c, d := HexDigit(s[0]), HexDigit(s[1]), HexDigit(s[2]), HexDigit(s[3]);
    if a < 0 || b < 0 || c < 0 || d < 0 then '\0'
    else
      var u := ((a * 16 + b) * 16 + c) * 16 + d;
      if 0xD800 <= u < 0xE000 then '\U{FFFD}' else u as char
  }

  /** parseString after the opening quote. */
  function Chars(s: string, sofar: string): (r: Text)
    ensures |r.rest| <= |s| && (r.ok ==> |r.rest| < |s|)
  {
    if s == [] then Text("", s, false)
    else if s[0] == '\"' then Text(sofar, s[1..], true)
    else if s[0] != '\\' then Chars(s[1..], sofar + [s[0]])
    else if |s| == 1 then Text("", [], false)
    else if s[1] != 'u' then Chars(s[2..], sofar + Unescaped(s[1]))
    else if |s| < 6 then Text("", s[2..], false)
    else Chars(s[6..], sofar + [UnicodeOf(s[2..6])])
  }

  function ParseString(s: string): (r: Text)
    ensures |r.rest| <= |s| && (r.ok ==> |r.rest| < |s|)
  {
    var t := Eat(s);
    if t == [] then Text("", t, false) else Chars(t[1..], "")
  }

  function ParseNumber(s: string): (r: Parsed)
    ensures |r.rest| <= |s|
  {
    var t := Eat(s);
    var k := NumberLength(t);
    Parsed(NumberOf(t[..k]), t[k..], true)
  }

  /** hash[name] = value. */
  function Put(entries: seq<Entry>, name: string, value: Value): seq<Entry> {
    if entries == [] then [Entry(name, value)]
    else if entries[0].name == name then [Entry(name, value)] + entries[1..]
    else [entries[0]] + Put(entries[1..], name, value)
  }

  lemma {:induction false} NumberProgress(s: string)
    requires Next(s).token == NumberToken
    ensures |ParseNumber(s).rest| < |s|
  {
    var t := Eat(s);
    assert t != [] && CharToken(t[0]) == NumberToken;
    assert NumberChar(t[0]);
  }

  function ParseValue(s: string): (r: Parsed)
    ensures |r.rest| <= |s| && (r.ok ==> |r.rest| < |s|)
    decreases |s|, 0
  {
    var t := Next(s);
    match t.token
    case StringToken => var r := ParseString(s); Parsed(if r.ok then Str(r.text) else Null, r.rest, r.ok)
    case NumberToken => NumberProgress(s); ParseNumber(s)
    case CurlyOpen => ParseObject(t.rest, [])
    case SquaredOpen => ParseArray(t.rest, [])
    case TrueToken => Parsed(Bool(true), t.rest, true)
    case FalseToken => Parsed(Bool(false), t.rest, true)
    case NullToken => Parsed(Null, t.rest, true)
    case _ => Parsed(Null, s, false)
  }

  /** parseArray's loop. */
  function ParseArray(s: string, list: seq<Value>): (r: Parsed)
    ensures |r.rest| <= |s|
    decreases |s|, 1
  {
    var t := Next(s);
    if t.token == NoToken then Parsed(List([]), s, false)
    else if t.token == Comma then ParseArray(t.rest, list)
    else if t.token == SquaredClose then Parsed(List(list), t.rest, true)
    else
      var r := ParseValue(s);
      if !r.ok then Parsed(List([]), r.rest, false) else ParseArray(r.rest, list + [r.value])
  }

  /** parseObject's loop. */
  function ParseObject(s: string, entries: seq<Entry>): (r: Parsed)
    ensures |r.rest| <= |s|
    decreases |s|, 1
  {
    var t := Next(s);
    if t.token == NoToken then Parsed(Obj([]), s, false)
    else if t.token == Comma then ParseObject(t.rest, entries)
    else if t.token == CurlyClose then Parsed(Obj(entries), t.rest, true)
    else
      var name := ParseString(s);
      if !name.ok then Parsed(Obj([]), name.rest, false)
      else
        var colon := Next(name.rest);
        if colon.token != Colon then Parsed(Obj([]), colon.rest, false)
        else
          var r := ParseValue(colon.rest);
          if !r.ok then Parsed(Obj([]), r.rest, false) else ParseObject(r.rest, Put(entries, name.text, r.value))
  }
}
