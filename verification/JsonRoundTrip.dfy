/** Parsing what was serialized gives the value back. */
module JsonRoundTrip {
  import opened JsonText

  // ----- whitespace -----

  lemma {:induction false} EatSpace(s: string)
    ensures Eat(" " + s) == Eat(s)
  {
    assert (" " + s)[1..] == s;
  }

  /** A leading space changes nothing. */
  lemma {:induction false} SpaceBefore(s: string)
    ensures Next(" " + s) == Next(s)
  {
    EatSpace(s);
  }

  lemma {:induction false} SpaceBeforeText(s: string)
    ensures ParseString(" " + s) == ParseString(s)
    ensures ParseNumber(" " + s) == ParseNumber(s)
  {
    EatSpace(s);
  }

  lemma {:induction false} SpaceBeforeValue(s: string)
    requires ParseValue(s).ok
    ensures ParseValue(" " + s) == ParseValue(s)
  {
    SpaceBefore(s);
    SpaceBeforeText(s);
  }

  lemma {:induction false} Regroup(a: string, b: string, c: string, d: string)
    ensures (a + b) + c + d == a + (b + c + d)
  {
  }

  lemma {:induction false} MoveFirst(sofar: string, text: string)
    requires text != []
    ensures (sofar + [text[0]]) + text[1..] == sofar + text
  {
  }

  // ----- strings -----

  lemma {:induction false} CharsEscape(c: char, rest: string, sofar: string)
    ensures Chars(Escape(c) + rest, sofar) == Chars(rest, sofar + [c])
  {
    var s := Escape(c) + rest;
    if Letter(c) == "" {
      assert s[0] == c && s[1..] == rest;
    } else {
      assert Escape(c) == ['\\', Letter(c)[0]];
      assert s[0] == '\\' && s[1] == Letter(c)[0] && s[2..] == rest;
      assert Unescaped(Letter(c)[0]) == [c];
    }
  }

  lemma {:induction false} CharsEscaped(text: string, back: string, sofar: string)
    ensures Chars(Escaped(text) + "\"" + back, sofar) == Text(sofar + text, back, true)
  {
    if text == [] {
      var s := Escaped(text) + "\"" + back;
      assert s[0] == '\"' && s[1..] == back && sofar + text == sofar;
    } else {
      var c, more := text[0], text[1..];
      var rest := Escaped(more) + "\"" + back;
      Regroup(Escape(c), Escaped(more), "\"", back);
      CharsEscape(c, rest, sofar);
      CharsEscaped(more, back, sofar + [c]);
      MoveFirst(sofar, text);
    }
  }

  lemma {:induction false} QuoteToken(rest: string)
    ensures Next("\"" + rest).token == StringToken && ParseString("\"" + rest) == Chars(rest, "")
  {
    var s := "\"" + rest;
    assert s[0] == '\"' && s[1..] == rest && Eat(s) == s;
  }

  lemma {:induction false} QuotedText(inner: string, back: string)
    ensures ("\"" + inner + "\"") + back == "\"" + (inner + "\"" + back)
  {
  }

  lemma {:induction false} ParseQuoted(text: string, back: string)
    ensures Next(Quoted(text) + back).token == StringToken
    ensures ParseString(Quoted(text) + back) == Text(text, back, true)
  {
    var inner := Sanitized(text);
    SanitizedIsEscaped(text);
    QuotedText(inner, back);
    QuoteToken(inner + "\"" + back);
    CharsEscaped(text, back, "");
  }

  // ----- numbers -----

  /** What may follow a number. */
  predicate Stops(back: string) {
    back == [] || !NumberChar(back[0])
  }

  lemma {:induction false} NumberLengthIs(t: string, back: string)
    requires Stops(back) && forall i :: 0 <= i < |t| ==> NumberChar(t[i])
    ensures NumberLength(t + back) == |t|
  {
    if t == [] {
      assert t + back == back;
    } else {
      NumberLengthIs(t[1..], back);
      assert (t + back)[1..] == t[1..] + back && (t + back)[0] == t[0];
    }
  }

  lemma {:induction false} ParseNumberText(t: string, back: string)
    requires t != [] && CharToken(t[0]) == NumberToken && Stops(back) && forall i :: 0 <= i < |t| ==> NumberChar(t[i])
    ensures Next(t + back).token == NumberToken && ParseNumber(t + back) == Parsed(NumberOf(t), back, true)
  {
    var s := t + back;
    NumberLengthIs(t, back);
    assert s[0] == t[0] && !Space(s[0]);
    assert Eat(s) == s && s[..|t|] == t && s[|t|..] == back;
  }

  lemma {:induction false} IntShape(n: int)
    ensures IntText(n) != [] && CharToken(IntText(n)[0]) == NumberToken
    ensures forall i :: 0 <= i < |IntText(n)| ==> NumberChar(IntText(n)[i])
  {
    NumberDigits(if n < 0 then -n else n);
  }

  lemma {:induction false} ParseInt(n: int, back: string)
    requires MIN_LONG <= n <= MAX_ULONG && Stops(back)
    ensures Next(IntText(n) + back).token == NumberToken
    ensures ParseNumber(IntText(n) + back) == Parsed(Int(n), back, true)
  {
    IntShape(n);
    NumberOfText(n);
    ParseNumberText(IntText(n), back);
  }

  // ----- words -----

  lemma {:induction false} ParseWord(word: string, back: string)
    requires word == "true" || word == "false" || word == "null"
    ensures Next(word + back).rest == back
    ensures Next(word + back).token == if word == "true" then TrueToken else if word == "false" then FalseToken else NullToken
  {
    var s := word + back;
    assert s[0] == word[0] && Eat(s) == s;
    assert s[..|word|] == word && s[|word|..] == back;
  }

  // ----- values -----

  /** Values that the serializer writes without loss: integers of 64 bits, and objects whose names
      are all different, as in a hash. */
  predicate Plain(v: Value)
    decreases v
  {
    match v
    case Int(n) => MIN_LONG <= n <= MAX_ULONG
    case Real(_) => false
    case List(items) => forall i :: 0 <= i < |items| ==> Plain(items[i])
    case Obj(entries) =>
      && (forall i :: 0 <= i < |entries| ==> Plain(entries[i].value))
      && (forall i, j :: 0 <= i < j < |entries| ==> entries[i].name != entries[j].name)
    case _ => true
  }

  lemma {:induction false} PutNew(entries: seq<Entry>, name: string, value: Value)
    requires forall i :: 0 <= i < |entries| ==> entries[i].name != name
    ensures Put(entries, name, value) == entries + [Entry(name, value)]
  {
    if entries != [] {
      PutNew(entries[1..], name, value);
    }
  }

  predicate ValueToken(t: Token) {
    t == StringToken || t == NumberToken || t == CurlyOpen || t == SquaredOpen || t == TrueToken || t == FalseToken || t == NullToken
  }

  lemma {:induction false} OpenToken(c: char, back: string)
    requires c == '[' || c == '{'
    ensures Next([c] + back) == Scan(CharToken(c), back)
  {
    assert ([c] + back)[1..] == back && Eat([c] + back) == [c] + back;
  }

  lemma {:induction false} CloseToken(c: char, back: string)
    requires c == ']' || c == '}' || c == ',' || c == ':'
    ensures Next([c] + back) == Scan(CharToken(c), back)
    ensures Next(" " + ([c] + back)) == Scan(CharToken(c), back)
  {
    assert ([c] + back)[1..] == back && Eat([c] + back) == [c] + back;
    SpaceBefore([c] + back);
  }

  /** Parsing gives the value back and stops right behind it. */
  lemma {:induction false} RoundTrip(v: Value, back: string)
    requires Plain(v) && Stops(back)
    ensures ParseValue(Serialize(v) + back) == Parsed(v, back, true)
    ensures ValueToken(Next(Serialize(v) + back).token)
    decreases v, Size(v) + 1
  {
    match v
    case Null => ParseWord("null", back);
    case Bool(b) => ParseWord(if b then "true" else "false", back);
    case Int(n) => ParseInt(n, back);
    case Str(text) => ParseQuoted(text, back);
    case List(_) =>
      ArrayFrom(v, 0, back);
      ListText(v, back);
    case Obj(_) =>
      ObjectFrom(v, 0, back);
      ObjectText(v, back);
  }

  lemma {:induction false} ListText(v: Value, back: string)
    requires Plain(v) && v.List?
    ensures ParseValue(Serialize(v) + back) == ParseArray(" " + (Items(v, 0) + " ]" + back), [])
    ensures Next(Serialize(v) + back).token == SquaredOpen
  {
    BracketText("[ ", Items(v, 0), " ]", back);
    OpenArray(" " + (Items(v, 0) + " ]" + back));
  }

  lemma {:induction false} ObjectText(v: Value, back: string)
    requires Plain(v) && v.Obj?
    ensures ParseValue(Serialize(v) + back) == ParseObject(" " + (Entries(v, 0) + " }" + back), [])
    ensures Next(Serialize(v) + back).token == CurlyOpen
  {
    BracketText("{ ", Entries(v, 0), " }", back);
    OpenObject(" " + (Entries(v, 0) + " }" + back));
  }

  lemma {:induction false} BracketText(open: string, inner: string, close: string, back: string)
    requires |open| == 2 && open[1] == ' '
    ensures (open + inner + close) + back == [open[0]] + (" " + (inner + close + back))
  {
  }

  lemma {:induction false} OpenArray(rest: string)
    ensures Next(['['] + rest).token == SquaredOpen && ParseValue(['['] + rest) == ParseArray(rest, [])
  {
    OpenToken('[', rest);
  }

  lemma {:induction false} OpenObject(rest: string)
    ensures Next(['{'] + rest).token == CurlyOpen && ParseValue(['{'] + rest) == ParseObject(rest, [])
  {
    OpenToken('{', rest);
  }

  /** One element of an array. */
  lemma {:induction false} ArrayStep(s: string, list: seq<Value>, x: Value, tail: string)
    requires ValueToken(Next(s).token) && ParseValue(s) == Parsed(x, tail, true)
    ensures ParseArray(" " + s, list) == ParseArray(tail, list + [x])
  {
    SpaceBefore(s);
    SpaceBeforeValue(s);
  }

  lemma {:induction false} ArrayEnd(back: string, list: seq<Value>)
    ensures ParseArray(" " + (" " + ([']'] + back)), list) == Parsed(List(list), back, true)
  {
    CloseToken(']', back);
    SpaceBefore(" " + ([']'] + back));
  }

  /** The rest of an array, from element k on. */
  lemma {:induction false} ArrayFrom(v: Value, k: nat, back: string)
    requires Plain(v) && v.List? && k <= |v.items|
    ensures ParseArray(" " + (Items(v, k) + " ]" + back), v.items[..k]) == Parsed(v, back, true)
    decreases v, |v.items| - k
  {
    if k == |v.items| {
      assert Items(v, k) + " ]" + back == " " + ([']'] + back);
      ArrayEnd(back, v.items[..k]);
      assert v.items[..k] == v.items;
    } else {
      var x, sep, next := v.items[k], if k + 1 < |v.items| then ", " else "", Items(v, k + 1);
      var tail := sep + next + " ]" + back;
      ItemText(Serialize(x), sep, next, " ]", back);
      TailStops(v, k, back);
      RoundTrip(x, tail);
      ArrayStep(Serialize(x) + tail, v.items[..k], x, tail);
      assert v.items[..k] + [x] == v.items[..k + 1];
      ArrayFrom(v, k + 1, back);
      ArrayTail(v, k, back);
    }
  }

  lemma {:induction false} ItemText(a: string, sep: string, next: string, close: string, back: string)
    ensures (a + sep + next) + close + back == a + (sep + next + close + back)
  {
  }

  /** Between two elements, or before the closing bracket. */
  lemma {:induction false} ArrayTail(v: Value, k: nat, back: string)
    requires v.List? && k < |v.items|
    ensures var tail := (if k + 1 < |v.items| then ", " else "") + Items(v, k + 1) + " ]" + back;
            ParseArray(tail, v.items[..k + 1]) == ParseArray(" " + (Items(v, k + 1) + " ]" + back), v.items[..k + 1])
  {
    var next := Items(v, k + 1) + " ]" + back;
    var tail := (if k + 1 < |v.items| then ", " else "") + Items(v, k + 1) + " ]" + back;
    if k + 1 < |v.items| {
      assert tail == [','] + (" " + next);
      CloseToken(',', " " + next);
    } else {
      assert next == " " + ([']'] + back) && tail == next;
      CloseToken(']', back);
      SpaceBefore(next);
    }
  }

  lemma {:induction false} TailStops(v: Value, k: nat, back: string)
    requires v.List? && k < |v.items|
    ensures Stops((if k + 1 < |v.items| then ", " else "") + Items(v, k + 1) + " ]" + back)
  {
    var tail := (if k + 1 < |v.items| then ", " else "") + Items(v, k + 1) + " ]" + back;
    assert tail[0] == if k + 1 < |v.items| then ',' else ' ';
  }

  /** The rest of an object, from entry k on. */
  lemma {:induction false} ObjectFrom(v: Value, k: nat, back: string)
    requires Plain(v) && v.Obj? && k <= |v.entries|
    ensures ParseObject(" " + (Entries(v, k) + " }" + back), v.entries[..k]) == Parsed(v, back, true)
    decreases v, |v.entries| - k
  {
    if k == |v.entries| {
      assert Entries(v, k) + " }" + back == " " + (['}'] + back);
      ObjectEnd(back, v.entries[..k]);
      assert v.entries[..k] == v.entries;
    } else {
      var e, sep, next := v.entries[k], if k + 1 < |v.entries| then ", " else "", Entries(v, k + 1);
      var tail := sep + next + " }" + back;
      ItemText(Pair(v, k), sep, next, " }", back);
      EntryTailStops(v, k, back);
      RoundTrip(e.value, tail);
      EntryStep(e, Serialize(e.value), v.entries[..k], tail);
      assert v.entries[..k] + [e] == v.entries[..k + 1];
      ObjectFrom(v, k + 1, back);
      ObjectTail(v, k, back);
    }
  }

  lemma {:induction false} EntryStep(e: Entry, text: string, before: seq<Entry>, tail: string)
    requires ParseValue(text + tail) == Parsed(e.value, tail, true)
    requires forall i :: 0 <= i < |before| ==> before[i].name != e.name
    ensures ParseObject(" " + ((Quoted(e.name) + " : " + text) + tail), before) == ParseObject(tail, before + [e])
  {
    var q, after := Quoted(e.name), " " + ([':'] + (" " + (text + tail)));
    PairText(q, text, tail);
    ParseQuoted(e.name, after);
    CloseToken(':', " " + (text + tail));
    ObjectStep(q + after, e.name, after, text + tail, before, e.value, tail);
    PutNew(before, e.name, e.value);
  }

  lemma {:induction false} PairText(q: string, x: string, tail: string)
    ensures (q + " : " + x) + tail == q + (" " + ([':'] + (" " + (x + tail))))
  {
  }

  /** One entry of an object: s begins with the name, and after is what follows the name. */
  lemma {:induction false} ObjectStep(s: string, name: string, after: string, text: string, entries: seq<Entry>, x: Value, tail: string)
    requires Next(s).token == StringToken && ParseString(s) == Text(name, after, true)
    requires Next(after) == Scan(Colon, " " + text) && ParseValue(text) == Parsed(x, tail, true)
    ensures ParseObject(" " + s, entries) == ParseObject(tail, Put(entries, name, x))
  {
    SpaceBefore(s);
    SpaceBeforeText(s);
    SpaceBeforeValue(text);
    ObjectUnfold(" " + s, entries, name, after, " " + text, x, tail);
  }

  lemma {:induction false} ObjectUnfold(s: string, entries: seq<Entry>, name: string, after: string, rest: string, x: Value, tail: string)
    requires Next(s).token == StringToken && ParseString(s) == Text(name, after, true)
    requires Next(after) == Scan(Colon, rest) && ParseValue(rest) == Parsed(x, tail, true)
    ensures ParseObject(s, entries) == ParseObject(tail, Put(entries, name, x))
  {
  }

  lemma {:induction false} ObjectEnd(back: string, entries: seq<Entry>)
    ensures ParseObject(" " + (" " + (['}'] + back)), entries) == Parsed(Obj(entries), back, true)
  {
    CloseToken('}', back);
    SpaceBefore(" " + (['}'] + back));
  }

  lemma {:induction false} ObjectTail(v: Value, k: nat, back: string)
    requires v.Obj? && k < |v.entries|
    ensures var tail := (if k + 1 < |v.entries| then ", " else "") + Entries(v, k + 1) + " }" + back;
            ParseObject(tail, v.entries[..k + 1]) == ParseObject(" " + (Entries(v, k + 1) + " }" + back), v.entries[..k + 1])
  {
    var next := Entries(v, k + 1) + " }" + back;
    var tail := (if k + 1 < |v.entries| then ", " else "") + Entries(v, k + 1) + " }" + back;
    if k + 1 < |v.entries| {
      assert tail == [','] + (" " + next);
      CloseToken(',', " " + next);
    } else {
      assert next == " " + (['}'] + back) && tail == next;
      CloseToken('}', back);
      SpaceBefore(next);
    }
  }

  lemma {:induction false} EntryTailStops(v: Value, k: nat, back: string)
    requires v.Obj? && k < |v.entries|
    ensures Stops((if k + 1 < |v.entries| then ", " else "") + Entries(v, k + 1) + " }" + back)
  {
    var tail := (if k + 1 < |v.entries| then ", " else "") + Entries(v, k + 1) + " }" + back;
    assert tail[0] == if k + 1 < |v.entries| then ',' else ' ';
  }

  /** Parsing the serialization of a value returns that value and uses up the whole text. */
  lemma {:induction false} ParseSerialize(v: Value)
    requires Plain(v)
    ensures ParseValue(Serialize(v)) == Parsed(v, "", true)
  {
    RoundTrip(v, "");
    assert Serialize(v) + "" == Serialize(v);
  }
}
