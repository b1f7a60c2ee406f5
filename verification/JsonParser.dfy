/** The parser and the printer as they run: a text, an index into it, and a success flag. */
module JsonParser {
  import opened JsonText
  import opened JsonRoundTrip

  method EatWhitespace(json: string, index: nat) returns (i: nat)
    requires index <= |json|
    ensures index <= i <= |json| && json[i..] == Eat(json[index..])
  {
    i := index;
    while i < |json|
      invariant index <= i <= |json| && Eat(json[i..]) == Eat(json[index..])
    {
      assert json[i..][1..] == json[i + 1..];
      if !Space(json[i]) {
        break;
      }
      i := i + 1;
    }
  }

  method StartsAt(json: string, index: nat, word: string) returns (b: bool)
    requires index <= |json|
    ensures b == Begins(json[index..], word)
  {
    b := index + |word| <= |json| && json[index..index + |word|] == word;
    assert index + |word| <= |json| ==> json[index..][..|word|] == json[index..index + |word|];
  }

  method NextToken(json: string, index: nat) returns (token: Token, i: nat)
    requires index <= |json|
    ensures index <= i <= |json| && Scan(token, json[i..]) == Next(json[index..])
  {
    i := EatWhitespace(json, index);
    if i == |json| {
      return NoToken, i;
    }
    token := CharToken(json[i]);
    if token != NoToken {
      assert json[i..][1..] == json[i + 1..];
      return token, i + 1;
    }
    token, i := WordToken(json, i);
  }

  method WordToken(json: string, index: nat) returns (token: Token, i: nat)
    requires index < |json| && !Space(json[index]) && CharToken(json[index]) == NoToken
    ensures index <= i <= |json| && Scan(token, json[i..]) == Next(json[index..])
  {
    var t := json[index..];
    assert Eat(t) == t;
    var isTrue := StartsAt(json, index, "true");
    if isTrue {
      assert t[4..] == json[index + 4..];
      return TrueToken, index + 4;
    }
    var isFalse := StartsAt(json, index, "false");
    if isFalse {
      assert t[5..] == json[index + 5..];
      return FalseToken, index + 5;
    }
    var isNull := StartsAt(json, index, "null");
    if isNull {
      assert t[4..] == json[index + 4..];
      return NullToken, index + 4;
    }
    return NoToken, index;
  }

  lemma {:induction false} PlainChar(json: string, i: nat, s: string)
    requires i < |json| && json[i] != '\"' && json[i] != '\\'
    ensures Chars(json[i..], s) == Chars(json[i + 1..], s + [json[i]])
  {
    assert json[i..][0] == json[i] && json[i..][1..] == json[i + 1..];
  }

  lemma {:induction false} LastChar(json: string, i: nat, s: string)
    requires i < |json|
    ensures json[i] == '\"' ==> Chars(json[i..], s) == Text(s, json[i + 1..], true)
    ensures json[i] == '\\' && i + 1 == |json| ==> Chars(json[i..], s) == Text("", json[|json|..], false)
  {
    assert json[i..][0] == json[i] && json[i..][1..] == json[i + 1..];
  }

  lemma {:induction false} EscapedChar(json: string, i: nat, s: string)
    requires i + 1 < |json| && json[i] == '\\'
    ensures json[i + 1] != 'u' ==> Chars(json[i..], s) == Chars(json[i + 2..], s + Unescaped(json[i + 1]))
    ensures json[i + 1] == 'u' && |json| < i + 6 ==> Chars(json[i..], s) == Text("", json[i + 2..], false)
    ensures json[i + 1] == 'u' && i + 6 <= |json| ==> Chars(json[i..], s) == Chars(json[i + 6..], s + [UnicodeOf(json[i + 2..i + 6])])
  {
    var rest := json[i..];
    assert rest[0] == json[i] && rest[1] == json[i + 1] && rest[2..] == json[i + 2..];
    if i + 6 <= |json| {
      assert rest[2..6] == json[i + 2..i + 6] && rest[6..] == json[i + 6..];
    }
  }

  /** One character of a string, plain or escaped; more says that the string goes on. */
  method ReadChar(json: string, i: nat, s: string) returns (more: bool, s': string, i': nat, ok: bool)
    requires i < |json|
    ensures i < i' <= |json|
    ensures more ==> Chars(json[i'..], s') == Chars(json[i..], s)
    ensures !more ==> Text(s', json[i'..], ok) == Chars(json[i..], s)
  {
    LastChar(json, i, s);
    if json[i] == '\"' {
      return false, s, i + 1, true;
    } else if json[i] != '\\' {
      PlainChar(json, i, s);
      return true, s + [json[i]], i + 1, true;
    }
    if i + 1 == |json| {
      return false, "", |json|, false;
    }
    EscapedChar(json, i, s);
    if json[i + 1] != 'u' {
      return true, s + Unescaped(json[i + 1]), i + 2, true;
    }
    if |json| - (i + 2) < 4 {
      return false, "", i + 2, false;
    }
    return true, s + [UnicodeOf(json[i + 2..i + 6])], i + 6, true;
  }

  /** The characters of a string after its opening quote. */
  method ReadChars(json: string, index: nat) returns (s: string, i: nat, ok: bool)
    requires index <= |json|
    ensures index <= i <= |json| && Text(s, json[i..], ok) == Chars(json[index..], "")
  {
    s, i := "", index;
    ghost var all := Chars(json[index..], "");
    while i < |json|
      invariant index <= i <= |json| && Chars(json[i..], s) == all
    {
      var more;
      more, s, i, ok := ReadChar(json, i, s);
      if !more {
        return;
      }
    }
    return "", i, false;
  }

  method ParseStringAt(json: string, index: nat) returns (s: string, i: nat, ok: bool)
    requires index <= |json|
    ensures index <= i <= |json| && Text(s, json[i..], ok) == ParseString(json[index..])
  {
    i := EatWhitespace(json, index);
    if i == |json| {
      return "", i, false;
    }
    assert json[i..][1..] == json[i + 1..];
    s, i, ok := ReadChars(json, i + 1);
  }

  /** lastIndexOfNumber, as the index behind the number. */
  method EndOfNumber(json: string, index: nat) returns (i: nat)
    requires index <= |json|
    ensures index <= i <= |json| && i - index == NumberLength(json[index..])
  {
    i := index;
    while i < |json|
      invariant index <= i <= |json| && i - index + NumberLength(json[i..]) == NumberLength(json[index..])
    {
      assert json[i..][1..] == json[i + 1..];
      if !NumberChar(json[i]) {
        break;
      }
      i := i + 1;
    }
  }

  method ParseNumberAt(json: string, index: nat) returns (value: Value, i: nat)
    requires index <= |json|
    ensures index <= i <= |json| && Parsed(value, json[i..], true) == ParseNumber(json[index..])
  {
    var start := EatWhitespace(json, index);
    i := EndOfNumber(json, start);
    value := NumberOf(json[start..i]);
    assert json[start..][..i - start] == json[start..i] && json[start..][i - start..] == json[i..];
  }

  /** parseValue: it returns for every text, with the index inside the text. */
  method ParseValueAt(json: string, index: nat) returns (value: Value, i: nat, ok: bool)
    requires index <= |json|
    ensures index <= i <= |json| && Parsed(value, json[i..], ok) == ParseValue(json[index..])
    decreases |json| - index, 0
  {
    var token, next := NextToken(json, index);
    match token {
      case StringToken =>
        var s;
        s, i, ok := ParseStringAt(json, index);
        value := if ok then Str(s) else Null;
      case NumberToken =>
        value, i := ParseNumberAt(json, index);
        ok := true;
      case CurlyOpen => value, i, ok := ParseObjectAt(json, next);
      case SquaredOpen => value, i, ok := ParseArrayAt(json, next);
      case TrueToken => value, i, ok := Bool(true), next, true;
      case FalseToken => value, i, ok := Bool(false), next, true;
      case NullToken => value, i, ok := Null, next, true;
      case _ => value, i, ok := Null, index, false;
    }
  }

  method ParseArrayAt(json: string, index: nat) returns (value: Value, i: nat, ok: bool)
    requires index <= |json|
    ensures index <= i <= |json| && Parsed(value, json[i..], ok) == ParseArray(json[index..], [])
    decreases |json| - index, 1
  {
    var list := [];
    i := index;
    ghost var all := ParseArray(json[index..], []);
    while true
      invariant index <= i <= |json| && ParseArray(json[i..], list) == all
      decreases |json| - i
    {
      var token, next := NextToken(json, i);
      if token == NoToken {
        return List([]), i, false;
      } else if token == Comma {
        i := next;
      } else if token == SquaredClose {
        return List(list), next, true;
      } else {
        var item, after, good := ParseValueAt(json, i);
        if !good {
          return List([]), after, false;
        }
        list, i := list + [item], after;
      }
    }
  }

  method ParseObjectAt(json: string, index: nat) returns (value: Value, i: nat, ok: bool)
    requires index <= |json|
    ensures index <= i <= |json| && Parsed(value, json[i..], ok) == ParseObject(json[index..], [])
    decreases |json| - index, 1
  {
    var entries := [];
    i := index;
    ghost var all := ParseObject(json[index..], []);
    while true
      invariant index <= i <= |json| && ParseObject(json[i..], entries) == all
      decreases |json| - i
    {
      var token, next := NextToken(json, i);
      if token == NoToken {
        return Obj([]), i, false;
      } else if token == Comma {
        i := next;
      } else if token == CurlyClose {
        return Obj(entries), next, true;
      } else {
        var name, afterName, named := ParseStringAt(json, i);
        if !named {
          return Obj([]), afterName, false;
        }
        var colon, afterColon := NextToken(json, afterName);
        if colon != Colon {
          return Obj([]), afterColon, false;
        }
        var item, after, good := ParseValueAt(json, afterColon);
        if !good {
          return Obj([]), after, false;
        }
        entries, i := Put(entries, name, item), after;
      }
    }
  }

  // ----- the printer -----

  /** The texts in order, with separators. */
  function Joined(list: seq<string>): string {
    if |list| == 0 then "" else if |list| == 1 then list[0]
    else Joined(list[..|list| - 1]) + ", " + list[|list| - 1]
  }

  lemma {:induction false} JoinedNonEmpty(list: seq<string>)
    requires |list| > 0 && list[0] != ""
    ensures Joined(list) != ""
  {
    if |list| > 1 {
      JoinedNonEmpty(list[..|list| - 1]);
    }
  }

  /** join: a separator goes in front of a text unless nothing has been written yet. */
  method Join(list: seq<string>) returns (res: string)
    requires forall i :: 0 <= i < |list| ==> list[i] != ""
    ensures res == Joined(list)
  {
    res := "";
    for k := 0 to |list|
      invariant res == Joined(list[..k])
    {
      assert list[..k + 1][..k] == list[..k];
      if k > 0 {
        JoinedNonEmpty(list[..k]);
      } else {
        assert list[..0] == [];
      }
      if res != "" {
        res := res + ", ";
      }
      res := res + list[k];
    }
    assert list[..|list|] == list;
  }

  ghost function ItemTexts(v: Value): (r: seq<string>)
    requires v.List?
    ensures |r| == |v.items| && forall i :: 0 <= i < |r| ==> r[i] == Serialize(v.items[i])
  {
    seq(|v.items|, i requires 0 <= i < |v.items| => Serialize(v.items[i]))
  }

  ghost function PairTexts(v: Value): (r: seq<string>)
    requires v.Obj?
    ensures |r| == |v.entries| && forall i :: 0 <= i < |r| ==> r[i] == Pair(v, i)
  {
    seq(|v.entries|, i requires 0 <= i < |v.entries| => Pair(v, i))
  }

  function Separator(more: bool): string {
    if more then ", " else ""
  }

  lemma {:induction false} JoinedStep(list: seq<string>, k: nat)
    requires k < |list|
    ensures Joined(list[..k + 1]) == Joined(list[..k]) + Separator(k > 0) + list[k]
  {
    assert list[..k + 1][..k] == list[..k];
    if k == 0 {
      assert list[..0] == [] && list[..1][0] == list[0];
    }
  }

  lemma {:induction false} JoinedItems(v: Value, k: nat)
    requires v.List? && k <= |v.items|
    ensures Joined(ItemTexts(v)[..k]) + Separator(0 < k < |v.items|) + Items(v, k) == Items(v, 0)
  {
    if k == 0 {
      assert ItemTexts(v)[..0] == [];
    } else {
      JoinedItems(v, k - 1);
      JoinedStep(ItemTexts(v), k - 1);
    }
  }

  lemma {:induction false} JoinedEntries(v: Value, k: nat)
    requires v.Obj? && k <= |v.entries|
    ensures Joined(PairTexts(v)[..k]) + Separator(0 < k < |v.entries|) + Entries(v, k) == Entries(v, 0)
  {
    if k == 0 {
      assert PairTexts(v)[..0] == [];
    } else {
      JoinedEntries(v, k - 1);
      JoinedStep(PairTexts(v), k - 1);
    }
  }

  lemma {:induction false} SerializeNonEmpty(v: Value)
    requires Plain(v)
    ensures Serialize(v) != ""
  {
  }

  /** serialize. */
  method Print(v: Value) returns (str: string)
    requires Plain(v)
    ensures str == Serialize(v)
    decreases v, 1
  {
    match v {
      case Null => str := "null";
      case Bool(b) => str := if b then "true" else "false";
      case Int(n) => str := IntText(n);
      case Str(s) => str := Quoted(s);
      case List(_) => str := PrintList(v);
      case Obj(_) => str := PrintObject(v);
    }
  }

  method PrintList(v: Value) returns (str: string)
    requires Plain(v) && v.List?
    ensures str == Serialize(v)
    decreases v, 0
  {
    var items := v.items;
    var values: seq<string> := [];
    for k := 0 to |items|
      invariant values == ItemTexts(v)[..k]
    {
      var text := Print(items[k]);
      values := values + [text];
    }
    assert values == ItemTexts(v);
    forall i | 0 <= i < |values| ensures values[i] != "" {
      SerializeNonEmpty(items[i]);
    }
    var inner := Join(values);
    JoinedItems(v, |items|);
    assert ItemTexts(v)[..|items|] == values;
    str := "[ " + inner + " ]";
  }

  method PrintObject(v: Value) returns (str: string)
    requires Plain(v) && v.Obj?
    ensures str == Serialize(v)
    decreases v, 0
  {
    var entries := v.entries;
    var pairs: seq<string> := [];
    for k := 0 to |entries|
      invariant pairs == PairTexts(v)[..k]
    {
      var text := Print(entries[k].value);
      pairs := pairs + [Quoted(entries[k].name) + " : " + text];
    }
    assert pairs == PairTexts(v);
    var inner := Join(pairs);
    JoinedEntries(v, |entries|);
    assert PairTexts(v)[..|entries|] == pairs;
    str := "{ " + inner + " }";
  }

  /** Printing and parsing again, end to end. */
  method PrintAndParse(v: Value) returns (value: Value, ok: bool)
    requires Plain(v)
    ensures ok && value == v
  {
    var json := Print(v);
    var i;
    value, i, ok := ParseValueAt(json, 0);
    assert json[0..] == json;
    ParseSerialize(v);
  }
}
