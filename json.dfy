/**
  * The JSON-shaped values the scraper handles (place records, GeoJSON
  * properties), Python's truthiness on them, `json.dumps` as the scraper
  * calls it, and `flatten_value`, which turns a value into one CSV cell.
  * A decoder for the list-of-strings cells (emails, social links) is
  * proved to invert `flatten_value` on them.
  */
module Json {
  import opened Wrappers
  import opened Text

  /** Text that is never empty (the printed form of a float). */
  type NonEmptyString = s: string | |s| > 0 witness "0"

  datatype Value =
    | Null
    | Bool(b: bool)
    | Int(i: int)
    | Float(x: real, repr: NonEmptyString)   // repr: the digits Python prints for x
    | Str(s: string)
    | List(items: seq<Value>)
    | Object(fields: seq<(string, Value)>)

  /** Python's `bool(v)`. */
  predicate Truthy(v: Value)
  {
    match v
    case Null => false
    case Bool(b) => b
    case Int(i) => i != 0
    case Float(x, _) => x != 0.0
    case Str(s) => s != ""
    case List(items) => items != []
    case Object(fields) => fields != []
  }

  /**
    * The value bound to `key` in an object's fields, as `json.load` reads
    * it: when a key repeats, the last binding wins. `None` when absent.
    */
  function Lookup(fields: seq<(string, Value)>, key: string): Option<Value>
  {
    if fields == [] then None
    else if fields[|fields| - 1].0 == key then Some(fields[|fields| - 1].1)
    else Lookup(fields[..|fields| - 1], key)
  }

  /**
    * The key is absent exactly when no field binds it; otherwise its value
    * is that of the last field binding it.
    */
  lemma {:induction false} LookupLastBinding(fields: seq<(string, Value)>, key: string)
    ensures Lookup(fields, key).None? <==> forall i :: 0 <= i < |fields| ==> fields[i].0 != key
    ensures Lookup(fields, key).Some? ==>
      exists i :: 0 <= i < |fields| && fields[i] == (key, Lookup(fields, key).value) && forall j :: i < j < |fields| ==> fields[j].0 != key
  {
    if fields != [] && fields[|fields| - 1].0 != key {
      var init := fields[..|fields| - 1];
      LookupLastBinding(init, key);
      assert forall i :: 0 <= i < |init| ==> init[i] == fields[i];
      if Lookup(init, key).Some? {
        var v := Lookup(init, key).value;
        var i :| 0 <= i < |init| && init[i] == (key, v) && forall j :: i < j < |init| ==> init[j].0 != key;
        assert fields[i] == (key, v);
      }
    }
  }

  /** `dict.get(key, default)`. */
  function GetOr(fields: seq<(string, Value)>, key: string, default: Value): Value
  {
    match Lookup(fields, key)
    case None => default
    case Some(v) => v
  }

  // ---------------------------------------------------------------------
  // Decimal integers

  function DigitChar(d: nat): (c: char)
    requires d < 10
    ensures '0' <= c <= '9'
  {
    ('0' as int + d) as char
  }

  function NatToString(n: nat): (r: string)
    ensures |r| >= 1
    ensures forall k :: 0 <= k < |r| ==> '0' <= r[k] <= '9'
  {
    if n < 10 then [DigitChar(n)] else NatToString(n / 10) + [DigitChar(n % 10)]
  }

  function IntToString(i: int): (r: string)
    ensures |r| >= 1
  {
    if i < 0 then "-" + NatToString(-i) else NatToString(i)
  }

  // ---------------------------------------------------------------------
  // json.dumps(..., ensure_ascii=False)

  function HexDigitChar(d: nat): (c: char)
    requires d < 16
  {
    if d < 10 then DigitChar(d) else ('a' as int + d - 10) as char
  }

  /** How `json.dumps` writes one character inside a string literal. */
  function EscapeChar(ch: char): (r: string)
    ensures |r| >= 1
  {
    if ch == '"' then "\\\""
    else if ch == '\\' then "\\\\"
    else if ch == '\n' then "\\n"
    else if ch == '\r' then "\\r"
    else if ch == '\t' then "\\t"
    else if ch == '\U{8}' then "\\b"
    else if ch == '\U{c}' then "\\f"
    else if ch < ' ' then "\\u00" + [HexDigitChar(ch as int / 16), HexDigitChar(ch as int % 16)]
    else [ch]
  }

  function Escape(s: string): string
  {
    if s == [] then "" else EscapeChar(s[0]) + Escape(s[1..])
  }

  function Quote(s: string): (r: string)
    ensures |r| >= 2 && r[0] == '"' && r[|r| - 1] == '"'
  {
    "\"" + Escape(s) + "\""
  }

  /** `sep.join(parts)`. */
  function Join(sep: string, parts: seq<string>): string
  {
    if parts == [] then ""
    else if |parts| == 1 then parts[0]
    else parts[0] + sep + Join(sep, parts[1..])
  }

  function Dumps(v: Value): (r: string)
    ensures |r| >= 1
  {
    match v
    case Null => "null"
    case Bool(b) => if b then "true" else "false"
    case Int(i) => IntToString(i)
    case Float(_, repr) => repr
    case Str(s) => Quote(s)
    case List(items) =>
      "[" + Join(", ", seq(|items|, k requires 0 <= k < |items| => Dumps(items[k]))) + "]"
    case Object(fields) =>
      var keys := DictKeys(fields);
      "{" + Join(", ", seq(|keys|, k requires 0 <= k < |keys| =>
        Quote(keys[k]) + ": " + Dumps(fields[LastIndex(fields, keys[k])].1))) + "}"
  }

  /**
    * The keys of the dict `json.load` builds from an object's fields: each
    * key once, where it first appears.
    */
  function DictKeys(fields: seq<(string, Value)>): (r: seq<string>)
    ensures forall i, j :: 0 <= i < j < |r| ==> r[i] != r[j]
    ensures forall key :: key in r <==> Lookup(fields, key).Some?
  {
    if fields == [] then []
    else
      var keys := DictKeys(fields[..|fields| - 1]);
      if fields[|fields| - 1].0 in keys then keys else keys + [fields[|fields| - 1].0]
  }

  /** Where the binding of `key` that `json.load` keeps (the last one) sits. */
  function LastIndex(fields: seq<(string, Value)>, key: string): (i: nat)
    requires Lookup(fields, key).Some?
    ensures i < |fields| && fields[i] == (key, Lookup(fields, key).value)
  {
    if fields[|fields| - 1].0 == key then |fields| - 1 else LastIndex(fields[..|fields| - 1], key)
  }

  /**
    * A repeated key is written once, at its first position, with its last
    * value: `{"a": 1, "b": 2, "a": 3}` is written as `{"a": 3, "b": 2}`.
    */
  lemma DumpsRepeatedKey()
    ensures Dumps(Object(RepeatedKeyFields())) == "{\"a\": 3, \"b\": 2}"
  {
    var fields := RepeatedKeyFields();
    RepeatedKeyDict();
    var parts := seq(2, k requires 0 <= k < 2 => Quote(["a", "b"][k]) + ": " + Dumps(fields[LastIndex(fields, ["a", "b"][k])].1));
    RepeatedKeyParts(parts);
    RepeatedKeyJoin(parts);
    assert Dumps(Object(fields)) == "{" + Join(", ", parts) + "}";
  }

  lemma RepeatedKeyJoin(parts: seq<string>)
    requires parts == ["\"a\": 3", "\"b\": 2"]
    ensures "{" + Join(", ", parts) + "}" == "{\"a\": 3, \"b\": 2}"
  {
    assert parts[1..] == ["\"b\": 2"];
    assert Join(", ", parts) == "\"a\": 3, \"b\": 2";
  }

  /** The fields of `{"a": 1, "b": 2, "a": 3}`. */
  function RepeatedKeyFields(): seq<(string, Value)>
  {
    [("a", Int(1)), ("b", Int(2)), ("a", Int(3))]
  }

  lemma RepeatedKeyDict()
    ensures DictKeys(RepeatedKeyFields()) == ["a", "b"]
    ensures LastIndex(RepeatedKeyFields(), "a") == 2 && LastIndex(RepeatedKeyFields(), "b") == 1
  {
    var fields := RepeatedKeyFields();
    assert fields[..2][..1][..0] == [];
    assert DictKeys(fields[..2][..1]) == ["a"];
    assert fields[..2][..1] == fields[..1];
    assert DictKeys(fields[..2]) == ["a", "b"];
  }

  lemma RepeatedKeyParts(parts: seq<string>)
    requires parts == seq(2, k requires 0 <= k < 2 =>
      Quote(["a", "b"][k]) + ": " + Dumps(RepeatedKeyFields()[LastIndex(RepeatedKeyFields(), ["a", "b"][k])].1))
    ensures parts == ["\"a\": 3", "\"b\": 2"]
  {
    RepeatedKeyDict();
    assert Quote("a") == "\"a\"" && Quote("b") == "\"b\"" by {
      assert "a"[1..] == [] && "b"[1..] == [];
    }
    assert Dumps(Int(3)) == "3" && Dumps(Int(2)) == "2";
    var fields := RepeatedKeyFields();
    assert fields[2].1 == Int(3) && fields[1].1 == Int(2);
    assert parts[0] == "\"a\"" + ": " + "3";
    assert parts[1] == "\"b\"" + ": " + "2";
    assert "\"a\"" + ": " + "3" == "\"a\": 3" && "\"b\"" + ": " + "2" == "\"b\": 2";
  }

  /** Python's `str(v)` for the scalar values. */
  function ScalarText(v: Value): (r: string)
    requires !v.List? && !v.Object? && !v.Null?
  {
    match v
    case Bool(b) => if b then "True" else "False"
    case Int(i) => IntToString(i)
    case Float(_, repr) => repr
    case Str(s) => s
  }

  /**
    * `flatten_value`: containers become their JSON text, `None` the empty
    * cell, anything else `str(value)`. A cell is empty exactly for `None`
    * and the empty string, and a string is written as it is.
    */
  function FlattenValue(v: Value): (r: string)
    ensures v.Str? ==> r == v.s
    ensures r == "" <==> v == Null || v == Str("")
    ensures v.List? ==> r[0] == '[' && r[|r| - 1] == ']'
    ensures v.Object? ==> r[0] == '{' && r[|r| - 1] == '}'
  {
    if v.List? || v.Object? then Dumps(v)
    else if v.Null? then ""
    else ScalarText(v)
  }

  // ---------------------------------------------------------------------
  // Decoding the list-of-strings cells

  function HexValue(c: char): (r: int)
    ensures -1 <= r < 16
  {
    if '0' <= c <= '9' then c as int - '0' as int
    else if 'a' <= c <= 'f' then c as int - 'a' as int + 10
    else if 'A' <= c <= 'F' then c as int - 'A' as int + 10
    else -1
  }

  /** The character a two-character escape `\x` stands for, when `x` is one of JSON's. */
  function ShortEscape(x: char): Option<char>
  {
    if x == '"' then Some('"')
    else if x == '\\' then Some('\\')
    else if x == '/' then Some('/')
    else if x == 'n' then Some('\n')
    else if x == 'r' then Some('\r')
    else if x == 't' then Some('\t')
    else if x == 'b' then Some('\U{8}')
    else if x == 'f' then Some('\U{c}')
    else None
  }

  /**
    * Reads the body of a string literal up to its closing quote; returns
    * the decoded text and what follows the quote.
    */
  function DecodeChars(t: string): (r: Option<(string, string)>)
    ensures r.Some? ==> |r.value.1| < |t|
    decreases |t|
  {
    if t == [] then None
    else if t[0] == '"' then Some(("", t[1..]))
    else if t[0] == '\\' then
      if |t| < 2 then None
      else if t[1] == 'u' then
        if |t| < 6 then None
        else
          var h := [HexValue(t[2]), HexValue(t[3]), HexValue(t[4]), HexValue(t[5])];
          if h[0] < 0 || h[1] < 0 || h[2] < 0 || h[3] < 0 then None
          else
            var code := ((h[0] * 16 + h[1]) * 16 + h[2]) * 16 + h[3];
            if 0xD800 <= code < 0xE000 then None
            else match DecodeChars(t[6..])
              case None => None
              case Some((s, rest)) => Some(([code as char] + s, rest))
      else match ShortEscape(t[1])
        case None => None
        case Some(c) =>
          match DecodeChars(t[2..])
          case None => None
          case Some((s, rest)) => Some(([c] + s, rest))
    else match DecodeChars(t[1..])
      case None => None
      case Some((s, rest)) => Some(([t[0]] + s, rest))
  }

  function DecodeString(t: string): (r: Option<(string, string)>)
    ensures r.Some? ==> |r.value.1| < |t|
  {
    if t == [] || t[0] != '"' then None else DecodeChars(t[1..])
  }

  /** Reads `"a", "b", ..."z"]` (what follows the opening bracket of a non-empty list). */
  function DecodeItems(t: string): (r: Option<seq<string>>)
    decreases |t|
  {
    match DecodeString(t)
    case None => None
    case Some((s, rest)) =>
      if rest == "]" then Some([s])
      else if StartsWith(rest, ", ") then
        match DecodeItems(rest[2..])
        case None => None
        case Some(ss) => Some([s] + ss)
      else None
  }

  /** Decodes a cell holding a JSON list of strings. */
  function DecodeStringList(t: string): Option<seq<string>>
  {
    if t == "[]" then Some([])
    else if t != [] && t[0] == '[' then DecodeItems(t[1..])
    else None
  }

  function Strs(ss: seq<string>): (r: seq<Value>)
    ensures |r| == |ss|
    ensures forall k :: 0 <= k < |ss| ==> r[k] == Str(ss[k])
  {
    seq(|ss|, k requires 0 <= k < |ss| => Str(ss[k]))
  }

  lemma {:induction false} DecodeEscapedChar(ch: char, rest: string)
    ensures DecodeChars(EscapeChar(ch) + rest) ==
      match DecodeChars(rest)
      case None => None
      case Some((s, r)) => Some(([ch] + s, r))
  {
    var e := EscapeChar(ch);
    var t := e + rest;
    if ch == '"' || ch == '\\' || ch == '\n' || ch == '\r' || ch == '\t' || ch == '\U{8}' || ch == '\U{c}' {
      assert t[2..] == rest;
    } else if ch < ' ' {
      var n := ch as int;
      assert t[6..] == rest;
      assert HexValue(t[4]) == n / 16;
      assert HexValue(t[5]) == n % 16;
    } else {
      assert t[1..] == rest;
    }
  }

  lemma {:induction false} DecodeEscaped(s: string, rest: string)
    ensures DecodeChars(Escape(s) + "\"" + rest) == Some((s, rest))
  {
    if s == [] {
      assert Escape(s) + "\"" + rest == "\"" + rest;
    } else {
      assert Escape(s) + "\"" + rest == EscapeChar(s[0]) + (Escape(s[1..]) + "\"" + rest);
      DecodeEscapedChar(s[0], Escape(s[1..]) + "\"" + rest);
      DecodeEscaped(s[1..], rest);
      assert [s[0]] + s[1..] == s;
    }
  }

  lemma DecodeQuoted(s: string, rest: string)
    ensures DecodeString(Quote(s) + rest) == Some((s, rest))
  {
    var t := Quote(s) + rest;
    assert t[1..] == Escape(s) + "\"" + rest;
    DecodeEscaped(s, rest);
  }

  /** The JSON texts of some strings, in order. */
  function Quotes(ss: seq<string>): (r: seq<string>)
    ensures |r| == |ss|
    ensures forall k :: 0 <= k < |ss| ==> r[k] == Quote(ss[k])
  {
    if ss == [] then [] else [Quote(ss[0])] + Quotes(ss[1..])
  }

  /** The joined list text of two or more strings starts with the first one's JSON text and a separator. */
  lemma JoinQuotesFirst(ss: seq<string>)
    requires |ss| >= 2
    ensures Join(", ", Quotes(ss)) + "]" == Quote(ss[0]) + (", " + (Join(", ", Quotes(ss[1..])) + "]"))
  {
    var qs := Quotes(ss);
    var rest := Join(", ", Quotes(ss[1..]));
    assert qs[1..] == Quotes(ss[1..]);
    assert Join(", ", qs) == qs[0] + ", " + rest;
    ConcatRegroup(qs[0], ", ", rest, "]");
  }

  /** Regroups a four-part concatenation to the right. */
  lemma ConcatRegroup(a: string, b: string, c: string, d: string)
    ensures a + b + c + d == a + (b + (c + d))
  {
    assert |a + b + c + d| == |a + (b + (c + d))|;
  }

  lemma {:induction false} DecodeJoined(ss: seq<string>)
    requires ss != []
    ensures DecodeItems(Join(", ", Quotes(ss)) + "]") == Some(ss)
  {
    var qs := Quotes(ss);
    if |ss| == 1 {
      assert Join(", ", qs) + "]" == Quote(ss[0]) + "]";
      DecodeQuoted(ss[0], "]");
      assert [ss[0]] == ss;
    } else {
      var restText := Join(", ", Quotes(ss[1..])) + "]";
      var after := ", " + restText;
      JoinQuotesFirst(ss);
      DecodeQuoted(ss[0], after);
      assert after != "]" && StartsWith(after, ", ") && after[2..] == restText;
      DecodeJoined(ss[1..]);
      assert [ss[0]] + ss[1..] == ss;
    }
  }

  lemma FlattenedStrings(ss: seq<string>)
    ensures FlattenValue(List(Strs(ss))) == "[" + Join(", ", Quotes(ss)) + "]"
  {
    var items := Strs(ss);
    var parts := seq(|items|, k requires 0 <= k < |items| => Dumps(items[k]));
    assert parts == Quotes(ss);
  }

  /**
    * A cell written by `flatten_value` from a list of strings (the emails
    * and social-link columns) decodes back to exactly that list.
    */
  lemma FlattenStringListRoundTrip(ss: seq<string>)
    ensures DecodeStringList(FlattenValue(List(Strs(ss)))) == Some(ss)
  {
    var qs := Quotes(ss);
    var t := FlattenValue(List(Strs(ss)));
    FlattenedStrings(ss);
    if ss != [] {
      DecodeJoined(ss);
      assert t != "[]" by {
        assert Join(", ", qs) != [] by { assert |qs[0]| >= 2; }
      }
      assert t[1..] == Join(", ", qs) + "]";
    }
  }
}
