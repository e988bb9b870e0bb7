/**
 JSON values as Python holds them after `json.loads` (a dict is an insertion-ordered
 list of fields with distinct keys), the compact encoder
 `json.dumps(value, sort_keys=True, separators=(",", ":"), ensure_ascii=False)`, a
 decoder for its output, and the two canonical forms of the SDK. Strings follow
 section 7 of RFC 8259, objects and arrays its sections 4 and 5.
 */
module Json {
  import opened Order
  import opened Text
  import opened Wrappers

  datatype Json =
    | Null
    | Bool(b: bool)
    | Num(n: int)
    | Str(s: string)
    | Arr(items: seq<Json>)
    | Obj(fields: seq<Field>)

  datatype Field = Field(key: string, value: Json)

  function FieldKey(f: Field): Key { [f.key] }

  predicate DistinctKeys(fields: seq<Field>) {
    forall i, j | 0 <= i < j < |fields| :: fields[i].key != fields[j].key
  }

  /** What a Python dict guarantees by construction, at every depth. */
  predicate WellFormed(j: Json) {
    match j
    case Arr(items) => forall i | 0 <= i < |items| :: WellFormed(items[i])
    case Obj(fields) => DistinctKeys(fields) && forall i | 0 <= i < |fields| :: WellFormed(fields[i].value)
    case _ => true
  }

  /** `dict.get(key)` on a dict, `None` on anything else. */
  function Get(j: Json, key: string): Option<Json> {
    if j.Obj? then Lookup(j.fields, key) else None
  }

  function Lookup(fields: seq<Field>, key: string): Option<Json> {
    if fields == [] then None
    else if fields[0].key == key then Some(fields[0].value)
    else Lookup(fields[1..], key)
  }

  // ---------------------------------------------------------------- encoder

  function HexDigit(d: nat): char
    requires d < 16
  {
    if d < 10 then DigitChar(d) else ('a' as int + (d - 10)) as char
  }

  /** Escapes of `json.dumps` with `ensure_ascii=False`. */
  function EscapeChar(c: char): (r: string)
    ensures r != [] && r[0] != '"'
  {
    if c == '"' then "\\\""
    else if c == '\\' then "\\\\"
    else if c == '\U{0008}' then "\\b"
    else if c == '\U{000C}' then "\\f"
    else if c == '\n' then "\\n"
    else if c == '\r' then "\\r"
    else if c == '\t' then "\\t"
    else if (c as int) < 32 then "\\u00" + [HexDigit(c as int / 16), HexDigit(c as int % 16)]
    else [c]
  }

  function Escape(s: string): string {
    if s == [] then [] else EscapeChar(s[0]) + Escape(s[1..])
  }

  function Quote(s: string): string { "\"" + Escape(s) + "\"" }

  function PrintInt(n: int): string { if n < 0 then "-" + Digits(-n) else Digits(n) }

  /** Compact JSON text of a value, fields in the order they are stored. */
  function Print(j: Json): string {
    match j
    case Null => "null"
    case Bool(b) => if b then "true" else "false"
    case Num(n) => PrintInt(n)
    case Str(s) => Quote(s)
    case Arr(items) => if items == [] then "[]" else "[" + PrintItems(items)
    case Obj(fields) => if fields == [] then "{}" else "{" + PrintFields(fields)
  }

  /** The items with their separators and the closing bracket. */
  function PrintItems(items: seq<Json>): string
    requires items != []
  {
    Print(items[0]) + if |items| == 1 then "]" else "," + PrintItems(items[1..])
  }

  function PrintFields(fields: seq<Field>): string
    requires fields != []
  {
    Quote(fields[0].key) + ":" + Print(fields[0].value)
    + if |fields| == 1 then "}" else "," + PrintFields(fields[1..])
  }

  // ---------------------------------------------------------------- decoder

  function HexValue(c: char): Option<nat> {
    if '0' <= c <= '9' then Some(c as int - '0' as int)
    else if 'a' <= c <= 'f' then Some(c as int - 'a' as int + 10)
    else None
  }

  /** Reads one possibly escaped character of a string body. */
  function ReadChar(s: string): (r: Option<(char, string)>)
    ensures r.Some? ==> |r.value.1| < |s|
  {
    if s == [] || s[0] == '"' then None
    else if s[0] != '\\' then Some((s[0], s[1..]))
    else if |s| < 2 then None
    else if s[1] == '"' then Some(('"', s[2..]))
    else if s[1] == '\\' then Some(('\\', s[2..]))
    else if s[1] == 'b' then Some(('\U{0008}', s[2..]))
    else if s[1] == 'f' then Some(('\U{000C}', s[2..]))
    else if s[1] == 'n' then Some(('\n', s[2..]))
    else if s[1] == 'r' then Some(('\r', s[2..]))
    else if s[1] == 't' then Some(('\t', s[2..]))
    else if s[1] == 'u' && |s| >= 6 && s[2] == '0' && s[3] == '0' then
      match (HexValue(s[4]), HexValue(s[5]))
      case (Some(hi), Some(lo)) => Some(((16 * hi + lo) as char, s[6..]))
      case _ => None
    else None
  }

  /** Reads a string body up to and including the closing quote. */
  function ReadString(s: string): (r: Option<(string, string)>)
    ensures r.Some? ==> |r.value.1| < |s|
    decreases |s|
  {
    if s == [] then None
    else if s[0] == '"' then Some(("", s[1..]))
    else match ReadChar(s)
      case None => None
      case Some((c, t)) =>
        match ReadString(t)
        case None => None
        case Some((tail, u)) => Some(([c] + tail, u))
  }

  /** Reads one value and returns it with the unread rest. */
  function Read(s: string): (r: Option<(Json, string)>)
    ensures r.Some? ==> |r.value.1| < |s|
    decreases |s|, 0
  {
    if s == [] then None
    else if s[0] == 'n' then if "null" <= s then Some((Null, s[4..])) else None
    else if s[0] == 't' then if "true" <= s then Some((Bool(true), s[4..])) else None
    else if s[0] == 'f' then if "false" <= s then Some((Bool(false), s[5..])) else None
    else if s[0] == '"' then
      match ReadString(s[1..])
      case None => None
      case Some((v, t)) => Some((Str(v), t))
    else if s[0] == '[' then
      if |s| > 1 && s[1] == ']' then Some((Arr([]), s[2..]))
      else match ReadItems(s[1..])
        case None => None
        case Some((items, t)) => Some((Arr(items), t))
    else if s[0] == '{' then
      if |s| > 1 && s[1] == '}' then Some((Obj([]), s[2..]))
      else match ReadFields(s[1..])
        case None => None
        case Some((fields, t)) => Some((Obj(fields), t))
    else if s[0] == '-' then
      if |s| > 1 && IsDigit(s[1]) then
        var (n, t) := ReadDigits(s[1..], 0);
        Some((Num(0 - n), t))
      else None
    else if IsDigit(s[0]) then
      var (n, t) := ReadDigits(s[1..], DigitValue(s[0]));
      Some((Num(n), t))
    else None
  }

  function ReadItems(s: string): (r: Option<(seq<Json>, string)>)
    ensures r.Some? ==> |r.value.1| < |s|
    decreases |s|, 1
  {
    match Read(s)
    case None => None
    case Some((v, t)) =>
      if t == [] then None
      else if t[0] == ']' then Some(([v], t[1..]))
      else if t[0] != ',' then None
      else match ReadItems(t[1..])
        case None => None
        case Some((items, u)) => Some(([v] + items, u))
  }

  function ReadFields(s: string): (r: Option<(seq<Field>, string)>)
    ensures r.Some? ==> |r.value.1| < |s|
    decreases |s|, 1
  {
    if s == [] || s[0] != '"' then None
    else match ReadString(s[1..])
      case None => None
      case Some((key, c)) =>
        if c == [] || c[0] != ':' then None
        else match Read(c[1..])
          case None => None
          case Some((v, t)) =>
            if t == [] then None
            else if t[0] == '}' then Some(([Field(key, v)], t[1..]))
            else if t[0] != ',' then None
            else match ReadFields(t[1..])
              case None => None
              case Some((fields, u)) => Some(([Field(key, v)] + fields, u))
  }

  /** Decodes a whole text. */
  function Decode(s: string): Option<Json> {
    match Read(s)
    case Some((j, t)) => if t == [] then Some(j) else None
    case None => None
  }

  // ------------------------------------------------------------- round trip

  lemma ReadEscapedChar(c: char, rest: string)
    ensures ReadChar(EscapeChar(c) + rest) == Some((c, rest))
  {
    var e := EscapeChar(c);
    var s := e + rest;
    assert s[|e|..] == rest;
    assert e[0] == s[0];
    if |e| == 6 {
      assert s[1] == 'u' && s[2] == '0' && s[3] == '0';
      assert s[4] == HexDigit(c as int / 16) && s[5] == HexDigit(c as int % 16);
      assert s[6..] == rest;
    } else if |e| == 2 {
      assert s[1] == e[1];
    }
  }

  lemma {:induction false} ReadEscaped(body: string, rest: string)
    ensures ReadString(Escape(body) + "\"" + rest) == Some((body, rest))
  {
    if body == [] {
      assert Escape(body) + "\"" + rest == "\"" + rest;
    } else {
      var tail := Escape(body[1..]) + "\"" + rest;
      assert Escape(body) + "\"" + rest == EscapeChar(body[0]) + tail;
      ReadEscapedChar(body[0], tail);
      ReadEscaped(body[1..], rest);
      assert body == [body[0]] + body[1..];
    }
  }

  /** A number read before `rest` ends where `rest` starts. */
  predicate Delimited(rest: string) { rest == [] || !IsDigit(rest[0]) }

  lemma ReadInt(n: int, rest: string)
    requires Delimited(rest)
    ensures Read(PrintInt(n) + rest) == Some((Num(n), rest))
  {
    var m := if n < 0 then -n else n;
    var d := Digits(m) + rest;
    ReadDigitsOfDigits(m, rest);
    assert d[0] == Digits(m)[0];
    if n < 0 {
      assert PrintInt(n) + rest == "-" + d;
      assert ("-" + d)[1..] == d;
    } else {
      assert ReadDigits(d, 0) == ReadDigits(d[1..], DigitValue(d[0]));
    }
  }

  lemma ReadQuoted(body: string, rest: string)
    ensures (Quote(body) + rest)[0] == '"'
    ensures ReadString((Quote(body) + rest)[1..]) == Some((body, rest))
  {
    assert (Quote(body) + rest)[1..] == Escape(body) + "\"" + rest;
    ReadEscaped(body, rest);
  }

  lemma PrintStarts(j: Json)
    ensures Print(j) != [] && Print(j)[0] !in {']', '}', ','}
  {}

  lemma ReadAtom(j: Json, rest: string)
    requires j.Null? || j.Bool?
    ensures Read(Print(j) + rest) == Some((j, rest))
  {
    var s := Print(j) + rest;
    if j == Bool(false) {
      assert s[5..] == rest && "false" <= s;
    } else {
      assert s[4..] == rest && Print(j) <= s;
    }
  }

  lemma ReadArray(items: seq<Json>, rest: string)
    requires items != [] ==> ReadItems(PrintItems(items) + rest) == Some((items, rest))
    ensures Read(Print(Arr(items)) + rest) == Some((Arr(items), rest))
  {
    var s := Print(Arr(items)) + rest;
    if items == [] {
      assert s[2..] == rest;
    } else {
      assert s[1..] == PrintItems(items) + rest;
      PrintStarts(items[0]);
      assert s[1] == Print(items[0])[0];
    }
  }

  lemma PrintFieldsStart(fields: seq<Field>)
    requires fields != []
    ensures PrintFields(fields) != [] && PrintFields(fields)[0] == '"'
  {
    assert Quote(fields[0].key)[0] == '"';
  }

  lemma ReadObject(fields: seq<Field>, rest: string)
    requires fields != [] ==> ReadFields(PrintFields(fields) + rest) == Some((fields, rest))
    ensures Read(Print(Obj(fields)) + rest) == Some((Obj(fields), rest))
  {
    if fields == [] {
      assert ("{}" + rest)[2..] == rest;
    } else {
      var t := PrintFields(fields) + rest;
      PrintFieldsStart(fields);
      assert Print(Obj(fields)) + rest == "{" + t;
      assert t[0] == '"' && ("{" + t)[1..] == t && ("{" + t)[1] == '"';
    }
  }

  lemma {:induction false} ReadPrint(j: Json, rest: string)
    requires Delimited(rest)
    ensures Read(Print(j) + rest) == Some((j, rest))
    decreases j, 1
  {
    match j
    case Num(n) => ReadInt(n, rest);
    case Str(v) => ReadQuoted(v, rest);
    case Arr(items) =>
      if items != [] { ReadPrintItems(items, rest); }
      ReadArray(items, rest);
    case Obj(fields) =>
      if fields != [] { ReadPrintFields(fields, rest); }
      ReadObject(fields, rest);
    case _ => ReadAtom(j, rest);
  }

  /** What follows the first item of a printed item list. */
  function ItemTail(items: seq<Json>, rest: string): string
    requires items != []
  {
    if |items| == 1 then "]" + rest else "," + (PrintItems(items[1..]) + rest)
  }

  lemma PrintItemsSplit(items: seq<Json>, rest: string)
    requires items != []
    ensures PrintItems(items) + rest == Print(items[0]) + ItemTail(items, rest)
  {
    var t := if |items| == 1 then "]" else "," + PrintItems(items[1..]);
    assert PrintItems(items) == Print(items[0]) + t;
    Associative(Print(items[0]), t, rest);
    if |items| > 1 { Associative(",", PrintItems(items[1..]), rest); }
  }

  lemma {:induction false} ReadPrintItems(items: seq<Json>, rest: string)
    requires items != []
    ensures ReadItems(PrintItems(items) + rest) == Some((items, rest))
    decreases items, 0
  {
    var tail := ItemTail(items, rest);
    PrintItemsSplit(items, rest);
    ReadPrint(items[0], tail);
    assert items == [items[0]] + items[1..];
    if |items| == 1 {
      assert items == [items[0]] && tail[1..] == rest;
    } else {
      assert tail[1..] == PrintItems(items[1..]) + rest;
      ReadPrintItems(items[1..], rest);
    }
  }

  /** What follows the first field of a printed field list. */
  function FieldTail(fields: seq<Field>, rest: string): string
    requires fields != []
  {
    if |fields| == 1 then "}" + rest else "," + (PrintFields(fields[1..]) + rest)
  }

  lemma PrintFieldsSplit(fields: seq<Field>, rest: string)
    requires fields != []
    ensures PrintFields(fields) + rest
         == Quote(fields[0].key) + (":" + (Print(fields[0].value) + FieldTail(fields, rest)))
  {
    var q, v := Quote(fields[0].key), Print(fields[0].value);
    var t := if |fields| == 1 then "}" else "," + PrintFields(fields[1..]);
    assert PrintFields(fields) == ((q + ":") + v) + t;
    FieldRegroup(q, v, t, rest);
    if |fields| > 1 { Associative(",", PrintFields(fields[1..]), rest); }
  }

  lemma FieldRegroup(q: string, v: string, t: string, rest: string)
    ensures (((q + ":") + v) + t) + rest == q + (":" + (v + (t + rest)))
  {
    Associative((q + ":") + v, t, rest);
    Associative(q + ":", v, t + rest);
    Associative(q, ":", v + (t + rest));
  }

  /** One field read off the front of a field list. */
  lemma FieldRead(s: string, f: Field, c: string, t: string)
    requires s != [] && s[0] == '"' && ReadString(s[1..]) == Some((f.key, c)) && c != [] && c[0] == ':'
    requires Read(c[1..]) == Some((f.value, t)) && t != []
    ensures t[0] == '}' ==> ReadFields(s) == Some(([f], t[1..]))
    ensures t[0] == ',' ==> ReadFields(s) == match ReadFields(t[1..])
                                             case None => None
                                             case Some((fields, u)) => Some(([f] + fields, u))
  {
    assert Field(f.key, f.value) == f;
  }

  lemma {:induction false} ReadPrintFields(fields: seq<Field>, rest: string)
    requires fields != []
    ensures ReadFields(PrintFields(fields) + rest) == Some((fields, rest))
    decreases fields, 0
  {
    var f, tail := fields[0], FieldTail(fields, rest);
    var mid := ":" + (Print(f.value) + tail);
    PrintFieldsSplit(fields, rest);
    ReadQuoted(f.key, mid);
    assert mid[1..] == Print(f.value) + tail;
    ReadPrint(f.value, tail);
    assert Field(f.key, f.value) == f;
    FieldRead(Quote(f.key) + mid, f, mid, tail);
    assert fields == [f] + fields[1..];
    if |fields| == 1 {
      assert fields == [f] && tail[1..] == rest;
    } else {
      assert tail[1..] == PrintFields(fields[1..]) + rest;
      ReadPrintFields(fields[1..], rest);
    }
  }

  /** The decoder undoes the encoder on every value. */
  lemma RoundTrip(j: Json)
    ensures Decode(Print(j)) == Some(j)
  {
    ReadPrint(j, []);
    assert Print(j) + [] == Print(j);
  }

  lemma PrintInjective(a: Json, b: Json)
    requires Print(a) == Print(b)
    ensures a == b
  {
    RoundTrip(a);
    RoundTrip(b);
  }
}
