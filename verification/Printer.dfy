/** The JSON printer of site/json.js: `$.toJSON` and `$.quoteString`. */
module Printer {
  import opened Basics

  function HexDigit(n: nat): char
    requires n < 16
  {
    "0123456789abcdef"[n]
  }

  predicate MustEscape(c: char) {
    c == '"' || c == '\\' || c < '\U{20}' || '\U{7f}' <= c <= '\U{9f}'
  }

  function Escaped(c: char): string {
    if !MustEscape(c) then [c]
    else if c == '\U{08}' then "\\b"
    else if c == '\t' then "\\t"
    else if c == '\n' then "\\n"
    else if c == '\U{0c}' then "\\f"
    else if c == '\r' then "\\r"
    else if c == '"' then "\\\""
    else if c == '\\' then "\\\\"
    else "\\u00" + [HexDigit(c as int / 16), HexDigit(c as int % 16)]
  }

  function EscapedAll(s: string): string {
    if s == "" then "" else Escaped(s[0]) + EscapedAll(s[1..])
  }

  function QuoteString(s: string): string {
    ['"'] + EscapedAll(s) + ['"']
  }

  /** A character stands for itself unless it is a quote, a backslash or a control character of
      either range; these have a two-letter escape if there is one, and four lower-case hex
      digits otherwise. */
  lemma EscapedForm(c: char)
    ensures Escaped(c) == [c] <==>
              c != '"' && c != '\\' && 0x20 <= c as int && !(0x7f <= c as int <= 0x9f)
    ensures |Escaped(c)| == 2 <==> c as int in {0x08, 0x09, 0x0a, 0x0c, 0x0d, 0x22, 0x5c}
    ensures |Escaped(c)| in {1, 2, 6} && (|Escaped(c)| == 1 ==> Escaped(c) == [c])
    ensures |Escaped(c)| == 6 ==> "\\u00" <= Escaped(c)
    ensures |Escaped(c)| == 6 ==> forall i :: 4 <= i < 6 ==> Escaped(c)[i] in "0123456789abcdef"
  {
  }

  lemma EscapeIsNoControl(c: char)
    ensures forall i :: 0 <= i < |Escaped(c)| ==> !IsControl(Escaped(c)[i])
  {
  }

  predicate IsControl(c: char) { c as int < 0x20 || 0x7f <= c as int <= 0x9f }

  /** No control character is printed raw. */
  lemma {:induction false} QuotesNoControl(s: string)
    ensures forall i :: 0 <= i < |QuoteString(s)| ==> !IsControl(QuoteString(s)[i])
  {
    EscapesNoControl(s);
  }

  lemma {:induction false} EscapesNoControl(s: string)
    ensures forall i :: 0 <= i < |EscapedAll(s)| ==> !IsControl(EscapedAll(s)[i])
  {
    if s != "" {
      EscapeIsNoControl(s[0]);
      EscapesNoControl(s[1..]);
    }
  }

  /** `pairs.join(',')` */
  function Join(pairs: seq<string>): string {
    if |pairs| == 0 then ""
    else if |pairs| == 1 then pairs[0]
    else pairs[0] + [','] + Join(pairs[1..])
  }

  function Print(v: Json): string
    decreases v, 1
  {
    match v
    case Null => "null"
    case Bool(b) => if b then "true" else "false"
    case Num(text) => text
    case Str(s) => QuoteString(s)
    case Arr(items) => ['['] + Join(PrintItems(items)) + [']']
    case Obj(members) => ['{'] + Join(PrintMembers(members)) + ['}']
  }

  function PrintItems(items: seq<Json>): (pairs: seq<string>)
    ensures |pairs| == |items|
    decreases items, 0
  {
    if items == [] then [] else [Print(items[0])] + PrintItems(items[1..])
  }

  function PrintMember(m: Member): string
    decreases m, 2
  {
    QuoteString(m.name) + [':'] + Print(m.value)
  }

  function PrintMembers(members: seq<Member>): (pairs: seq<string>)
    ensures |pairs| == |members|
    decreases members, 0
  {
    if members == [] then [] else [PrintMember(members[0])] + PrintMembers(members[1..])
  }

  lemma {:induction false} PrintItemsSnoc(items: seq<Json>, v: Json)
    ensures PrintItems(items + [v]) == PrintItems(items) + [Print(v)]
  {
    if items == [] {
      assert items + [v] == [v] && PrintItems([v]) == [Print(v)] + PrintItems([]);
    } else {
      assert (items + [v])[1..] == items[1..] + [v];
      PrintItemsSnoc(items[1..], v);
    }
  }

  lemma {:induction false} PrintMembersSnoc(members: seq<Member>, m: Member)
    ensures PrintMembers(members + [m]) == PrintMembers(members) + [PrintMember(m)]
  {
    if members == [] {
      assert members + [m] == [m] && PrintMembers([m]) == [PrintMember(m)] + PrintMembers([]);
    } else {
      assert (members + [m])[1..] == members[1..] + [m];
      PrintMembersSnoc(members[1..], m);
    }
  }

  /** `$.toJSON`, pushing onto `pairs` as the source does. */
  method ToJson(v: Json) returns (text: string)
    ensures text == Print(v)
    decreases v
  {
    match v
    case Null => return "null";
    case Bool(b) => return if b then "true" else "false";
    case Num(t) => return t;
    case Str(s) => return QuoteString(s);
    case Arr(items) =>
      var pairs := [];
      for k := 0 to |items|
        invariant pairs == PrintItems(items[..k])
      {
        var item := ToJson(items[k]);
        pairs := pairs + [item];
        PrintItemsSnoc(items[..k], items[k]);
        assert items[..k + 1] == items[..k] + [items[k]];
      }
      assert items[..|items|] == items;
      return ['['] + Join(pairs) + [']'];
    case Obj(members) =>
      var pairs := [];
      for k := 0 to |members|
        invariant pairs == PrintMembers(members[..k])
      {
        var name := QuoteString(members[k].name);
        var val := ToJson(members[k].value);
        pairs := pairs + [name + [':'] + val];
        PrintMembersSnoc(members[..k], members[k]);
        assert members[..k + 1] == members[..k] + [members[k]];
      }
      assert members[..|members|] == members;
      return ['{'] + Join(pairs) + ['}'];
  }
}

/** A reader for compact JSON text after sections 2 to 7 of RFC 8259, without
    insignificant whitespace and without surrogate escapes. It is defined from the
    grammar alone and says what the printed text means. */
module Reader {
  import opened Basics
  import opened Printer

  datatype Read<T> = Read(value: T, rest: string)

  function HexValue(c: char): Option<nat> {
    if '0' <= c <= '9' then Some(c as int - '0' as int)
    else if 'a' <= c <= 'f' then Some(c as int - 'a' as int + 10)
    else if 'A' <= c <= 'F' then Some(c as int - 'A' as int + 10)
    else None
  }

  function FourHex(s: string): Option<nat> {
    if |s| < 4 then None
    else match (HexValue(s[0]), HexValue(s[1]), HexValue(s[2]), HexValue(s[3]))
      case (Some(a), Some(b), Some(c), Some(d)) => Some(4096 * a + 256 * b + 16 * c + d)
      case _ => None
  }

  /** One character of a string body, section 7 of RFC 8259. */
  function ReadChar(s: string): (r: Option<Read<char>>)
    requires s != ""
    ensures r.Some? ==> |r.value.rest| < |s|
  {
    if s[0] < '\U{20}' then None
    else if s[0] != '\\' then Some(Read(s[0], s[1..]))
    else if |s| == 1 then None
    else if s[1] == 'u' then
      match FourHex(s[2..])
      case Some(n) =>
        if n < 0xd800 || 0xe000 <= n < 0x10000 then Some(Read(n as char, s[6..])) else None
      case None => None
    else
      match s[1]
      case '"' => Some(Read('"', s[2..]))
      case '\\' => Some(Read('\\', s[2..]))
      case '/' => Some(Read('/', s[2..]))
      case 'b' => Some(Read('\U{08}', s[2..]))
      case 'f' => Some(Read('\U{0c}', s[2..]))
      case 'n' => Some(Read('\n', s[2..]))
      case 'r' => Some(Read('\r', s[2..]))
      case 't' => Some(Read('\t', s[2..]))
      case _ => None
  }

  function Cons<T>(x: T, r: Option<Read<seq<T>>>): Option<Read<seq<T>>> {
    match r
    case None => None
    case Some(Read(xs, rest)) => Some(Read([x] + xs, rest))
  }

  /** The rest of a string, after its opening quote. */
  function ReadBody(s: string): (r: Option<Read<string>>)
    ensures r.Some? ==> |r.value.rest| < |s|
    decreases |s|
  {
    if s == "" then None
    else if s[0] == '"' then Some(Read("", s[1..]))
    else match ReadChar(s)
      case None => None
      case Some(Read(c, rest)) => Cons(c, ReadBody(rest))
  }

  function NumberEnd(s: string): (k: nat)
    ensures k <= |s|
    ensures forall i :: 0 <= i < k ==> !IsStructural(s[i])
    ensures k < |s| ==> IsStructural(s[k])
  {
    if s == "" || IsStructural(s[0]) then 0 else 1 + NumberEnd(s[1..])
  }

  function ReadValue(s: string): (r: Option<Read<Json>>)
    ensures r.Some? ==> |r.value.rest| < |s|
    decreases |s|, 0
  {
    if s == "" then None
    else if s[0] == '"' then
      match ReadBody(s[1..])
      case None => None
      case Some(Read(t, rest)) => Some(Read(Str(t), rest))
    else if s[0] == '[' then
      if |s| > 1 && s[1] == ']' then Some(Read(Arr([]), s[2..]))
      else match ReadItems(s[1..])
        case None => None
        case Some(Read(items, rest)) => Some(Read(Arr(items), rest))
    else if s[0] == '{' then
      if |s| > 1 && s[1] == '}' then Some(Read(Obj([]), s[2..]))
      else match ReadMembers(s[1..])
        case None => None
        case Some(Read(members, rest)) => Some(Read(Obj(members), rest))
    else if "null" <= s then Some(Read(Null, s[4..]))
    else if "true" <= s then Some(Read(Bool(true), s[4..]))
    else if "false" <= s then Some(Read(Bool(false), s[5..]))
    else
      var k := NumberEnd(s);
      if IsNumberText(s[..k]) then Some(Read(Num(s[..k]), s[k..])) else None
  }

  /** One or more values with commas between them, up to the closing bracket. */
  function ReadItems(s: string): (r: Option<Read<seq<Json>>>)
    ensures r.Some? ==> |r.value.rest| < |s|
    decreases |s|, 1
  {
    match ReadValue(s)
    case None => None
    case Some(Read(v, rest)) =>
      if rest == "" then None
      else if rest[0] == ']' then Some(Read([v], rest[1..]))
      else if rest[0] == ',' then Cons(v, ReadItems(rest[1..]))
      else None
  }

  function ReadMember(s: string): (r: Option<Read<Member>>)
    ensures r.Some? ==> |r.value.rest| < |s|
    decreases |s|, 1
  {
    if s == "" || s[0] != '"' then None
    else match ReadBody(s[1..])
      case None => None
      case Some(Read(name, rest)) =>
        if rest == "" || rest[0] != ':' then None
        else match ReadValue(rest[1..])
          case None => None
          case Some(Read(v, rest')) => Some(Read(Member(name, v), rest'))
  }

  function ReadMembers(s: string): (r: Option<Read<seq<Member>>>)
    ensures r.Some? ==> |r.value.rest| < |s|
    decreases |s|, 2
  {
    match ReadMember(s)
    case None => None
    case Some(Read(m, rest)) =>
      if rest == "" then None
      else if rest[0] == '}' then Some(Read([m], rest[1..]))
      else if rest[0] == ',' then Cons(m, ReadMembers(rest[1..]))
      else None
  }

  // ----- reading undoes printing

  lemma ReadsDigit(n: nat)
    requires n < 16
    ensures HexValue(HexDigit(n)) == Some(n)
  {
  }

  lemma ReadsHex(hi: nat, lo: nat, tail: string)
    requires hi < 16 && lo < 16
    ensures ReadChar("\\u00" + [HexDigit(hi), HexDigit(lo)] + tail) == Some(Read((16 * hi + lo) as char, tail))
  {
    var s := "\\u00" + [HexDigit(hi), HexDigit(lo)] + tail;
    ReadsDigit(hi);
    ReadsDigit(lo);
    ReadsDigit(0);
    assert s[2] == '0' && s[3] == '0' && s[4] == HexDigit(hi) && s[5] == HexDigit(lo);
    assert FourHex(s[2..]) == Some(16 * hi + lo);
    assert s[6..] == tail;
  }

  lemma ReadsEscaped(c: char, tail: string)
    ensures Escaped(c)[0] != '"'
    ensures ReadChar(Escaped(c) + tail) == Some(Read(c, tail))
  {
    var s := Escaped(c) + tail;
    if !MustEscape(c) {
      assert s[1..] == tail;
    } else if |Escaped(c)| == 2 {
      assert s[2..] == tail;
    } else {
      ReadsHex(c as int / 16, c as int % 16, tail);
    }
  }

  lemma {:induction false} ReadsQuoted(t: string, rest: string)
    ensures ReadBody(EscapedAll(t) + ['"'] + rest) == Some(Read(t, rest))
  {
    if t == "" {
      assert EscapedAll(t) + ['"'] + rest == ['"'] + rest;
    } else {
      var tail := EscapedAll(t[1..]) + ['"'] + rest;
      calc {
        ReadBody(EscapedAll(t) + ['"'] + rest);
      ==  { assert EscapedAll(t) + ['"'] + rest == Escaped(t[0]) + tail; }
        ReadBody(Escaped(t[0]) + tail);
      ==  { ReadsEscaped(t[0], tail); }
        Cons(t[0], ReadBody(tail));
      ==  { ReadsQuoted(t[1..], rest); }
        Some(Read([t[0]] + t[1..], rest));
      ==  { assert [t[0]] + t[1..] == t; }
        Some(Read(t, rest));
      }
    }
  }

  predicate Delimited(rest: string) { rest == "" || IsStructural(rest[0]) }

  lemma ReadsNumber(text: NumberText, rest: string)
    requires Delimited(rest)
    ensures ReadValue(text + rest) == Some(Read(Num(text), rest))
  {
    var s := text + rest;
    assert s[0] == text[0] && "null"[0] == 'n' && "true"[0] == 't' && "false"[0] == 'f';
    assert forall i :: 0 <= i < |text| ==> s[i] == text[i];
    var k := NumberEnd(s);
    assert rest == "" || s[|text|] == rest[0];
    assert s[..k] == text && s[k..] == rest;
  }

  lemma ReadsWord(v: Json, rest: string)
    requires v.Null? || v.Bool?
    ensures ReadValue(Print(v) + rest) == Some(Read(v, rest))
  {
    var s := Print(v) + rest;
    assert s[..|Print(v)|] == Print(v) && s[|Print(v)|..] == rest;
    assert s[0] == Print(v)[0];
  }

  lemma ReadsString(t: string, rest: string)
    ensures ReadValue(Print(Str(t)) + rest) == Some(Read(Str(t), rest))
  {
    ReadsQuoted(t, rest);
    assert (Print(Str(t)) + rest)[1..] == EscapedAll(t) + ['"'] + rest;
  }

  lemma OpenBracket(body: string)
    requires body != "" && body[0] != ']'
    ensures ReadValue(['['] + body)
         == match ReadItems(body) case None => None case Some(r) => Some(Read(Arr(r.value), r.rest))
  {
    assert (['['] + body)[1..] == body;
  }

  lemma OpenBrace(body: string)
    requires body != "" && body[0] != '}'
    ensures ReadValue(['{'] + body)
         == match ReadMembers(body) case None => None case Some(r) => Some(Read(Obj(r.value), r.rest))
  {
    assert (['{'] + body)[1..] == body;
  }

  /** Printed text reads back as the value, whatever comes after it; only a number needs to
      be delimited. */
  lemma {:induction false} ReadsPrinted(v: Json, rest: string)
    requires v.Num? ==> Delimited(rest)
    ensures ReadValue(Print(v) + rest) == Some(Read(v, rest))
    decreases v, 1
  {
    match v
    case Null => ReadsWord(v, rest);
    case Bool(_) => ReadsWord(v, rest);
    case Num(text) => ReadsNumber(text, rest);
    case Str(t) => ReadsString(t, rest);
    case Arr(items) => ReadsArray(items, rest);
    case Obj(members) => ReadsObject(members, rest);
  }

  lemma {:induction false} ReadsArray(items: seq<Json>, rest: string)
    ensures ReadValue(Print(Arr(items)) + rest) == Some(Read(Arr(items), rest))
    decreases items, 1
  {
    if items == [] {
      assert Print(Arr(items)) + rest == ['[', ']'] + rest;
    } else {
      var body := Join(PrintItems(items)) + [']'] + rest;
      assert Print(Arr(items)) + rest == ['['] + body;
      NoEmptyText(items[0]);
      assert body[0] == Join(PrintItems(items))[0] == Print(items[0])[0];
      OpenBracket(body);
      ReadsItems(items, rest);
    }
  }

  lemma {:induction false} ReadsObject(members: seq<Member>, rest: string)
    ensures ReadValue(Print(Obj(members)) + rest) == Some(Read(Obj(members), rest))
    decreases members, 1
  {
    if members == [] {
      assert Print(Obj(members)) + rest == ['{', '}'] + rest;
    } else {
      var body := Join(PrintMembers(members)) + ['}'] + rest;
      assert Print(Obj(members)) + rest == ['{'] + body;
      assert body[0] == Join(PrintMembers(members))[0] == PrintMember(members[0])[0];
      OpenBrace(body);
      ReadsMembers(members, rest);
    }
  }

  lemma NoEmptyText(v: Json)
    ensures Print(v) != "" && Print(v)[0] != ']'
  {
  }

  lemma {:induction false} ReadsItems(items: seq<Json>, rest: string)
    requires items != []
    ensures ReadItems(Join(PrintItems(items)) + [']'] + rest) == Some(Read(items, rest))
    decreases items, 0
  {
    var s := Join(PrintItems(items)) + [']'] + rest;
    if |items| == 1 {
      assert s == Print(items[0]) + ([']'] + rest);
      ReadsPrinted(items[0], [']'] + rest);
      assert items == [items[0]];
    } else {
      var tail := Join(PrintItems(items[1..])) + [']'] + rest;
      calc {
        ReadItems(s);
      ==  { assert s == Print(items[0]) + ([','] + tail); }
        ReadItems(Print(items[0]) + ([','] + tail));
      ==  { ReadsPrinted(items[0], [','] + tail); assert ([','] + tail)[1..] == tail; }
        Cons(items[0], ReadItems(tail));
      ==  { ReadsItems(items[1..], rest); }
        Some(Read([items[0]] + items[1..], rest));
      ==  { assert [items[0]] + items[1..] == items; }
        Some(Read(items, rest));
      }
    }
  }

  lemma MemberParts(m: Member, rest: string)
    ensures PrintMember(m) + rest == ['"'] + (EscapedAll(m.name) + ['"'] + ([':'] + (Print(m.value) + rest)))
  {
  }

  /** A member is its name's body, a colon and its value. */
  lemma ReadMemberParts(body: string, name: string, tail: string)
    requires ReadBody(body) == Some(Read(name, [':'] + tail))
    ensures ReadMember(['"'] + body)
         == match ReadValue(tail) case None => None case Some(r) => Some(Read(Member(name, r.value), r.rest))
  {
    assert (['"'] + body)[1..] == body && ([':'] + tail)[1..] == tail;
  }

  lemma {:induction false} ReadsMember(m: Member, rest: string)
    requires m.value.Num? ==> Delimited(rest)
    ensures ReadMember(PrintMember(m) + rest) == Some(Read(m, rest))
    decreases m, 2
  {
    var tail := Print(m.value) + rest;
    MemberParts(m, rest);
    ReadsQuoted(m.name, [':'] + tail);
    ReadMemberParts(EscapedAll(m.name) + ['"'] + ([':'] + tail), m.name, tail);
    ReadsPrinted(m.value, rest);
  }

  lemma {:induction false} ReadsMembers(members: seq<Member>, rest: string)
    requires members != []
    ensures ReadMembers(Join(PrintMembers(members)) + ['}'] + rest) == Some(Read(members, rest))
    decreases members, 0
  {
    var s := Join(PrintMembers(members)) + ['}'] + rest;
    if |members| == 1 {
      assert s == PrintMember(members[0]) + (['}'] + rest);
      ReadsMember(members[0], ['}'] + rest);
      assert members == [members[0]];
    } else {
      var tail := Join(PrintMembers(members[1..])) + ['}'] + rest;
      calc {
        ReadMembers(s);
      ==  { assert s == PrintMember(members[0]) + ([','] + tail); }
        ReadMembers(PrintMember(members[0]) + ([','] + tail));
      ==  { ReadsMember(members[0], [','] + tail); assert ([','] + tail)[1..] == tail; }
        Cons(members[0], ReadMembers(tail));
      ==  { ReadsMembers(members[1..], rest); }
        Some(Read([members[0]] + members[1..], rest));
      ==  { assert [members[0]] + members[1..] == members; }
        Some(Read(members, rest));
      }
    }
  }
}
