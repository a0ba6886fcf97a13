/** Message framing: the brace scanner of lib/rjr/util/json_parser.rb.

    The scanner is specified twice. `Extract` follows the scanner's own state,
    one character at a time. `Piece` is a grammar of what may stand between two
    braces; it knows nothing about scanning. `ExtractIff` says that both agree. */
module Scanner {
  import opened Basics

  // ----- what the scanner computes

  datatype Mode = Outside | Inside(quote: char, escaped: bool)

  predicate IsQuote(c: char) { c == '\'' || c == '"' }

  function NextMode(m: Mode, c: char): Mode {
    match m
    case Outside => if IsQuote(c) then Inside(c, false) else Outside
    case Inside(q, escaped) =>
      if c == '\\' then Inside(q, !escaped)
      else if !escaped && c == q then Outside
      else Inside(q, false)
  }

  function NextDepth(m: Mode, d: int, c: char): int {
    if m.Outside? && c == '{' then d + 1
    else if m.Outside? && c == '}' then d - 1
    else d
  }

  function Plus(n: nat, k: Option<nat>): Option<nat> {
    match k
    case None => None
    case Some(k) => Some(n + k)
  }

  /** How many characters of `t` are read until the depth is zero. */
  function Close(m: Mode, d: int, t: string): (k: Option<nat>)
    ensures k.Some? ==> 0 < k.value <= |t|
    decreases |t|
  {
    if t == "" then None
    else if NextDepth(m, d, t[0]) == 0 then Some(1)
    else Plus(1, Close(NextMode(m, t[0]), NextDepth(m, d, t[0]), t[1..]))
  }

  function FirstBrace(data: string): (i: nat)
    ensures i <= |data|
    ensures forall j :: 0 <= j < i ==> data[j] != '{'
    ensures i < |data| ==> data[i] == '{'
  {
    if data == "" || data[0] == '{' then 0 else 1 + FirstBrace(data[1..])
  }

  datatype Extracted = Extracted(msg: string, rest: string)

  function Extract(data: string): (r: Option<Extracted>)
    ensures r.Some? ==> |r.value.rest| < |data|
  {
    var start := FirstBrace(data);
    match Close(Outside, 0, data[start..])
    case None => None
    case Some(k) => Some(Extracted(data[start..][..k], data[start..][k..]))
  }

  /** `JSONParser.extract_json_from`. */
  method ExtractJsonFrom(data: string) returns (r: Option<Extracted>)
    ensures r == Extract(data)
  {
    if data == "" { return None; }
    var start := 0;
    while start != |data| && data[start] != '{'
      invariant start <= |data|
      invariant FirstBrace(data) == start + FirstBrace(data[start..])
    {
      start := start + 1;
    }
    var mark := FindMark(data, start);
    if mark == 0 { return None; }
    assert data[start..mark + 1] == data[start..][..mark + 1 - start];
    assert data[mark + 1..] == data[start..][mark + 1 - start..];
    return Some(Extracted(data[start..mark + 1], data[mark + 1..]));
  }

  /** The loop of `extract_json_from`, with the source's own variables: the index
      of the closing brace, or 0. */
  method FindMark(data: string, start: nat) returns (mark: nat)
    requires start <= |data| && (start < |data| ==> data[start] == '{')
    ensures mark != 0 ==> start < mark < |data|
    ensures Close(Outside, 0, data[start..]) == if mark == 0 then None else Some(mark + 1 - start)
  {
    var escaped, inQuotes, quoteChar := false, false, None;
    var openBrackets := 0;
    mark := 0;
    for i := start to |data|
      invariant escaped ==> inQuotes
      invariant inQuotes ==> quoteChar.Some? && IsQuote(quoteChar.value)
      invariant i == start || openBrackets != 0
      invariant i == start ==> openBrackets == 0 && !inQuotes
      invariant Close(Outside, 0, data[start..]) ==
                Plus(i - start, Close(ModeOf(escaped, inQuotes, quoteChar), openBrackets, data[i..]))
    {
      assert data[i..][0] == data[i] && data[i..][1..] == data[i + 1..];
      ghost var m, d := ModeOf(escaped, inQuotes, quoteChar), openBrackets;
      if inQuotes && data[i] == '\\' {
        escaped := !escaped;
      } else {
        if !escaped {
          if !inQuotes {
            if data[i] == '{' {
              openBrackets := openBrackets + 1;
            } else if data[i] == '}' {
              openBrackets := openBrackets - 1;
            }
          }
          if IsQuote(data[i]) {
            if !inQuotes {
              inQuotes, quoteChar := true, Some(data[i]);
            } else if quoteChar == Some(data[i]) {
              inQuotes := false;
            }
          }
        }
        escaped := false;
      }
      assert ModeOf(escaped, inQuotes, quoteChar) == NextMode(m, data[i]);
      assert openBrackets == NextDepth(m, d, data[i]);
      if openBrackets == 0 {
        mark := i;
        return;
      }
    }
  }

  function ModeOf(escaped: bool, inQuotes: bool, quoteChar: Option<char>): Mode {
    if inQuotes && quoteChar.Some? then Inside(quoteChar.value, escaped) else Outside
  }

  // ----- the grammar of a frame

  datatype Quotable = Lit(c: char) | Esc(c: char)

  datatype Piece =
    | Plain(c: char)
    | Quoted(q: char, body: seq<Quotable>)
    | Group(items: seq<Piece>)

  /** Every brace and quote outside a quoted stretch is structural, and a quoted
      stretch ends at the first unescaped quote of its own kind. */
  predicate Ok(p: Piece) {
    match p
    case Plain(c) => !IsQuote(c) && c != '{' && c != '}'
    case Quoted(q, body) =>
      IsQuote(q) && forall i :: 0 <= i < |body| && body[i].Lit? ==> body[i].c != q && body[i].c != '\\'
    case Group(items) => forall i :: 0 <= i < |items| ==> Ok(items[i])
  }

  predicate AllOk(ps: seq<Piece>) { forall i :: 0 <= i < |ps| ==> Ok(ps[i]) }

  function BodyText(body: seq<Quotable>): string {
    if body == [] then "" else Shown(body[0]) + BodyText(body[1..])
  }

  function Shown(e: Quotable): string {
    match e case Lit(c) => [c] case Esc(c) => ['\\', c]
  }

  function Text(p: Piece): string
    decreases p, 1
  {
    match p
    case Plain(c) => [c]
    case Quoted(q, body) => [q] + BodyText(body) + [q]
    case Group(items) => "{" + Texts(items) + "}"
  }

  function Texts(ps: seq<Piece>): string
    decreases ps, 0
  {
    if ps == [] then "" else Text(ps[0]) + Texts(ps[1..])
  }

  lemma {:induction false} TextsAppends(a: seq<Piece>, b: seq<Piece>)
    ensures Texts(a + b) == Texts(a) + Texts(b)
  {
    if a == [] {
      assert a + b == b;
    } else {
      assert (a + b)[1..] == a[1..] + b;
      TextsAppends(a[1..], b);
    }
  }

  lemma {:induction false} BodyTextAppends(a: seq<Quotable>, b: seq<Quotable>)
    ensures BodyText(a + b) == BodyText(a) + BodyText(b)
  {
    if a == [] {
      assert a + b == b;
    } else {
      assert (a + b)[1..] == a[1..] + b;
      BodyTextAppends(a[1..], b);
    }
  }

  // ----- every frame of the grammar is found, and nothing past it is read

  lemma CloseStep(m: Mode, d: int, c: char, t: string)
    ensures Close(m, d, [c] + t)
         == if NextDepth(m, d, c) == 0 then Some(1) else Plus(1, Close(NextMode(m, c), NextDepth(m, d, c), t))
  {
    assert ([c] + t)[1..] == t;
  }

  lemma {:induction false} SkipBody(q: char, body: seq<Quotable>, d: int, rest: string)
    requires Ok(Quoted(q, body)) && d != 0
    ensures Close(Inside(q, false), d, BodyText(body) + [q] + rest)
         == Plus(|BodyText(body)| + 1, Close(Outside, d, rest))
  {
    if body == [] {
      assert BodyText(body) + [q] + rest == [q] + rest;
      CloseStep(Inside(q, false), d, q, rest);
    } else {
      var tail := BodyText(body[1..]) + [q] + rest;
      calc {
        Close(Inside(q, false), d, BodyText(body) + [q] + rest);
      ==  { assert BodyText(body) + [q] + rest == Shown(body[0]) + tail; }
        Close(Inside(q, false), d, Shown(body[0]) + tail);
      ==  { SkipQuotable(q, body[0], d, tail); }
        Plus(|Shown(body[0])|, Close(Inside(q, false), d, tail));
      ==  { SkipBody(q, body[1..], d, rest); }
        Plus(|Shown(body[0])|, Plus(|BodyText(body[1..])| + 1, Close(Outside, d, rest)));
      }
    }
  }

  lemma SkipQuotable(q: char, e: Quotable, d: int, tail: string)
    requires IsQuote(q) && d != 0 && (e.Lit? ==> e.c != q && e.c != '\\')
    ensures Close(Inside(q, false), d, Shown(e) + tail) == Plus(|Shown(e)|, Close(Inside(q, false), d, tail))
  {
    CloseStep(Inside(q, false), d, e.c, tail);
    if e.Esc? {
      assert Shown(e) + tail == ['\\'] + ([e.c] + tail);
      CloseStep(Inside(q, true), d, e.c, tail);
      CloseStep(Inside(q, false), d, '\\', [e.c] + tail);
    }
  }

  lemma {:induction false} SkipPiece(p: Piece, d: int, rest: string)
    requires Ok(p) && 1 <= d
    ensures Close(Outside, d, Text(p) + rest) == Plus(|Text(p)|, Close(Outside, d, rest))
    decreases p, 1
  {
    match p
    case Plain(c) =>
      CloseStep(Outside, d, c, rest);
    case Quoted(q, body) =>
      var tail := BodyText(body) + [q] + rest;
      assert Text(p) + rest == [q] + tail;
      CloseStep(Outside, d, q, tail);
      SkipBody(q, body, d, rest);
    case Group(items) =>
      SkipGroup(items, d, rest);
  }

  lemma {:induction false} SkipGroup(items: seq<Piece>, d: int, rest: string)
    requires AllOk(items) && 0 <= d
    ensures Close(Outside, d, Text(Group(items)) + rest)
         == Plus(|Text(Group(items))|, if d == 0 then Some(0) else Close(Outside, d, rest))
    decreases items, 1
  {
    var end := ['}'] + rest;
    var tail := Texts(items) + end;
    calc {
      Close(Outside, d, Text(Group(items)) + rest);
    ==  { assert Text(Group(items)) + rest == ['{'] + tail; }
      Close(Outside, d, ['{'] + tail);
    ==  { CloseStep(Outside, d, '{', tail); }
      Plus(1, Close(Outside, d + 1, tail));
    ==  { SkipPieces(items, d + 1, end); }
      Plus(1, Plus(|Texts(items)|, Close(Outside, d + 1, end)));
    ==  { CloseStep(Outside, d + 1, '}', rest); }
      Plus(1, Plus(|Texts(items)|, if d == 0 then Some(1) else Plus(1, Close(Outside, d, rest))));
    }
  }

  lemma {:induction false} SkipPieces(ps: seq<Piece>, d: int, rest: string)
    requires AllOk(ps) && 1 <= d
    ensures Close(Outside, d, Texts(ps) + rest) == Plus(|Texts(ps)|, Close(Outside, d, rest))
    decreases ps, 0
  {
    if ps == [] {
      assert Texts(ps) + rest == rest;
    } else {
      assert Texts(ps) + rest == Text(ps[0]) + (Texts(ps[1..]) + rest);
      SkipPiece(ps[0], d, Texts(ps[1..]) + rest);
      SkipPieces(ps[1..], d, rest);
    }
  }

  // ----- whatever is found is a frame of the grammar

  /** The groups that are open at some point, the innermost on top. */
  datatype Stack = Bottom | Push(below: Stack, items: seq<Piece>)

  function Depth(s: Stack): nat {
    match s case Bottom => 0 case Push(below, _) => 1 + Depth(below)
  }

  function StackText(s: Stack): string {
    match s case Bottom => "" case Push(below, items) => StackText(below) + "{" + Texts(items)
  }

  predicate StackOk(s: Stack) {
    match s case Bottom => true case Push(below, items) => StackOk(below) && AllOk(items)
  }

  lemma PushItem(s: Stack, p: Piece)
    requires s.Push? && StackOk(s) && Ok(p)
    ensures StackOk(s.(items := s.items + [p]))
    ensures StackText(s.(items := s.items + [p])) == StackText(s) + Text(p)
  {
    TextsAppends(s.items, [p]);
    assert Texts([p]) == Text(p) + Texts([]) == Text(p);
  }

  /** Only the characters up to the closing brace matter. */
  lemma {:induction false} CloseReadsPrefix(m: Mode, d: int, t: string)
    requires Close(m, d, t).Some?
    ensures Close(m, d, t[..Close(m, d, t).value]) == Close(m, d, t)
    decreases |t|
  {
    var k := Close(m, d, t).value;
    if NextDepth(m, d, t[0]) != 0 {
      CloseReadsPrefix(NextMode(m, t[0]), NextDepth(m, d, t[0]), t[1..]);
      assert t[..k][1..] == t[1..][..k - 1];
    }
  }

  /** With `read` behind it, reading the whole of `t` closes every group of `s`. */
  lemma {:induction false} ParseOutside(s: Stack, read: string, t: string) returns (g: Piece)
    requires s.Push? && StackOk(s) && read == StackText(s)
    requires Close(Outside, Depth(s), t) == Some(|t|)
    ensures g.Group? && Ok(g) && Text(g) == read + t
    decreases |t|
  {
    var c, t' := t[0], t[1..];
    assert read + t == read + [c] + t';
    if c == '{' {
      g := ParseOutside(Push(s, []), read + [c], t');
    } else if c == '}' {
      g := ParseBrace(s, read, t');
    } else if IsQuote(c) {
      assert read + [c] == read + [c] + BodyText([]);
      g := ParseInside(s, c, [], read + [c], t');
    } else {
      PushItem(s, Plain(c));
      g := ParseOutside(s.(items := s.items + [Plain(c)]), read + [c], t');
    }
  }

  lemma {:induction false} ParseBrace(s: Stack, read: string, t: string) returns (g: Piece)
    requires s.Push? && StackOk(s) && read == StackText(s)
    requires if s.below.Bottom? then t == "" else Close(Outside, Depth(s.below), t) == Some(|t|)
    ensures g.Group? && Ok(g) && Text(g) == read + "}" + t
    decreases 1 + |t|, 0
  {
    var done := Group(s.items);
    assert StackText(s.below) + Text(done) == read + "}";
    if s.below.Bottom? {
      g := done;
    } else {
      PushItem(s.below, done);
      g := ParseOutside(s.below.(items := s.below.items + [done]), read + "}", t);
    }
  }

  lemma {:induction false} ParseInside(s: Stack, q: char, body: seq<Quotable>, read: string, t: string)
    returns (g: Piece)
    requires s.Push? && StackOk(s) && Ok(Quoted(q, body)) && read == StackText(s) + [q] + BodyText(body)
    requires Close(Inside(q, false), Depth(s), t) == Some(|t|)
    ensures g.Group? && Ok(g) && Text(g) == read + t
    decreases |t|
  {
    var c, t' := t[0], t[1..];
    assert read + t == read + [c] + t';
    if c == q {
      PushItem(s, Quoted(q, body));
      g := ParseOutside(s.(items := s.items + [Quoted(q, body)]), read + [c], t');
    } else if c == '\\' {
      assert read + t == read + Shown(Esc(t'[0])) + t'[1..];
      g := ParseQuotable(s, q, body, Esc(t'[0]), read, t'[1..]);
    } else {
      g := ParseQuotable(s, q, body, Lit(c), read, t');
    }
  }

  lemma {:induction false} ParseQuotable(s: Stack, q: char, body: seq<Quotable>, e: Quotable, read: string, t: string)
    returns (g: Piece)
    requires s.Push? && StackOk(s) && Ok(Quoted(q, body)) && read == StackText(s) + [q] + BodyText(body)
    requires e.Lit? ==> e.c != q && e.c != '\\'
    requires Close(Inside(q, false), Depth(s), t) == Some(|t|)
    ensures g.Group? && Ok(g) && Text(g) == read + Shown(e) + t
    decreases 1 + |t|, 0
  {
    BodyTextAppends(body, [e]);
    assert BodyText([e]) == Shown(e) + BodyText([]);
    g := ParseInside(s, q, body + [e], read + Shown(e), t);
  }

  // ----- the scanner and the grammar agree

  /** `data` is `junk`, then the text of a group, then `rest`. */
  ghost predicate IsCut(data: string, junk: string, g: Piece, rest: string) {
    && '{' !in junk
    && g.Group? && Ok(g)
    && data == junk + Text(g) + rest
  }

  lemma ExtractsCut(data: string, junk: string, g: Piece, rest: string)
    requires IsCut(data, junk, g, rest)
    ensures Extract(data) == Some(Extracted(Text(g), rest))
  {
    assert data[|junk|] == '{';
    assert forall j :: 0 <= j < |junk| ==> data[j] == junk[j] && junk[j] in junk;
    assert FirstBrace(data) == |junk|;
    assert data[|junk|..] == Text(g) + rest;
    SkipGroup(g.items, 0, rest);
  }

  lemma GroupOfClose(t: string) returns (g: Piece)
    requires t != "" && t[0] == '{' && Close(Outside, 0, t) == Some(|t|)
    ensures g.Group? && Ok(g) && Text(g) == t
  {
    assert t == ['{'] + t[1..];
    CloseStep(Outside, 0, '{', t[1..]);
    g := ParseOutside(Push(Bottom, []), "{", t[1..]);
  }

  lemma CutOfExtract(data: string) returns (junk: string, g: Piece)
    requires Extract(data).Some?
    ensures IsCut(data, junk, g, Extract(data).value.rest)
    ensures Text(g) == Extract(data).value.msg
  {
    var start := FirstBrace(data);
    junk := data[..start];
    var t := data[start..];
    var k := Close(Outside, 0, t).value;
    CloseReadsPrefix(Outside, 0, t);
    g := GroupOfClose(t[..k]);
    assert data == junk + t == junk + t[..k] + t[k..];
  }

  /** The message is extracted exactly when it is the first frame of the data. */
  lemma ExtractIff(data: string, msg: string, rest: string)
    ensures Extract(data) == Some(Extracted(msg, rest))
       <==> exists junk, g :: IsCut(data, junk, g, rest) && Text(g) == msg
  {
    if Extract(data) == Some(Extracted(msg, rest)) {
      var junk, g := CutOfExtract(data);
    }
    forall junk, g | IsCut(data, junk, g, rest) && Text(g) == msg
      ensures Extract(data) == Some(Extracted(msg, rest))
    {
      ExtractsCut(data, junk, g, rest);
    }
  }

  /** No frame is a proper prefix of another, so the extracted run is the shortest. */
  lemma FramesArePrefixFree(a: Piece, b: Piece, x: string, y: string)
    requires a.Group? && Ok(a) && b.Group? && Ok(b)
    requires Text(a) + x == Text(b) + y
    ensures Text(a) == Text(b) && x == y
  {
    ExtractsCut(Text(a) + x, "", a, x);
    ExtractsCut(Text(b) + y, "", b, y);
  }

  /** Data that arrives later never changes an extraction that has succeeded. */
  lemma ExtractIsStable(data: string, more: string)
    requires Extract(data).Some?
    ensures Extract(data + more)
         == Some(Extracted(Extract(data).value.msg, Extract(data).value.rest + more))
  {
    var junk, g := CutOfExtract(data);
    var rest := Extract(data).value.rest;
    assert data + more == junk + Text(g) + (rest + more);
    ExtractsCut(data + more, junk, g, rest + more);
  }
}
