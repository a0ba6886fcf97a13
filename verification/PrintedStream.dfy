/** Printed objects travel intact: the printer of site/json.js at one end of a
    connection, the scanner of lib/rjr/util/json_parser.rb at the other. */
module PrintedStream {
  import opened Basics
  import opened Scanner
  import opened Framing
  import opened Printer
  import opened Reader

  function Plains(s: string): seq<Piece> {
    seq(|s|, i requires 0 <= i < |s| => Plain(s[i]))
  }

  lemma {:induction false} PlainsText(s: string)
    ensures Texts(Plains(s)) == s
  {
    if s != "" {
      PlainsText(s[1..]);
      assert Plains(s)[1..] == Plains(s[1..]);
    }
  }

  /** One character, or a backslash, a character and what follows literally. */
  predicate IsEscape(e: string) {
    && e != ""
    && (|e| == 1 ==> e[0] != '"' && e[0] != '\\')
    && (|e| > 1 ==> e[0] == '\\' && forall i :: 2 <= i < |e| ==> e[i] != '"' && e[i] != '\\')
  }

  lemma EscapedIsEscape(c: char)
    ensures IsEscape(Escaped(c))
  {
    assert forall n: nat :: n < 16 ==> HexDigit(n) != '"' && HexDigit(n) != '\\';
  }

  function EscapePieces(e: string): seq<Quotable>
    requires e != ""
  {
    if |e| == 1 then [Lit(e[0])] else [Esc(e[1])] + Lits(e[2..])
  }

  function Lits(s: string): seq<Quotable> {
    if s == "" then [] else [Lit(s[0])] + Lits(s[1..])
  }

  function Quotables(s: string): seq<Quotable> {
    if s == "" then []
    else
      EscapedIsEscape(s[0]);
      EscapePieces(Escaped(s[0])) + Quotables(s[1..])
  }

  lemma {:induction false} LitsText(s: string)
    ensures BodyText(Lits(s)) == s
    ensures forall i :: 0 <= i < |Lits(s)| ==> Lits(s)[i].Lit? && Lits(s)[i].c in s
  {
    if s != "" {
      LitsText(s[1..]);
      assert Lits(s)[1..] == Lits(s[1..]);
    }
  }

  lemma EscapeText(e: string)
    requires IsEscape(e)
    ensures BodyText(EscapePieces(e)) == e && Ok(Quoted('"', EscapePieces(e)))
  {
    if |e| == 1 {
      assert BodyText([Lit(e[0])]) == [e[0]] + BodyText([]);
    } else {
      LitsText(e[2..]);
      assert EscapePieces(e)[1..] == Lits(e[2..]);
      assert e == Shown(Esc(e[1])) + e[2..];
    }
  }

  lemma {:induction false} QuotablesText(s: string)
    ensures BodyText(Quotables(s)) == EscapedAll(s) && Ok(Quoted('"', Quotables(s)))
  {
    if s != "" {
      EscapedIsEscape(s[0]);
      EscapeText(Escaped(s[0]));
      QuotablesText(s[1..]);
      BodyTextAppends(EscapePieces(Escaped(s[0])), Quotables(s[1..]));
    }
  }

  function QuotedPiece(s: string): Piece { Quoted('"', Quotables(s)) }

  /** The frame grammar's view of printed text. */
  function PiecesOf(v: Json): seq<Piece>
    decreases v, 1
  {
    match v
    case Null => Plains("null")
    case Bool(b) => Plains(if b then "true" else "false")
    case Num(text) => Plains(text)
    case Str(s) => [QuotedPiece(s)]
    case Arr(items) => Plains("[") + Joined(ItemPieces(items)) + Plains("]")
    case Obj(members) => [Group(Joined(MemberPieces(members)))]
  }

  function ItemPieces(items: seq<Json>): (parts: seq<seq<Piece>>)
    ensures |parts| == |items|
    decreases items, 0
  {
    if items == [] then [] else [PiecesOf(items[0])] + ItemPieces(items[1..])
  }

  function MemberPieces(members: seq<Member>): (parts: seq<seq<Piece>>)
    ensures |parts| == |members|
    decreases members, 0
  {
    if members == [] then []
    else [[QuotedPiece(members[0].name)] + Plains(":") + PiecesOf(members[0].value)] + MemberPieces(members[1..])
  }

  function Joined(parts: seq<seq<Piece>>): seq<Piece> {
    if |parts| == 0 then []
    else if |parts| == 1 then parts[0]
    else parts[0] + Plains(",") + Joined(parts[1..])
  }

  ghost predicate Spells(ps: seq<Piece>, text: string) { AllOk(ps) && Texts(ps) == text }

  lemma SpellsAppend(a: seq<Piece>, s: string, b: seq<Piece>, t: string)
    requires Spells(a, s) && Spells(b, t)
    ensures Spells(a + b, s + t)
  {
    TextsAppends(a, b);
  }

  lemma SpellsPlains(s: string)
    requires forall i :: 0 <= i < |s| ==> Ok(Plain(s[i]))
    ensures Spells(Plains(s), s)
  {
    PlainsText(s);
  }

  lemma SpellsString(s: string)
    ensures Spells([QuotedPiece(s)], QuoteString(s))
  {
    QuotablesText(s);
    var p := QuotedPiece(s);
    assert Texts([p]) == Text(p) + Texts([]) == Text(p);
  }

  lemma {:induction false} SpellsJoin(parts: seq<seq<Piece>>, pairs: seq<string>)
    requires |parts| == |pairs| && forall i :: 0 <= i < |parts| ==> Spells(parts[i], pairs[i])
    ensures Spells(Joined(parts), Join(pairs))
  {
    if |parts| > 1 {
      SpellsJoin(parts[1..], pairs[1..]);
      SpellsPlains(",");
      SpellsAppend(parts[0], pairs[0], Plains(","), ",");
      SpellsAppend(parts[0] + Plains(","), pairs[0] + ",", Joined(parts[1..]), Join(pairs[1..]));
    }
  }

  lemma {:induction false} SpellsPrinted(v: Json)
    ensures Spells(PiecesOf(v), Print(v))
    decreases v, 1
  {
    match v
    case Null => SpellsPlains("null");
    case Bool(b) => SpellsPlains(if b then "true" else "false");
    case Num(text) => SpellsPlains(text);
    case Str(s) => SpellsString(s);
    case Arr(items) =>
      SpellsItems(items);
      SpellsJoin(ItemPieces(items), PrintItems(items));
      SpellsPlains("[");
      SpellsPlains("]");
      var mid, text := Joined(ItemPieces(items)), Join(PrintItems(items));
      SpellsAppend(Plains("["), "[", mid, text);
      SpellsAppend(Plains("[") + mid, "[" + text, Plains("]"), "]");
    case Obj(members) =>
      SpellsMembers(members);
      SpellsJoin(MemberPieces(members), PrintMembers(members));
      var g := Group(Joined(MemberPieces(members)));
      assert Texts([g]) == Text(g) + Texts([]) == Text(g);
  }

  lemma {:induction false} SpellsItems(items: seq<Json>)
    ensures forall i :: 0 <= i < |items| ==> Spells(ItemPieces(items)[i], PrintItems(items)[i])
    decreases items, 0
  {
    if items != [] {
      SpellsPrinted(items[0]);
      SpellsItems(items[1..]);
      forall i | 0 <= i < |items| ensures Spells(ItemPieces(items)[i], PrintItems(items)[i]) {
        if i > 0 {
          assert ItemPieces(items)[i] == ItemPieces(items[1..])[i - 1];
          assert PrintItems(items)[i] == PrintItems(items[1..])[i - 1];
        }
      }
    }
  }

  lemma {:induction false} SpellsMembers(members: seq<Member>)
    ensures forall i :: 0 <= i < |members| ==> Spells(MemberPieces(members)[i], PrintMembers(members)[i])
    decreases members, 0
  {
    if members != [] {
      var m := members[0];
      SpellsString(m.name);
      SpellsPlains(":");
      SpellsPrinted(m.value);
      SpellsAppend([QuotedPiece(m.name)], QuoteString(m.name), Plains(":"), ":");
      SpellsAppend([QuotedPiece(m.name)] + Plains(":"), QuoteString(m.name) + ":", PiecesOf(m.value), Print(m.value));
      SpellsMembers(members[1..]);
      forall i | 0 <= i < |members| ensures Spells(MemberPieces(members)[i], PrintMembers(members)[i]) {
        if i > 0 {
          assert MemberPieces(members)[i] == MemberPieces(members[1..])[i - 1];
          assert PrintMembers(members)[i] == PrintMembers(members[1..])[i - 1];
        }
      }
    }
  }

  // ----- from one end of the connection to the other

  function Printed(docs: seq<Json>): seq<string> {
    seq(|docs|, i requires 0 <= i < |docs| => Print(docs[i]))
  }

  lemma GroupOfPrinted(doc: Json) returns (g: Piece)
    requires doc.Obj?
    ensures g.Group? && Ok(g) && Text(g) == Print(doc)
  {
    SpellsPrinted(doc);
    g := PiecesOf(doc)[0];
    assert Texts([g]) == Text(g) + Texts([]) == Text(g);
  }

  lemma {:induction false} CutsOfPrinted(docs: seq<Json>) returns (cuts: seq<Cut>)
    requires forall i :: 0 <= i < |docs| ==> docs[i].Obj?
    ensures CutsOk(cuts) && Stream(cuts, "") == Concat(Printed(docs)) && FrameTexts(cuts) == Printed(docs)
    decreases |docs|
  {
    if docs == [] {
      cuts := [];
    } else {
      var g := GroupOfPrinted(docs[0]);
      var tail := CutsOfPrinted(docs[1..]);
      ConsCut(Cut("", g), tail, "");
      cuts := [Cut("", g)] + tail;
      assert Printed(docs) == [Text(g)] + Printed(docs[1..]);
      assert Concat(Printed(docs)) == "" + Text(g) + Stream(tail, "");
    }
  }

  /** However the stream of printed objects is cut into packets, inside strings and
      escapes included, each printed text is handed on once and in order, nothing is
      left over, and every text reads back as the object it was printed from. */
  lemma PrintedObjectsArrive(docs: seq<Json>, packets: seq<string>)
    requires forall i :: 0 <= i < |docs| ==> docs[i].Obj?
    requires Concat(packets) == Concat(Printed(docs))
    ensures Feed("", packets) == Drained(Printed(docs), "")
    ensures forall i :: 0 <= i < |docs| ==> ReadValue(Printed(docs)[i]) == Some(Read(docs[i], ""))
  {
    FeedIsDrain("", packets);
    var cuts := CutsOfPrinted(docs);
    FramelessIffNone("");
    DrainsCuts(cuts, "");
    assert "" + Concat(packets) == Concat(packets);
    forall i | 0 <= i < |docs| ensures ReadValue(Printed(docs)[i]) == Some(Read(docs[i], "")) {
      ReadsPrinted(docs[i], "");
      assert Print(docs[i]) + "" == Print(docs[i]);
    }
  }
}
