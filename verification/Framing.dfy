/** Reassembly of messages from packets: `TCPConnection#receive_data` of
    lib/rjr/nodes/tcp.rb (lib/rjr/nodes/unix.rb has the same loop). */
module Framing {
  import opened Basics
  import opened Scanner

  /** What the `receive_data` loop hands on, and what it leaves in the buffer. */
  datatype Drained = Drained(msgs: seq<string>, residue: string)

  function Drain(data: string): Drained
    decreases |data|
  {
    match Extract(data)
    case None => Drained([], data)
    case Some(e) => Prepend([e.msg], Drain(e.rest))
  }

  function Prepend(msgs: seq<string>, d: Drained): Drained {
    Drained(msgs + d.msgs, d.residue)
  }

  lemma PrependTwice(a: seq<string>, b: seq<string>, d: Drained)
    ensures Prepend(a, Prepend(b, d)) == Prepend(a + b, d)
  {
    assert a + (b + d.msgs) == a + b + d.msgs;
  }

  /** The buffer after each packet in turn, and everything handed on. */
  function Feed(data: string, packets: seq<string>): Drained
    decreases |packets|
  {
    if packets == [] then Drained([], data)
    else
      var d := Drain(data + packets[0]);
      Prepend(d.msgs, Feed(d.residue, packets[1..]))
  }

  class TCPConnection {
    var data: string
    /** The messages given to `handle_message`, oldest first. */
    var handled: seq<string>

    constructor ()
      ensures data == "" && handled == []
    {
      data, handled := "", [];
    }

    method ReceiveData(packet: string)
      modifies this
      ensures Drained(handled, data) == Prepend(old(handled), Drain(old(data) + packet))
    {
      data := data + packet;
      var extracted := ExtractJsonFrom(data);
      while extracted.Some?
        invariant extracted == Extract(data)
        invariant Prepend(handled, Drain(data)) == Prepend(old(handled), Drain(old(data) + packet))
        decreases |data|
      {
        var msg := extracted.value.msg;
        PrependTwice(handled, [msg], Drain(extracted.value.rest));
        data := extracted.value.rest;
        handled := handled + [msg];
        extracted := ExtractJsonFrom(data);
      }
    }

    /** The reactor's callbacks over the life of a connection. */
    method ReceivePackets(packets: seq<string>)
      modifies this
      ensures Drained(handled, data) == Prepend(old(handled), Feed(old(data), packets))
    {
      for i := 0 to |packets|
        invariant Prepend(handled, Feed(data, packets[i..])) == Prepend(old(handled), Feed(old(data), packets))
      {
        assert packets[i..][1..] == packets[i + 1..];
        ghost var d := Drain(data + packets[i]);
        PrependTwice(handled, d.msgs, Feed(d.residue, packets[i + 1..]));
        ReceiveData(packets[i]);
      }
    }
  }

  // ----- the packet boundaries do not matter

  lemma {:induction false} DrainInTwo(a: string, b: string)
    ensures Drain(a + b) == Prepend(Drain(a).msgs, Drain(Drain(a).residue + b))
    decreases |a|
  {
    if Extract(a).Some? {
      var e := Extract(a).value;
      ExtractIsStable(a, b);
      DrainInTwo(e.rest, b);
      PrependTwice([e.msg], Drain(e.rest).msgs, Drain(Drain(e.rest).residue + b));
    }
  }

  lemma {:induction false} DrainIsDrained(data: string)
    ensures Extract(Drain(data).residue) == None
    decreases |data|
  {
    if Extract(data).Some? {
      DrainIsDrained(Extract(data).value.rest);
    }
  }

  lemma {:induction false} FeedIsDrain(data: string, packets: seq<string>)
    requires Extract(data) == None
    ensures Feed(data, packets) == Drain(data + Concat(packets))
    decreases |packets|
  {
    if packets == [] {
      assert data + Concat(packets) == data;
    } else {
      var first, later := data + packets[0], Concat(packets[1..]);
      assert data + Concat(packets) == first + later;
      DrainInTwo(first, later);
      DrainIsDrained(first);
      FeedIsDrain(Drain(first).residue, packets[1..]);
    }
  }

  /** Any two ways of cutting the same stream, well formed or not, hand on the
      same messages and leave the same buffer. */
  lemma PacketsDoNotMatter(packets: seq<string>, packets': seq<string>)
    requires Concat(packets) == Concat(packets')
    ensures Feed("", packets) == Feed("", packets')
  {
    FeedIsDrain("", packets);
    FeedIsDrain("", packets');
  }

  // ----- what a drained stream is made of

  datatype Cut = Cut(junk: string, frame: Piece)

  predicate CutOk(c: Cut) { '{' !in c.junk && c.frame.Group? && Ok(c.frame) }

  predicate CutsOk(cuts: seq<Cut>) { forall i :: 0 <= i < |cuts| ==> CutOk(cuts[i]) }

  function Stream(cuts: seq<Cut>, residue: string): string {
    if cuts == [] then residue
    else cuts[0].junk + Text(cuts[0].frame) + Stream(cuts[1..], residue)
  }

  function FrameTexts(cuts: seq<Cut>): (texts: seq<string>)
  {
    seq(|cuts|, i requires 0 <= i < |cuts| => Text(cuts[i].frame))
  }

  /** No frame of the grammar can be completed inside `data`. */
  ghost predicate Frameless(data: string) {
    forall junk, g, rest :: !IsCut(data, junk, g, rest)
  }

  lemma FramelessIffNone(data: string)
    ensures Frameless(data) <==> Extract(data) == None
  {
    if Extract(data).Some? {
      var junk, g := CutOfExtract(data);
    }
    forall junk, g, rest | IsCut(data, junk, g, rest) ensures Extract(data).Some? {
      ExtractsCut(data, junk, g, rest);
    }
  }

  lemma ConsCut(c: Cut, cuts: seq<Cut>, residue: string)
    ensures FrameTexts([c] + cuts) == [Text(c.frame)] + FrameTexts(cuts)
    ensures Stream([c] + cuts, residue) == c.junk + Text(c.frame) + Stream(cuts, residue)
    ensures CutOk(c) && CutsOk(cuts) ==> CutsOk([c] + cuts)
  {
    assert ([c] + cuts)[1..] == cuts;
  }

  lemma {:induction false} DrainsCuts(cuts: seq<Cut>, residue: string)
    requires CutsOk(cuts) && Frameless(residue)
    ensures Drain(Stream(cuts, residue)) == Drained(FrameTexts(cuts), residue)
    decreases |cuts|
  {
    if cuts == [] {
      FramelessIffNone(residue);
    } else {
      var c, rest := cuts[0], Stream(cuts[1..], residue);
      assert CutOk(c);
      ExtractsCut(Stream(cuts, residue), c.junk, c.frame, rest);
      DrainsCuts(cuts[1..], residue);
      ConsCut(c, cuts[1..], residue);
      assert cuts == [c] + cuts[1..];
    }
  }

  lemma {:induction false} CutsOfDrain(data: string) returns (cuts: seq<Cut>)
    ensures CutsOk(cuts) && Frameless(Drain(data).residue)
    ensures data == Stream(cuts, Drain(data).residue)
    ensures FrameTexts(cuts) == Drain(data).msgs
    decreases |data|
  {
    if Extract(data) == None {
      FramelessIffNone(data);
      cuts := [];
    } else {
      var junk, g := CutOfExtract(data);
      var tail := CutsOfDrain(Extract(data).value.rest);
      ConsCut(Cut(junk, g), tail, Drain(data).residue);
      cuts := [Cut(junk, g)] + tail;
    }
  }

  /** The messages and the residue are the unique reading of the stream as frames
      separated by text without an opening brace. */
  lemma DrainIff(data: string, msgs: seq<string>, residue: string)
    ensures Drain(data) == Drained(msgs, residue)
       <==> exists cuts :: CutsOk(cuts) && Frameless(residue)
                           && data == Stream(cuts, residue) && FrameTexts(cuts) == msgs
  {
    if Drain(data) == Drained(msgs, residue) {
      var cuts := CutsOfDrain(data);
    }
    forall cuts | CutsOk(cuts) && Frameless(residue)
                  && data == Stream(cuts, residue) && FrameTexts(cuts) == msgs
      ensures Drain(data) == Drained(msgs, residue)
    {
      DrainsCuts(cuts, residue);
    }
  }
}
