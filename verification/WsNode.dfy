/** The WebSocket client of site/jrw.js: requests invoked before the socket opens are
    queued, flushed when it opens, and matched with responses by id. */
module WsNode {
  import opened Basics

  datatype Request = Request(id: string, hasCallback: bool)

  /** `messages` keeps the order of insertion, as a JavaScript object does for such keys. A
      socket is created only while none is connecting, so `isOpening` tells that the present
      socket is connecting. It may already have replaced an open one. */
  datatype Client = Client(
    isOpening: bool,
    isOpen: bool,
    messages: seq<Request>,
    sent: seq<string>,       // ids of the requests given to a socket, in order
    fired: seq<string>,      // ids of the requests whose callback was called, in order
    invoked: seq<string>)    // ids of all requests, in order

  const INIT := Client(false, false, [], [], [], [])

  function Ids(messages: seq<Request>): seq<string> {
    if messages == [] then [] else [messages[0].id] + Ids(messages[1..])
  }

  function Without(messages: seq<Request>, id: string): seq<Request> {
    if messages == [] then []
    else if messages[0].id == id then messages[1..]
    else [messages[0]] + Without(messages[1..], id)
  }

  function Find(messages: seq<Request>, id: string): Option<Request> {
    if messages == [] then None
    else if messages[0].id == id then Some(messages[0])
    else Find(messages[1..], id)
  }

  datatype Event =
    | Open
    | SocketOpen
    | SocketMsg(id: string)   // the empty string stands for no id
    | Invoke(req: Request)

  /** Sending on a socket that is still connecting throws. */
  predicate CanSend(s: Client) { s.isOpen && !s.isOpening }

  /** The environment opens a socket that was created, delivers messages on an open socket,
      and generates a new id for each request; other events change nothing. */
  function Step(s: Client, e: Event): Client {
    match e
    case Open => s.(isOpening := true)
    case SocketOpen =>
      if !s.isOpening then s
      else s.(isOpen := true, isOpening := false, sent := s.sent + Ids(s.messages))
    case SocketMsg(id) =>
      if !s.isOpen || id == "" then s
      else
        var req := Find(s.messages, id);
        if req.None? then s
        else s.(messages := Without(s.messages, id),
                fired := if req.value.hasCallback then s.fired + [id] else s.fired)
    case Invoke(req) =>
      if req.id in s.invoked then s
      else s.(messages := s.messages + [req], invoked := s.invoked + [req.id],
              sent := if CanSend(s) then s.sent + [req.id] else s.sent)
  }

  function Exec(run: seq<Event>): Client {
    if run == [] then INIT else Step(Exec(run[..|run| - 1]), run[|run| - 1])
  }

  /** The object itself; `sent` and `fired` log its calls on the socket and the callbacks. */
  class WsNode {
    var isOpening: bool
    var isOpen: bool
    var messages: seq<Request>
    var sent: seq<string>
    var fired: seq<string>
    ghost var invoked: seq<string>

    ghost function State(): Client reads this {
      Client(isOpening, isOpen, messages, sent, fired, invoked)
    }

    constructor ()
      ensures State() == INIT
    {
      isOpening, isOpen, messages, sent, fired := false, false, [], [], [];
      invoked := [];
    }

    method OpenSocket()
      modifies this
      ensures State() == Step(old(State()), Open)
    {
      if isOpening { return; }
      isOpening := true;
    }

    method OnOpen()
      requires isOpening
      modifies this
      ensures State() == Step(old(State()), SocketOpen)
    {
      isOpen, isOpening := true, false;
      ghost var before := sent;
      assert messages[0..] == messages && messages[|messages|..] == [];
      assert before + Ids([]) == before;
      for m := 0 to |messages|
        invariant isOpen && !isOpening && messages == old(messages) && fired == old(fired)
        invariant invoked == old(invoked)
        invariant sent + Ids(messages[m..]) == before + Ids(messages)
      {
        assert messages[m..][1..] == messages[m + 1..];
        assert sent + Ids(messages[m..]) == sent + [messages[m].id] + Ids(messages[m + 1..]);
        sent := sent + [messages[m].id];
      }
      assert sent + Ids([]) == sent;
    }

    /** `throws` tells that no request has this id, so that calling it raises a TypeError. */
    method OnMessage(id: string) returns (throws: bool)
      requires isOpen
      modifies this
      ensures State() == Step(old(State()), SocketMsg(id))
      ensures throws <==> id != "" && Find(old(messages), id).None?
    {
      if id == "" { return false; }
      var req := Find(messages, id);
      if req.None? { return true; }
      messages := Without(messages, id);
      if req.value.hasCallback { fired := fired + [id]; }
      return false;
    }

    /** `throws` tells that the socket is still connecting, so that sending raises an
        InvalidStateError; the request stays in the table. */
    method InvokeRequest(req: Request) returns (throws: bool)
      requires req.id !in invoked
      modifies this
      ensures State() == Step(old(State()), Invoke(req))
      ensures throws <==> old(isOpen && isOpening)
    {
      messages := messages + [req];
      invoked := invoked + [req.id];
      throws := isOpen && isOpening;
      if isOpen && !throws { sent := sent + [req.id]; }
    }
  }

  // ----- facts about the request table

  lemma {:induction false} IdsSnoc(messages: seq<Request>, req: Request)
    ensures Ids(messages + [req]) == Ids(messages) + [req.id]
  {
    if messages == [] {
      assert messages + [req] == [req] && Ids([req]) == [req.id] + Ids([]);
    } else {
      assert (messages + [req])[1..] == messages[1..] + [req];
      IdsSnoc(messages[1..], req);
    }
  }

  lemma {:induction false} FindIsMember(messages: seq<Request>, id: string)
    ensures Find(messages, id).Some? <==> id in Ids(messages)
    ensures Find(messages, id).Some? ==> Find(messages, id).value.id == id
  {
    if messages != [] { FindIsMember(messages[1..], id); }
  }

  predicate NoRepeats(ids: seq<string>) { forall i, j :: 0 <= i < j < |ids| ==> ids[i] != ids[j] }

  lemma {:induction false} WithoutIds(messages: seq<Request>, id: string)
    requires NoRepeats(Ids(messages))
    ensures NoRepeats(Ids(Without(messages, id)))
    ensures forall x :: x in Ids(Without(messages, id)) <==> x in Ids(messages) && x != id
  {
    if messages != [] {
      var rest := Ids(messages[1..]);
      assert Ids(messages)[1..] == rest;
      assert NoRepeats(rest) by {
        forall i, j | 0 <= i < j < |rest| ensures rest[i] != rest[j] {
          assert rest[i] == Ids(messages)[i + 1] && rest[j] == Ids(messages)[j + 1];
        }
      }
      assert messages[0].id !in rest by {
        forall i | 0 <= i < |rest| ensures rest[i] != messages[0].id {
          assert rest[i] == Ids(messages)[i + 1] && Ids(messages)[0] == messages[0].id;
        }
      }
      WithoutIds(messages[1..], id);
      if messages[0].id != id {
        var w := Without(messages[1..], id);
        assert Without(messages, id)[1..] == w;
        assert Ids(Without(messages, id)) == [messages[0].id] + Ids(w);
      }
    }
  }

  // ----- main results

  /** Callbacks fire for requests that were invoked and are no longer in the table. */
  ghost predicate TableOk(s: Client) {
    && NoRepeats(Ids(s.messages)) && NoRepeats(s.fired) && NoRepeats(s.invoked)
    && (forall id :: id in Ids(s.messages) ==> id in s.invoked && id !in s.fired)
    && (forall id :: id in s.fired ==> id in s.invoked)
  }

  ghost predicate SentOk(s: Client) {
    && (!s.isOpen ==> s.sent == [] && Ids(s.messages) == s.invoked)
    && (forall id :: id in s.sent ==> id in s.invoked)
    && (CanSend(s) ==> forall id :: id in Ids(s.messages) ==> id in s.sent)
  }

  ghost predicate Inv(s: Client) { TableOk(s) && SentOk(s) }

  lemma NoRepeatsSnoc(ids: seq<string>, id: string)
    requires NoRepeats(ids) && id !in ids
    ensures NoRepeats(ids + [id])
  {
    forall i, j | 0 <= i < j < |ids + [id]| ensures (ids + [id])[i] != (ids + [id])[j] {
      assert ids[i] in ids;
    }
  }

  lemma StepTable(s: Client, e: Event)
    requires TableOk(s)
    ensures TableOk(Step(s, e))
  {
    match e
    case Open =>
    case SocketOpen =>
    case SocketMsg(id) =>
      FindIsMember(s.messages, id);
      if s.isOpen && id in Ids(s.messages) {
        WithoutIds(s.messages, id);
        NoRepeatsSnoc(s.fired, id);
      }
    case Invoke(req) =>
      if req.id !in s.invoked {
        IdsSnoc(s.messages, req);
        NoRepeatsSnoc(s.invoked, req.id);
        NoRepeatsSnoc(Ids(s.messages), req.id);
      }
  }

  lemma StepSent(s: Client, e: Event)
    requires TableOk(s) && SentOk(s)
    ensures SentOk(Step(s, e))
  {
    match e
    case Open =>
    case SocketOpen =>
    case SocketMsg(id) => WithoutIds(s.messages, id);
    case Invoke(req) => IdsSnoc(s.messages, req);
  }

  lemma {:induction false} ExecKeeps(run: seq<Event>)
    ensures Inv(Exec(run))
    decreases |run|
  {
    if run != [] {
      ExecKeeps(run[..|run| - 1]);
      StepTable(Exec(run[..|run| - 1]), run[|run| - 1]);
      StepSent(Exec(run[..|run| - 1]), run[|run| - 1]);
    }
  }

  /** How many sockets were created; `open` does nothing while one is connecting. */
  function Opens(run: seq<Event>): nat {
    if run == [] then 0
    else
      var before := run[..|run| - 1];
      Opens(before) + if run[|run| - 1].Open? && !Exec(before).isOpening then 1 else 0
  }

  lemma {:induction false} OneOpen(run: seq<Event>)
    requires Opens(run) <= 1
    ensures (if Exec(run).isOpening then 1 else 0) + (if Exec(run).isOpen then 1 else 0) <= Opens(run)
    ensures Exec(run).isOpen ==> Exec(run).sent == Exec(run).invoked
    decreases |run|
  {
    if run != [] {
      OneOpen(run[..|run| - 1]);
      ExecKeeps(run[..|run| - 1]);
    }
  }

  /** In every run that creates one socket, once the socket has opened the requests sent are exactly
      those invoked, each once and in order, whether before or after the opening. */
  lemma EachRequestSentOnce(run: seq<Event>)
    requires Opens(run) <= 1 && Exec(run).isOpen
    ensures Exec(run).sent == Exec(run).invoked && NoRepeats(Exec(run).sent)
  {
    OneOpen(run);
    ExecKeeps(run);
  }

  /** In every run, reopened sockets included, no callback fires twice, and only for requests
      that were invoked. */
  lemma NoCallbackFiresTwice(run: seq<Event>)
    ensures NoRepeats(Exec(run).fired)
    ensures forall id :: id in Exec(run).fired ==> id in Exec(run).invoked
  {
    ExecKeeps(run);
  }

  /** A message takes a request out of the table that was not sent. */
  predicate TakesUnsent(s: Client, e: Event, id: string) {
    e == SocketMsg(id) && s.isOpen && id != "" && id in Ids(s.messages) && id !in s.sent
  }

  predicate TakenUnsent(run: seq<Event>, id: string) {
    run != [] && (TakenUnsent(run[..|run| - 1], id) || TakesUnsent(Exec(run[..|run| - 1]), run[|run| - 1], id))
  }

  /** The request was invoked, but was not sent and no longer can be. */
  predicate Forgotten(s: Client, id: string) { id in s.invoked && id !in s.sent && id !in Ids(s.messages) }

  lemma StepForgets(s: Client, e: Event, id: string)
    requires Inv(s)
    ensures Forgotten(Step(s, e), id) <==> Forgotten(s, id) || TakesUnsent(s, e, id)
  {
    match e
    case Open =>
    case SocketOpen =>
    case SocketMsg(i) =>
      FindIsMember(s.messages, i);
      WithoutIds(s.messages, i);
    case Invoke(req) =>
      IdsSnoc(s.messages, req);
  }

  lemma {:induction false} ForgottenIff(run: seq<Event>, id: string)
    ensures Forgotten(Exec(run), id) <==> TakenUnsent(run, id)
    decreases |run|
  {
    if run != [] {
      ForgottenIff(run[..|run| - 1], id);
      ExecKeeps(run[..|run| - 1]);
      StepForgets(Exec(run[..|run| - 1]), run[|run| - 1], id);
    }
  }

  /** In every run an invoked request is sent, or waits in the table for the next opening, if
      and only if no message with its id took it out before it was sent. While the node is open
      and no socket is connecting, it is then sent. */
  lemma SentUnlessTaken(run: seq<Event>, id: string)
    requires id in Exec(run).invoked
    ensures id in Exec(run).sent || id in Ids(Exec(run).messages) <==> !TakenUnsent(run, id)
    ensures CanSend(Exec(run)) ==> (id in Exec(run).sent <==> !TakenUnsent(run, id))
  {
    ForgottenIff(run, id);
    ExecKeeps(run);
  }

  /** A step calls a callback only for a message with the request's id, once and then never
      again. */
  lemma CallbackNeedsItsMessage(run: seq<Event>, e: Event)
    requires Step(Exec(run), e).fired != Exec(run).fired
    ensures e.SocketMsg? && Step(Exec(run), e).fired == Exec(run).fired + [e.id]
    ensures Find(Exec(run).messages, e.id).Some? && Find(Exec(run).messages, e.id).value.hasCallback
    ensures Find(Step(Exec(run), e).messages, e.id).None?
  {
    ExecKeeps(run);
    var s := Exec(run);
    WithoutIds(s.messages, e.id);
    FindIsMember(Without(s.messages, e.id), e.id);
  }

  // ----- exactly when a request is sent more than once

  /** The opening of a socket finds a request in the table that was sent before. */
  predicate Resends(s: Client, e: Event) {
    e.SocketOpen? && s.isOpening && exists id :: id in Ids(s.messages) && id in s.sent
  }

  predicate NeverResends(run: seq<Event>) {
    run == [] || (NeverResends(run[..|run| - 1]) && !Resends(Exec(run[..|run| - 1]), run[|run| - 1]))
  }

  lemma NoRepeatsAppend(a: seq<string>, b: seq<string>)
    requires NoRepeats(b)
    ensures NoRepeats(a + b) <==> NoRepeats(a) && !exists id :: id in b && id in a
  {
    forall i, j | 0 <= i < j < |a| && a[i] == a[j] ensures !NoRepeats(a + b) {
      assert (a + b)[i] == (a + b)[j];
    }
    forall id | id in b && id in a ensures !NoRepeats(a + b) {
      var i :| 0 <= i < |a| && a[i] == id;
      var j :| 0 <= j < |b| && b[j] == id;
      assert (a + b)[i] == (a + b)[|a| + j];
    }
    if NoRepeats(a) && !exists id :: id in b && id in a {
      forall i, j | 0 <= i < j < |a + b| ensures (a + b)[i] != (a + b)[j] {
        if i < |a| <= j {
          assert a[i] in a && b[j - |a|] in b;
        }
      }
    }
  }

  lemma SendsOnce(s: Client, e: Event)
    requires Inv(s)
    ensures NoRepeats(Step(s, e).sent) <==> NoRepeats(s.sent) && !Resends(s, e)
  {
    match e
    case Open =>
    case SocketOpen =>
      if s.isOpening { NoRepeatsAppend(s.sent, Ids(s.messages)); }
    case SocketMsg(_) =>
    case Invoke(req) =>
      if req.id !in s.invoked { NoRepeatsAppend(s.sent, [req.id]); }
  }

  /** In every run no request is sent twice if and only if no opening of a socket finds in the
      table a request that was sent before. */
  lemma {:induction false} SentOnceIff(run: seq<Event>)
    ensures NoRepeats(Exec(run).sent) <==> NeverResends(run)
    decreases |run|
  {
    if run != [] {
      SentOnceIff(run[..|run| - 1]);
      ExecKeeps(run[..|run| - 1]);
      SendsOnce(Exec(run[..|run| - 1]), run[|run| - 1]);
    }
  }

  lemma SkipOther(first: Request, rest: seq<Request>, id: string)
    requires first.id != id
    ensures Without([first] + rest, id) == [first] + Without(rest, id)
    ensures Find([first] + rest, id) == Find(rest, id)
  {
    assert ([first] + rest)[1..] == rest;
  }

  lemma {:induction false} WithoutKeepsOrder(before: seq<Request>, req: Request, after: seq<Request>)
    requires req.id !in Ids(before)
    ensures Without(before + [req] + after, req.id) == before + after
    ensures Find(before + [req] + after, req.id) == Some(req)
  {
    if before == [] {
      assert before + [req] + after == [req] + after;
      assert ([req] + after)[1..] == after && [] + after == after;
    } else {
      assert before + [req] + after == [before[0]] + (before[1..] + [req] + after);
      SkipOther(before[0], before[1..] + [req] + after, req.id);
      WithoutKeepsOrder(before[1..], req, after);
      assert before + after == [before[0]] + (before[1..] + after);
    }
  }

  lemma {:induction false} BeforeIsOther(before: seq<Request>, req: Request, after: seq<Request>)
    requires NoRepeats(Ids(before + [req] + after))
    ensures req.id !in Ids(before)
  {
    if before != [] {
      var all := before + [req] + after;
      assert all[1..] == before[1..] + [req] + after;
      TailNoRepeats(all);
      BeforeIsOther(before[1..], req, after);
      FindLater(before[1..], req, after);
    }
  }

  lemma TailNoRepeats(messages: seq<Request>)
    requires messages != [] && NoRepeats(Ids(messages))
    ensures NoRepeats(Ids(messages[1..])) && messages[0].id !in Ids(messages[1..])
  {
    var all, rest := Ids(messages), Ids(messages[1..]);
    assert all == [messages[0].id] + rest;
    forall i, j | 0 <= i < j < |rest| ensures rest[i] != rest[j] { assert all[i + 1] != all[j + 1]; }
    forall i | 0 <= i < |rest| ensures rest[i] != messages[0].id { assert all[0] != all[i + 1]; }
  }

  lemma {:induction false} FindLater(before: seq<Request>, req: Request, after: seq<Request>)
    ensures req.id in Ids(before + [req] + after)
  {
    if before == [] {
      assert before + [req] + after == [req] + after;
    } else {
      assert (before + [req] + after)[1..] == before[1..] + [req] + after;
      FindLater(before[1..], req, after);
    }
  }

  /** In every run a message with the id of a stored request, wherever it is in the table, takes
      exactly that request out and calls its callback if it has one. */
  lemma MessageFiresItsCallback(run: seq<Event>, before: seq<Request>, req: Request, after: seq<Request>)
    requires Exec(run).isOpen && Exec(run).messages == before + [req] + after && req.id != ""
    ensures Step(Exec(run), SocketMsg(req.id))
         == Exec(run).(messages := before + after,
                       fired := Exec(run).fired + if req.hasCallback then [req.id] else [])
  {
    ExecKeeps(run);
    BeforeIsOther(before, req, after);
    WithoutKeepsOrder(before, req, after);
  }

  /** A message with its id finds the request in the table, with a callback. */
  predicate Calls(s: Client, e: Event, id: string) {
    && e == SocketMsg(id) && s.isOpen && id != ""
    && exists i :: 0 <= i < |s.messages| && s.messages[i] == Request(id, true)
  }

  predicate CalledIn(run: seq<Event>, id: string) {
    run != [] && (CalledIn(run[..|run| - 1], id) || Calls(Exec(run[..|run| - 1]), run[|run| - 1], id))
  }

  lemma SplitAt(messages: seq<Request>, i: nat)
    requires i < |messages|
    ensures messages == messages[..i] + [messages[i]] + messages[i + 1..]
  {
  }

  lemma FindsIff(messages: seq<Request>, id: string)
    requires NoRepeats(Ids(messages))
    ensures Find(messages, id) == Some(Request(id, true))
       <==> exists i :: 0 <= i < |messages| && messages[i] == Request(id, true)
  {
    FindAt(messages, id);
    forall i | 0 <= i < |messages| && messages[i] == Request(id, true)
      ensures Find(messages, id) == Some(Request(id, true))
    {
      SplitAt(messages, i);
      BeforeIsOther(messages[..i], messages[i], messages[i + 1..]);
      WithoutKeepsOrder(messages[..i], messages[i], messages[i + 1..]);
    }
  }

  lemma {:induction false} FindAt(messages: seq<Request>, id: string)
    ensures Find(messages, id).Some? ==> exists i :: 0 <= i < |messages| && messages[i] == Find(messages, id).value
  {
    if messages != [] && messages[0].id != id {
      FindAt(messages[1..], id);
      if Find(messages, id).Some? {
        var i :| 0 <= i < |messages[1..]| && messages[1..][i] == Find(messages[1..], id).value;
        assert messages[i + 1] == Find(messages, id).value;
      }
    }
  }

  lemma StepFires(s: Client, e: Event, id: string)
    requires Inv(s)
    ensures id in Step(s, e).fired <==> id in s.fired || Calls(s, e, id)
  {
    if e.SocketMsg? {
      FindsIff(s.messages, e.id);
      FindIsMember(s.messages, e.id);
    }
  }

  /** In every run a callback has been called if and only if a message with its id arrived while
      its request was in the table. */
  lemma {:induction false} FiredIff(run: seq<Event>, id: string)
    ensures id in Exec(run).fired <==> CalledIn(run, id)
    decreases |run|
  {
    if run != [] {
      FiredIff(run[..|run| - 1], id);
      ExecKeeps(run[..|run| - 1]);
      StepFires(Exec(run[..|run| - 1]), run[|run| - 1], id);
    }
  }

  lemma ExecSnoc(run: seq<Event>, e: Event)
    ensures Exec(run + [e]) == Step(Exec(run), e)
  {
    assert (run + [e])[..|run|] == run;
  }

  /** A request invoked while a second socket is connecting is stored and not sent. */
  lemma ReopeningDelays(req: Request) returns (run: seq<Event>)
    ensures Exec(run) == Client(true, true, [req], [], [], [req.id])
  {
    var r1 := [] + [Open];
    var r2 := r1 + [SocketOpen];
    var r3 := r2 + [Open];
    run := r3 + [Invoke(req)];
    ExecSnoc([], Open);
    ExecSnoc(r1, SocketOpen);
    ExecSnoc(r2, Open);
    ExecSnoc(r3, Invoke(req));
  }

  /** If a message with its id comes first, it is never sent at all. */
  lemma AnsweredBeforeSent(req: Request)
    requires req.id != ""
    ensures exists run :: CanSend(Exec(run)) && Exec(run).invoked == [req.id] && Exec(run).sent == []
  {
    var r1 := ReopeningDelays(req);
    var r2 := r1 + [SocketMsg(req.id)];
    var r3 := r2 + [SocketOpen];
    ExecSnoc(r1, SocketMsg(req.id));
    ExecSnoc(r2, SocketOpen);
    assert Exec(r2).messages == [];
    assert CanSend(Exec(r3)) && Exec(r3).sent == [];
  }

  lemma ReachSent(req: Request) returns (run: seq<Event>)
    ensures Exec(run) == Client(false, true, [req], [req.id], [], [req.id])
  {
    var r1 := [] + [Open];
    var r2 := r1 + [SocketOpen];
    run := r2 + [Invoke(req)];
    ExecSnoc([], Open);
    ExecSnoc(r1, SocketOpen);
    ExecSnoc(r2, Invoke(req));
  }

  lemma IdsOfOne(req: Request)
    ensures Ids([req]) == [req.id]
  {
    assert [req][1..] == [];
  }

  /** A second `open` sends every unanswered request again. */
  lemma ReopeningSendsAgain(req: Request)
    ensures exists run :: Exec(run).sent == [req.id, req.id]
  {
    var r1 := ReachSent(req);
    var r2 := r1 + [Open];
    var r3 := r2 + [SocketOpen];
    ExecSnoc(r1, Open);
    ExecSnoc(r2, SocketOpen);
    IdsOfOne(req);
    assert Exec(r3).sent == [req.id] + [req.id];
  }
}
