/** Any number of RJR nodes that talk only to each other. Each node has one header
    table, which it writes into every message and which every message writes into. */
module ClosedSystem {
  import opened Basics
  import opened Messages

  /** A message on the wire, with a record of what its sender meant and of the sender's header
      table at that moment. */
  datatype Packet = Packet(msg: Message, said: Said, headers: Headers)

  function Packed(said: Said, headers: Headers): Packet { Packet(ToMessage(said, headers), said, headers) }

  /** A handler at work: the node that runs it, and the id it will answer. */
  datatype Task = Task(node: nat, id: Json)

  datatype System = System(headers: map<nat, Headers>, flight: seq<Packet>, tasks: seq<Task>)

  datatype Event =
    /** A node calls or notifies: it serialises a request or notification. */
    | Send(node: nat, said: Said)
    /** A node parses a packet sent earlier (lost and repeated packets included). */
    | Receive(node: nat, packet: nat)
    /** A handler at the node adds headers. */
    | Add(node: nat, added: Headers)
    /** A handler has ended: the answer is serialised with the headers of this moment. */
    | Answer(task: nat, result: Result)

  function Step(s: System, e: Event): System {
    match e
    case Send(n, said) =>
      if n in s.headers && !said.Response?
      then s.(flight := s.flight + [Packed(said, s.headers[n])]) else s
    case Receive(n, k) =>
      if n in s.headers && k < |s.flight| then ReceiveStep(s, n, s.flight[k].msg) else s
    case Add(n, added) =>
      if n in s.headers then s.(headers := s.headers[n := s.headers[n] + added]) else s
    case Answer(k, result) =>
      if k < |s.tasks| && s.tasks[k].node in s.headers then AnswerStep(s, k, result) else s
  }

  /** `Node#handle_message`, then `handle_request` up to the dispatcher, or `handle_response`. */
  function ReceiveStep(s: System, n: nat, m: Message): System
    requires n in s.headers
  {
    if IsRequest(m) then
      s.(headers := s.headers[n := Learn(s.headers[n], m, REQUEST_WORDS)], tasks := s.tasks + [Task(n, Get(m, "id"))])
    else if IsNotification(m) then
      s.(headers := s.headers[n := Learn(s.headers[n], m, NOTIFICATION_WORDS)])
    else if IsResponse(m) && ParseResult(m).Some? then
      s.(headers := s.headers[n := Learn(s.headers[n], m, RESPONSE_WORDS)])
    else s
  }

  /** The rest of `handle_request`. */
  function AnswerStep(s: System, k: nat, result: Result): System
    requires k < |s.tasks| && s.tasks[k].node in s.headers
  {
    var said := Response(s.tasks[k].id, result);
    s.(flight := s.flight + [Packed(said, s.headers[s.tasks[k].node])],
       tasks := s.tasks[..k] + s.tasks[k + 1..])
  }

  function Exec(configured: map<nat, Headers>, run: seq<Event>): System {
    if run == [] then System(configured, [], []) else Step(Exec(configured, run[..|run| - 1]), run[|run| - 1])
  }

  /** Handlers return built results and add no reserved header name. */
  predicate Polite(e: Event) { (e.Add? ==> Clean(e.added)) && (e.Answer? ==> Built(e.result)) }

  ghost predicate PacketOk(p: Packet) {
    WellFormed(p.said) && Clean(p.headers) && p.msg == ToMessage(p.said, p.headers)
  }

  predicate Asked(flight: seq<Packet>, id: Json) {
    exists j :: 0 <= j < |flight| && flight[j].said.Request? && flight[j].said.id == id
  }

  /** The packet at `i`, if a response, answers a request sent before it. */
  predicate Answers(flight: seq<Packet>, i: nat) {
    i < |flight| && flight[i].said.Response? ==> Asked(flight[..i], flight[i].said.id)
  }

  ghost predicate Inv(s: System) {
    && (forall n :: n in s.headers ==> Clean(s.headers[n]))
    && (forall i :: 0 <= i < |s.flight| ==> PacketOk(s.flight[i]))
    && (forall i: nat :: Answers(s.flight, i))
    && (forall k :: 0 <= k < |s.tasks| ==> Asked(s.flight, s.tasks[k].id))
  }

  lemma ReadsAsSaid(p: Packet)
    requires PacketOk(p)
    ensures Parse(p.msg) == Some(p.said)
  {
    CleanIsHarmless(p.said, p.headers);
    ParsesBackIff(p.said, p.headers);
  }

  lemma LearnsFrom(mine: Headers, p: Packet)
    requires Clean(mine) && PacketOk(p)
    ensures Clean(Learn(mine, p.msg, Words(p.said)))
  {
    LearnsClean(mine, p.said, p.headers);
  }

  lemma AnswersKept(flight: seq<Packet>, p: Packet)
    requires forall i: nat :: Answers(flight, i)
    requires p.said.Response? ==> Asked(flight, p.said.id)
    ensures forall i: nat :: Answers(flight + [p], i)
  {
    forall i: nat ensures Answers(flight + [p], i) {
      assert Answers(flight, i);
      assert i < |flight| ==> (flight + [p])[i] == flight[i] && (flight + [p])[..i] == flight[..i];
      assert i == |flight| ==> (flight + [p])[..i] == flight;
    }
  }

  lemma AskedKept(flight: seq<Packet>, p: Packet, id: Json)
    requires Asked(flight, id)
    ensures Asked(flight + [p], id)
  {
    var j :| 0 <= j < |flight| && flight[j].said.Request? && flight[j].said.id == id;
    assert (flight + [p])[j] == flight[j];
  }

  lemma AppendKeeps(s: System, p: Packet)
    requires Inv(s) && PacketOk(p) && (p.said.Response? ==> Asked(s.flight, p.said.id))
    ensures Inv(s.(flight := s.flight + [p]))
  {
    AnswersKept(s.flight, p);
    forall k | 0 <= k < |s.tasks| ensures Asked(s.flight + [p], s.tasks[k].id) {
      AskedKept(s.flight, p, s.tasks[k].id);
    }
  }

  lemma HeadersKeep(s: System, n: nat, h: Headers)
    requires Inv(s) && Clean(h)
    ensures Inv(s.(headers := s.headers[n := h]))
  {
  }

  lemma ReceiveKeeps(s: System, n: nat, k: nat)
    requires Inv(s) && n in s.headers && k < |s.flight|
    ensures Inv(ReceiveStep(s, n, s.flight[k].msg))
  {
    var p := s.flight[k];
    ReadsAsSaid(p);
    LearnsFrom(s.headers[n], p);
    HeadersKeep(s, n, Learn(s.headers[n], p.msg, Words(p.said)));
    if p.said.Request? { assert Asked(s.flight, p.said.id); }
  }

  lemma AnswerKeeps(s: System, k: nat, result: Result)
    requires Inv(s) && k < |s.tasks| && s.tasks[k].node in s.headers && Built(result)
    ensures Inv(AnswerStep(s, k, result))
  {
    var said, h := Response(s.tasks[k].id, result), s.headers[s.tasks[k].node];
    assert PacketOk(Packed(said, h));
    AppendKeeps(s, Packed(said, h));
  }

  lemma StepKeeps(s: System, e: Event)
    requires Inv(s) && Polite(e)
    ensures Inv(Step(s, e))
  {
    if Step(s, e) == s {
    } else if e.Send? {
      assert PacketOk(Packed(e.said, s.headers[e.node]));
      AppendKeeps(s, Packed(e.said, s.headers[e.node]));
    } else if e.Receive? {
      ReceiveKeeps(s, e.node, e.packet);
    } else if e.Add? {
      CleanTogether(s.headers[e.node], e.added);
      HeadersKeep(s, e.node, s.headers[e.node] + e.added);
    } else {
      AnswerKeeps(s, e.task, e.result);
    }
  }

  lemma {:induction false} ExecKeeps(configured: map<nat, Headers>, run: seq<Event>)
    requires forall n :: n in configured ==> Clean(configured[n])
    requires forall i :: 0 <= i < |run| ==> Polite(run[i])
    ensures Inv(Exec(configured, run))
    decreases |run|
  {
    if run != [] {
      ExecKeeps(configured, run[..|run| - 1]);
      StepKeeps(Exec(configured, run[..|run| - 1]), run[|run| - 1]);
    }
  }

  // ----- main results

  /** The packet carries the version, its own words and the sender's headers, and nothing else. */
  ghost predicate Carries(p: Packet) {
    && p.msg.Keys == OwnWords(p.said) + p.headers.Keys
    && p.msg["jsonrpc"] == Str("2.0")
    && forall k :: k in p.headers ==> p.msg[k] == p.headers[k]
  }

  lemma PacketCarries(p: Packet)
    requires PacketOk(p)
    ensures Carries(p)
  {
    MessageContents(p.said, p.headers);
    assert forall k :: k in RESERVED ==> k !in p.headers.Keys;
  }

  /** In every run of a closed system of polite nodes with clean configured headers, every
      header table stays clean, every message in flight carries all headers of its sender and
      parses back to exactly what its sender meant, and every response has the id of an earlier
      request. */
  lemma MessagesMeanWhatWasSaid(configured: map<nat, Headers>, run: seq<Event>)
    requires forall n :: n in configured ==> Clean(configured[n])
    requires forall i :: 0 <= i < |run| ==> Polite(run[i])
    ensures var s := Exec(configured, run);
            && (forall n :: n in s.headers ==> Clean(s.headers[n]))
            && (forall i :: 0 <= i < |s.flight| ==> Parse(s.flight[i].msg) == Some(s.flight[i].said))
            && (forall i :: 0 <= i < |s.flight| ==> Carries(s.flight[i]))
            && (forall i: nat :: Answers(s.flight, i))
  {
    ExecKeeps(configured, run);
    var s := Exec(configured, run);
    forall i | 0 <= i < |s.flight|
      ensures Parse(s.flight[i].msg) == Some(s.flight[i].said) && Carries(s.flight[i])
    {
      ReadsAsSaid(s.flight[i]);
      PacketCarries(s.flight[i]);
    }
  }

  /** In every run a node that receives a packet learns exactly the sender's headers: the
      sender's value under each of their names, its own under every other name. A request sets
      a handler to work at that node, under the request's id. Nothing else changes. */
  lemma ReceiverLearns(configured: map<nat, Headers>, run: seq<Event>, n: nat, k: nat)
    requires forall i :: i in configured ==> Clean(configured[i])
    requires forall i :: 0 <= i < |run| ==> Polite(run[i])
    requires n in Exec(configured, run).headers && k < |Exec(configured, run).flight|
    ensures var s := Exec(configured, run);
            && Step(s, Receive(n, k)).headers == s.headers[n := s.headers[n] + s.flight[k].headers]
            && Step(s, Receive(n, k)).flight == s.flight
            && Step(s, Receive(n, k)).tasks
               == s.tasks + if s.flight[k].said.Request? then [Task(n, s.flight[k].said.id)] else []
  {
    ExecKeeps(configured, run);
    var s := Exec(configured, run);
    ReadsAsSaid(s.flight[k]);
    LearnsSenders(s.headers[n], s.flight[k]);
  }

  lemma LearnsSenders(mine: Headers, p: Packet)
    requires PacketOk(p)
    ensures Learn(mine, p.msg, Words(p.said)) == mine + p.headers
  {
    PacketCarries(p);
    assert forall k :: k in RESERVED ==> k !in p.headers.Keys;
    assert p.msg - Words(p.said) == p.headers;
  }

  // ----- every request received is answered once

  function Count(b: bool): nat { if b then 1 else 0 }

  predicate IsAnswer(p: Packet, id: Json) { p.said.Response? && p.said.id == id }

  /** How many responses with this id were sent. */
  function Responses(flight: seq<Packet>, id: Json): nat {
    if flight == [] then 0
    else Responses(flight[..|flight| - 1], id) + Count(IsAnswer(flight[|flight| - 1], id))
  }

  /** How many handlers are at work on a request with this id. */
  function AtWork(tasks: seq<Task>, id: Json): nat {
    if tasks == [] then 0 else Count(tasks[0].id == id) + AtWork(tasks[1..], id)
  }

  /** The event is the reception of a request with this id. */
  predicate Receives(s: System, e: Event, id: Json) {
    && e.Receive? && e.node in s.headers && e.packet < |s.flight|
    && s.flight[e.packet].said.Request? && s.flight[e.packet].said.id == id
  }

  function Received(configured: map<nat, Headers>, run: seq<Event>, id: Json): nat {
    if run == [] then 0
    else Received(configured, run[..|run| - 1], id)
         + Count(Receives(Exec(configured, run[..|run| - 1]), run[|run| - 1], id))
  }

  lemma ResponsesSnoc(flight: seq<Packet>, p: Packet, id: Json)
    ensures Responses(flight + [p], id) == Responses(flight, id) + Count(IsAnswer(p, id))
  {
    assert (flight + [p])[..|flight|] == flight;
  }

  lemma {:induction false} AtWorkAppend(a: seq<Task>, b: seq<Task>, id: Json)
    ensures AtWork(a + b, id) == AtWork(a, id) + AtWork(b, id)
  {
    if a == [] {
      assert a + b == b;
    } else {
      assert (a + b)[1..] == a[1..] + b;
      AtWorkAppend(a[1..], b, id);
    }
  }

  lemma AtWorkOfOne(t: Task, id: Json)
    ensures AtWork([t], id) == Count(t.id == id)
  {
    assert [t][1..] == [];
  }

  lemma AtWorkRemove(tasks: seq<Task>, k: nat, id: Json)
    requires k < |tasks|
    ensures AtWork(tasks, id) == AtWork(tasks[..k] + tasks[k + 1..], id) + Count(tasks[k].id == id)
  {
    var a, b := tasks[..k], tasks[k + 1..];
    assert tasks == a + ([tasks[k]] + b);
    AtWorkAppend(a, [tasks[k]] + b, id);
    AtWorkAppend([tasks[k]], b, id);
    AtWorkOfOne(tasks[k], id);
    AtWorkAppend(a, b, id);
  }

  function Owed(s: System, id: Json): nat { Responses(s.flight, id) + AtWork(s.tasks, id) }

  lemma ReceiveOwes(s: System, e: Event, id: Json)
    requires Inv(s) && e.Receive? && e.node in s.headers && e.packet < |s.flight|
    ensures Owed(Step(s, e), id) == Owed(s, id) + Count(Receives(s, e, id))
  {
    var p := s.flight[e.packet];
    ReadsAsSaid(p);
    if p.said.Request? {
      AtWorkAppend(s.tasks, [Task(e.node, p.said.id)], id);
      AtWorkOfOne(Task(e.node, p.said.id), id);
    }
  }

  lemma AnswerOwes(s: System, k: nat, result: Result, id: Json)
    requires k < |s.tasks| && s.tasks[k].node in s.headers
    ensures Owed(AnswerStep(s, k, result), id) == Owed(s, id)
  {
    AtWorkRemove(s.tasks, k, id);
    ResponsesSnoc(s.flight, Packed(Response(s.tasks[k].id, result), s.headers[s.tasks[k].node]), id);
  }

  lemma StepOwes(s: System, e: Event, id: Json)
    requires Inv(s)
    ensures Owed(Step(s, e), id) == Owed(s, id) + Count(Receives(s, e, id))
  {
    if Speaks(s, e) {
      ResponsesSnoc(s.flight, Packed(e.said, s.headers[e.node]), id);
    } else if e.Receive? && e.node in s.headers && e.packet < |s.flight| {
      ReceiveOwes(s, e, id);
    } else if e.Answer? && e.task < |s.tasks| && s.tasks[e.task].node in s.headers {
      AnswerOwes(s, e.task, e.result, id);
    }
  }

  /** In every run and for every id, the responses sent and the handlers still at work together
      are as many as the requests received: a request received is answered once when its
      handler has ended, and nothing else is answered. */
  lemma {:induction false} AnsweredOnceEach(configured: map<nat, Headers>, run: seq<Event>, id: Json)
    requires forall n :: n in configured ==> Clean(configured[n])
    requires forall i :: 0 <= i < |run| ==> Polite(run[i])
    ensures var s := Exec(configured, run);
            Responses(s.flight, id) + AtWork(s.tasks, id) == Received(configured, run, id)
    decreases |run|
  {
    if run != [] {
      AnsweredOnceEach(configured, run[..|run| - 1], id);
      ExecKeeps(configured, run[..|run| - 1]);
      StepOwes(Exec(configured, run[..|run| - 1]), run[|run| - 1], id);
    }
  }

  // ----- everything in flight and in the tables is accounted for

  predicate Speaks(s: System, e: Event) { e.Send? && e.node in s.headers && !e.said.Response? }

  predicate Replies(s: System, e: Event) { e.Answer? && e.task < |s.tasks| && s.tasks[e.task].node in s.headers }

  /** What the nodes said, in order: the requests and notifications they sent, and the results
      of their handlers under the ids of the requests. */
  function Spoken(configured: map<nat, Headers>, run: seq<Event>): seq<Said> {
    if run == [] then []
    else
      var s, e := Exec(configured, run[..|run| - 1]), run[|run| - 1];
      Spoken(configured, run[..|run| - 1])
      + if Speaks(s, e) then [e.said]
        else if Replies(s, e) then [Response(s.tasks[e.task].id, e.result)] else []
  }

  function SaidIn(flight: seq<Packet>): seq<Said> {
    seq(|flight|, i requires 0 <= i < |flight| => flight[i].said)
  }

  lemma SaidInSnoc(flight: seq<Packet>, p: Packet)
    ensures SaidIn(flight + [p]) == SaidIn(flight) + [p.said]
  {
  }

  /** In every run the packets in flight are what the nodes have said, in order. */
  lemma {:induction false} AllThatWasSaid(configured: map<nat, Headers>, run: seq<Event>)
    ensures SaidIn(Exec(configured, run).flight) == Spoken(configured, run)
    decreases |run|
  {
    if run != [] {
      var s, e := Exec(configured, run[..|run| - 1]), run[|run| - 1];
      AllThatWasSaid(configured, run[..|run| - 1]);
      if Speaks(s, e) {
        SaidInSnoc(s.flight, Packed(e.said, s.headers[e.node]));
      } else if Replies(s, e) {
        SaidInSnoc(s.flight, Packed(Response(s.tasks[e.task].id, e.result), s.headers[s.tasks[e.task].node]));
      }
    }
  }

  /** What node `n` has learnt: its configured headers, the headers of the senders whose packets
      it received, and those its handlers added, a later value replacing an earlier one. */
  function Learnt(configured: map<nat, Headers>, run: seq<Event>, n: nat): Headers
    requires n in configured
  {
    if run == [] then configured[n]
    else
      var s, e := Exec(configured, run[..|run| - 1]), run[|run| - 1];
      var before := Learnt(configured, run[..|run| - 1], n);
      if e.Receive? && e.node == n && e.packet < |s.flight| then before + s.flight[e.packet].headers
      else if e.Add? && e.node == n then before + e.added
      else before
  }

  /** In every run each header table is what its node has learnt. */
  lemma {:induction false} TablesAreLearnt(configured: map<nat, Headers>, run: seq<Event>, n: nat)
    requires forall i :: i in configured ==> Clean(configured[i])
    requires forall i :: 0 <= i < |run| ==> Polite(run[i])
    requires n in configured
    ensures n in Exec(configured, run).headers && Exec(configured, run).headers[n] == Learnt(configured, run, n)
    decreases |run|
  {
    if run != [] {
      var before, e := run[..|run| - 1], run[|run| - 1];
      var s := Exec(configured, before);
      TablesAreLearnt(configured, before, n);
      if e.Receive? && e.node in s.headers && e.packet < |s.flight| {
        ReceiverLearns(configured, before, e.node, e.packet);
      }
    }
  }
}
