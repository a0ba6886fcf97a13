/** Any number of concurrent `Local#invoke` calls (lib/rjr/nodes/local.rb): each call
    serialises a request, a thread of its own handles it and delivers the response into
    the tables shared by all calls, and the caller registers and polls. */
module LocalInvoke {
  import opened Basics
  import opened Messages
  import D = Dispatcher
  import C = Correlation
  import P = CorrelationProofs

  /** What a handler does when it is run. */
  datatype Outcome = Value(v: Json) | Raise(text: string, cls: string)

  /** The node's registrations, what each handler may do, and the timeout. */
  datatype Config<!H> = Config(
    log: seq<D.Entry<H>>,
    matcher: D.Matcher,
    allows: (H, Json, Outcome) -> bool,
    timeout: Option<int>)

  /** How an invocation ends: `return res[1]`, `fail res[2]` or `fail 'Timed out'`. */
  datatype End = Returns(v: Json) | Fails(text: string) | TimesOut(at: int)

  datatype Stage = Launched | Waiting | Done(end: End)

  datatype Call = Call(name: string, args: Json, stage: Stage)

  /** The thread of `launch_request`. */
  datatype Server = Asked(msg: Message) | Answering(id: Json, result: Result) | Finished

  datatype Local = Local(
    headers: Headers,
    node: P.State,
    calls: map<Json, Call>,
    servers: map<Json, Server>,
    outcomes: map<Json, Outcome>)   // what the handler did, per call

  datatype Event =
    | Invoke(id: Json, name: string, args: seq<Json>)
    | Serve(id: Json, outcome: Outcome, added: Headers)
    | Answer(id: Json)
    | Register(id: Json, now: int)
    | Poll(id: Json, now: int)

  /** `Dispatcher#dispatch` */
  function Dispatch<H>(c: Config<H>, name: string, outcome: Outcome): Result {
    match D.Lookup(c.log, name, c.matcher)
    case None => MethodNotFound(name)
    case Some(_) =>
      match outcome
      case Value(v) => Succeeded(v)
      case Raise(text, cls) => Raised(text, cls)
  }

  /** The outcome is one the handler for `name` may have on `args`. */
  predicate Possible<H>(c: Config<H>, name: string, args: Json, outcome: Outcome) {
    match D.Lookup(c.log, name, c.matcher)
    case None => true
    case Some(h) => c.allows(h, args, outcome)
  }

  /** `Dispatcher#handle_response`: the error text, if it fails. Ruby's own text stands in
      for a message that is no string. */
  function ErrorOf(r: Result): Option<string> {
    if r.success then None
    else if r.msg.Str? then Some(r.msg.s) else Some("exception class/object expected")
  }

  /** `handle_request` up to the response: parse, dispatch, and learn headers. The response
      is also given to `send_msg`, which ignores it (see `LocalSendIgnoresResponses`). */
  function ServeStep<H>(c: Config<H>, s: Local, id: Json, m: Message, e: Event): Local
    requires e.Serve?
  {
    if "method" in m && m["method"].Str? && Possible(c, m["method"].s, Get(m, "params"), e.outcome) then
      s.(headers := Learn(s.headers, m, REQUEST_WORDS) + e.added,
         servers := s.servers[id := Answering(Get(m, "id"), Dispatch(c, m["method"].s, e.outcome))],
         outcomes := s.outcomes[id := e.outcome])
    else s
  }

  /** The response is serialised with the headers of this moment, parsed and delivered. */
  function AnswerStep<H>(c: Config<H>, s: Local, id: Json, said: Said): Local {
    var m := ToMessage(said, s.headers);
    match ParseResult(m)
    case None => s
    case Some(r) =>
      s.(headers := Learn(s.headers, m, RESPONSE_WORDS),
         node := P.Step(c.timeout, s.node, P.Delivers(Get(m, "id"), r.result, ErrorOf(r))),
         servers := s.servers[id := Finished])
  }

  function PollStep<H>(c: Config<H>, s: Local, id: Json, now: int): Local
    requires id in s.calls
  {
    var call := s.calls[id];
    var node := P.Step(c.timeout, s.node, P.Polls(id, now));
    var stage :=
      match C.Poll(s.node.tables, c.timeout, id, now).1
      case TimedOut => Done(TimesOut(now))
      case Waiting => Waiting
      case Got(r) => Done(if r.err.Some? then Fails(r.err.value) else Returns(r.res));
    s.(node := node, calls := s.calls[id := call.(stage := stage)])
  }

  function Step<H>(c: Config<H>, s: Local, e: Event): Local {
    match e
    case Invoke(id, name, args) =>
      if id in s.calls then s
      else s.(calls := s.calls[id := Call(name, Arr(args), Launched)],
              servers := s.servers[id := Asked(ToMessage(Request(id, Str(name), Arr(args)), s.headers))])
    case Serve(id, _, _) =>
      if id in s.servers && s.servers[id].Asked? then ServeStep(c, s, id, s.servers[id].msg, e) else s
    case Answer(id) =>
      if id in s.servers && s.servers[id].Answering?
      then AnswerStep(c, s, id, Response(s.servers[id].id, s.servers[id].result)) else s
    case Register(id, now) =>
      if id in s.calls && s.calls[id].stage.Launched? && s.node.clock <= now
      then s.(node := P.Step(c.timeout, s.node, P.Registers(id, now)),
              calls := s.calls[id := s.calls[id].(stage := Waiting)])
      else s
    case Poll(id, now) =>
      if id in s.calls && s.calls[id].stage.Waiting? && s.node.clock <= now then PollStep(c, s, id, now) else s
  }

  function Exec<H>(c: Config<H>, configured: Headers, run: seq<Event>): Local {
    if run == [] then Local(configured, P.INIT, map[], map[], map[])
    else Step(c, Exec(c, configured, run[..|run| - 1]), run[|run| - 1])
  }

  /** Whatever its headers, a serialised response is recognised as one, so `Local#send_msg`
      never launches it as a request. */
  lemma LocalSendIgnoresResponses(id: Json, r: Result, headers: Headers)
    ensures IsResponse(ToMessage(Response(id, r), headers))
  {
  }

  // ----- the invariant

  /** What the call `id` is owed, once its handler has been run. */
  function Truth<H>(c: Config<H>, s: Local, id: Json): Result
    requires id in s.calls && id in s.outcomes
  {
    Dispatch(c, s.calls[id].name, s.outcomes[id])
  }

  ghost predicate Served<H>(c: Config<H>, s: Local, id: Json) {
    id in s.calls && id in s.outcomes && Possible(c, s.calls[id].name, s.calls[id].args, s.outcomes[id])
  }

  ghost predicate IsRequestOf(m: Message, id: Json, name: string, args: Json) {
    exists h :: Clean(h) && m == ToMessage(Request(id, Str(name), args), h)
  }

  ghost predicate ServerOk<H>(c: Config<H>, s: Local, id: Json) {
    id in s.servers ==>
      && id in s.calls
      && match s.servers[id]
         case Asked(m) => id !in s.outcomes && IsRequestOf(m, id, s.calls[id].name, s.calls[id].args)
         case Answering(id', r) => id' == id && Served(c, s, id) && r == Truth(c, s, id)
         case Finished => true
  }

  ghost predicate ReplyOk<H>(c: Config<H>, s: Local, r: C.Reply) {
    Served(c, s, r.id) && r.res == Truth(c, s, r.id).result && r.err == ErrorOf(Truth(c, s, r.id))
  }

  ghost predicate CallOk<H>(c: Config<H>, s: Local, id: Json) {
    id in s.calls ==>
      && id in s.servers
      && (!s.calls[id].stage.Launched? ==> id in s.node.registered)
      && match s.calls[id].stage
         case Done(Returns(v)) => Served(c, s, id) && Truth(c, s, id).success && v == Truth(c, s, id).result
         case Done(Fails(text)) => Served(c, s, id) && ErrorOf(Truth(c, s, id)) == Some(text)
         case Done(TimesOut(at)) => P.PastDeadline(c.timeout, s.node.registered[id], at)
         case _ => true
  }

  ghost predicate Inv<H>(c: Config<H>, s: Local) {
    && Clean(s.headers)
    && P.Inv(c.timeout, s.node)
    && s.outcomes.Keys <= s.calls.Keys
    && (forall id :: ServerOk(c, s, id))
    && (forall id :: CallOk(c, s, id))
    && (forall r :: r in s.node.tables.responses ==> ReplyOk(c, s, r))
  }

  // ----- every step keeps it

  /** `s'` differs from `s` only in what concerns `id0`, and does not forget `id0`'s outcome. */
  ghost predicate Elsewhere(s: Local, s': Local, id0: Json) {
    && (forall id :: id != id0 ==> (id in s.calls <==> id in s'.calls) && (id in s.servers <==> id in s'.servers)
                                   && (id in s.outcomes <==> id in s'.outcomes))
    && (forall id :: id != id0 && id in s.calls ==> s'.calls[id] == s.calls[id])
    && (forall id :: id != id0 && id in s.servers ==> s'.servers[id] == s.servers[id])
    && (forall id :: id != id0 && id in s.outcomes ==> s'.outcomes[id] == s.outcomes[id])
  }

  ghost predicate SameClock(s: Local, s': Local) {
    s'.node.registered == s.node.registered && s'.node.clock == s.node.clock
  }

  lemma OthersKeep<H>(c: Config<H>, s: Local, s': Local, id0: Json, id: Json)
    requires Elsewhere(s, s', id0) && SameClock(s, s') && id != id0
    requires ServerOk(c, s, id) && CallOk(c, s, id)
    ensures ServerOk(c, s', id) && CallOk(c, s', id)
  {
  }

  lemma RepliesKeep<H>(c: Config<H>, s: Local, s': Local, id0: Json, r: C.Reply)
    requires Elsewhere(s, s', id0) && ReplyOk(c, s, r)
    requires r.id == id0 ==> id0 in s'.calls && id0 in s'.outcomes && s'.outcomes[id0] == s.outcomes[id0]
    requires r.id == id0 ==> s'.calls[id0].(stage := Launched) == s.calls[id0].(stage := Launched)
    ensures ReplyOk(c, s', r)
  {
  }

  /** It is enough to look at the one call that a step concerns, and at a new reply. */
  lemma StepKeepsIf<H>(c: Config<H>, s: Local, s': Local, id0: Json)
    requires Inv(c, s) && Elsewhere(s, s', id0) && SameClock(s, s')
    requires Clean(s'.headers) && P.Inv(c.timeout, s'.node) && s'.outcomes.Keys <= s'.calls.Keys
    requires ServerOk(c, s', id0) && CallOk(c, s', id0)
    requires id0 in s.outcomes ==> id0 in s'.calls && id0 in s'.outcomes && s'.outcomes[id0] == s.outcomes[id0]
    requires id0 in s.outcomes ==> s'.calls[id0].(stage := Launched) == s.calls[id0].(stage := Launched)
    requires forall r :: r in s'.node.tables.responses ==> r in s.node.tables.responses || ReplyOk(c, s', r)
    ensures Inv(c, s')
  {
    forall id ensures ServerOk(c, s', id) && CallOk(c, s', id) {
      assert ServerOk(c, s, id) && CallOk(c, s, id);
      if id != id0 { OthersKeep(c, s, s', id0, id); }
    }
    forall r | r in s'.node.tables.responses ensures ReplyOk(c, s', r) {
      if r in s.node.tables.responses {
        assert ReplyOk(c, s, r);
        RepliesKeep(c, s, s', id0, r);
      }
    }
  }

  lemma InvokeKeeps<H>(c: Config<H>, s: Local, e: Event)
    requires Inv(c, s) && e.Invoke? && e.id !in s.calls
    ensures Inv(c, Step(c, s, e))
  {
    var s' := Step(c, s, e);
    assert IsRequestOf(s'.servers[e.id].msg, e.id, e.name, Arr(e.args));
    StepKeepsIf(c, s, s', e.id);
  }

  lemma RequestReads(m: Message, id: Json, name: string, args: Json, mine: Headers)
    requires IsRequestOf(m, id, name, args) && Clean(mine)
    ensures "method" in m && m["method"] == Str(name) && Get(m, "id") == id && Get(m, "params") == args
    ensures Clean(Learn(mine, m, REQUEST_WORDS))
  {
    var h :| Clean(h) && m == ToMessage(Request(id, Str(name), args), h);
    CleanIsHarmless(Request(id, Str(name), args), h);
    ParsesBackIff(Request(id, Str(name), args), h);
    LearnsClean(mine, Request(id, Str(name), args), h);
  }

  lemma ServeKeeps<H>(c: Config<H>, s: Local, id: Json, outcome: Outcome, headers: Headers)
    requires Inv(c, s) && id in s.servers && s.servers[id].Asked? && id in s.calls && Clean(headers)
    requires Possible(c, s.calls[id].name, s.calls[id].args, outcome)
    ensures Inv(c, s.(headers := headers,
                      servers := s.servers[id := Answering(id, Dispatch(c, s.calls[id].name, outcome))],
                      outcomes := s.outcomes[id := outcome]))
  {
    assert ServerOk(c, s, id) && CallOk(c, s, id);
    StepKeepsIf(c, s, s.(headers := headers,
                         servers := s.servers[id := Answering(id, Dispatch(c, s.calls[id].name, outcome))],
                         outcomes := s.outcomes[id := outcome]), id);
  }

  lemma ServeStepKeeps<H>(c: Config<H>, s: Local, e: Event)
    requires Inv(c, s) && e.Serve? && Clean(e.added) && e.id in s.servers && s.servers[e.id].Asked?
    ensures Inv(c, ServeStep(c, s, e.id, s.servers[e.id].msg, e))
  {
    assert ServerOk(c, s, e.id);
    var m, call := s.servers[e.id].msg, s.calls[e.id];
    RequestReads(m, e.id, call.name, call.args, s.headers);
    CleanTogether(Learn(s.headers, m, REQUEST_WORDS), e.added);
    if Possible(c, call.name, call.args, e.outcome) {
      ServeKeeps(c, s, e.id, e.outcome, Learn(s.headers, m, REQUEST_WORDS) + e.added);
    }
  }

  lemma ResponseReads(id: Json, r: Result, h: Headers)
    requires Built(r) && Clean(h)
    ensures var m := ToMessage(Response(id, r), h);
            ParseResult(m) == Some(r) && Get(m, "id") == id && Clean(Learn(h, m, RESPONSE_WORDS))
  {
    CleanIsHarmless(Response(id, r), h);
    ParsesBackIff(Response(id, r), h);
    LearnsClean(h, Response(id, r), h);
  }

  lemma AnswerKeeps<H>(c: Config<H>, s: Local, id: Json, headers: Headers)
    requires Inv(c, s) && id in s.servers && s.servers[id].Answering? && Clean(headers)
    ensures var r := s.servers[id].result;
            Inv(c, s.(headers := headers,
                      node := P.Step(c.timeout, s.node, P.Delivers(id, r.result, ErrorOf(r))),
                      servers := s.servers[id := Finished]))
  {
    assert ServerOk(c, s, id) && CallOk(c, s, id);
    var r := s.servers[id].result;
    var node := P.Step(c.timeout, s.node, P.Delivers(id, r.result, ErrorOf(r)));
    P.StepKeeps(c.timeout, s.node, P.Delivers(id, r.result, ErrorOf(r)));
    StepKeepsIf(c, s, s.(headers := headers, node := node, servers := s.servers[id := Finished]), id);
  }

  lemma AnswerStepKeeps<H>(c: Config<H>, s: Local, id: Json)
    requires Inv(c, s) && id in s.servers && s.servers[id].Answering?
    ensures Inv(c, AnswerStep(c, s, id, Response(s.servers[id].id, s.servers[id].result)))
  {
    assert ServerOk(c, s, id);
    var r := s.servers[id].result;
    ResponseReads(id, r, s.headers);
    AnswerKeeps(c, s, id, Learn(s.headers, ToMessage(Response(id, r), s.headers), RESPONSE_WORDS));
  }

  // ----- steps that move the clock

  lemma ClockKeeps<H>(c: Config<H>, s: Local, s': Local, id0: Json, id: Json)
    requires Elsewhere(s, s', id0) && id != id0
    requires forall i :: i != id0 && i in s.node.registered ==>
               i in s'.node.registered && s'.node.registered[i] == s.node.registered[i]
    requires s.node.clock <= s'.node.clock
    requires ServerOk(c, s, id) && CallOk(c, s, id)
    ensures ServerOk(c, s', id) && CallOk(c, s', id)
  {
  }

  /** As `StepKeepsIf`, for a step that only changes the stage of one call and the node. */
  lemma StageKeepsIf<H>(c: Config<H>, s: Local, s': Local, id0: Json, stage: Stage)
    requires Inv(c, s) && id0 in s.calls
    requires s' == s.(node := s'.node, calls := s.calls[id0 := s.calls[id0].(stage := stage)])
    requires forall i :: i != id0 && i in s.node.registered ==>
               i in s'.node.registered && s'.node.registered[i] == s.node.registered[i]
    requires s.node.clock <= s'.node.clock
    requires P.Inv(c.timeout, s'.node) && CallOk(c, s', id0)
    requires forall r :: r in s'.node.tables.responses ==> r in s.node.tables.responses
    ensures Inv(c, s')
  {
    forall id ensures ServerOk(c, s', id) && CallOk(c, s', id) {
      assert ServerOk(c, s, id) && CallOk(c, s, id);
      if id != id0 { ClockKeeps(c, s, s', id0, id); }
    }
    forall r | r in s'.node.tables.responses ensures ReplyOk(c, s', r) {
      assert ReplyOk(c, s, r);
    }
  }

  lemma RegisterKeeps<H>(c: Config<H>, s: Local, e: Event)
    requires Inv(c, s) && e.Register? && e.id in s.calls && s.calls[e.id].stage.Launched? && s.node.clock <= e.now
    ensures Inv(c, Step(c, s, e))
  {
    assert CallOk(c, s, e.id);
    P.StepKeeps(c.timeout, s.node, P.Registers(e.id, e.now));
    StageKeepsIf(c, s, Step(c, s, e), e.id, Waiting);
  }

  lemma PollKeeps<H>(c: Config<H>, s: Local, id: Json, now: int)
    requires Inv(c, s) && id in s.calls && s.calls[id].stage.Waiting? && s.node.clock <= now
    ensures Inv(c, PollStep(c, s, id, now))
  {
    var s' := PollStep(c, s, id, now);
    assert CallOk(c, s, id);
    P.StepKeeps(c.timeout, s.node, P.Polls(id, now));
    P.PollFacts(s.node.tables, c.timeout, id, now);
    P.LiveMembers(s.node.tables.pending, c.timeout, now);
    var o := C.Poll(s.node.tables, c.timeout, id, now).1;
    if o.Got? { assert ReplyOk(c, s, o.reply); }
    StageKeepsIf(c, s, s', id, s'.calls[id].stage);
  }

  predicate Polite(e: Event) { e.Serve? ==> Clean(e.added) }

  lemma StepKeeps<H>(c: Config<H>, s: Local, e: Event)
    requires Inv(c, s) && Polite(e)
    ensures Inv(c, Step(c, s, e))
  {
    if Step(c, s, e) == s {
    } else if e.Invoke? { InvokeKeeps(c, s, e);
    } else if e.Serve? { ServeStepKeeps(c, s, e);
    } else if e.Answer? { AnswerStepKeeps(c, s, e.id);
    } else if e.Register? { RegisterKeeps(c, s, e);
    } else { PollKeeps(c, s, e.id, e.now); }
  }

  lemma {:induction false} ExecKeeps<H>(c: Config<H>, configured: Headers, run: seq<Event>)
    requires Clean(configured) && forall i :: 0 <= i < |run| ==> Polite(run[i])
    ensures Inv(c, Exec(c, configured, run))
    decreases |run|
  {
    if run != [] {
      ExecKeeps(c, configured, run[..|run| - 1]);
      StepKeeps(c, Exec(c, configured, run[..|run| - 1]), run[|run| - 1]);
    }
  }

  // ----- main result

  /** The call ended with its own handler's doing, or timed out. */
  ghost predicate OwnEnd<H>(c: Config<H>, s: Local, id: Json)
    requires id in s.calls && s.calls[id].stage.Done?
  {
    var call := s.calls[id];
    var handler := D.Lookup(c.log, call.name, c.matcher);
    match call.stage.end
    case Returns(v) =>
      && handler.Some? && id in s.outcomes && s.outcomes[id].Value?
      && c.allows(handler.value, call.args, s.outcomes[id])
      && v == if s.outcomes[id].v == Bool(false) then Null else s.outcomes[id].v
    case Fails(text) =>
      if handler.None? then text == "Method '" + call.name + "' not found"
      else id in s.outcomes && s.outcomes[id].Raise? && s.outcomes[id].text == text
           && c.allows(handler.value, call.args, s.outcomes[id])
    case TimesOut(at) =>
      id in s.node.registered && P.PastDeadline(c.timeout, s.node.registered[id], at)
  }

  /** In every interleaving of any number of invocations, a call that returns yields what the
      dispatcher's handler for its own method made of its own arguments (false becomes nil),
      a call that fails carries its own handler's or the method-not-found text, and a call
      that times out is past its own deadline. */
  lemma EveryCallEndsWithItsOwn<H>(c: Config<H>, configured: Headers, run: seq<Event>, id: Json)
    requires Clean(configured) && forall i :: 0 <= i < |run| ==> Polite(run[i])
    requires id in Exec(c, configured, run).calls && Exec(c, configured, run).calls[id].stage.Done?
    ensures OwnEnd(c, Exec(c, configured, run), id)
  {
    ExecKeeps(c, configured, run);
    assert CallOk(c, Exec(c, configured, run), id);
  }
}
