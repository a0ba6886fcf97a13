/** When a local invocation whose request has been answered comes to its end. */
module LocalProgress {
  import opened Basics
  import opened Messages
  import opened LocalInvoke
  import C = Correlation
  import P = CorrelationProofs

  predicate AllPolite(run: seq<Event>) { forall i :: 0 <= i < |run| ==> Polite(run[i]) }

  function HeldFor(s: Local, id: Json): seq<C.Reply> { C.For(s.node.tables.responses, id) }

  lemma ExecSnoc<H>(c: Config<H>, configured: Headers, run: seq<Event>, e: Event)
    ensures Exec(c, configured, run + [e]) == Step(c, Exec(c, configured, run), e)
  {
    assert (run + [e])[..|run|] == run;
  }

  lemma StepClock<H>(c: Config<H>, s: Local, e: Event)
    ensures s.node.clock <= Step(c, s, e).node.clock
  {
  }

  // ----- what a step does to the answers held for a call

  lemma AnswerDelivers<H>(c: Config<H>, s: Local, id: Json)
    requires Inv(c, s) && id in s.servers && s.servers[id].Answering?
    ensures var r := s.servers[id].result; var s' := Step(c, s, Answer(id));
            && s'.node == P.Step(c.timeout, s.node, P.Delivers(id, r.result, ErrorOf(r)))
            && s'.calls == s.calls && s'.servers == s.servers[id := Finished]
  {
    assert ServerOk(c, s, id);
    ResponseReads(id, s.servers[id].result, s.headers);
  }

  lemma AnswerHeldFor<H>(c: Config<H>, s: Local, e: Event, id: Json)
    requires Inv(c, s) && e.Answer? && e.id in s.servers && s.servers[e.id].Answering?
    ensures if e.id == id then HeldFor(Step(c, s, e), id) != [] else HeldFor(Step(c, s, e), id) == HeldFor(s, id)
    ensures HeldFor(s, id) != [] ==> HeldFor(Step(c, s, e), id) != []
  {
    var r := s.servers[e.id].result;
    AnswerDelivers(c, s, e.id);
    C.FilterSnoc(s.node.tables.responses, C.Reply(e.id, r.result, ErrorOf(r), |s.node.delivered|), C.WithId(id));
  }

  /** Another waiter's poll prunes the responses for `id`. */
  predicate PrunesAt<H>(c: Config<H>, s: Local, e: Event, id: Json) {
    && e.Poll? && e.id != id && CanPoll(s, e.id, e.now)
    && P.Prunes(s.node.tables, c.timeout, e.id, e.now, id)
  }

  /** That happens somewhere in `more`, which follows `run`. */
  predicate PrunedIn<H>(c: Config<H>, configured: Headers, run: seq<Event>, more: seq<Event>, id: Json)
    decreases |more|
  {
    more != [] &&
    (PrunedIn(c, configured, run, more[..|more| - 1], id)
     || PrunesAt(c, Exec(c, configured, run + more[..|more| - 1]), more[|more| - 1], id))
  }

  predicate CanPoll(s: Local, id: Json, now: int) {
    id in s.calls && s.calls[id].stage.Waiting? && s.node.clock <= now
  }

  lemma PollTables<H>(c: Config<H>, s: Local, id: Json, now: int)
    requires CallOk(c, s, id)
    ensures Step(c, s, Poll(id, now)).node.tables
         == if CanPoll(s, id, now) then C.Poll(s.node.tables, c.timeout, id, now).0 else s.node.tables
    ensures Step(c, s, Poll(id, now)).servers == s.servers
  {
  }

  lemma PollKeepsHeldIff<H>(c: Config<H>, s: Local, e: Event, id: Json)
    requires e.Poll? && e.id != id && CallOk(c, s, e.id)
    ensures HeldFor(Step(c, s, e), id) == if PrunesAt(c, s, e, id) then [] else HeldFor(s, id)
    ensures Step(c, s, e).servers == s.servers
  {
    PollTables(c, s, e.id, e.now);
    P.PollDropsOrKeeps(s.node.tables, c.timeout, e.id, e.now, id);
  }

  predicate NoPollOf(run: seq<Event>, id: Json) { forall i :: 0 <= i < |run| ==> !(run[i].Poll? && run[i].id == id) }

  predicate Answered(s: Local, id: Json) { id in s.servers && s.servers[id].Finished? }

  lemma OtherAnswerKeeps<H>(c: Config<H>, s: Local, e: Event, id: Json)
    requires Inv(c, s) && Answered(s, id) && e.Answer?
    ensures HeldFor(Step(c, s, e), id) == HeldFor(s, id) && Answered(Step(c, s, e), id)
  {
    if e.id in s.servers && s.servers[e.id].Answering? {
      AnswerDelivers(c, s, e.id);
      AnswerHeldFor(c, s, e, id);
    }
  }

  lemma QuietKeepsHeld<H>(c: Config<H>, s: Local, e: Event, id: Json)
    requires Answered(s, id) && id in s.calls && (e.Invoke? || e.Serve? || e.Register?)
    ensures HeldFor(Step(c, s, e), id) == HeldFor(s, id) && Answered(Step(c, s, e), id)
  {
  }

  lemma StepKeepsHeldIff<H>(c: Config<H>, s: Local, e: Event, id: Json)
    requires Inv(c, s) && Answered(s, id) && !(e.Poll? && e.id == id)
    ensures HeldFor(Step(c, s, e), id) == if PrunesAt(c, s, e, id) then [] else HeldFor(s, id)
    ensures Answered(Step(c, s, e), id)
  {
    if e.Poll? {
      assert CallOk(c, s, e.id);
      PollKeepsHeldIff(c, s, e, id);
    } else if e.Answer? {
      OtherAnswerKeeps(c, s, e, id);
    } else {
      assert ServerOk(c, s, id);
      QuietKeepsHeld(c, s, e, id);
    }
  }

  /** The answer is held until, and only until, another waiter prunes it. */
  lemma {:induction false} HeldIffNotPruned<H>(
      c: Config<H>, configured: Headers, run: seq<Event>, more: seq<Event>, id: Json)
    requires Clean(configured) && AllPolite(run) && AllPolite(more) && NoPollOf(more, id)
    requires Answered(Exec(c, configured, run), id) && HeldFor(Exec(c, configured, run), id) != []
    ensures Answered(Exec(c, configured, run + more), id)
    ensures HeldFor(Exec(c, configured, run + more), id) != [] <==> !PrunedIn(c, configured, run, more, id)
    decreases |more|
  {
    if more == [] {
      assert run + more == run;
    } else {
      var before, e := more[..|more| - 1], more[|more| - 1];
      assert run + more == run + before + [e];
      HeldIffNotPruned(c, configured, run, before, id);
      ExecKeeps(c, configured, run + before);
      ExecSnoc(c, configured, run + before, e);
      StepKeepsHeldIff(c, Exec(c, configured, run + before), e, id);
    }
  }

  // ----- what a call's own poll does to it

  /** In every run a waiting call that polls past its deadline ends there with a timeout. Within
      it, the call goes on waiting if nothing is held for it, and otherwise ends with what was
      delivered first. No other call changes. */
  lemma PollMeans<H>(c: Config<H>, configured: Headers, run: seq<Event>, id: Json, now: int)
    requires Clean(configured) && AllPolite(run) && CanPoll(Exec(c, configured, run), id, now)
    ensures var s := Exec(c, configured, run); var s' := Step(c, s, Poll(id, now));
            && id in s.node.registered
            && s'.calls == s.calls[id := s.calls[id].(stage := StageAfter(c, s, id, now))]
  {
    ExecKeeps(c, configured, run);
    PollMeansAt(c, Exec(c, configured, run), id, now);
  }

  lemma PollMeansAt<H>(c: Config<H>, s: Local, id: Json, now: int)
    requires Inv(c, s) && CanPoll(s, id, now)
    ensures id in s.node.registered
    ensures Step(c, s, Poll(id, now)).calls == s.calls[id := s.calls[id].(stage := StageAfter(c, s, id, now))]
  {
    assert CallOk(c, s, id);
    DeadlineSeen(c.timeout, s.node, id, now);
    OwnPollOutcome(s.node.tables, c.timeout, id, now);
  }

  /** A poll at `now` sees the id as overdue exactly if its registration is. */
  predicate SeenOverdue(t: C.Tables, timeout: Option<int>, id: Json, now: int) {
    id in t.pending ==> P.PastDeadline(timeout, t.pending[id], now)
  }

  lemma DeadlineSeen(timeout: Option<int>, node: P.State, id: Json, now: int)
    requires P.Inv(timeout, node) && id in node.registered && node.clock <= now
    ensures SeenOverdue(node.tables, timeout, id, now) <==> P.PastDeadline(timeout, node.registered[id], now)
  {
  }

  lemma OwnPollOutcome(t: C.Tables, timeout: Option<int>, id: Json, now: int)
    ensures C.Poll(t, timeout, id, now).1
         == if SeenOverdue(t, timeout, id, now) then C.TimedOut
            else if C.For(t.responses, id) == [] then C.Waiting
            else C.Got(C.For(t.responses, id)[0])
  {
    P.LiveMembers(t.pending, timeout, now);
    var keys := C.Live(t.pending, timeout, now).Keys;
    if id in keys { C.ForKept(t.responses, C.IdIn(keys), id); }
  }

  function StageAfter<H>(c: Config<H>, s: Local, id: Json, now: int): Stage
    requires id in s.node.registered
  {
    if c.timeout.Some? && now - s.node.registered[id] > c.timeout.value then Done(TimesOut(now))
    else if HeldFor(s, id) == [] then Waiting
    else
      var r := HeldFor(s, id)[0];
      Done(if r.err.Some? then Fails(r.err.value) else Returns(r.res))
  }

  /** A call's deadline counts from the moment it registers, and no later step of another call
      moves it. */
  lemma DeadlineIsFixed<H>(c: Config<H>, configured: Headers, run: seq<Event>, more: seq<Event>, id: Json, now: int)
    requires id in Exec(c, configured, run).calls && Exec(c, configured, run).calls[id].stage.Launched?
    requires Exec(c, configured, run).node.clock <= now && NoPollOf(more, id)
    ensures Waits(Exec(c, configured, run + [Register(id, now)] + more), id, now)
  {
    ExecSnoc(c, configured, run, Register(id, now));
    RunWaits(c, configured, run + [Register(id, now)], more, id, now);
  }

  lemma {:induction false} RunWaits<H>(
      c: Config<H>, configured: Headers, run: seq<Event>, more: seq<Event>, id: Json, since: int)
    requires Waits(Exec(c, configured, run), id, since) && NoPollOf(more, id)
    ensures Waits(Exec(c, configured, run + more), id, since)
    decreases |more|
  {
    if more == [] {
      assert run + more == run;
    } else {
      var before, e := more[..|more| - 1], more[|more| - 1];
      assert run + more == run + before + [e];
      RunWaits(c, configured, run, before, id, since);
      ExecSnoc(c, configured, run + before, e);
      StepWaits(c, Exec(c, configured, run + before), e, id, since);
    }
  }

  // ----- which headers the node knows

  /** The event runs a handler that may add headers. */
  predicate Serves<H>(c: Config<H>, s: Local, e: Event) {
    && e.Serve? && e.id in s.calls && e.id in s.servers && s.servers[e.id].Asked?
    && Possible(c, s.calls[e.id].name, s.calls[e.id].args, e.outcome)
  }

  function AddedIn<H>(c: Config<H>, configured: Headers, run: seq<Event>): set<string> {
    if run == [] then {}
    else
      var s, e := Exec(c, configured, run[..|run| - 1]), run[|run| - 1];
      AddedIn(c, configured, run[..|run| - 1]) + if Serves(c, s, e) then e.added.Keys else {}
  }

  /** A request under way carries only headers that the node knows. */
  predicate KnownHeaders(s: Local, id: Json) {
    id in s.servers && s.servers[id].Asked? ==> s.servers[id].msg.Keys - REQUEST_WORDS <= s.headers.Keys
  }

  ghost predicate AllKnown(s: Local) { forall id :: KnownHeaders(s, id) }

  lemma ServeHeaders<H>(c: Config<H>, s: Local, e: Event)
    requires Inv(c, s) && AllKnown(s) && e.Serve?
    ensures Step(c, s, e).headers.Keys == s.headers.Keys + if Serves(c, s, e) then e.added.Keys else {}
    ensures Serves(c, s, e) ==> forall k :: k in e.added ==> Step(c, s, e).headers[k] == e.added[k]
    ensures AllKnown(Step(c, s, e))
  {
    if e.id in s.servers && s.servers[e.id].Asked? {
      assert ServerOk(c, s, e.id) && KnownHeaders(s, e.id);
      RequestReads(s.servers[e.id].msg, e.id, s.calls[e.id].name, s.calls[e.id].args, s.headers);
    }
    var s' := Step(c, s, e);
    forall id ensures KnownHeaders(s', id) { assert KnownHeaders(s, id); }
  }

  lemma AnswerHeaders<H>(c: Config<H>, s: Local, e: Event)
    requires Inv(c, s) && AllKnown(s) && e.Answer?
    ensures Step(c, s, e).headers == s.headers && AllKnown(Step(c, s, e))
  {
    if e.id in s.servers && s.servers[e.id].Answering? {
      assert ServerOk(c, s, e.id);
      RelearnsNothing(e.id, s.servers[e.id].result, s.headers);
      ResponseReads(e.id, s.servers[e.id].result, s.headers);
    }
    var s' := Step(c, s, e);
    forall id ensures KnownHeaders(s', id) { assert KnownHeaders(s, id); }
  }

  lemma RelearnsNothing(id: Json, r: Result, h: Headers)
    requires Clean(h)
    ensures Learn(h, ToMessage(Response(id, r), h), RESPONSE_WORDS) == h
  {
    assert forall k :: k in RESERVED ==> k !in h.Keys;
  }

  lemma InvokeHeaders<H>(c: Config<H>, s: Local, e: Event)
    requires AllKnown(s) && e.Invoke?
    ensures Step(c, s, e).headers == s.headers && AllKnown(Step(c, s, e))
  {
    var s' := Step(c, s, e);
    forall id ensures KnownHeaders(s', id) { assert KnownHeaders(s, id); }
  }

  lemma StepHeaders<H>(c: Config<H>, s: Local, e: Event)
    requires Inv(c, s) && AllKnown(s)
    ensures Step(c, s, e).headers.Keys == s.headers.Keys + if Serves(c, s, e) then e.added.Keys else {}
    ensures AllKnown(Step(c, s, e))
  {
    if e.Serve? {
      ServeHeaders(c, s, e);
    } else if e.Answer? {
      AnswerHeaders(c, s, e);
    } else if e.Invoke? {
      InvokeHeaders(c, s, e);
    } else {
      var s' := Step(c, s, e);
      assert s'.headers == s.headers && s'.servers == s.servers;
      forall id ensures KnownHeaders(s', id) { assert KnownHeaders(s, id); }
    }
  }

  /** In every run the headers a local node knows are those configured and those its handlers
      have added. */
  lemma {:induction false} HeadersAreConfiguredOrAdded<H>(c: Config<H>, configured: Headers, run: seq<Event>)
    requires Clean(configured) && AllPolite(run)
    ensures Exec(c, configured, run).headers.Keys == configured.Keys + AddedIn(c, configured, run)
    ensures AllKnown(Exec(c, configured, run))
    decreases |run|
  {
    if run != [] {
      HeadersAreConfiguredOrAdded(c, configured, run[..|run| - 1]);
      ExecKeeps(c, configured, run[..|run| - 1]);
      StepHeaders(c, Exec(c, configured, run[..|run| - 1]), run[|run| - 1]);
    }
  }

  // ----- exactly when an answered call ends

  predicate Ended(s: Local, id: Json) {
    id in s.calls && s.calls[id].stage.Done? && !s.calls[id].stage.end.TimesOut?
  }

  lemma OwnPollFindsNone(t: C.Tables, timeout: Option<int>, id: Json, now: int)
    requires C.For(t.responses, id) == []
    ensures var (t', o) := C.Poll(t, timeout, id, now); !o.Got? && C.For(t'.responses, id) == []
  {
    var keys := C.Live(t.pending, timeout, now).Keys;
    if id in keys { C.ForKept(t.responses, C.IdIn(keys), id); }
  }

  lemma OwnPollEndsIff<H>(c: Config<H>, s: Local, id: Json, now: int)
    requires Inv(c, s) && id in s.calls && s.calls[id].stage.Waiting? && s.node.clock <= now
    requires id in s.node.registered && !P.PastDeadline(c.timeout, s.node.registered[id], now)
    ensures Ended(Step(c, s, Poll(id, now)), id) <==> HeldFor(s, id) != []
  {
    PollMeansAt(c, s, id, now);
  }

  lemma AnswerIsHeld<H>(c: Config<H>, configured: Headers, run: seq<Event>, id: Json)
    requires Clean(configured) && AllPolite(run)
    requires id in Exec(c, configured, run).servers && Exec(c, configured, run).servers[id].Answering?
    ensures var s := Exec(c, configured, run + [Answer(id)]); Answered(s, id) && HeldFor(s, id) != []
  {
    ExecKeeps(c, configured, run);
    ExecSnoc(c, configured, run, Answer(id));
    AnswerDelivers(c, Exec(c, configured, run), id);
    AnswerHeldFor(c, Exec(c, configured, run), Answer(id), id);
  }

  /** A call that has been answered, before or after it registered, ends at its next poll within
      the deadline if and only if no other waiter's poll in between has pruned its id. */
  lemma AnsweredCallEndsIff<H>(
      c: Config<H>, configured: Headers, run: seq<Event>, more: seq<Event>, id: Json, now: int)
    requires Clean(configured) && AllPolite(run) && AllPolite(more) && NoPollOf(more, id)
    requires id in Exec(c, configured, run).servers && Exec(c, configured, run).servers[id].Answering?
    requires var s := Exec(c, configured, run + [Answer(id)] + more);
             && id in s.calls && s.calls[id].stage.Waiting? && s.node.clock <= now
             && id in s.node.registered && !P.PastDeadline(c.timeout, s.node.registered[id], now)
    ensures Ended(Exec(c, configured, run + [Answer(id)] + more + [Poll(id, now)]), id)
       <==> !PrunedIn(c, configured, run + [Answer(id)], more, id)
  {
    var r1 := run + [Answer(id)];
    AnswerIsHeld(c, configured, run, id);
    HeldIffNotPruned(c, configured, r1, more, id);
    ExecKeeps(c, configured, r1 + more);
    ExecSnoc(c, configured, r1 + more, Poll(id, now));
    OwnPollEndsIff(c, Exec(c, configured, r1 + more), id, now);
  }

  // ----- a call that is answered while it waits ends

  predicate Waits(s: Local, id: Json, since: int) {
    && id in s.calls && s.calls[id].stage.Waiting?
    && id in s.node.registered && s.node.registered[id] == since
  }

  lemma StepWaits<H>(c: Config<H>, s: Local, e: Event, id: Json, since: int)
    requires Waits(s, id, since) && !(e.Poll? && e.id == id)
    ensures Waits(Step(c, s, e), id, since)
  {
  }

  /** No poll prunes a call that waits within its deadline. */
  lemma WaitingIsSpared<H>(c: Config<H>, s: Local, e: Event, id: Json, since: int)
    requires Inv(c, s) && Waits(s, id, since)
    requires !P.PastDeadline(c.timeout, since, Step(c, s, e).node.clock)
    ensures !PrunesAt(c, s, e, id)
  {
    if e.Poll? {
      assert CallOk(c, s, e.id);
      P.LiveMembers(s.node.tables.pending, c.timeout, e.now);
    }
  }

  lemma ClockSnoc<H>(c: Config<H>, configured: Headers, run: seq<Event>, e: Event)
    ensures Exec(c, configured, run).node.clock <= Exec(c, configured, run + [e]).node.clock
  {
    ExecSnoc(c, configured, run, e);
    StepClock(c, Exec(c, configured, run), e);
  }

  lemma SparesSnoc<H>(c: Config<H>, configured: Headers, run: seq<Event>, e: Event, id: Json, since: int)
    requires Clean(configured) && AllPolite(run) && Waits(Exec(c, configured, run), id, since)
    requires !(e.Poll? && e.id == id)
    requires !P.PastDeadline(c.timeout, since, Exec(c, configured, run + [e]).node.clock)
    ensures Waits(Exec(c, configured, run + [e]), id, since)
    ensures !PrunesAt(c, Exec(c, configured, run), e, id)
  {
    ExecKeeps(c, configured, run);
    ExecSnoc(c, configured, run, e);
    StepWaits(c, Exec(c, configured, run), e, id, since);
    WaitingIsSpared(c, Exec(c, configured, run), e, id, since);
  }

  lemma {:induction false} RunSpares<H>(
      c: Config<H>, configured: Headers, run: seq<Event>, more: seq<Event>, id: Json, since: int)
    requires Clean(configured) && AllPolite(run) && AllPolite(more) && NoPollOf(more, id)
    requires Waits(Exec(c, configured, run), id, since)
    requires !P.PastDeadline(c.timeout, since, Exec(c, configured, run + more).node.clock)
    ensures Waits(Exec(c, configured, run + more), id, since)
    ensures !PrunedIn(c, configured, run, more, id)
    decreases |more|
  {
    if more == [] {
      assert run + more == run;
    } else {
      var before, e := more[..|more| - 1], more[|more| - 1];
      assert run + more == run + before + [e];
      ClockSnoc(c, configured, run + before, e);
      RunSpares(c, configured, run, before, id, since);
      SparesSnoc(c, configured, run + before, e, id, since);
    }
  }

  /** A call that is answered while it waits ends with its own outcome at its next poll within
      the deadline, whatever other calls, polls and answers come in between. */
  lemma AnsweredCallEnds<H>(c: Config<H>, configured: Headers, run: seq<Event>, more: seq<Event>, id: Json, now: int)
    requires Clean(configured) && AllPolite(run) && AllPolite(more) && NoPollOf(more, id)
    requires var s := Exec(c, configured, run);
             && id in s.calls && s.calls[id].stage.Waiting? && id in s.servers && s.servers[id].Answering?
             && id in s.node.registered && !P.PastDeadline(c.timeout, s.node.registered[id], now)
    requires Exec(c, configured, run + [Answer(id)] + more).node.clock <= now
    ensures var s := Exec(c, configured, run + [Answer(id)] + more + [Poll(id, now)]);
            Ended(s, id) && OwnEnd(c, s, id)
  {
    var r1, since := run + [Answer(id)], Exec(c, configured, run).node.registered[id];
    ExecSnoc(c, configured, run, Answer(id));
    StepWaits(c, Exec(c, configured, run), Answer(id), id, since);
    RunSpares(c, configured, r1, more, id, since);
    AnsweredCallEndsIff(c, configured, run, more, id, now);
    EveryCallEndsWithItsOwn(c, configured, r1 + more + [Poll(id, now)], id);
  }

  // ----- an answer to a call that has not registered may be lost for good

  /** The call was answered, but its answer is gone and the call has not ended by it. */
  predicate Lost(s: Local, id: Json) {
    && id in s.calls && id in s.servers && s.servers[id].Finished?
    && HeldFor(s, id) == [] && !Ended(s, id)
  }

  lemma PollLost<H>(c: Config<H>, s: Local, e: Event, id: Json)
    requires Lost(s, id) && e.Poll?
    ensures Lost(Step(c, s, e), id)
  {
    if e.id == id {
      OwnPollFindsNone(s.node.tables, c.timeout, id, e.now);
    } else {
      P.PollDropsOrKeeps(s.node.tables, c.timeout, e.id, e.now, id);
    }
  }

  lemma StepLost<H>(c: Config<H>, s: Local, e: Event, id: Json)
    requires Inv(c, s) && Lost(s, id)
    ensures Lost(Step(c, s, e), id)
  {
    if Step(c, s, e) == s {
    } else if e.Answer? {
      AnswerDelivers(c, s, e.id);
      AnswerHeldFor(c, s, e, id);
    } else if e.Poll? {
      PollLost(c, s, e, id);
    }
  }

  /** A lost call stays lost: it never returns and never fails with its answer, and without a
      timeout it never ends. */
  lemma {:induction false} LostForever<H>(
      c: Config<H>, configured: Headers, run: seq<Event>, more: seq<Event>, id: Json)
    requires Clean(configured) && AllPolite(run) && AllPolite(more) && Lost(Exec(c, configured, run), id)
    ensures var s := Exec(c, configured, run + more);
            Lost(s, id) && (c.timeout.None? ==> !s.calls[id].stage.Done?)
    decreases |more|
  {
    ExecKeeps(c, configured, run + more);
    assert CallOk(c, Exec(c, configured, run + more), id);
    if more == [] {
      assert run + more == run;
    } else {
      var before, e := more[..|more| - 1], more[|more| - 1];
      assert run + more == run + before + [e];
      LostForever(c, configured, run, before, id);
      ExecKeeps(c, configured, run + before);
      ExecSnoc(c, configured, run + before, e);
      StepLost(c, Exec(c, configured, run + before), e, id);
    }
  }

  lemma ServeAnswers<H>(c: Config<H>, s: Local, id: Json, outcome: Outcome)
    requires Inv(c, s) && id in s.servers && s.servers[id].Asked? && id in s.calls
    requires Possible(c, s.calls[id].name, s.calls[id].args, outcome)
    ensures var s' := Step(c, s, Serve(id, outcome, map[]));
            && s'.calls == s.calls && s'.node == s.node
            && s'.servers == s.servers[id := s'.servers[id]] && s'.servers[id].Answering?
  {
    assert ServerOk(c, s, id);
    RequestReads(s.servers[id].msg, id, s.calls[id].name, s.calls[id].args, s.headers);
  }

  /** The only call has been answered before it registered. */
  predicate AnsweredEarly(s: Local, id: Json) {
    && s.calls.Keys == {id} && s.calls[id].stage.Launched?
    && id in s.servers && s.servers[id].Finished?
    && s.node.tables.pending == map[] && s.node.clock == 0
  }

  lemma ReachAnswering<H>(c: Config<H>, id: Json, name: string, args: seq<Json>, outcome: Outcome)
    returns (run: seq<Event>)
    requires Possible(c, name, Arr(args), outcome)
    ensures AllPolite(run)
    ensures var s := Exec(c, map[], run);
            && s.calls == map[id := Call(name, Arr(args), Launched)] && s.node == P.INIT
            && id in s.servers && s.servers[id].Answering?
  {
    var r1 := [] + [Invoke(id, name, args)];
    run := r1 + [Serve(id, outcome, map[])];
    ExecSnoc(c, map[], [], Invoke(id, name, args));
    ExecSnoc(c, map[], r1, Serve(id, outcome, map[]));
    ExecKeeps(c, map[], r1);
    ServeAnswers(c, Exec(c, map[], r1), id, outcome);
  }

  lemma ReachAnswered<H>(c: Config<H>, id: Json, name: string, args: seq<Json>, outcome: Outcome)
    returns (run: seq<Event>)
    requires Possible(c, name, Arr(args), outcome)
    ensures AllPolite(run) && AnsweredEarly(Exec(c, map[], run), id)
  {
    var r := ReachAnswering(c, id, name, args, outcome);
    run := r + [Answer(id)];
    ExecKeeps(c, map[], r);
    ExecSnoc(c, map[], r, Answer(id));
    AnswerDelivers(c, Exec(c, map[], r), id);
  }

  /** A second call registers and polls before the first has registered. */
  lemma OtherPollLoses<H>(c: Config<H>, s: Local, id: Json, other: Json, name: string, args: seq<Json>)
    requires c.timeout.None? && other != id && AnsweredEarly(s, id)
    ensures Lost(Step(c, Step(c, Step(c, s, Invoke(other, name, args)), Register(other, 0)), Poll(other, 0)), id)
  {
    OtherRegisters(c, s, id, other, name, args);
    PollLoses(c, Step(c, Step(c, s, Invoke(other, name, args)), Register(other, 0)), id, other);
  }

  /** The first call has been answered and not registered, the second has registered. */
  predicate OvertakenBy(s: Local, id: Json, other: Json) {
    && id in s.calls && s.calls[id].stage.Launched? && Answered(s, id)
    && other in s.calls && s.calls[other].stage.Waiting? && other in s.node.registered
    && s.node.tables.pending == map[other := 0] && s.node.clock == 0
  }

  lemma OtherRegisters<H>(c: Config<H>, s: Local, id: Json, other: Json, name: string, args: seq<Json>)
    requires other != id && AnsweredEarly(s, id)
    ensures OvertakenBy(Step(c, Step(c, s, Invoke(other, name, args)), Register(other, 0)), id, other)
  {
    var s1 := Step(c, s, Invoke(other, name, args));
    assert other !in s.calls && s1.calls[other].stage.Launched?;
  }

  lemma PollLoses<H>(c: Config<H>, s: Local, id: Json, other: Json)
    requires c.timeout.None? && other != id && OvertakenBy(s, id, other)
    ensures Lost(Step(c, s, Poll(other, 0)), id)
  {
    P.PollDropsOrKeeps(s.node.tables, c.timeout, other, 0, id);
  }

  lemma ReachLost<H>(c: Config<H>, id: Json, other: Json, name: string, args: seq<Json>, outcome: Outcome)
    returns (run: seq<Event>)
    requires c.timeout.None? && other != id && Possible(c, name, Arr(args), outcome)
    ensures AllPolite(run) && Lost(Exec(c, map[], run), id)
  {
    var r0 := ReachAnswered(c, id, name, args, outcome);
    var r1 := r0 + [Invoke(other, name, args)];
    var r2 := r1 + [Register(other, 0)];
    run := r2 + [Poll(other, 0)];
    calc {
      Exec(c, map[], run);
    ==  { ExecSnoc(c, map[], r2, Poll(other, 0)); }
      Step(c, Exec(c, map[], r2), Poll(other, 0));
    ==  { ExecSnoc(c, map[], r1, Register(other, 0)); }
      Step(c, Step(c, Exec(c, map[], r1), Register(other, 0)), Poll(other, 0));
    ==  { ExecSnoc(c, map[], r0, Invoke(other, name, args)); }
      Step(c, Step(c, Step(c, Exec(c, map[], r0), Invoke(other, name, args)), Register(other, 0)), Poll(other, 0));
    }
    OtherPollLoses(c, Exec(c, map[], r0), id, other, name, args);
  }

  /** With no timeout and any handler there is a run of two calls after which the first, which
      was answered, never ends, whatever happens from then on. */
  lemma EarlyAnswerIsLost<H>(
      c: Config<H>, id: Json, other: Json, name: string, args: seq<Json>, outcome: Outcome)
    returns (run: seq<Event>)
    requires c.timeout.None? && other != id && Possible(c, name, Arr(args), outcome)
    ensures AllPolite(run) && Lost(Exec(c, map[], run), id)
    ensures forall more :: AllPolite(more) ==>
              var s := Exec(c, map[], run + more); id in s.calls && !s.calls[id].stage.Done?
  {
    run := ReachLost(c, id, other, name, args, outcome);
    forall more | AllPolite(more)
      ensures var s := Exec(c, map[], run + more); id in s.calls && !s.calls[id].stage.Done?
    {
      LostForever(c, map[], run, more, id);
    }
  }
}
