/** Every interleaving of calls that register, responses that arrive and waiters that
    poll, under a clock that never goes back. */
module CorrelationProofs {
  import opened Basics
  import opened Correlation

  datatype Event =
    | Registers(id: Json, now: int)
    | Delivers(id: Json, res: Json, err: Option<string>)
    | Polls(id: Json, now: int)

  /** The node's tables, and what has happened so far. */
  datatype State = State(
    tables: Tables,
    registered: map<Json, int>,   // when each id was last registered
    delivered: seq<Reply>,
    returned: seq<Reply>,
    clock: int)

  const INIT := State(Tables(map[], []), map[], [], [], 0)

  /** An event out of time, or a poll without registration, changes nothing. */
  function Step(timeout: Option<int>, s: State, e: Event): State {
    match e
    case Registers(id, now) =>
      if now < s.clock then s
      else s.(tables := s.tables.(pending := s.tables.pending[id := now]),
              registered := s.registered[id := now], clock := now)
    case Delivers(id, res, err) =>
      var r := Reply(id, res, err, |s.delivered|);
      s.(tables := s.tables.(responses := s.tables.responses + [r]), delivered := s.delivered + [r])
    case Polls(id, now) =>
      if now < s.clock || id !in s.registered then s
      else
        var (t, o) := Poll(s.tables, timeout, id, now);
        s.(tables := t, returned := if o.Got? then s.returned + [o.reply] else s.returned, clock := now)
  }

  function ExecFrom(timeout: Option<int>, s: State, run: seq<Event>): State {
    if run == [] then s else Step(timeout, ExecFrom(timeout, s, run[..|run| - 1]), run[|run| - 1])
  }

  function Exec(timeout: Option<int>, run: seq<Event>): State { ExecFrom(timeout, INIT, run) }

  predicate PastDeadline(timeout: Option<int>, since: int, now: int) {
    timeout.Some? && now - since > timeout.value
  }

  // ----- the invariant

  /** A pending id carries its registration time, and only a passed deadline removes it. */
  ghost predicate PendingOk(timeout: Option<int>, s: State) {
    && (forall id :: id in s.tables.pending ==> id in s.registered && s.tables.pending[id] == s.registered[id])
    && (forall id :: id in s.registered && id !in s.tables.pending ==> PastDeadline(timeout, s.registered[id], s.clock))
  }

  predicate Recorded(s: State, r: Reply) { r.at < |s.delivered| && s.delivered[r.at] == r }

  /** Held replies are in order of arrival, and later than all returned ones for their id. */
  ghost predicate RepliesOk(s: State) {
    && Ordered(s.tables.responses)
    && (forall r :: r in s.tables.responses ==> Recorded(s, r))
    && (forall r :: r in s.returned ==> Recorded(s, r))
    && (forall i, j :: 0 <= i < j < |s.returned| && s.returned[i].id == s.returned[j].id ==>
          s.returned[i].at < s.returned[j].at)
    && (forall a, b :: a in s.returned && b in s.tables.responses && a.id == b.id ==> a.at < b.at)
  }

  ghost predicate Inv(timeout: Option<int>, s: State) { PendingOk(timeout, s) && RepliesOk(s) }

  lemma LiveMembers(pending: map<Json, int>, timeout: Option<int>, now: int)
    ensures forall id :: id in Live(pending, timeout, now)
                    <==> id in pending && !PastDeadline(timeout, pending[id], now)
    ensures forall id :: id in Live(pending, timeout, now) ==> Live(pending, timeout, now)[id] == pending[id]
  {
  }

  /** What a poll leaves behind and returns. */
  lemma PollFacts(t: Tables, timeout: Option<int>, id: Json, now: int)
    requires Ordered(t.responses)
    ensures var (t', o) := Poll(t, timeout, id, now);
            && t'.pending == Live(t.pending, timeout, now)
            && (o == TimedOut <==> id !in t'.pending)
            && Ordered(t'.responses)
            && (forall r :: r in t'.responses ==> r in t.responses)
            && (o != TimedOut ==> forall r :: r in t'.responses ==> r.id in t'.pending)
            && (o.Got? ==> o.reply in t.responses && o.reply.id == id
                           && forall r :: r in t'.responses && r.id == id ==> o.reply.at < r.at)
  {
    var pending := Live(t.pending, timeout, now);
    var kept := Filter(t.responses, IdIn(pending.Keys));
    FilterMembers(t.responses, IdIn(pending.Keys));
    FilterOrdered(t.responses, IdIn(pending.Keys));
    if id in pending && For(kept, id) != [] {
      GotFacts(kept, id);
    }
  }

  lemma GotFacts(kept: seq<Reply>, id: Json)
    requires Ordered(kept) && For(kept, id) != []
    ensures var res := For(kept, id)[0]; var left := Filter(kept, Unlike(res));
            && res in kept && res.id == id && Ordered(left)
            && (forall r :: r in left ==> r in kept)
            && (forall r :: r in left && r.id == id ==> res.at < r.at)
  {
    var mine := For(kept, id);
    var res := mine[0];
    FilterMembers(kept, WithId(id));
    FilterOrdered(kept, WithId(id));
    FilterMembers(kept, Unlike(res));
    FilterOrdered(kept, Unlike(res));
    assert res in mine;
    forall r | r in Filter(kept, Unlike(res)) && r.id == id ensures res.at < r.at {
      assert r in mine;
      var k :| 0 <= k < |mine| && mine[k] == r;
    }
  }

  /** Exactly which responses a poll leaves: all of them if it fails; otherwise those of pending
      ids, without the one returned and any that equals it. */
  lemma PollLeavesIff(t: Tables, timeout: Option<int>, id: Json, now: int, r: Reply)
    ensures var (t', o) := Poll(t, timeout, id, now);
            r in t'.responses <==>
              && r in t.responses
              && (o != TimedOut ==> r.id in t'.pending)
              && (o.Got? ==> !(r.id == o.reply.id && r.res == o.reply.res && r.err == o.reply.err))
  {
    var pending := Live(t.pending, timeout, now);
    var kept := Filter(t.responses, IdIn(pending.Keys));
    FilterMembers(t.responses, IdIn(pending.Keys));
    if id in pending && For(kept, id) != [] {
      FilterMembers(kept, Unlike(For(kept, id)[0]));
    }
  }

  lemma PollPending(timeout: Option<int>, s: State, id: Json, now: int)
    requires PendingOk(timeout, s) && Ordered(s.tables.responses) && s.clock <= now && id in s.registered
    ensures PendingOk(timeout, Step(timeout, s, Polls(id, now)))
  {
    PollFacts(s.tables, timeout, id, now);
    LiveMembers(s.tables.pending, timeout, now);
  }

  /** Replies may be dropped, and one reply moved to the returned ones if all replies for its
      id that stay are later. */
  lemma ShrinkReplies(s: State, responses: seq<Reply>, got: Option<Reply>)
    requires RepliesOk(s) && Ordered(responses)
    requires forall r :: r in responses ==> r in s.tables.responses
    requires got.Some? ==> got.value in s.tables.responses
    requires got.Some? ==> forall r :: r in responses && r.id == got.value.id ==> got.value.at < r.at
    ensures RepliesOk(s.(tables := s.tables.(responses := responses),
                         returned := if got.Some? then s.returned + [got.value] else s.returned))
  {
    if got.Some? {
      var returned := s.returned + [got.value];
      forall i, j | 0 <= i < j < |returned| && returned[i].id == returned[j].id
        ensures returned[i].at < returned[j].at
      {
        assert returned[i] == s.returned[i] && s.returned[i] in s.returned;
      }
    }
  }

  lemma PollReplies(timeout: Option<int>, s: State, id: Json, now: int)
    requires RepliesOk(s) && s.clock <= now && id in s.registered
    ensures RepliesOk(Step(timeout, s, Polls(id, now)))
  {
    PollFacts(s.tables, timeout, id, now);
    var (t, o) := Poll(s.tables, timeout, id, now);
    var got := if o.Got? then Some(o.reply) else None;
    ShrinkReplies(s, t.responses, got);
    SameReplies(s.(tables := s.tables.(responses := t.responses),
                   returned := if got.Some? then s.returned + [got.value] else s.returned),
                Step(timeout, s, Polls(id, now)));
  }

  lemma SameReplies(s: State, s': State)
    requires RepliesOk(s) && s'.tables.responses == s.tables.responses
    requires s'.delivered == s.delivered && s'.returned == s.returned
    ensures RepliesOk(s')
  {
    assert forall r :: Recorded(s, r) ==> Recorded(s', r);
  }

  lemma OrderedSnoc(rs: seq<Reply>, r: Reply)
    requires Ordered(rs) && forall x :: x in rs ==> x.at < r.at
    ensures Ordered(rs + [r])
  {
    forall i, j | 0 <= i < j < |rs + [r]| ensures (rs + [r])[i].at < (rs + [r])[j].at {
      assert rs[i] in rs;
    }
  }

  lemma DeliverReplies(s: State, r: Reply)
    requires RepliesOk(s) && r.at == |s.delivered|
    ensures RepliesOk(s.(tables := s.tables.(responses := s.tables.responses + [r]), delivered := s.delivered + [r]))
  {
    OrderedSnoc(s.tables.responses, r);
  }

  lemma StepKeeps(timeout: Option<int>, s: State, e: Event)
    requires Inv(timeout, s)
    ensures Inv(timeout, Step(timeout, s, e))
  {
    match e
    case Polls(id, now) =>
      if s.clock <= now && id in s.registered {
        PollPending(timeout, s, id, now);
        PollReplies(timeout, s, id, now);
      }
    case Delivers(id, res, err) =>
      DeliverReplies(s, Reply(id, res, err, |s.delivered|));
    case Registers(_, _) =>
  }

  lemma {:induction false} ExecKeeps(timeout: Option<int>, s: State, run: seq<Event>)
    requires Inv(timeout, s)
    ensures Inv(timeout, ExecFrom(timeout, s, run))
    decreases |run|
  {
    if run != [] {
      ExecKeeps(timeout, s, run[..|run| - 1]);
      StepKeeps(timeout, ExecFrom(timeout, s, run[..|run| - 1]), run[|run| - 1]);
    }
  }

  // ----- main results

  /** In every run a poll fails if and only if more than the timeout has passed since its id
      was registered; otherwise every response that is kept belongs to a pending id. */
  lemma FailsIffPastDeadline(timeout: Option<int>, run: seq<Event>, id: Json, now: int)
    requires id in Exec(timeout, run).registered && Exec(timeout, run).clock <= now
    ensures var s := Exec(timeout, run);
            var (t, o) := Poll(s.tables, timeout, id, now);
            && (o == TimedOut <==> PastDeadline(timeout, s.registered[id], now))
            && (o != TimedOut ==> forall r :: r in t.responses ==> r.id in t.pending)
  {
    ExecKeeps(timeout, INIT, run);
    var s := Exec(timeout, run);
    PollFacts(s.tables, timeout, id, now);
    LiveMembers(s.tables.pending, timeout, now);
  }

  /** In every run each returned reply was delivered, no delivery is returned twice, and
      the replies for one id are returned in the order they were delivered. */
  lemma ReturnedInOrder(timeout: Option<int>, run: seq<Event>)
    ensures var s := Exec(timeout, run);
            && (forall i :: 0 <= i < |s.returned| ==> Recorded(s, s.returned[i]))
            && (forall i, j :: 0 <= i < j < |s.returned| && s.returned[i].id == s.returned[j].id ==>
                  s.returned[i].at < s.returned[j].at)
  {
    ExecKeeps(timeout, INIT, run);
    var s := Exec(timeout, run);
    assert forall i :: 0 <= i < |s.returned| ==> s.returned[i] in s.returned;
  }

  // ----- a response delivered after registration is not lost

  /** Neither `id`'s own waiter nor a deadline seen by another waiter touches `id`. */
  predicate Spares(timeout: Option<int>, e: Event, id: Json, since: int) {
    match e
    case Registers(other, _) => other != id
    case Delivers(_, _, _) => true
    case Polls(other, now) => other != id && !PastDeadline(timeout, since, now)
  }

  /** The replies for `id` that a run delivers, the first of them numbered `at`. */
  function Deliveries(run: seq<Event>, id: Json, at: nat): seq<Reply> {
    if run == [] then []
    else
      var e, before := run[|run| - 1], run[..|run| - 1];
      if e.Delivers? && e.id == id
      then Deliveries(before, id, at) + [Reply(id, e.res, e.err, at + Count(before))]
      else Deliveries(before, id, at)
  }

  function Count(run: seq<Event>): nat {
    if run == [] then 0 else Count(run[..|run| - 1]) + if run[|run| - 1].Delivers? then 1 else 0
  }

  /** Another waiter's poll leaves the replies for a pending id that it does not see expire. */
  lemma PollSpares(t: Tables, timeout: Option<int>, other: Json, now: int, id: Json)
    requires other != id && id in t.pending && !PastDeadline(timeout, t.pending[id], now)
    ensures var t' := Poll(t, timeout, other, now).0;
            && id in t'.pending && t'.pending[id] == t.pending[id]
            && For(t'.responses, id) == For(t.responses, id)
  {
    var pending := Live(t.pending, timeout, now);
    LiveMembers(t.pending, timeout, now);
    if other in pending {
      var kept := Filter(t.responses, IdIn(pending.Keys));
      ForKept(t.responses, IdIn(pending.Keys), id);
      if For(kept, other) != [] {
        var res := For(kept, other)[0];
        FilterMembers(kept, WithId(other));
        assert res in For(kept, other);
        ForKept(kept, Unlike(res), id);
      }
    }
  }

  lemma StepSpares(timeout: Option<int>, s: State, e: Event, id: Json)
    requires id in s.tables.pending && Spares(timeout, e, id, s.tables.pending[id])
    ensures var s' := Step(timeout, s, e);
            && id in s'.tables.pending && s'.tables.pending[id] == s.tables.pending[id]
            && For(s'.tables.responses, id) == For(s.tables.responses, id)
               + (if e.Delivers? && e.id == id then [Reply(id, e.res, e.err, |s.delivered|)] else [])
            && |s'.delivered| == |s.delivered| + if e.Delivers? then 1 else 0
  {
    match e
    case Registers(_, _) =>
    case Delivers(i, res, err) =>
      FilterSnoc(s.tables.responses, Reply(i, res, err, |s.delivered|), WithId(id));
    case Polls(other, now) =>
      PollSpares(s.tables, timeout, other, now, id);
  }

  /** From any state in which `id` is pending, the replies held for it are exactly those held
      at first and those delivered since, however often other waiters poll. */
  lemma {:induction false} Retained(timeout: Option<int>, s: State, run: seq<Event>, id: Json)
    requires id in s.tables.pending
    requires forall i :: 0 <= i < |run| ==> Spares(timeout, run[i], id, s.tables.pending[id])
    ensures var s' := ExecFrom(timeout, s, run);
            && id in s'.tables.pending && s'.tables.pending[id] == s.tables.pending[id]
            && For(s'.tables.responses, id) == For(s.tables.responses, id) + Deliveries(run, id, |s.delivered|)
            && |s'.delivered| == |s.delivered| + Count(run)
    decreases |run|
  {
    if run != [] {
      var before, e := run[..|run| - 1], run[|run| - 1];
      Retained(timeout, s, before, id);
      StepSpares(timeout, ExecFrom(timeout, s, before), e, id);
    }
  }

  /** The waiter's own next timely poll then returns the first of them. */
  lemma WaiterGetsFirst(timeout: Option<int>, s: State, run: seq<Event>, id: Json, now: int)
    requires id in s.tables.pending && !PastDeadline(timeout, s.tables.pending[id], now)
    requires forall i :: 0 <= i < |run| ==> Spares(timeout, run[i], id, s.tables.pending[id])
    ensures var held := For(s.tables.responses, id) + Deliveries(run, id, |s.delivered|);
            var o := Poll(ExecFrom(timeout, s, run).tables, timeout, id, now).1;
            o == if held == [] then Waiting else Got(held[0])
  {
    Retained(timeout, s, run, id);
    var t := ExecFrom(timeout, s, run).tables;
    LiveMembers(t.pending, timeout, now);
    ForKept(t.responses, IdIn(Live(t.pending, timeout, now).Keys), id);
  }

  // ----- exactly when another waiter's poll loses responses

  lemma {:induction false} FilterNone(rs: seq<Reply>, p: Test)
    requires forall r :: r in rs ==> !Passes(p, r)
    ensures Filter(rs, p) == []
  {
    if rs != [] {
      assert rs[0] in rs;
      FilterNone(rs[1..], p);
    }
  }

  /** `other`'s poll goes on to prune, and finds that `id` is not pending: it was never
      registered, or its deadline has passed. */
  predicate Prunes(t: Tables, timeout: Option<int>, other: Json, now: int, id: Json) {
    other in Live(t.pending, timeout, now) && id !in Live(t.pending, timeout, now)
  }

  /** Another waiter's poll drops all responses held for an id, or keeps them all. */
  lemma PollDropsOrKeeps(t: Tables, timeout: Option<int>, other: Json, now: int, id: Json)
    requires other != id
    ensures For(Poll(t, timeout, other, now).0.responses, id)
         == if Prunes(t, timeout, other, now, id) then [] else For(t.responses, id)
  {
    var pending := Live(t.pending, timeout, now);
    LiveMembers(t.pending, timeout, now);
    if Prunes(t, timeout, other, now, id) {
      var kept := Filter(t.responses, IdIn(pending.Keys));
      FilterMembers(t.responses, IdIn(pending.Keys));
      FilterNone(kept, WithId(id));
      if For(kept, other) != [] {
        var res := For(kept, other)[0];
        FilterMembers(kept, Unlike(res));
        FilterNone(Filter(kept, Unlike(res)), WithId(id));
      }
    } else if other in pending {
      PollSpares(t, timeout, other, now, id);
    }
  }

  /** Responses that are held survive another waiter's poll if and only if that poll fails or
      their id is pending and within its deadline. */
  lemma SurviveIff(t: Tables, timeout: Option<int>, other: Json, now: int, id: Json)
    requires other != id && For(t.responses, id) != []
    ensures For(Poll(t, timeout, other, now).0.responses, id) == For(t.responses, id)
       <==> (other in t.pending && !PastDeadline(timeout, t.pending[other], now) ==>
               id in t.pending && !PastDeadline(timeout, t.pending[id], now))
  {
    PollDropsOrKeeps(t, timeout, other, now, id);
    LiveMembers(t.pending, timeout, now);
  }
}
