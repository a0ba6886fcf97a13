/** Matching responses to waiting calls: `Node#handle_response` and
    `Node#wait_for_result` of lib/rjr/node.rb. */
module Correlation {
  import opened Basics

  /** An entry of `@responses`, `[id, res]` or `[id, res, err]`. `at` numbers the entries
      in the order they arrived; it is not part of the array, so comparisons ignore it. */
  datatype Reply = Reply(id: Json, res: Json, err: Option<string>, at: nat)

  predicate Same(a: Reply, b: Reply) { a.id == b.id && a.res == b.res && a.err == b.err }

  datatype Tables = Tables(pending: map<Json, int>, responses: seq<Reply>)

  datatype Outcome = TimedOut | Waiting | Got(reply: Reply)

  /** The blocks given to `find`, `keep_if` and `delete`. */
  datatype Test = WithId(id: Json) | IdIn(ids: set<Json>) | Unlike(other: Reply) | Both(p: Test, q: Test)

  predicate Passes(t: Test, r: Reply) {
    match t
    case WithId(id) => r.id == id
    case IdIn(ids) => r.id in ids
    case Unlike(other) => !Same(r, other)
    case Both(p, q) => Passes(p, r) && Passes(q, r)
  }

  function Single(r: Reply, p: Test): seq<Reply> { if Passes(p, r) then [r] else [] }

  function Filter(rs: seq<Reply>, p: Test): seq<Reply> {
    if rs == [] then [] else Single(rs[0], p) + Filter(rs[1..], p)
  }

  /** The replies for one id, oldest first. */
  function For(rs: seq<Reply>, id: Json): seq<Reply> { Filter(rs, WithId(id)) }

  /** `@pending.delete_if`, when a timeout is set. */
  function Live(pending: map<Json, int>, timeout: Option<int>, now: int): map<Json, int> {
    match timeout
    case None => pending
    case Some(limit) => map id | id in pending && now - pending[id] <= limit :: pending[id]
  }

  /** One turn of the loop in `wait_for_result`, under `@response_lock`. */
  function Poll(t: Tables, timeout: Option<int>, id: Json, now: int): (Tables, Outcome) {
    var pending := Live(t.pending, timeout, now);
    if id !in pending then (Tables(pending, t.responses), TimedOut)
    else
      var kept := Filter(t.responses, IdIn(pending.Keys));
      if For(kept, id) == [] then (Tables(pending, kept), Waiting)
      else
        var res := For(kept, id)[0];
        (Tables(pending, Filter(kept, Unlike(res))), Got(res))
  }

  class Node {
    var pending: map<Json, int>
    var responses: seq<Reply>
    const timeout: Option<int>
    ghost var arrived: nat

    ghost function State(): Tables reads this { Tables(pending, responses) }

    constructor (timeout: Option<int>)
      ensures State() == Tables(map[], []) && this.timeout == timeout && arrived == 0
    {
      pending, responses, this.timeout, arrived := map[], [], timeout, 0;
    }

    /** The locked block of `handle_response`. */
    method HandleResponse(reply: Reply)
      requires reply.at == arrived
      modifies this
      ensures State() == Tables(old(pending), old(responses) + [reply]) && arrived == old(arrived) + 1
    {
      responses := responses + [reply];
      arrived := arrived + 1;
    }

    /** What `wait_for_result` does before its loop, outside the lock. */
    method Register(id: Json, now: int)
      modifies this
      ensures State() == Tables(old(pending)[id := now], old(responses)) && arrived == old(arrived)
    {
      pending := pending[id := now];
    }

    /** The locked block of `wait_for_result`. */
    method PollOnce(id: Json, now: int) returns (outcome: Outcome)
      modifies this
      ensures (State(), outcome) == Poll(old(State()), timeout, id, now) && arrived == old(arrived)
    {
      if timeout.Some? {
        pending := map i | i in pending && now - pending[i] <= timeout.value :: pending[i];
      }
      if id !in pending { return TimedOut; }
      responses := Filter(responses, IdIn(pending.Keys));
      var found := For(responses, id);
      if found != [] {
        var res := found[0];
        responses := Filter(responses, Unlike(res));
        return Got(res);
      }
      return Waiting;
    }
  }

  // ----- facts about filtering

  lemma {:induction false} FilterMembers(rs: seq<Reply>, p: Test)
    ensures forall r :: r in Filter(rs, p) <==> r in rs && Passes(p, r)
  {
    if rs != [] {
      FilterMembers(rs[1..], p);
      assert rs == [rs[0]] + rs[1..];
    }
  }

  lemma {:induction false} FilterAgree(rs: seq<Reply>, p: Test, q: Test)
    requires forall r :: r in rs ==> Passes(p, r) == Passes(q, r)
    ensures Filter(rs, p) == Filter(rs, q)
  {
    if rs != [] {
      assert rs[0] in rs;
      FilterAgree(rs[1..], p, q);
    }
  }

  lemma {:induction false} FilterTwice(rs: seq<Reply>, p: Test, q: Test)
    ensures Filter(Filter(rs, p), q) == Filter(rs, Both(p, q))
  {
    if rs != [] {
      FilterTwice(rs[1..], p, q);
      var rest := Filter(rs[1..], p);
      assert Passes(p, rs[0]) ==> ([rs[0]] + rest)[1..] == rest;
      assert [] + rest == rest;
    }
  }

  lemma {:induction false} FilterAll(rs: seq<Reply>, p: Test)
    requires forall r :: r in rs ==> Passes(p, r)
    ensures Filter(rs, p) == rs
  {
    if rs != [] {
      assert rs[0] in rs;
      FilterAll(rs[1..], p);
    }
  }

  lemma {:induction false} FilterSnoc(rs: seq<Reply>, x: Reply, p: Test)
    ensures Filter(rs + [x], p) == Filter(rs, p) + Single(x, p)
  {
    if rs == [] {
      assert rs + [x] == [x] && [x][1..] == [];
    } else {
      calc {
        Filter(rs + [x], p);
      ==  { assert (rs + [x])[0] == rs[0] && (rs + [x])[1..] == rs[1..] + [x]; }
        Single(rs[0], p) + Filter(rs[1..] + [x], p);
      ==  { FilterSnoc(rs[1..], x, p); }
        Single(rs[0], p) + (Filter(rs[1..], p) + Single(x, p));
      ==
        Single(rs[0], p) + Filter(rs[1..], p) + Single(x, p);
      }
    }
  }

  predicate Ordered(rs: seq<Reply>) { forall i, j :: 0 <= i < j < |rs| ==> rs[i].at < rs[j].at }

  lemma {:induction false} FilterOrdered(rs: seq<Reply>, p: Test)
    requires Ordered(rs)
    ensures Ordered(Filter(rs, p))
  {
    if rs != [] {
      FilterOrdered(rs[1..], p);
      FilterMembers(rs[1..], p);
      var rest := Filter(rs[1..], p);
      forall j | 0 <= j < |rest| ensures rs[0].at < rest[j].at {
        assert rest[j] in rs[1..];
      }
    }
  }

  /** Filtering by a test that every reply for `id` passes leaves those replies alone. */
  lemma ForKept(rs: seq<Reply>, p: Test, id: Json)
    requires forall r :: r in rs && r.id == id ==> Passes(p, r)
    ensures For(Filter(rs, p), id) == For(rs, id)
  {
    FilterTwice(rs, p, WithId(id));
    FilterAgree(rs, Both(p, WithId(id)), WithId(id));
  }
}
