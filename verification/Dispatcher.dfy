/** Method lookup: lib/rjr/dispatcher.rb. */
module Dispatcher {
  import opened Basics

  /** A method name, or a regular expression known by its number. */
  datatype Signature = Exact(name: string) | Pattern(regexp: nat)

  /** What `handle` accepts: a signature or an array, which may hold arrays again. */
  datatype Signatures = One(sig: Signature) | Many(all: seq<Signatures>)

  datatype Entry<H> = Entry(sig: Signature, handler: H)

  /** Which method names each regular expression matches. */
  type Matcher = (nat, string) -> bool

  predicate IsName(sig: Signature, name: string) { sig == Exact(name) }

  predicate IsMatch(sig: Signature, name: string, matcher: Matcher) {
    sig.Pattern? && matcher(sig.regexp, name)
  }

  // ----- the table: a Ruby hash, which keeps the position of a key it already has

  function Put<H>(table: seq<Entry<H>>, e: Entry<H>): seq<Entry<H>> {
    if table == [] then [e]
    else if table[0].sig == e.sig then [e] + table[1..]
    else [table[0]] + Put(table[1..], e)
  }

  /** `@handlers.find` */
  function Find<H>(table: seq<Entry<H>>, p: Signature -> bool): Option<Entry<H>> {
    if table == [] then None
    else if p(table[0].sig) then Some(table[0])
    else Find(table[1..], p)
  }

  function TableOf<H>(log: seq<Entry<H>>): seq<Entry<H>> {
    if log == [] then [] else Put(TableOf(log[..|log| - 1]), log[|log| - 1])
  }

  // ----- the registration log

  /** The assignments one call of `handle` makes: the callback and then the block, for
      every signature in turn. */
  function Assignments<H>(sigs: Signatures, callback: Option<H>, block: Option<H>): seq<Entry<H>>
    decreases sigs, 1
  {
    match sigs
    case One(sig) =>
      (if callback.Some? then [Entry(sig, callback.value)] else [])
      + (if block.Some? then [Entry(sig, block.value)] else [])
    case Many(all) => AssignmentsAll(all, callback, block)
  }

  function AssignmentsAll<H>(all: seq<Signatures>, callback: Option<H>, block: Option<H>): seq<Entry<H>>
    decreases all, 0
  {
    if all == [] then []
    else Assignments(all[0], callback, block) + AssignmentsAll(all[1..], callback, block)
  }

  lemma {:induction false} AssignmentsSnoc<H>(
      all: seq<Signatures>, sigs: Signatures, callback: Option<H>, block: Option<H>)
    ensures AssignmentsAll(all + [sigs], callback, block)
         == AssignmentsAll(all, callback, block) + Assignments(sigs, callback, block)
  {
    if all == [] {
      assert (all + [sigs])[1..] == [];
    } else {
      assert (all + [sigs])[1..] == all[1..] + [sigs];
      AssignmentsSnoc(all[1..], sigs, callback, block);
    }
  }

  lemma AssignmentsTake<H>(
      log: seq<Entry<H>>, all: seq<Signatures>, i: nat, callback: Option<H>, block: Option<H>)
    requires i < |all|
    ensures log + AssignmentsAll(all[..i + 1], callback, block)
         == log + AssignmentsAll(all[..i], callback, block) + Assignments(all[i], callback, block)
  {
    assert all[..i + 1] == all[..i] + [all[i]];
    AssignmentsSnoc(all[..i], all[i], callback, block);
  }

  /** The handler given last for a signature. */
  function LastFor<H>(log: seq<Entry<H>>, sig: Signature): Option<H> {
    if log == [] then None
    else if log[|log| - 1].sig == sig then Some(log[|log| - 1].handler)
    else LastFor(log[..|log| - 1], sig)
  }

  /** The signature registered first among those that satisfy `p`. */
  function Earliest<H>(log: seq<Entry<H>>, p: Signature -> bool): Option<Signature> {
    if log == [] then None
    else if p(log[0].sig) then Some(log[0].sig)
    else Earliest(log[1..], p)
  }

  /** The last handler given for the exact name or, failing that, the last handler given for
      the pattern registered first among those that match. */
  function Lookup<H>(log: seq<Entry<H>>, name: string, matcher: Matcher): Option<H> {
    if LastFor(log, Exact(name)).Some? then LastFor(log, Exact(name))
    else
      match Earliest(log, sig => IsMatch(sig, name, matcher))
      case None => None
      case Some(sig) => LastFor(log, sig)
  }

  // ----- the table answers as the log says

  function Overwrite<H>(found: Option<Entry<H>>, e: Entry<H>, p: Signature -> bool): Option<Entry<H>> {
    match found
    case Some(f) => Some(if f.sig == e.sig then e else f)
    case None => if p(e.sig) then Some(e) else None
  }

  lemma {:induction false} FindAfterPut<H>(table: seq<Entry<H>>, e: Entry<H>, p: Signature -> bool)
    ensures Find(Put(table, e), p) == Overwrite(Find(table, p), e, p)
  {
    if table == [] {
      assert Find([e], p) == if p(e.sig) then Some(e) else Find([e][1..], p);
    } else if table[0].sig == e.sig {
      assert Put(table, e)[1..] == table[1..];
      if !p(e.sig) { FindsOnly(table[1..], p); }
    } else {
      FindAfterPut(table[1..], e, p);
      assert Put(table, e)[1..] == Put(table[1..], e);
    }
  }

  lemma {:induction false} FindsOnly<H>(table: seq<Entry<H>>, p: Signature -> bool)
    ensures Find(table, p).Some? ==> p(Find(table, p).value.sig)
  {
    if table != [] && !p(table[0].sig) { FindsOnly(table[1..], p); }
  }

  lemma {:induction false} EarliestSnoc<H>(log: seq<Entry<H>>, e: Entry<H>, p: Signature -> bool)
    ensures Earliest(log + [e], p)
         == if Earliest(log, p).Some? then Earliest(log, p) else if p(e.sig) then Some(e.sig) else None
  {
    if log == [] {
      assert log + [e] == [e];
      assert Earliest([e], p) == if p(e.sig) then Some(e.sig) else Earliest([e][1..], p);
    } else {
      assert (log + [e])[1..] == log[1..] + [e];
      EarliestSnoc(log[1..], e, p);
    }
  }

  /** Searching the table finds the earliest matching signature with its latest handler. */
  lemma {:induction false} TableAgrees<H>(log: seq<Entry<H>>, p: Signature -> bool)
    ensures match Earliest(log, p)
            case None => Find(TableOf(log), p) == None
            case Some(sig) => p(sig) && LastFor(log, sig).Some?
                              && Find(TableOf(log), p) == Some(Entry(sig, LastFor(log, sig).value))
    decreases |log|
  {
    if log != [] {
      var init, e := log[..|log| - 1], log[|log| - 1];
      assert log == init + [e];
      TableAgrees(init, p);
      EarliestSnoc(init, e, p);
      FindAfterPut(TableOf(init), e, p);
    }
  }

  lemma {:induction false} EarliestName<H>(log: seq<Entry<H>>, name: string)
    ensures Earliest(log, sig => IsName(sig, name))
         == if LastFor(log, Exact(name)).Some? then Some(Exact(name)) else None
    decreases |log|
  {
    if log != [] {
      var init, e := log[..|log| - 1], log[|log| - 1];
      assert log == init + [e];
      EarliestName(init, name);
      EarliestSnoc(init, e, sig => IsName(sig, name));
    }
  }

  // ----- what a lookup finds, and what a registration changes

  predicate Applies(sig: Signature, name: string, matcher: Matcher) {
    sig == Exact(name) || IsMatch(sig, name, matcher)
  }

  /** Position `k` of the log holds the last handler given for the signature `sig`. */
  predicate IsLast<H>(log: seq<Entry<H>>, sig: Signature, k: int) {
    0 <= k < |log| && log[k].sig == sig && forall i :: k < i < |log| ==> log[i].sig != sig
  }

  /** `sig` is the exact name if that was ever registered, and otherwise the pattern registered
      first among those that match. */
  predicate IsChosen<H>(log: seq<Entry<H>>, name: string, matcher: Matcher, sig: Signature) {
    if exists i :: 0 <= i < |log| && log[i].sig == Exact(name) then sig == Exact(name)
    else exists i :: 0 <= i < |log| && log[i].sig == sig && IsFirst(log, name, matcher, i)
  }

  predicate IsFirst<H>(log: seq<Entry<H>>, name: string, matcher: Matcher, i: int) {
    && 0 <= i < |log| && IsMatch(log[i].sig, name, matcher)
    && forall j :: 0 <= j < i ==> !IsMatch(log[j].sig, name, matcher)
  }

  lemma {:induction false} LastForAt<H>(log: seq<Entry<H>>, sig: Signature)
    ensures LastFor(log, sig).None? ==> forall i :: 0 <= i < |log| ==> log[i].sig != sig
    ensures LastFor(log, sig).Some? ==> exists k :: IsLast(log, sig, k) && log[k].handler == LastFor(log, sig).value
  {
    if log != [] {
      var n := |log| - 1;
      LastForAt(log[..n], sig);
      if log[n].sig == sig {
        assert IsLast(log, sig, n);
      } else if LastFor(log, sig).Some? {
        var k :| IsLast(log[..n], sig, k) && log[..n][k].handler == LastFor(log, sig).value;
        assert IsLast(log, sig, k);
      }
    }
  }

  lemma FirstShifts<H>(log: seq<Entry<H>>, name: string, matcher: Matcher, i: int)
    requires log != [] && !IsMatch(log[0].sig, name, matcher) && IsFirst(log[1..], name, matcher, i)
    ensures IsFirst(log, name, matcher, i + 1) && log[i + 1] == log[1..][i]
  {
    forall j | 0 <= j < i + 1 ensures !IsMatch(log[j].sig, name, matcher) {
      assert j > 0 ==> log[j] == log[1..][j - 1];
    }
  }

  lemma {:induction false} EarliestMatchAt<H>(log: seq<Entry<H>>, name: string, matcher: Matcher)
    ensures var found := Earliest(log, sig => IsMatch(sig, name, matcher));
            && (found.None? ==> forall i :: 0 <= i < |log| ==> !IsMatch(log[i].sig, name, matcher))
            && (found.Some? ==> exists i :: IsFirst(log, name, matcher, i) && log[i].sig == found.value)
  {
    if log != [] {
      if IsMatch(log[0].sig, name, matcher) {
        assert IsFirst(log, name, matcher, 0);
      } else {
        EarliestMatchAt(log[1..], name, matcher);
        if Earliest(log[1..], sig => IsMatch(sig, name, matcher)).Some? {
          var i :| IsFirst(log[1..], name, matcher, i)
                   && log[1..][i].sig == Earliest(log[1..], sig => IsMatch(sig, name, matcher)).value;
          FirstShifts(log, name, matcher, i);
        }
      }
    }
  }

  /** A lookup fails if and only if no registered signature applies to the name. Otherwise it
      finds the last handler given for the chosen signature. */
  lemma LookupMeans<H>(log: seq<Entry<H>>, name: string, matcher: Matcher)
    ensures Lookup(log, name, matcher).None?
       <==> forall i :: 0 <= i < |log| ==> !Applies(log[i].sig, name, matcher)
    ensures Lookup(log, name, matcher).Some? ==>
              exists sig, k :: IsChosen(log, name, matcher, sig) && IsLast(log, sig, k)
                               && log[k].handler == Lookup(log, name, matcher).value
  {
    LastForAt(log, Exact(name));
    EarliestMatchAt(log, name, matcher);
    if LastFor(log, Exact(name)).Some? {
      var k :| IsLast(log, Exact(name), k) && log[k].handler == LastFor(log, Exact(name)).value;
      assert IsChosen(log, name, matcher, Exact(name)) && Applies(log[k].sig, name, matcher);
    } else if Earliest(log, sig => IsMatch(sig, name, matcher)).Some? {
      MatchMeans(log, name, matcher);
    }
  }

  lemma MatchMeans<H>(log: seq<Entry<H>>, name: string, matcher: Matcher)
    requires forall i :: 0 <= i < |log| ==> log[i].sig != Exact(name)
    requires Earliest(log, sig => IsMatch(sig, name, matcher)).Some?
    ensures var sig := Earliest(log, sig => IsMatch(sig, name, matcher)).value;
            && LastFor(log, sig).Some? && IsChosen(log, name, matcher, sig)
            && (exists k :: IsLast(log, sig, k) && log[k].handler == LastFor(log, sig).value)
            && exists i :: 0 <= i < |log| && Applies(log[i].sig, name, matcher)
  {
    EarliestMatchAt(log, name, matcher);
    var sig := Earliest(log, sig => IsMatch(sig, name, matcher)).value;
    var i :| IsFirst(log, name, matcher, i) && log[i].sig == sig;
    LastForAt(log, sig);
    assert Applies(log[i].sig, name, matcher);
  }

  /** The signatures that one call of `handle` names, arrays opened up, in order. */
  function Named(sigs: Signatures): seq<Signature>
    decreases sigs, 1
  {
    match sigs
    case One(sig) => [sig]
    case Many(all) => NamedAll(all)
  }

  function NamedAll(all: seq<Signatures>): seq<Signature>
    decreases all, 0
  {
    if all == [] then [] else Named(all[0]) + NamedAll(all[1..])
  }

  /** One assignment for each signature, in order. */
  function Each<H>(sigs: seq<Signature>, handler: H): seq<Entry<H>> {
    seq(|sigs|, i requires 0 <= i < |sigs| => Entry(sigs[i], handler))
  }

  lemma {:induction false} LastForAppend<H>(a: seq<Entry<H>>, b: seq<Entry<H>>, sig: Signature)
    ensures LastFor(a + b, sig) == if LastFor(b, sig).Some? then LastFor(b, sig) else LastFor(a, sig)
    decreases |b|
  {
    if b == [] {
      assert a + b == a;
    } else {
      assert (a + b)[..|a + b| - 1] == a + b[..|b| - 1];
      LastForAppend(a, b[..|b| - 1], sig);
    }
  }

  /** The handler that a call of `handle` gives: the block if there is one, else the callback. */
  function Given<H>(callback: Option<H>, block: Option<H>): Option<H> { if block.Some? then block else callback }

  lemma {:induction false} AssignsGiven<H>(sigs: Signatures, callback: Option<H>, block: Option<H>, sig: Signature)
    ensures LastFor(Assignments(sigs, callback, block), sig)
         == if sig in Named(sigs) then Given(callback, block) else None
    decreases sigs, 1
  {
    match sigs
    case One(s) => OneGiven(s, callback, block, sig);
    case Many(all) => AllGiven(all, callback, block, sig);
  }

  lemma OneGiven<H>(s: Signature, callback: Option<H>, block: Option<H>, sig: Signature)
    ensures LastFor(Assignments(One(s), callback, block), sig) == if sig == s then Given(callback, block) else None
  {
    var first: seq<Entry<H>> := if callback.Some? then [Entry(s, callback.value)] else [];
    var second: seq<Entry<H>> := if block.Some? then [Entry(s, block.value)] else [];
    LastForAppend(first, second, sig);
  }

  lemma {:induction false} AllGiven<H>(all: seq<Signatures>, callback: Option<H>, block: Option<H>, sig: Signature)
    ensures LastFor(AssignmentsAll(all, callback, block), sig)
         == if sig in NamedAll(all) then Given(callback, block) else None
    decreases all, 0
  {
    if all != [] {
      AssignsGiven(all[0], callback, block, sig);
      AllGiven(all[1..], callback, block, sig);
      LastForAppend(Assignments(all[0], callback, block), AssignmentsAll(all[1..], callback, block), sig);
    }
  }

  /** After a registration the last handler of every signature it names is the block or, without
      one, the callback; with neither, and for every other signature, nothing changes. */
  lemma RegistersGiven<H>(log: seq<Entry<H>>, sigs: Signatures, callback: Option<H>, block: Option<H>, sig: Signature)
    ensures LastFor(log + Assignments(sigs, callback, block), sig)
         == if sig in Named(sigs) && Given(callback, block).Some? then Given(callback, block) else LastFor(log, sig)
  {
    AssignsGiven(sigs, callback, block, sig);
    LastForAppend(log, Assignments(sigs, callback, block), sig);
  }

  /** The signatures are registered in the order in which they are named. */
  lemma {:induction false} RegistersInOrder<H>(sigs: Signatures, handler: H)
    ensures Assignments(sigs, Some(handler), None) == Each(Named(sigs), handler)
    ensures Assignments(sigs, None, Some(handler)) == Each(Named(sigs), handler)
    decreases sigs, 1
  {
    if sigs.Many? { AllInOrder(sigs.all, handler); }
  }

  lemma {:induction false} AllInOrder<H>(all: seq<Signatures>, handler: H)
    ensures AssignmentsAll(all, Some(handler), None) == Each(NamedAll(all), handler)
    ensures AssignmentsAll(all, None, Some(handler)) == Each(NamedAll(all), handler)
    decreases all, 0
  {
    if all != [] {
      RegistersInOrder(all[0], handler);
      AllInOrder(all[1..], handler);
      assert Each(NamedAll(all), handler) == Each(Named(all[0]), handler) + Each(NamedAll(all[1..]), handler);
    }
  }

  class Dispatcher<H> {
    var handlers: seq<Entry<H>>
    ghost var log: seq<Entry<H>>

    ghost predicate Valid() reads this { handlers == TableOf(log) }

    constructor ()
      ensures Valid() && log == []
    {
      handlers, log := [], [];
    }

    method Assign(e: Entry<H>)
      requires Valid()
      modifies this
      ensures Valid() && log == old(log) + [e]
    {
      assert (log + [e])[..|log|] == log;
      handlers := Put(handlers, e);
      log := log + [e];
    }

    method Handle(sigs: Signatures, callback: Option<H>, block: Option<H>)
      requires Valid()
      modifies this
      ensures Valid() && log == old(log) + Assignments(sigs, callback, block)
      decreases sigs, 1
    {
      match sigs
      case Many(all) => HandleAll(all, callback, block);
      case One(sig) => HandleOne(sig, callback, block);
    }

    method HandleAll(all: seq<Signatures>, callback: Option<H>, block: Option<H>)
      requires Valid()
      modifies this
      ensures Valid() && log == old(log) + AssignmentsAll(all, callback, block)
      decreases all, 0
    {
      assert log == old(log) + AssignmentsAll(all[..0], callback, block);
      for i := 0 to |all|
        invariant Valid() && log == old(log) + AssignmentsAll(all[..i], callback, block)
      {
        Handle(all[i], callback, block);
        AssignmentsTake(old(log), all, i, callback, block);
      }
      assert all[..|all|] == all;
    }

    method HandleOne(sig: Signature, callback: Option<H>, block: Option<H>)
      requires Valid()
      modifies this
      ensures Valid() && log == old(log) + Assignments(One(sig), callback, block)
    {
      if callback.Some? { Assign(Entry(sig, callback.value)); }
      if block.Some? { Assign(Entry(sig, block.value)); }
    }

    method HandlerFor(name: string, matcher: Matcher) returns (handler: Option<H>)
      requires Valid()
      ensures handler == Lookup(log, name, matcher)
    {
      var found := Find(handlers, sig => IsName(sig, name));
      if found.None? {
        found := Find(handlers, sig => IsMatch(sig, name, matcher));
      }
      TableAgrees(log, sig => IsName(sig, name));
      EarliestName(log, name);
      TableAgrees(log, sig => IsMatch(sig, name, matcher));
      handler := if found.None? then None else Some(found.value.handler);
    }
  }
}
