/** Walking an argument list by a table of keywords and the number of values that follow
    each: `validate!` (hash form) and `extract` of lib/rjr/util/args.rb. */
module Arguments {
  import opened Basics

  /** The table with its keys already turned into strings. An argument is looked up as it is:
      only a string can be a key. */
  type Keys = map<string, nat>

  predicate IsKey(keys: Keys, v: Json) { v.Str? && v.s in keys }

  function Left(args: seq<Json>, i: nat): nat { if i < |args| then |args| - i else 0 }

  /** The walk of `validate!` from index `i`. */
  predicate AcceptsFrom(args: seq<Json>, keys: Keys, i: nat)
    decreases Left(args, i)
  {
    i < |args| ==> IsKey(keys, args[i]) && AcceptsFrom(args, keys, i + keys[args[i].s] + 1)
  }

  /** `self[i]`: nil past the end. */
  function At(args: seq<Json>, i: nat): Json { if i < |args| then args[i] else Null }

  /** The value at `i` and the `n` values after it, padded with nil. */
  function Group(args: seq<Json>, i: nat, n: nat): (g: seq<Json>)
    ensures |g| == n + 1 && forall k :: 0 <= k <= n ==> g[k] == At(args, i + k)
  {
    seq(n + 1, k requires 0 <= k <= n => At(args, i + k))
  }

  /** The groups that `extract` builds from index `i`. */
  function ExtractFrom(args: seq<Json>, keys: Keys, i: nat): seq<seq<Json>>
    decreases Left(args, i)
  {
    if i >= |args| then []
    else if !IsKey(keys, args[i]) then ExtractFrom(args, keys, i + 1)
    else
      var n := keys[args[i].s];
      [Group(args, i, n)] + ExtractFrom(args, keys, i + n + 1)
  }

  /** Hash-form `validate!`; it raises exactly when it does not pass. */
  method Validate(args: seq<Json>, keys: Keys) returns (passes: bool)
    ensures passes <==> args <= Concat(ExtractFrom(args, keys, 0))
  {
    passes := Walk(args, keys);
    AcceptsIffPrefix(args, keys, 0);
    assert args[0..] == args;
  }

  method Walk(args: seq<Json>, keys: Keys) returns (passes: bool)
    ensures passes == AcceptsFrom(args, keys, 0)
  {
    var i := 0;
    while i < |args|
      invariant AcceptsFrom(args, keys, 0) == AcceptsFrom(args, keys, i)
    {
      var val := args[i];
      if !IsKey(keys, val) { return false; }
      var skip := keys[val.s];
      i := i + (skip + 1);
    }
    return true;
  }

  method Extract(args: seq<Json>, keys: Keys) returns (groups: seq<seq<Json>>)
    ensures groups == ExtractFrom(args, keys, 0)
  {
    groups := [];
    var i := 0;
    while i < |args|
      invariant ExtractFrom(args, keys, 0) == groups + ExtractFrom(args, keys, i)
    {
      var val := args[i];
      i := i + 1;
      if IsKey(keys, val) {
        var num := keys[val.s];
        var group;
        group, i := TakeGroup(args, i, num);
        groups := groups + [group];
      }
    }
  }

  /** The inner loop of `extract`: the value before `i` and the `num` values from `i` on. */
  method TakeGroup(args: seq<Json>, i: nat, num: nat) returns (group: seq<Json>, i': nat)
    requires 0 < i <= |args|
    ensures group == Group(args, i - 1, num) && i' == i + num
  {
    group, i' := [args[i - 1]], i;
    for j := 0 to num
      invariant i' == i + j && |group| == j + 1
      invariant forall k :: 0 <= k <= j ==> group[k] == At(args, i - 1 + k)
    {
      group := group + [At(args, i')];
      i' := i' + 1;
    }
    assert group == Group(args, i - 1, num);
  }

  // ----- the two walks agree

  lemma {:induction false} FirstIsKey(args: seq<Json>, keys: Keys, i: nat)
    ensures Concat(ExtractFrom(args, keys, i)) != [] ==> IsKey(keys, Concat(ExtractFrom(args, keys, i))[0])
    decreases Left(args, i)
  {
    if i < |args| {
      if IsKey(keys, args[i]) {
        assert Group(args, i, keys[args[i].s])[0] == args[i];
      } else {
        FirstIsKey(args, keys, i + 1);
      }
    }
  }

  lemma PrefixOfGroup(args: seq<Json>, i: nat, n: nat, c: seq<Json>)
    requires i < |args|
    ensures args[i..] <= Group(args, i, n) + c <==> i + n + 1 >= |args| || args[i + n + 1..] <= c
  {
    var g := Group(args, i, n);
    if i + n + 1 <= |args| {
      assert args[i..] == g + args[i + n + 1..];
    } else {
      assert args[i..] == g[..|args| - i];
    }
  }

  /** The arguments are accepted exactly if they are a prefix of the extracted groups, one
      after the other; the groups may only be longer by the padding. */
  lemma {:induction false} AcceptsIffPrefix(args: seq<Json>, keys: Keys, i: nat)
    requires i <= |args|
    ensures AcceptsFrom(args, keys, i) <==> args[i..] <= Concat(ExtractFrom(args, keys, i))
    decreases Left(args, i)
  {
    if i < |args| {
      assert args[i..][0] == args[i];
      if !IsKey(keys, args[i]) {
        FirstIsKey(args, keys, i + 1);
      } else {
        var n := keys[args[i].s];
        var g, c := Group(args, i, n), Concat(ExtractFrom(args, keys, i + n + 1));
        assert Concat(ExtractFrom(args, keys, i)) == g + c;
        PrefixOfGroup(args, i, n, c);
        if i + n + 1 <= |args| { AcceptsIffPrefix(args, keys, i + n + 1); }
      }
    }
  }

  /** Every extracted group is a keyword and as many values as the table gives it. */
  lemma {:induction false} GroupShapes(args: seq<Json>, keys: Keys, i: nat)
    ensures forall g: seq<Json> :: g in ExtractFrom(args, keys, i) ==>
              g != [] && IsKey(keys, g[0]) && |g| == keys[g[0].s] + 1
    decreases Left(args, i)
  {
    if i < |args| {
      if IsKey(keys, args[i]) {
        GroupShapes(args, keys, i + keys[args[i].s] + 1);
        assert Group(args, i, keys[args[i].s])[0] == args[i];
      } else {
        GroupShapes(args, keys, i + 1);
      }
    }
  }

  // ----- the groups, without indices

  function Nils(n: nat): (nils: seq<Json>)
    ensures |nils| == n && forall i :: 0 <= i < n ==> nils[i] == Null
  {
    seq(n, _ => Null)
  }

  /** Drop what is no key; a key takes the values after it, with nils for those that are
      missing. */
  function Groups(args: seq<Json>, keys: Keys): seq<seq<Json>> {
    if args == [] then []
    else if !IsKey(keys, args[0]) then Groups(args[1..], keys)
    else
      var n := keys[args[0].s] + 1;
      if n <= |args| then [args[..n]] + Groups(args[n..], keys) else [args + Nils(n - |args|)]
  }

  lemma GroupIs(args: seq<Json>, i: nat, n: nat)
    requires i < |args|
    ensures i + n < |args| ==> Group(args, i, n) == args[i..][..n + 1]
    ensures i + n >= |args| ==> Group(args, i, n) == args[i..] + Nils(n + 1 - |args[i..]|)
  {
  }

  /** The indexed walk of `extract` yields these groups. */
  lemma {:induction false} ExtractIsGroups(args: seq<Json>, keys: Keys, i: nat)
    requires i <= |args|
    ensures ExtractFrom(args, keys, i) == Groups(args[i..], keys)
    decreases Left(args, i)
  {
    if i < |args| {
      var rest := args[i..];
      assert rest[0] == args[i] && rest[1..] == args[i + 1..];
      if !IsKey(keys, args[i]) {
        ExtractIsGroups(args, keys, i + 1);
      } else {
        var n := keys[args[i].s];
        GroupIs(args, i, n);
        if i + n < |args| {
          ExtractIsGroups(args, keys, i + n + 1);
          assert rest[n + 1..] == args[i + n + 1..];
        } else {
          assert ExtractFrom(args, keys, i + n + 1) == [];
        }
      }
    }
  }

  lemma GroupPads(args: seq<Json>, i: nat, n: nat)
    requires i < |args| <= i + n + 1
    ensures Group(args, i, n) == args[i..] + Nils(i + n + 1 - |args|)
  {
  }

  /** If the arguments are accepted, the groups one after the other are the arguments, followed
      by nils only. */
  lemma {:induction false} AcceptedAreGrouped(args: seq<Json>, keys: Keys, i: nat) returns (missing: nat)
    requires i <= |args| && AcceptsFrom(args, keys, i)
    ensures Concat(ExtractFrom(args, keys, i)) == args[i..] + Nils(missing)
    decreases Left(args, i)
  {
    missing := 0;
    if i < |args| {
      var n := keys[args[i].s];
      var g := Group(args, i, n);
      assert Concat(ExtractFrom(args, keys, i)) == g + Concat(ExtractFrom(args, keys, i + n + 1));
      if i + n + 1 <= |args| {
        missing := AcceptedAreGrouped(args, keys, i + n + 1);
        assert args[i..] == g + args[i + n + 1..];
      } else {
        GroupPads(args, i, n);
        missing := i + n + 1 - |args|;
      }
    }
  }

  // ----- the documented walk, which turns arguments into strings before it compares them

  /** Ruby's `to_s`; `inspect` gives the text of arrays and objects. */
  function ToText(v: Json, inspect: Json -> string): string {
    match v
    case Null => ""
    case Bool(b) => if b then "true" else "false"
    case Num(text) => text
    case Str(s) => s
    case Arr(_) => inspect(v)
    case Obj(_) => inspect(v)
  }

  predicate DocumentedAccepts(args: seq<Json>, keys: Keys, inspect: Json -> string, i: nat)
    decreases Left(args, i)
  {
    i < |args| ==>
      var text := ToText(args[i], inspect);
      text in keys && DocumentedAccepts(args, keys, inspect, i + keys[text] + 1)
  }

  function DocumentedExtract(args: seq<Json>, keys: Keys, inspect: Json -> string, i: nat): seq<seq<Json>>
    decreases Left(args, i)
  {
    if i >= |args| then []
    else
      var text := ToText(args[i], inspect);
      if text !in keys then DocumentedExtract(args, keys, inspect, i + 1)
      else [Group(args, i, keys[text])] + DocumentedExtract(args, keys, inspect, i + keys[text] + 1)
  }

  /** Every argument that the documented walk takes for a key is a string. */
  predicate StringKeys(args: seq<Json>, keys: Keys, inspect: Json -> string, i: nat)
    decreases Left(args, i)
  {
    i < |args| ==>
      var text := ToText(args[i], inspect);
      if text in keys then args[i].Str? && StringKeys(args, keys, inspect, i + keys[text] + 1)
      else StringKeys(args, keys, inspect, i + 1)
  }

  /** The code accepts exactly what the documentation promises to accept, less the lists in
      which some key is not a string. */
  lemma {:induction false} AcceptsAsDocumentedIff(args: seq<Json>, keys: Keys, inspect: Json -> string, i: nat)
    ensures AcceptsFrom(args, keys, i)
       <==> DocumentedAccepts(args, keys, inspect, i) && StringKeys(args, keys, inspect, i)
    decreases Left(args, i)
  {
    if i < |args| && ToText(args[i], inspect) in keys {
      AcceptsAsDocumentedIff(args, keys, inspect, i + keys[ToText(args[i], inspect)] + 1);
    }
  }

  /** The code extracts what the documentation promises if and only if every argument that the
      documented walk takes for a key is a string. */
  lemma {:induction false} ExtractsAsDocumentedIff(args: seq<Json>, keys: Keys, inspect: Json -> string, i: nat)
    ensures ExtractFrom(args, keys, i) == DocumentedExtract(args, keys, inspect, i)
       <==> StringKeys(args, keys, inspect, i)
    decreases Left(args, i)
  {
    if i < |args| {
      var text := ToText(args[i], inspect);
      if text !in keys {
        ExtractsAsDocumentedIff(args, keys, inspect, i + 1);
      } else if args[i].Str? {
        var n := keys[text];
        ExtractsAsDocumentedIff(args, keys, inspect, i + n + 1);
        var a, b := ExtractFrom(args, keys, i + n + 1), DocumentedExtract(args, keys, inspect, i + n + 1);
        assert ([Group(args, i, n)] + a)[1..] == a && ([Group(args, i, n)] + b)[1..] == b;
      } else {
        GroupShapes(args, keys, i);
        var group := Group(args, i, keys[text]);
        assert group[0] == args[i] && group in DocumentedExtract(args, keys, inspect, i);
      }
    }
  }

  /** A number is not taken for the key it spells. */
  lemma NumberIsNoKey(text: NumberText, inspect: Json -> string)
    ensures DocumentedAccepts([Num(text)], map[text := 0], inspect, 0)
    ensures !AcceptsFrom([Num(text)], map[text := 0], 0)
  {
  }
}
