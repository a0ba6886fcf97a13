/** Values shared by every part of the model. */
module Basics {

  datatype Option<+T> = None | Some(value: T)

  /** Text of a JavaScript number: no structural character, no quote, and no
      first letter that would make it read as `null`, `true` or `false`. */
  type NumberText = s: string | IsNumberText(s) witness "0"

  predicate IsNumberText(s: string) {
    && 0 < |s|
    && s[0] !in "ntf"
    && forall i :: 0 <= i < |s| ==> !IsStructural(s[i])
  }

  predicate IsStructural(c: char) {
    c in "{}[],:\"'\\"
  }

  /** A JSON document; the members of an object keep their order. */
  datatype Json =
    | Null
    | Bool(b: bool)
    | Num(text: NumberText)
    | Str(s: string)
    | Arr(items: seq<Json>)
    | Obj(members: seq<Member>)

  datatype Member = Member(name: string, value: Json)

  function Concat<T>(parts: seq<seq<T>>): seq<T> {
    if parts == [] then [] else parts[0] + Concat(parts[1..])
  }

  lemma {:induction false} ConcatAppends<T>(a: seq<seq<T>>, b: seq<seq<T>>)
    ensures Concat(a + b) == Concat(a) + Concat(b)
  {
    if a == [] {
      assert a + b == b;
    } else {
      assert (a + b)[1..] == a[1..] + b;
      ConcatAppends(a[1..], b);
    }
  }
}
