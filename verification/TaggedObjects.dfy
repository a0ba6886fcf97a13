/** The conversions of site/jrw.js between objects with a `json_class` property and the
    wrapped form `{json_class, data}` that travels in JSON. */
module TaggedObjects {
  import opened Basics

  /** JSON data in the client. */
  datatype Js =
    | Nil
    | Flag(b: bool)
    | Number(n: int)
    | Text(s: string)
    | Array(items: seq<Js>)
    | Object(fields: map<string, Js>)

  predicate Truthy(v: Js) { v != Nil && v != Flag(false) && v != Number(0) && v != Text("") }

  const TAG := "json_class"

  /** `RJR.is_jr_object`: any value that counts as true will do as a tag. */
  predicate IsTagged(v: Js) { v.Object? && TAG in v.fields && Truthy(v.fields[TAG]) }

  /** The tag by itself; `undefined` is no property. */
  function Tag(fields: map<string, Js>): (tag: map<string, Js>)
    ensures tag.Keys == if TAG in fields then {TAG} else {}
    ensures TAG in fields ==> tag[TAG] == fields[TAG]
  {
    if TAG in fields then map[TAG := fields[TAG]] else map[]
  }

  predicate HasLength(fields: map<string, Js>) { "length" in fields && fields["length"] != Nil }

  /** `RJR.is_array` */
  predicate IsArray(v: Js) { v.Array? || (v.Object? && HasLength(v.fields)) }

  // A conversion yields nothing when it throws, or when it takes an object with a `length`
  // property or a string for an array and so leaves JSON data behind.

  function All(parts: map<string, Option<Js>>): Option<map<string, Js>> {
    if forall k :: k in parts ==> parts[k].Some? then Some(map k | k in parts :: parts[k].value) else None
  }

  lemma AllIsIff(parts: map<string, Option<Js>>, m: map<string, Js>)
    ensures All(parts) == Some(m) <==> parts.Keys == m.Keys && forall k :: k in m ==> parts[k] == Some(m[k])
  {
    if parts.Keys == m.Keys && forall k :: k in m ==> parts[k] == Some(m[k]) {
      assert forall k :: k in parts ==> parts[k].Some?;
      assert (map k | k in parts :: parts[k].value) == m;
    }
  }

  function Cons(x: Option<Js>, xs: Option<seq<Js>>): Option<seq<Js>> {
    if x.Some? && xs.Some? then Some([x.value] + xs.value) else None
  }

  // ----- wrapping

  function WrapObject(v: Js): Option<Js>
    requires v.Object?
    decreases v, 1
  {
    match All(map k | k in v.fields && k != TAG :: WrapField(v.fields[k]))
    case None => None
    case Some(fields) => Some(Object(Tag(v.fields) + map["data" := Object(fields)]))
  }

  function WrapField(v: Js): Option<Js>
    decreases v, 2
  {
    if IsTagged(v) then WrapObject(v)
    else if v.Array? then
      match WrapArray(v.items)
      case None => None
      case Some(items) => Some(Array(items))
    else if IsArray(v) then None
    else Some(v)
  }

  /** Line 123 misspells the name of the recursive call, so an array in an array throws. */
  function WrapItem(v: Js): Option<Js>
    decreases v, 2
  {
    if IsTagged(v) then WrapObject(v) else if IsArray(v) then None else Some(v)
  }

  function WrapArray(items: seq<Js>): Option<seq<Js>>
    decreases items, 0
  {
    if items == [] then Some([]) else Cons(WrapItem(items[0]), WrapArray(items[1..]))
  }

  // ----- unwrapping: convert_obj_from_jr_obj

  function Unpacked(v: Js): Option<Js>
    requires v.Object?
  {
    if "data" !in v.fields || !Truthy(v.fields["data"]) then Some(v)
    else
      match v.fields["data"]
      case Object(fields) => Some(Object((v.fields + fields) - {"data"}))
      case Array(_) => None
      case Text(_) => None
      case _ => Some(Object(v.fields - {"data"}))
  }

  function UnwrapObject(v: Js): Option<Js>
    requires v.Object?
    decreases v, 1
  {
    match Unpacked(v)
    case None => None
    case Some(o) =>
      match All(map k | k in o.fields :: UnwrapField(o.fields[k]))
      case None => None
      case Some(fields) => Some(Object(fields))
  }

  function UnwrapField(v: Js): Option<Js>
    decreases v, 2
  {
    if IsTagged(v) then UnwrapObject(v)
    else if v.Array? then
      match UnwrapArray(v.items)
      case None => None
      case Some(items) => Some(Array(items))
    else if IsArray(v) then None
    else Some(v)
  }

  function UnwrapArray(items: seq<Js>): Option<seq<Js>>
    decreases items, 0
  {
    if items == [] then Some([]) else Cons(UnwrapField(items[0]), UnwrapArray(items[1..]))
  }

  // ----- parsing: JRMessage.parse, parse_obj and parse_array

  function ParseObject(v: Js): Option<Js>
    requires v.Object?
    decreases v, 1
  {
    if "data" !in v.fields then Some(Object(Tag(v.fields)))
    else
      match v.fields["data"]
      case Object(fields) =>
        (match All(map k | k in fields :: ParseProperty(k in v.fields && IsArray(v.fields[k]), fields[k]))
         case None => None
         case Some(parsed) => Some(Object(Tag(v.fields) + parsed)))
      case Array(items) => if items == [] then Some(Object(Tag(v.fields))) else None
      case Text(s) => if s == "" then Some(Object(Tag(v.fields))) else None
      case _ => Some(Object(Tag(v.fields)))
  }

  /** Line 186 asks whether the wrapper itself has an array under this name (`besideArray`),
      not whether the property is one. */
  function ParseProperty(besideArray: bool, v: Js): Option<Js>
    decreases v, 2
  {
    if IsTagged(v) then ParseObject(v)
    else if besideArray then (if v.Array? then ToArray(ParseArray(v.items)) else None)
    else Some(v)
  }

  function ToArray(items: Option<seq<Js>>): Option<Js> {
    match items
    case None => None
    case Some(xs) => Some(Array(xs))
  }

  function ParseItem(v: Js): Option<Js>
    decreases v, 2
  {
    if IsTagged(v) then ParseObject(v)
    else if v.Array? then ToArray(ParseArray(v.items))
    else if IsArray(v) then None
    else Some(v)
  }

  function ParseArray(items: seq<Js>): Option<seq<Js>>
    decreases items, 0
  {
    if items == [] then Some([]) else Cons(ParseItem(items[0]), ParseArray(items[1..]))
  }

  // ----- convert_params

  function ConvertParam(v: Js): Option<Js>
    decreases v, 2
  {
    if IsTagged(v) then WrapObject(v)
    else if v.Array? then ToArray(ConvertParams(v.items))
    else if IsArray(v) then None
    else Some(v)
  }

  function ConvertParams(params: seq<Js>): Option<seq<Js>>
    decreases params, 0
  {
    if params == [] then Some([]) else Cons(ConvertParam(params[0]), ConvertParams(params[1..]))
  }
}

/** Exactly which values survive the client's conversions. */
module TaggedProofs {
  import opened Basics
  import opened TaggedObjects

  // ----- wrapping and unwrapping

  /** The value converts and converts back to itself. */
  predicate ComesBack(v: Js) {
    WrapField(v).Some? && UnwrapField(WrapField(v).value) == Some(v)
  }

  /** Unwrapping leaves the value alone: no tagged object in it has `data` that counts as true,
      and no untagged one a `length`, as far as the conversion looks. */
  predicate Settled(v: Js) {
    if IsTagged(v) then
      && ("data" in v.fields ==> !Truthy(v.fields["data"]))
      && forall k :: k in v.fields ==> Settled(v.fields[k])
    else if v.Array? then forall i :: 0 <= i < |v.items| ==> Settled(v.items[i])
    else !IsArray(v)
  }

  /** No tagged object has a field `data`, no array stands in an array, and no untagged
      object has a field `length`, as far as the conversion looks. Tags are not wrapped but
      unwrapped all the same, so they must be settled. */
  predicate Faithful(v: Js) {
    if IsTagged(v) then
      && "data" !in v.fields && Settled(v.fields[TAG])
      && forall k :: k in v.fields && k != TAG ==> Faithful(v.fields[k])
    else if v.Array? then forall i :: 0 <= i < |v.items| ==> !v.items[i].Array? && Faithful(v.items[i])
    else !IsArray(v)
  }

  // ----- what unwrapping leaves alone

  /** What an object with the unpacked fields `o` unwraps to. */
  lemma UnwrapsIff(v: Js, o: map<string, Js>, m: map<string, Js>)
    requires v.Object? && Unpacked(v) == Some(Object(o))
    ensures UnwrapObject(v) == Some(Object(m))
       <==> o.Keys == m.Keys && forall k :: k in m ==> UnwrapField(o[k]) == Some(m[k])
  {
    var obj := Object(o);
    var parts := map k | k in obj.fields :: UnwrapField(obj.fields[k]);
    AllIsIff(parts, m);
  }

  /** If there is `data` to unpack, it is gone afterwards. */
  lemma UnpackingShows(v: Js)
    requires v.Object? && "data" in v.fields && Truthy(v.fields["data"])
    ensures UnwrapObject(v) != Some(v)
  {
    if Unpacked(v).Some? {
      UnwrapsIff(v, Unpacked(v).value.fields, v.fields);
      assert "data" !in Unpacked(v).value.fields;
    }
  }

  lemma {:induction false} UnwrapsToItselfIff(v: Js)
    ensures UnwrapField(v) == Some(v) <==> Settled(v)
    decreases v, 1
  {
    if IsTagged(v) {
      if "data" in v.fields && Truthy(v.fields["data"]) {
        UnpackingShows(v);
      } else {
        UnwrapsIff(v, v.fields, v.fields);
        forall k | k in v.fields ensures UnwrapField(v.fields[k]) == Some(v.fields[k]) <==> Settled(v.fields[k]) {
          UnwrapsToItselfIff(v.fields[k]);
        }
      }
    } else if v.Array? {
      ArrayUnwrapsToItselfIff(v.items);
    }
  }

  lemma {:induction false} ArrayUnwrapsToItselfIff(items: seq<Js>)
    ensures UnwrapArray(items) == Some(items) <==> forall i :: 0 <= i < |items| ==> Settled(items[i])
    decreases items, 0
  {
    if items != [] {
      UnwrapsToItselfIff(items[0]);
      ArrayUnwrapsToItselfIff(items[1..]);
      assert items == [items[0]] + items[1..];
      if UnwrapArray(items).Some? {
        assert UnwrapArray(items).value[1..] == UnwrapArray(items[1..]).value;
      }
    }
  }

  // ----- objects

  predicate FieldsComeBack(fields: map<string, Js>) { forall k :: k in fields && k != TAG ==> ComesBack(fields[k]) }

  function Wrapped(tag: map<string, Js>, inner: map<string, Js>): Js { Object(tag + map["data" := Object(inner)]) }

  lemma UnpackWrapped(v: Js, inner: map<string, Js>)
    requires v.Object? && inner.Keys == v.fields.Keys - {TAG}
    ensures Unpacked(Wrapped(Tag(v.fields), inner)) == Some(Object((Tag(v.fields) + inner) - {"data"}))
  {
    assert (Wrapped(Tag(v.fields), inner).fields + inner) - {"data"} == (Tag(v.fields) + inner) - {"data"};
  }

  /** The fields of a wrapped object are those of the original but for the tag, each wrapped. */
  lemma WrappedFields(v: Js) returns (inner: map<string, Js>)
    requires v.Object? && WrapObject(v).Some?
    ensures WrapObject(v) == Some(Wrapped(Tag(v.fields), inner))
    ensures inner.Keys == v.fields.Keys - {TAG}
    ensures forall k :: k in inner ==> WrapField(v.fields[k]) == Some(inner[k])
  {
    var parts := map k | k in v.fields && k != TAG :: WrapField(v.fields[k]);
    inner := All(parts).value;
    assert forall k :: k in parts ==> parts[k].Some? && inner[k] == parts[k].value;
  }

  /** Unwrapping a wrapped object unwraps the tag and every field but `data`. */
  lemma UnwrapWrapped(v: Js, inner: map<string, Js>)
    requires v.Object? && inner.Keys == v.fields.Keys - {TAG}
    ensures UnwrapObject(Wrapped(Tag(v.fields), inner)) == Some(v) <==>
              && "data" !in v.fields
              && (TAG in v.fields ==> UnwrapField(v.fields[TAG]) == Some(v.fields[TAG]))
              && forall k :: k in inner ==> UnwrapField(inner[k]) == Some(v.fields[k])
  {
    UnpackWrapped(v, inner);
    var o := (Tag(v.fields) + inner) - {"data"};
    UnwrapsIff(Wrapped(Tag(v.fields), inner), o, v.fields);
    assert o.Keys == v.fields.Keys - {"data"};
    assert TAG in v.fields ==> TAG in o && o[TAG] == v.fields[TAG];
    assert forall k :: k in inner && k != "data" ==> k in o && o[k] == inner[k];
  }

  lemma ObjectComesBackIff(v: Js)
    requires IsTagged(v)
    ensures ComesBack(v) <==> "data" !in v.fields && Settled(v.fields[TAG]) && FieldsComeBack(v.fields)
  {
    UnwrapsToItselfIff(v.fields[TAG]);
    if WrapObject(v).None? {
      AllOrNone(v);
    } else {
      var inner := WrappedFields(v);
      UnwrapWrapped(v, inner);
      assert IsTagged(WrapObject(v).value);
      assert forall k :: k in inner ==> (UnwrapField(inner[k]) == Some(v.fields[k]) <==> ComesBack(v.fields[k]));
    }
  }

  lemma AllOrNone(v: Js)
    requires v.Object? && WrapObject(v).None?
    ensures exists k :: k in v.fields && k != TAG && WrapField(v.fields[k]).None?
  {
    var parts := map k | k in v.fields && k != TAG :: WrapField(v.fields[k]);
    var k :| k in parts && parts[k].None?;
  }

  predicate ItemFaithful(x: Js) { !x.Array? && Faithful(x) }

  predicate ItemsFaithful(items: seq<Js>) { forall i :: 0 <= i < |items| ==> ItemFaithful(items[i]) }

  lemma ItemsFaithfulCons(items: seq<Js>)
    requires items != []
    ensures ItemsFaithful(items) <==> ItemFaithful(items[0]) && ItemsFaithful(items[1..])
  {
    assert items == [items[0]] + items[1..];
  }

  predicate ItemsComeBack(items: seq<Js>) {
    WrapArray(items).Some? && UnwrapArray(WrapArray(items).value) == Some(items)
  }

  predicate ItemComesBack(v: Js) { WrapItem(v).Some? && UnwrapField(WrapItem(v).value) == Some(v) }

  lemma ItemsComeBackCons(items: seq<Js>)
    requires items != []
    ensures ItemsComeBack(items) <==> ItemComesBack(items[0]) && ItemsComeBack(items[1..])
  {
    assert items == [items[0]] + items[1..];
    if WrapArray(items).Some? {
      assert WrapArray(items).value[1..] == WrapArray(items[1..]).value;
    }
  }

  lemma ItemComesBackIff(v: Js)
    ensures ItemComesBack(v) <==> !v.Array? && ComesBack(v)
  {
    if !v.Array? { assert WrapItem(v) == WrapField(v); }
  }

  lemma {:induction false} ItemsComeBackIff(items: seq<Js>)
    requires forall i :: 0 <= i < |items| ==> (ComesBack(items[i]) <==> Faithful(items[i]))
    ensures ItemsComeBack(items) <==> ItemsFaithful(items)
  {
    if items != [] {
      ItemsComeBackIff(items[1..]);
      ItemsComeBackCons(items);
      ItemComesBackIff(items[0]);
      ItemsFaithfulCons(items);
    }
  }

  /** `convert_obj_from_jr_obj` undoes `convert_obj_to_jr_obj` on exactly the faithful values. */
  lemma {:induction false} ComesBackIffFaithful(v: Js)
    ensures ComesBack(v) <==> Faithful(v)
  {
    if IsTagged(v) {
      forall k | k in v.fields ensures ComesBack(v.fields[k]) <==> Faithful(v.fields[k]) {
        ComesBackIffFaithful(v.fields[k]);
      }
      ObjectComesBackIff(v);
    } else if v.Array? {
      forall i | 0 <= i < |v.items| ensures ComesBack(v.items[i]) <==> Faithful(v.items[i]) {
        ComesBackIffFaithful(v.items[i]);
      }
      ItemsComeBackIff(v.items);
    }
  }

  // ----- wrapping and parsing

  /** The tagged object is wrapped and parsed back to itself. */
  predicate ParsesBack(v: Js)
    requires v.Object?
  {
    WrapObject(v).Some? && ParseObject(WrapObject(v).value) == Some(v)
  }

  predicate FieldParsesBack(beside: bool, v: Js) {
    WrapField(v).Some? && ParseProperty(beside, WrapField(v).value) == Some(v)
  }

  /** Whether a field is parsed as an array does not depend on its value but on its name: it
      is if it is called `data` and the object has a `length`. */
  predicate Beside(fields: map<string, Js>, k: string) { k == "data" && HasLength(fields) }

  predicate Parsable(v: Js)
    requires v.Object?
    decreases v, 1
  {
    forall k :: k in v.fields && k != TAG ==> FieldParsable(Beside(v.fields, k), v.fields[k])
  }

  predicate FieldParsable(beside: bool, v: Js)
    decreases v, 2
  {
    if IsTagged(v) then Parsable(v)
    else if v.Array? then
      if beside then forall i :: 0 <= i < |v.items| ==> ItemParsable(v.items[i])
      else forall i :: 0 <= i < |v.items| ==> Inert(v.items[i])
    else !beside && !IsArray(v)
  }

  /** Neither conversion looks inside. */
  predicate Inert(v: Js) { !IsTagged(v) && !IsArray(v) }

  predicate ItemParsable(v: Js)
    decreases v, 2
  {
    if IsTagged(v) then Parsable(v) else !IsArray(v)
  }

  /** Parsing a wrapped object keeps the tag and parses every field. */
  lemma ParseWrapped(v: Js, inner: map<string, Js>)
    requires v.Object? && inner.Keys == v.fields.Keys - {TAG}
    ensures ParseObject(Wrapped(Tag(v.fields), inner)) == Some(v) <==>
              forall k :: k in inner ==> ParseProperty(Beside(inner, k), inner[k]) == Some(v.fields[k])
  {
    var w := Wrapped(Tag(v.fields), inner);
    assert w.fields["data"] == Object(inner);
    assert forall k :: k in inner ==> (k in w.fields && IsArray(w.fields[k]) <==> Beside(inner, k));
    var parts := map k | k in inner :: ParseProperty(k in w.fields && IsArray(w.fields[k]), inner[k]);
    AllIsIff(parts, v.fields - {TAG});
    assert Tag(w.fields) == Tag(v.fields);
    ParsedIs(v, All(parts));
  }

  lemma ParsedIs(v: Js, parsed: Option<map<string, Js>>)
    requires v.Object? && (parsed.Some? ==> TAG !in parsed.value)
    ensures parsed.Some? && Object(Tag(v.fields) + parsed.value) == v <==> parsed == Some(v.fields - {TAG})
  {
    if parsed.Some? {
      assert (Tag(v.fields) + parsed.value) - {TAG} == parsed.value;
      assert Tag(v.fields) + (v.fields - {TAG}) == v.fields;
    }
  }

  lemma LengthSurvives(v: Js, inner: map<string, Js>)
    requires v.Object? && inner.Keys == v.fields.Keys - {TAG}
    requires forall k :: k in inner ==> WrapField(v.fields[k]) == Some(inner[k])
    ensures HasLength(inner) <==> HasLength(v.fields)
  {
    if "length" in v.fields {
      var len := v.fields["length"];
      assert WrapField(len) == Some(inner["length"]);
      if IsTagged(len) { var _ := WrappedFields(len); }
    }
  }

  predicate FieldsParseBack(fields: map<string, Js>) {
    forall k :: k in fields && k != TAG ==> FieldParsesBack(Beside(fields, k), fields[k])
  }

  lemma TagParsesBackIff(v: Js)
    requires IsTagged(v)
    ensures ParsesBack(v) <==> FieldsParseBack(v.fields)
  {
    if WrapObject(v).None? {
      AllOrNone(v);
    } else {
      var inner := WrappedFields(v);
      LengthSurvives(v, inner);
      ParseWrapped(v, inner);
      assert forall k :: k in inner ==>
        (ParseProperty(Beside(inner, k), inner[k]) == Some(v.fields[k])
         <==> FieldParsesBack(Beside(v.fields, k), v.fields[k]));
    }
  }

  lemma NotOwnField(v: Js, k: string)
    requires v.Object? && k in v.fields
    ensures v.fields[k] != v
  {
    assert v.fields[k] < v;
  }

  /** A tagged object is never equal to its wrapping. */
  lemma WrappingDiffers(v: Js)
    requires IsTagged(v)
    ensures WrapObject(v) != Some(v)
  {
    if WrapObject(v).Some? && "data" in v.fields {
      var inner := WrappedFields(v);
      NotOwnField(Object(inner), "data");
      assert WrapField(v.fields["data"]) == Some(inner["data"]);
      assert v.fields["data"] != Object(inner);
      assert WrapObject(v).value.fields["data"] == Object(inner);
    }
  }

  /** An array comes out of the wrapping unchanged exactly if it holds nothing to wrap. */
  lemma {:induction false} WrapsToItselfIff(items: seq<Js>)
    ensures WrapArray(items) == Some(items) <==> forall i :: 0 <= i < |items| ==> Inert(items[i])
  {
    if items != [] {
      WrapsToItselfIff(items[1..]);
      assert items == [items[0]] + items[1..];
      if IsTagged(items[0]) { WrappingDiffers(items[0]); }
      if WrapArray(items).Some? {
        assert WrapArray(items).value[1..] == WrapArray(items[1..]).value;
      }
    }
  }

  predicate ItemsParseBack(items: seq<Js>) {
    WrapArray(items).Some? && ParseArray(WrapArray(items).value) == Some(items)
  }

  predicate ItemParsesBack(v: Js) { WrapItem(v).Some? && ParseItem(WrapItem(v).value) == Some(v) }

  lemma ItemsParseBackCons(items: seq<Js>)
    requires items != []
    ensures ItemsParseBack(items) <==> ItemParsesBack(items[0]) && ItemsParseBack(items[1..])
  {
    assert items == [items[0]] + items[1..];
    if WrapArray(items).Some? {
      assert WrapArray(items).value[1..] == WrapArray(items[1..]).value;
    }
  }

  lemma ItemParsesBackIff(v: Js)
    requires IsTagged(v) ==> (ParsesBack(v) <==> Parsable(v))
    ensures ItemParsesBack(v) <==> ItemParsable(v)
  {
    if IsTagged(v) && WrapObject(v).Some? { var _ := WrappedFields(v); }
  }

  predicate ItemsParsable(items: seq<Js>) { forall i :: 0 <= i < |items| ==> ItemParsable(items[i]) }

  lemma ItemsParsableCons(items: seq<Js>)
    requires items != []
    ensures ItemsParsable(items) <==> ItemParsable(items[0]) && ItemsParsable(items[1..])
  {
    assert items == [items[0]] + items[1..];
  }

  lemma {:induction false} ItemsParseBackIff(items: seq<Js>)
    requires forall i :: 0 <= i < |items| && IsTagged(items[i]) ==> (ParsesBack(items[i]) <==> Parsable(items[i]))
    ensures ItemsParseBack(items) <==> ItemsParsable(items)
  {
    if items != [] {
      ItemsParseBackIff(items[1..]);
      ItemsParseBackCons(items);
      ItemParsesBackIff(items[0]);
      ItemsParsableCons(items);
    }
  }

  lemma {:induction false} ObjectParsesBackIff(v: Js)
    requires IsTagged(v)
    ensures ParsesBack(v) <==> Parsable(v)
    decreases v, 1
  {
    forall k | k in v.fields && k != TAG
      ensures FieldParsesBack(Beside(v.fields, k), v.fields[k]) <==> FieldParsable(Beside(v.fields, k), v.fields[k])
    {
      FieldParsesBackIff(Beside(v.fields, k), v.fields[k]);
    }
    TagParsesBackIff(v);
  }

  lemma {:induction false} FieldParsesBackIff(beside: bool, v: Js)
    ensures FieldParsesBack(beside, v) <==> FieldParsable(beside, v)
    decreases v, 2
  {
    if IsTagged(v) {
      ObjectParsesBackIff(v);
    } else if v.Array? {
      if beside {
        forall i | 0 <= i < |v.items| && IsTagged(v.items[i]) ensures ParsesBack(v.items[i]) <==> Parsable(v.items[i]) {
          ObjectParsesBackIff(v.items[i]);
        }
        ItemsParseBackIff(v.items);
      } else {
        WrapsToItselfIff(v.items);
      }
    }
  }

  // ----- parameters

  predicate ParamParsable(v: Js) {
    if IsTagged(v) then Parsable(v)
    else if v.Array? then forall i :: 0 <= i < |v.items| ==> ParamParsable(v.items[i])
    else !IsArray(v)
  }

  predicate ParamsParsable(params: seq<Js>) { forall i :: 0 <= i < |params| ==> ParamParsable(params[i]) }

  lemma ParamsParsableCons(params: seq<Js>)
    requires params != []
    ensures ParamsParsable(params) <==> ParamParsable(params[0]) && ParamsParsable(params[1..])
  {
    assert params == [params[0]] + params[1..];
  }

  predicate ParamParsesBack(v: Js) { ConvertParam(v).Some? && ParseItem(ConvertParam(v).value) == Some(v) }

  predicate ParamsParseBack(params: seq<Js>) {
    ConvertParams(params).Some? && ParseArray(ConvertParams(params).value) == Some(params)
  }

  lemma ParamsParseBackCons(params: seq<Js>)
    requires params != []
    ensures ParamsParseBack(params) <==> ParamParsesBack(params[0]) && ParamsParseBack(params[1..])
  {
    assert params == [params[0]] + params[1..];
    if ConvertParams(params).Some? {
      assert ConvertParams(params).value[1..] == ConvertParams(params[1..]).value;
    }
  }

  /** Parsing undoes `convert_params` on exactly these parameter lists: nested arrays are fine
      at parameter level; inside a tagged object an array may hold only values the conversion
      leaves alone; and no untagged object may have a field `length`. */
  lemma {:induction false} ParamsParseBackIff(params: seq<Js>)
    ensures ParamsParseBack(params) <==> ParamsParsable(params)
  {
    if params != [] {
      var p := params[0];
      ParamsParseBackIff(params[1..]);
      ParamsParseBackCons(params);
      ParamsParsableCons(params);
      if IsTagged(p) {
        ObjectParsesBackIff(p);
      } else if p.Array? {
        ParamsParseBackIff(p.items);
      }
    }
  }

  // ----- what the conversions do to any value

  /** An object is wrapped exactly if its tag is none of the values that count as false. */
  lemma TagDecides(fields: map<string, Js>)
    requires TAG in fields && !HasLength(fields)
    ensures WrapField(Object(fields)) == Some(Object(fields))
       <==> fields[TAG] in {Nil, Flag(false), Number(0), Text("")}
  {
    if Truthy(fields[TAG]) { WrappingDiffers(Object(fields)); }
  }

  /** Nothing in the value stops the wrapping: no array in an array, and no untagged object with
      a `length`, as far as the conversion looks. */
  predicate Convertible(v: Js)
    decreases v, 0
  {
    if IsTagged(v) then forall k :: k in v.fields && k != TAG ==> Convertible(v.fields[k])
    else if v.Array? then forall i :: 0 <= i < |v.items| ==> ItemConvertible(v.items[i])
    else !(v.Object? && "length" in v.fields && v.fields["length"] != Nil)
  }

  predicate ItemConvertible(v: Js)
    decreases v, 1
  {
    !v.Array? && Convertible(v)
  }

  lemma {:induction false} WrapsIffConvertible(v: Js)
    ensures WrapField(v).Some? <==> Convertible(v)
    decreases v, 1
  {
    if IsTagged(v) {
      forall k | k in v.fields && k != TAG ensures WrapField(v.fields[k]).Some? <==> Convertible(v.fields[k]) {
        WrapsIffConvertible(v.fields[k]);
      }
      if WrapObject(v).None? {
        AllOrNone(v);
      } else {
        var inner := WrappedFields(v);
      }
    } else if v.Array? {
      ItemsWrapIff(v.items);
    }
  }

  lemma {:induction false} ItemsWrapIff(items: seq<Js>)
    ensures WrapArray(items).Some? <==> forall i :: 0 <= i < |items| ==> ItemConvertible(items[i])
    decreases items, 0
  {
    if items != [] {
      ItemsWrapIff(items[1..]);
      assert items == [items[0]] + items[1..];
      WrapsIffConvertible(items[0]);
      assert !items[0].Array? ==> WrapItem(items[0]) == WrapField(items[0]);
    }
  }

  /** A wrapper is unwrapped to its other properties and those of its `data`, which win; each is
      unwrapped in turn, and `data` itself is gone. */
  lemma UnwrapMeans(v: Js, data: map<string, Js>, m: map<string, Js>)
    requires v.Object? && "data" in v.fields && v.fields["data"] == Object(data)
    ensures UnwrapObject(v) == Some(Object(m)) <==>
              && m.Keys == (v.fields.Keys + data.Keys) - {"data"}
              && forall k :: k in m && (k in data || k in v.fields) ==>
                   UnwrapField(if k in data then data[k] else v.fields[k]) == Some(m[k])
  {
    var o := (v.fields + data) - {"data"};
    UnwrapsIff(v, o, m);
    assert o.Keys == (v.fields.Keys + data.Keys) - {"data"};
  }

  /** Without `data` that counts as true every property is kept and unwrapped in turn. */
  lemma UnwrapMeansInPlace(v: Js, m: map<string, Js>)
    requires v.Object?
    requires "data" in v.fields ==> v.fields["data"] in {Nil, Flag(false), Number(0), Text("")}
    ensures UnwrapObject(v) == Some(Object(m))
       <==> m.Keys == v.fields.Keys && forall k :: k in m ==> UnwrapField(v.fields[k]) == Some(m[k])
  {
    UnwrapsIff(v, v.fields, m);
  }

  function Restrict(m: map<string, Js>, keys: set<string>): map<string, Js> { map k | k in m && k in keys :: m[k] }

  /** A wrapper is parsed to its tag and the properties of its `data`, each parsed; its other
      properties are dropped. */
  lemma ParseMeans(v: Js, data: map<string, Js>, m: map<string, Js>)
    requires v.Object? && "data" in v.fields && v.fields["data"] == Object(data)
    ensures ParseObject(v) == Some(Object(m)) <==>
              && m.Keys == data.Keys + Tag(v.fields).Keys
              && (TAG in v.fields && TAG !in data ==> m[TAG] == v.fields[TAG])
              && forall k :: k in data ==> ParseProperty(k in v.fields && IsArray(v.fields[k]), data[k]) == Some(m[k])
  {
    var parsed := ParsedData(v, data);
    DataParsesIff(v, data, m);
    if parsed.Some? {
      TagAndRest(v.fields, parsed.value, m);
    }
  }

  function ParsedData(v: Js, data: map<string, Js>): (parsed: Option<map<string, Js>>)
    requires v.Object?
    ensures parsed.Some? ==> parsed.value.Keys == data.Keys
  {
    All(map k | k in data :: ParseProperty(k in v.fields && IsArray(v.fields[k]), data[k]))
  }

  lemma DataParsesIff(v: Js, data: map<string, Js>, m: map<string, Js>)
    requires v.Object?
    ensures data.Keys <= m.Keys ==>
              (ParsedData(v, data) == Some(Restrict(m, data.Keys)) <==>
                 forall k :: k in data ==> ParseProperty(k in v.fields && IsArray(v.fields[k]), data[k]) == Some(m[k]))
  {
    var parts := map k | k in data :: ParseProperty(k in v.fields && IsArray(v.fields[k]), data[k]);
    AllIsIff(parts, Restrict(m, data.Keys));
  }

  lemma TagAndRest(fields: map<string, Js>, parsed: map<string, Js>, m: map<string, Js>)
    ensures Tag(fields) + parsed == m <==>
              && m.Keys == parsed.Keys + Tag(fields).Keys && parsed == Restrict(m, parsed.Keys)
              && (TAG in fields && TAG !in parsed ==> TAG in m && m[TAG] == fields[TAG])
  {
    if m.Keys == parsed.Keys + Tag(fields).Keys && parsed == Restrict(m, parsed.Keys)
       && (TAG in fields && TAG !in parsed ==> m[TAG] == fields[TAG]) {
      assert forall k :: k in parsed ==> Restrict(m, parsed.Keys)[k] == m[k];
      assert Tag(fields) + parsed == m;
    }
    if Tag(fields) + parsed == m {
      assert parsed == Restrict(m, parsed.Keys);
    }
  }

  /** A wrapper with nothing in it is parsed to its tag alone. */
  lemma ParseMeansTag(v: Js, m: map<string, Js>)
    requires v.Object?
    requires "data" in v.fields ==> v.fields["data"].Nil? || v.fields["data"].Flag? || v.fields["data"].Number?
    ensures ParseObject(v) == Some(Object(m))
       <==> m.Keys == Tag(v.fields).Keys && (TAG in v.fields ==> m.Keys == {TAG} && m[TAG] == v.fields[TAG])
  {
    assert TAG in v.fields && m.Keys == {TAG} && m[TAG] == v.fields[TAG] ==> m == map[TAG := v.fields[TAG]];
  }

  // ----- values that fail through lines 123 and 186

  function Tagged(cls: string, name: string, value: Js): Js { Object(map[TAG := Text(cls), name := value]) }

  lemma WrapOne(item: Js)
    ensures WrapField(Array([item])) == if WrapItem(item).None? then None else Some(Array([WrapItem(item).value]))
  {
    var items := [item];
    assert items[0] == item && items[1..] == [];
    assert WrapArray(items[1..]) == Some([]);
    assert WrapArray(items) == Cons(WrapItem(items[0]), Some([]));
    if WrapItem(item).Some? {
      assert [WrapItem(item).value] + [] == [WrapItem(item).value];
    }
  }

  /** Line 123: a tagged object with an array in an array cannot be wrapped. */
  lemma NestedArrayThrows(cls: string, name: string, items: seq<Js>)
    requires cls != "" && name != TAG
    ensures WrapObject(Tagged(cls, name, Array([Array(items)]))).None?
  {
    var v := Tagged(cls, name, Array([Array(items)]));
    WrapOne(Array(items));
    var parts := map k | k in v.fields && k != TAG :: WrapField(v.fields[k]);
    assert parts[name] == WrapField(v.fields[name]);
  }

  lemma WrapsOneField(cls: string, name: string, value: Js)
    requires name != TAG && WrapField(value).Some?
    ensures WrapObject(Tagged(cls, name, value))
         == Some(Wrapped(Tag(Tagged(cls, name, value).fields), map[name := WrapField(value).value]))
  {
    var v := Tagged(cls, name, value);
    var parts := map k | k in v.fields && k != TAG :: WrapField(v.fields[k]);
    AllIsIff(parts, map[name := WrapField(value).value]);
  }

  lemma ParsesOneField(cls: string, name: string, value: Js)
    requires name != TAG && name != "data" && !IsTagged(value)
    ensures ParseObject(Wrapped(Tag(Tagged(cls, name, value).fields), map[name := value]))
         == Some(Tagged(cls, name, value))
  {
    ParseWrapped(Tagged(cls, name, value), map[name := value]);
  }

  /** Line 186: a tagged object in an array field is wrapped and stays so after parsing. */
  lemma ArrayStaysWrapped(cls: string, name: string, item: Js)
    requires cls != "" && name != TAG && name != "data" && IsTagged(item) && WrapObject(item).Some?
    ensures var w := WrapObject(Tagged(cls, name, Array([item])));
            && w.Some? && ParseObject(w.value) == Some(Tagged(cls, name, Array([WrapObject(item).value])))
            && !ParsesBack(Tagged(cls, name, Array([item])))
  {
    var raw := Array([WrapObject(item).value]);
    WrapOne(item);
    WrapsOneField(cls, name, Array([item]));
    assert Tag(Tagged(cls, name, raw).fields) == Tag(Tagged(cls, name, Array([item])).fields);
    ParsesOneField(cls, name, raw);
    WrappingDiffers(item);
    assert raw.items[0] != item && Tagged(cls, name, raw).fields[name] == raw;
  }
}
