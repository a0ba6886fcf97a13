/** The conversions of site/jrw.js as the source writes them: copies whose properties are
    overwritten in loops, properties in any order. */
module TaggedLoops {
  import opened Basics
  import opened TaggedObjects

  function Append(done: seq<Js>, rest: Option<seq<Js>>): (r: Option<seq<Js>>)
    ensures done == [] ==> r == rest
    ensures rest == Some([]) ==> r == Some(done)
  {
    match rest
    case None => None
    case Some(xs) =>
      assert [] + xs == xs && done + [] == done;
      Some(done + xs)
  }

  lemma AppendCons(done: seq<Js>, x: Option<Js>, rest: Option<seq<Js>>)
    ensures Append(done, Cons(x, rest)) == if x.None? then None else Append(done + [x.value], rest)
  {
    if x.Some? && rest.Some? {
      assert done + ([x.value] + rest.value) == done + [x.value] + rest.value;
    }
  }

  // ----- convert_obj_to_jr_obj and convert_array_to_jr_array

  method ConvertObjToJrObj(obj: Js) returns (r: Option<Js>)
    requires obj.Object?
    ensures r == WrapObject(obj)
    decreases obj, 1
  {
    ghost var parts := map k | k in obj.fields && k != TAG :: WrapField(obj.fields[k]);
    var jrObj := obj.fields - {TAG};
    var left := jrObj.Keys;
    while left != {}
      invariant left <= obj.fields.Keys - {TAG} == jrObj.Keys
      invariant forall k :: k in left ==> jrObj[k] == obj.fields[k]
      invariant forall k :: k in jrObj && k !in left ==> parts[k] == Some(jrObj[k])
      decreases left
    {
      var p :| p in left;
      left := left - {p};
      var property := ConvertPropertyToJr(jrObj[p]);
      if property.None? { assert parts[p].None?; return None; }
      jrObj := jrObj[p := property.value];
    }
    AllIsIff(parts, jrObj);
    return Some(Object(Tag(obj.fields) + map["data" := Object(jrObj)]));
  }

  /** What the loop of `convert_obj_to_jr_obj` makes of one property. */
  method ConvertPropertyToJr(v: Js) returns (r: Option<Js>)
    ensures r == WrapField(v)
    decreases v, 2
  {
    if IsTagged(v) {
      r := ConvertObjToJrObj(v);
    } else if IsArray(v) {
      if !v.Array? { return None; }
      var a := ConvertArrayToJrArray(v.items);
      r := ToArray(a);
    } else {
      r := Some(v);
    }
  }

  method ConvertArrayToJrArray(items: seq<Js>) returns (r: Option<seq<Js>>)
    ensures r == WrapArray(items)
    decreases items, 0
  {
    assert items[0..] == items && items[|items|..] == [];
    var jrArray := [];
    for a := 0 to |items|
      invariant WrapArray(items) == Append(jrArray, WrapArray(items[a..]))
    {
      AppendCons(jrArray, WrapItem(items[a]), WrapArray(items[a + 1..]));
      assert items[a..][1..] == items[a + 1..];
      var item := items[a];
      if IsTagged(item) {
        var o := ConvertObjToJrObj(item);
        if o.None? { return None; }
        item := o.value;
      } else if IsArray(item) {
        return None;
      }
      jrArray := jrArray + [item];
    }
    return Some(jrArray);
  }

  // ----- convert_obj_from_jr_obj and convert_array_from_jr_array

  method ConvertObjFromJrObj(jrObj: Js) returns (r: Option<Js>)
    requires jrObj.Object?
    ensures r == UnwrapObject(jrObj)
    decreases jrObj, 1
  {
    var copy := Unpacked(jrObj);
    if copy.None? { return None; }
    var o := copy.value;
    ghost var parts := map k | k in o.fields :: UnwrapField(o.fields[k]);
    var obj, left := o.fields, o.fields.Keys;
    while left != {}
      invariant left <= o.fields.Keys == obj.Keys
      invariant forall k :: k in left ==> obj[k] == o.fields[k]
      invariant forall k :: k in o.fields && k !in left ==> parts[k] == Some(obj[k])
      decreases left
    {
      var p :| p in left;
      left := left - {p};
      var property := ConvertPropertyFromJr(obj[p]);
      if property.None? { assert parts[p].None?; return None; }
      obj := obj[p := property.value];
    }
    AllIsIff(parts, obj);
    return Some(Object(obj));
  }

  /** What the loops of `convert_obj_from_jr_obj` and `convert_array_from_jr_array` make of one
      property or item. */
  method ConvertPropertyFromJr(v: Js) returns (r: Option<Js>)
    ensures r == UnwrapField(v)
    decreases v, 2
  {
    if IsTagged(v) {
      r := ConvertObjFromJrObj(v);
    } else if IsArray(v) {
      if !v.Array? { return None; }
      var a := ConvertArrayFromJrArray(v.items);
      r := ToArray(a);
    } else {
      r := Some(v);
    }
  }

  method ConvertArrayFromJrArray(jrArray: seq<Js>) returns (r: Option<seq<Js>>)
    ensures r == UnwrapArray(jrArray)
    decreases jrArray, 0
  {
    assert jrArray[0..] == jrArray && jrArray[|jrArray|..] == [];
    var items := [];
    for a := 0 to |jrArray|
      invariant UnwrapArray(jrArray) == Append(items, UnwrapArray(jrArray[a..]))
    {
      AppendCons(items, UnwrapField(jrArray[a]), UnwrapArray(jrArray[a + 1..]));
      assert jrArray[a..][1..] == jrArray[a + 1..];
      var item := ConvertPropertyFromJr(jrArray[a]);
      if item.None? { return None; }
      items := items + [item.value];
    }
    return Some(items);
  }

  // ----- convert_params

  method ConvertParamList(params: seq<Js>) returns (r: Option<seq<Js>>)
    ensures r == ConvertParams(params)
    decreases params
  {
    assert params[0..] == params && params[|params|..] == [];
    var jrParams := [];
    for p := 0 to |params|
      invariant ConvertParams(params) == Append(jrParams, ConvertParams(params[p..]))
    {
      AppendCons(jrParams, ConvertParam(params[p]), ConvertParams(params[p + 1..]));
      assert params[p..][1..] == params[p + 1..];
      var param := params[p];
      if IsTagged(param) {
        var o := ConvertObjToJrObj(param);
        if o.None? { return None; }
        param := o.value;
      } else if IsArray(param) {
        if !param.Array? { return None; }
        var inner := ConvertParamList(param.items);
        if inner.None? { return None; }
        param := Array(inner.value);
      }
      jrParams := jrParams + [param];
    }
    return Some(jrParams);
  }

  // ----- parse_obj and parse_array

  method ParseObj(obj: Js) returns (r: Option<Js>)
    requires obj.Object?
    ensures r == ParseObject(obj)
    decreases obj, 1
  {
    var data := if "data" in obj.fields then obj.fields["data"] else Nil;
    if !data.Object? {
      // an empty loop, unless `data` has items or characters
      if data == Array([]) || data == Text("") || (!data.Array? && !data.Text?) {
        return Some(Object(Tag(obj.fields)));
      }
      return None;
    }
    ghost var parts :=
      map k | k in data.fields :: ParseProperty(k in obj.fields && IsArray(obj.fields[k]), data.fields[k]);
    var result, left := map[], data.fields.Keys;
    while left != {}
      invariant left <= data.fields.Keys && result.Keys == data.fields.Keys - left
      invariant forall k :: k in result ==> parts[k] == Some(result[k])
      decreases left
    {
      var p :| p in left;
      left := left - {p};
      var property := data.fields[p];
      if IsTagged(property) {
        var o := ParseObj(property);
        if o.None? { assert parts[p].None?; return None; }
        property := o.value;
      } else if p in obj.fields && IsArray(obj.fields[p]) {
        if !property.Array? { assert parts[p].None?; return None; }
        var a := ParseList(property.items);
        if a.None? { assert parts[p].None?; return None; }
        property := Array(a.value);
      }
      result := result[p := property];
    }
    AllIsIff(parts, result);
    return Some(Object(Tag(obj.fields) + result));
  }

  method ParseList(items: seq<Js>) returns (r: Option<seq<Js>>)
    ensures r == ParseArray(items)
    decreases items, 0
  {
    assert items[0..] == items && items[|items|..] == [];
    var result := [];
    for a := 0 to |items|
      invariant ParseArray(items) == Append(result, ParseArray(items[a..]))
    {
      AppendCons(result, ParseItem(items[a]), ParseArray(items[a + 1..]));
      assert items[a..][1..] == items[a + 1..];
      var item := items[a];
      if IsTagged(item) {
        var o := ParseObj(item);
        if o.None? { return None; }
        item := o.value;
      } else if IsArray(item) {
        if !item.Array? { return None; }
        var inner := ParseList(item.items);
        if inner.None? { return None; }
        item := Array(inner.value);
      }
      result := result + [item];
    }
    return Some(result);
  }
}
