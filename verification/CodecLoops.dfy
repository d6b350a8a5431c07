/** The loops of xju/json_codec.py's unions, dicts and classes, proved to compute
    what the functions of module CodecTree say. */
module CodecLoops {
  import opened CodecTree
  import opened Wrappers

  // UnionCodecImpl.encode
  method UnionEncode(e: Env, cs: seq<Codec>, v: Value, n: nat) returns (r: Option<Json>)
    ensures r == EncodeFirst(e, cs, v, n)
  {
    var i := 0;
    assert cs[0..] == cs;
    while i < |cs|
      invariant i <= |cs| && EncodeFirst(e, cs, v, n) == EncodeFirst(e, cs[i..], v, n)
    {
      assert cs[i..][0] == cs[i] && cs[i..][1..] == cs[i + 1..];
      r := Encode(e, cs[i], v, n);
      if r.Some? { return; }
      i := i + 1;
    }
    r := None;
  }

  // UnionCodecImpl.decode
  method UnionDecode(e: Env, cs: seq<Codec>, j: Json, n: nat) returns (r: Option<Value>)
    ensures r == DecodeFirst(e, cs, j, n)
  {
    var i := 0;
    assert cs[0..] == cs;
    while i < |cs|
      invariant i <= |cs| && DecodeFirst(e, cs, j, n) == DecodeFirst(e, cs[i..], j, n)
    {
      assert cs[i..][0] == cs[i] && cs[i..][1..] == cs[i + 1..];
      r := Decode(e, cs[i], j, n);
      if r.Some? { return; }
      i := i + 1;
    }
    r := None;
  }

  // DictCodecImpl.encode
  method DictEncode(e: Env, keys: seq<Atom>, vc: Codec, entries: seq<Entry>) returns (r: Option<seq<Member>>)
    ensures r == EncodeEntries(e, keys, vc, [], entries)
  {
    var result: seq<Member> := [];
    var i := 0;
    assert entries[0..] == entries;
    while i < |entries|
      invariant i <= |entries|
      invariant EncodeEntries(e, keys, vc, [], entries) == EncodeEntries(e, keys, vc, result, entries[i..])
    {
      assert entries[i..][0] == entries[i] && entries[i..][1..] == entries[i + 1..];
      var ek := EncodeKey(keys, entries[i].key);
      if ek.None? { return None; }
      var ev := Encode(e, vc, entries[i].value, e.top);
      if ev.None? { return None; }
      result := Put(result, ek.value, ev.value);
      i := i + 1;
    }
    r := Some(result);
  }

  // ClassCodecImpl.encode
  method ClassEncode(e: Env, attrs: seq<AttrCodec>, v: Value) returns (r: Option<seq<Member>>)
    requires v.ObjV?
    ensures r == EncodeAttrs(e, attrs, [], v)
  {
    var result: seq<Member> := [];
    var i := 0;
    assert attrs[0..] == attrs;
    while i < |attrs|
      invariant i <= |attrs| && EncodeAttrs(e, attrs, [], v) == EncodeAttrs(e, attrs[i..], result, v)
    {
      assert attrs[i..][0] == attrs[i] && attrs[i..][1..] == attrs[i + 1..];
      var x := Get(v.attrs, attrs[i].name);
      if x.None? { return None; }
      var j := Encode(e, attrs[i].codec, x.value, e.top);
      if j.None? { return None; }
      result := Put(result, JStr(attrs[i].encodedName), j.value);
      i := i + 1;
    }
    r := Some(result);
  }

  // self.t(**attr_values): an attribute that is not given needs a default
  function Construct(attrs: seq<AttrCodec>, given: seq<Option<Value>>): Option<seq<Attr>>
    requires |attrs| == |given|
  {
    if attrs == [] then Some([]) else
      var x := if given[0].Some? then given[0] else attrs[0].default;
      var rest := Construct(attrs[1..], given[1..]);
      if x.None? || rest.None? then None else Some([Attr(attrs[0].name, x.value)] + rest.value)
  }

  // what is left to decode, then the constructor
  function Finish(e: Env, attrs: seq<AttrCodec>, given: seq<Option<Value>>, j: Json): Option<seq<Attr>>
    requires |given| <= |attrs|
    decreases |attrs| - |given|
  {
    if |given| == |attrs| then Construct(attrs, given) else
      match Property(j, attrs[|given|].encodedName)
      case TypeError => None
      case Absent => Finish(e, attrs, given + [None], j)
      case Present(x) =>
        var v := Decode(e, attrs[|given|].codec, x, e.top);
        if v.None? then None else Finish(e, attrs, given + [v], j)
  }

  lemma {:induction false} ConstructFirst(attrs: seq<AttrCodec>, given: seq<Option<Value>>)
    requires |attrs| == |given| > 0
    ensures var x := if given[0].Some? then given[0] else attrs[0].default;
      var rest := Construct(attrs[1..], given[1..]);
      Construct(attrs, given) ==
        if x.None? || rest.None? then None else Some([Attr(attrs[0].name, x.value)] + rest.value)
  {
  }

  lemma {:induction false} ConstructOne(a: AttrCodec, v: Option<Value>)
    ensures var x := if v.Some? then v else a.default;
      Construct([a], [v]) == if x.None? then None else Some([Attr(a.name, x.value)])
  {
    var attrs, given := [a], [v];
    ConstructFirst(attrs, given);
    assert attrs[1..] == [] && given[1..] == [];
    var x := if v.Some? then v else a.default;
    if x.Some? { assert [Attr(a.name, x.value)] + [] == [Attr(a.name, x.value)]; }
  }

  lemma {:induction false} ConstructAppend(attrs: seq<AttrCodec>, given: seq<Option<Value>>, k: nat)
    requires |attrs| == |given| && k <= |attrs|
    ensures var a, b := Construct(attrs[..k], given[..k]), Construct(attrs[k..], given[k..]);
      Construct(attrs, given) == if a.None? || b.None? then None else Some(a.value + b.value)
    decreases k
  {
    if k == 0 {
      assert attrs[..0] == [] && attrs[0..] == attrs && given[0..] == given;
      if Construct(attrs, given).Some? { assert [] + Construct(attrs, given).value == Construct(attrs, given).value; }
    } else {
      ConstructAppend(attrs[1..], given[1..], k - 1);
      ConstructFirst(attrs, given);
      ConstructFirst(attrs[..k], given[..k]);
      var x := if given[0].Some? then given[0] else attrs[0].default;
      var a, b := Construct(attrs[1..][..k - 1], given[1..][..k - 1]), Construct(attrs[k..], given[k..]);
      if x.Some? && a.Some? && b.Some? {
        var y := [Attr(attrs[0].name, x.value)];
        assert y + (a.value + b.value) == y + a.value + b.value;
      }
      assert attrs[..k][1..] == attrs[1..][..k - 1] && given[..k][1..] == given[1..][..k - 1];
      assert attrs[1..][k - 1..] == attrs[k..] && given[1..][k - 1..] == given[k..];
    }
  }

  // decoding first and constructing afterwards comes to the same
  lemma {:induction false} FinishIsDecode(e: Env, attrs: seq<AttrCodec>, given: seq<Option<Value>>, j: Json)
    requires |given| <= |attrs|
    ensures var k := |given|;
      var a, b := Construct(attrs[..k], given), DecodeAttrs(e, attrs[k..], j);
      Finish(e, attrs, given, j) == if a.None? || b.None? then None else Some(a.value + b.value)
    decreases |attrs| - |given|
  {
    var k := |given|;
    if k == |attrs| {
      assert attrs[..k] == attrs && attrs[k..] == [];
      if Construct(attrs, given).Some? { assert Construct(attrs, given).value + [] == Construct(attrs, given).value; }
    } else {
      assert attrs[k..][0] == attrs[k] && attrs[k..][1..] == attrs[k + 1..];
      match Property(j, attrs[k].encodedName)
      case TypeError =>
      case Absent => FinishStep(e, attrs, given, None, j);
      case Present(x) =>
        var v := Decode(e, attrs[k].codec, x, e.top);
        if v.Some? { FinishStep(e, attrs, given, v, j); }
    }
  }

  lemma {:induction false} FinishStep(e: Env, attrs: seq<AttrCodec>, given: seq<Option<Value>>, v: Option<Value>,
                                      j: Json)
    requires |given| < |attrs|
    ensures var k := |given|;
      var x := if v.Some? then v else attrs[k].default;
      var a, b := Construct(attrs[..k], given), DecodeAttrs(e, attrs[k + 1..], j);
      Finish(e, attrs, given + [v], j) ==
        if a.None? || x.None? || b.None? then None else Some(a.value + ([Attr(attrs[k].name, x.value)] + b.value))
    decreases |attrs| - |given|, 0
  {
    var k := |given|;
    FinishIsDecode(e, attrs, given + [v], j);
    ConstructAppend(attrs[..k + 1], given + [v], k);
    assert attrs[..k + 1][..k] == attrs[..k] && (given + [v])[..k] == given;
    assert attrs[..k + 1][k..] == [attrs[k]] && (given + [v])[k..] == [v];
    ConstructOne(attrs[k], v);
    var x := if v.Some? then v else attrs[k].default;
    var a, b := Construct(attrs[..k], given), DecodeAttrs(e, attrs[k + 1..], j);
    if a.Some? && x.Some? && b.Some? {
      var y := [Attr(attrs[k].name, x.value)];
      assert a.value + y + b.value == a.value + (y + b.value);
    }
  }

  // ClassCodecImpl.decode
  method ClassDecode(e: Env, attrs: seq<AttrCodec>, j: Json) returns (r: Option<seq<Attr>>)
    ensures r == DecodeAttrs(e, attrs, j)
  {
    var attrValues: seq<Option<Value>> := [];
    var i := 0;
    FinishIsDecode(e, attrs, [], j);
    assert attrs[0..] == attrs && attrs[..0] == [];
    if DecodeAttrs(e, attrs, j).Some? { assert [] + DecodeAttrs(e, attrs, j).value == DecodeAttrs(e, attrs, j).value; }
    while i < |attrs|
      invariant i == |attrValues| <= |attrs| && DecodeAttrs(e, attrs, j) == Finish(e, attrs, attrValues, j)
    {
      match Property(j, attrs[i].encodedName) {
        case TypeError => return None;
        case Absent => attrValues := attrValues + [None];
        case Present(x) =>
          var v := Decode(e, attrs[i].codec, x, e.top);
          if v.None? { return None; }
          attrValues := attrValues + [v];
      }
      i := i + 1;
    }
    r := Construct(attrs, attrValues);
  }
}
