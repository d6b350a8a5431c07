/** The loops of the composite validators of xju/json_codec.ts, which push what
    their parts answer to a list of defaulters, proved to be those functions of
    module Validators. */
module ValidatorLoops {
  import opened Validators
  import opened Wrappers

  // what the loop has pushed, then what is left
  function Pushed(defaulters: seq<Write>, rest: Answer): Answer {
    if rest.Yes? then Yes(defaulters + rest.writes) else rest
  }

  function PushedAs(defaulters: seq<Write>, rest: Option<seq<Write>>): Option<seq<Write>> {
    if rest.Some? then Some(defaulters + rest.value) else None
  }

  lemma PushStep(defaulters: seq<Write>, step: Step, first: Answer, rest: Answer)
    ensures Pushed(defaulters, Then(step, first, rest)) ==
      if first.Yes? then Pushed(defaulters + Under(step, first.writes), rest) else first
  {
    if first.Yes? && rest.Yes? {
      var w := Under(step, first.writes);
      assert defaulters + (w + rest.writes) == defaulters + w + rest.writes;
    }
  }

  lemma PushStepAs(defaulters: seq<Write>, step: Step, first: Option<seq<Write>>, rest: Option<seq<Write>>)
    ensures PushedAs(defaulters, Both(step, first, rest)) ==
      if first.Some? then PushedAs(defaulters + Under(step, first.value), rest) else None
  {
    if first.Some? && rest.Some? {
      var w := Under(step, first.value);
      assert defaulters + (w + rest.value) == defaulters + w + rest.value;
    }
  }

  // isInstanceOfList, and isInstanceOfTuple of one item
  method IsList(js: Js5, item: Schema, xs: seq<Js>) returns (r: Answer)
    ensures r == IsAll(js, item, xs, 0)
  {
    var defaulters: seq<Write> := [];
    var i := 0;
    if IsAll(js, item, xs, 0).Yes? { assert [] + IsAll(js, item, xs, 0).writes == IsAll(js, item, xs, 0).writes; }
    while i < |xs|
      invariant i <= |xs| && IsAll(js, item, xs, 0) == Pushed(defaulters, IsAll(js, item, xs, i))
    {
      r := Is(js, item, xs[i]);
      PushStep(defaulters, Index(i), r, IsAll(js, item, xs, i + 1));
      if !r.Yes? { return; }
      defaulters := defaulters + Under(Index(i), r.writes);
      i := i + 1;
    }
    assert defaulters + [] == defaulters;
    r := Yes(defaulters);
  }

  // asInstanceOfList, and asInstanceOfTuple of one item
  method AsList(js: Js5, item: Schema, xs: seq<Js>) returns (r: Option<seq<Write>>)
    ensures r == AsAll(js, item, xs, 0)
  {
    var defaulters: seq<Write> := [];
    var i := 0;
    if AsAll(js, item, xs, 0).Some? { assert [] + AsAll(js, item, xs, 0).value == AsAll(js, item, xs, 0).value; }
    while i < |xs|
      invariant i <= |xs| && AsAll(js, item, xs, 0) == PushedAs(defaulters, AsAll(js, item, xs, i))
    {
      r := As(js, item, xs[i]);
      PushStepAs(defaulters, Index(i), r, AsAll(js, item, xs, i + 1));
      if r.None? { return; }
      defaulters := defaulters + Under(Index(i), r.value);
      i := i + 1;
    }
    assert defaulters + [] == defaulters;
    r := Some(defaulters);
  }

  // isInstanceOfDict
  method IsDict(js: Js5, key: Key, value: Schema, props: seq<Prop>) returns (r: Answer)
    ensures r == IsProps(js, key, value, props, 0)
  {
    var defaulters: seq<Write> := [];
    var i := 0;
    var all := IsProps(js, key, value, props, 0);
    if all.Yes? { assert [] + all.writes == all.writes; }
    while i < |props|
      invariant i <= |props| && all == Pushed(defaulters, IsProps(js, key, value, props, i))
    {
      if Shadows(props) { return Throws; }
      if !IsKey(js, key, props[i].name) { return No; }
      r := Is(js, value, props[i].value);
      PushStep(defaulters, Field(props[i].name), r, IsProps(js, key, value, props, i + 1));
      if !r.Yes? { return; }
      defaulters := defaulters + Under(Field(props[i].name), r.writes);
      i := i + 1;
    }
    assert defaulters + [] == defaulters;
    r := Yes(defaulters);
  }

  // asInstanceOfDict
  method AsDict(js: Js5, key: Key, value: Schema, props: seq<Prop>) returns (r: Option<seq<Write>>)
    ensures r == AsProps(js, key, value, props, 0)
  {
    var defaulters: seq<Write> := [];
    var i := 0;
    var all := AsProps(js, key, value, props, 0);
    if all.Some? { assert [] + all.value == all.value; }
    while i < |props|
      invariant i <= |props| && all == PushedAs(defaulters, AsProps(js, key, value, props, i))
    {
      if FailsKey(js, key, props[i].name) { return None; }
      if Shadows(props) { return None; }
      r := As(js, value, props[i].value);
      PushStepAs(defaulters, Field(props[i].name), r, AsProps(js, key, value, props, i + 1));
      if r.None? { return; }
      defaulters := defaulters + Under(Field(props[i].name), r.value);
      i := i + 1;
    }
    assert defaulters + [] == defaulters;
    r := Some(defaulters);
  }

  lemma PushOn(defaulters: seq<Write>, w: seq<Write>, rest: Answer)
    ensures rest.Yes? ==> defaulters + (w + rest.writes) == defaulters + w + rest.writes
    ensures w + [] == w
  {
  }

  // isInstanceOfClass
  method IsClass(js: Js5, ps: seq<Property>, props: seq<Prop>) returns (r: Answer)
    ensures r == IsProperties(js, ps, props)
  {
    var defaulters: seq<Write> := [];
    var i := 0;
    var all := IsProperties(js, ps, props);
    if all.Yes? { assert [] + all.writes == all.writes; }
    assert ps[0..] == ps;
    while i < |ps|
      invariant i <= |ps| && all == Pushed(defaulters, IsProperties(js, ps[i..], props))
    {
      assert ps[i..][0] == ps[i] && ps[i..][1..] == ps[i + 1..];
      ghost var rest := IsProperties(js, ps[i + 1..], props);
      if Shadows(props) { return Throws; }
      var v := Find(props, ps[i].name);
      if v.Some? {
        r := Is(js, ps[i].schema, v.value);
        if !r.Yes? { return; }
        var w := Under(Field(ps[i].name), r.writes);
        PushOn(defaulters, w, rest);
        defaulters := defaulters + w;
      } else if ps[i].default.Some? {
        var w := [Write([], ps[i].name, ps[i].default.value)];
        PushOn(defaulters, w, rest);
        defaulters := defaulters + w;
      } else {
        return No;
      }
      i := i + 1;
    }
    assert defaulters + [] == defaulters;
    r := Yes(defaulters);
  }

  // asInstanceOfClass
  method AsClass(js: Js5, ps: seq<Property>, props: seq<Prop>) returns (r: Option<seq<Write>>)
    ensures r == AsProperties(js, ps, props)
  {
    var defaulters: seq<Write> := [];
    var i := 0;
    var all := AsProperties(js, ps, props);
    if all.Some? { assert [] + all.value == all.value; }
    assert ps[0..] == ps;
    while i < |ps|
      invariant i <= |ps| && all == PushedAs(defaulters, AsProperties(js, ps[i..], props))
    {
      assert ps[i..][0] == ps[i] && ps[i..][1..] == ps[i + 1..];
      ghost var rest := AsProperties(js, ps[i + 1..], props);
      if Shadows(props) { return None; }
      var v := Find(props, ps[i].name);
      var w: seq<Write>;
      if v.Some? {
        r := As(js, ps[i].schema, v.value);
        if r.None? { return; }
        w := Under(Field(ps[i].name), r.value);
        assert w + [] == w;
      } else if ps[i].default.Some? {
        w := [Write([], ps[i].name, ps[i].default.value)];
      } else {
        return None;
      }
      if rest.Some? { assert defaulters + (w + rest.value) == defaulters + w + rest.value; }
      defaulters := defaulters + w;
      i := i + 1;
    }
    assert defaulters + [] == defaulters;
    r := Some(defaulters);
  }

  // isInstanceOfUnion
  method IsUnion(js: Js5, ss: seq<Schema>, x: Js) returns (r: Answer)
    ensures r == IsFirst(js, ss, x)
  {
    var i := 0;
    assert ss[0..] == ss;
    while i < |ss|
      invariant i <= |ss| && IsFirst(js, ss, x) == IsFirst(js, ss[i..], x)
    {
      assert ss[i..][0] == ss[i] && ss[i..][1..] == ss[i + 1..];
      r := Is(js, ss[i], x);
      if !r.No? { return; }
      i := i + 1;
    }
    r := No;
  }

  // asInstanceOfUnion
  method AsUnion(js: Js5, ss: seq<Schema>, x: Js) returns (r: Option<seq<Write>>)
    ensures r == AsFirst(js, ss, x)
  {
    var i := 0;
    assert ss[0..] == ss;
    while i < |ss|
      invariant i <= |ss| && AsFirst(js, ss, x) == AsFirst(js, ss[i..], x)
    {
      assert ss[i..][0] == ss[i] && ss[i..][1..] == ss[i + 1..];
      r := As(js, ss[i], x);
      if r.Some? { return; }
      i := i + 1;
    }
    r := None;
  }
}
