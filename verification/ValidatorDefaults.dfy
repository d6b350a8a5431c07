/** What applying the collected defaults of xju/json_codec.ts comes to: each is
    written later, in place, one after the other; together they fill the value. */
module ValidatorDefaults {
  import opened Validators
  import opened Wrappers

  // ---- writing in place

  // x.name = value: a new property comes last
  function Put(props: seq<Prop>, name: string, value: Js): seq<Prop> {
    if props == [] then [Prop(name, value)]
    else if props[0].name == name then [Prop(name, value)] + props[1..]
    else [props[0]] + Put(props[1..], name, value)
  }

  function WriteAt(x: Js, path: seq<Step>, name: string, value: Js): Js
    decreases path
  {
    if path == [] then
      if x.JObj? then JObj(Put(x.props, name, value)) else x
    else
      match path[0]
      case Index(i) =>
        if x.JArr? && i < |x.items| then JArr(x.items[i := WriteAt(x.items[i], path[1..], name, value)]) else x
      case Field(f) =>
        if x.JObj? && Find(x.props, f).Some?
        then JObj(Put(x.props, f, WriteAt(Find(x.props, f).value, path[1..], name, value))) else x
  }

  // applyDefaults
  function ApplyAll(x: Js, ws: seq<Write>): Js
    decreases ws
  {
    if ws == [] then x else ApplyAll(WriteAt(x, ws[0].path, ws[0].name, ws[0].value), ws[1..])
  }

  // a value that is validated in place
  class Document {
    var x: Js

    constructor (x: Js)
      ensures this.x == x
    {
      this.x := x;
    }

    // const r = _isInstanceOfT(v); return r && r.applyDefaults();
    method IsInstance(js: Js5, s: Schema) returns (answer: Answer)
      modifies this
      ensures answer == Is(js, s, old(x))
      ensures x == if answer.Yes? then ApplyAll(old(x), answer.writes) else old(x)
    {
      answer := Is(js, s, x);
      if answer.Yes? { ApplyDefaults(answer.writes); }
    }

    // _asInstanceOfT.f(v).applyDefaults(); return v as T;
    method AsInstance(js: Js5, s: Schema) returns (ok: bool)
      modifies this
      ensures ok <==> As(js, s, old(x)).Some?
      ensures x == if ok then ApplyAll(old(x), As(js, s, old(x)).value) else old(x)
    {
      var ws := As(js, s, x);
      ok := ws.Some?;
      if ok { ApplyDefaults(ws.value); }
    }

    method ApplyDefaults(ws: seq<Write>)
      modifies this
      ensures x == ApplyAll(old(x), ws)
    {
      var i := 0;
      assert ws[0..] == ws;
      while i < |ws|
        invariant i <= |ws| && ApplyAll(x, ws[i..]) == ApplyAll(old(x), ws)
      {
        assert ws[i..][0] == ws[i] && ws[i..][1..] == ws[i + 1..];
        x := WriteAt(x, ws[i].path, ws[i].name, ws[i].value);
        i := i + 1;
      }
    }
  }

  // ---- what it comes to

  function Filled(js: Js5, s: Schema, x: Js): Js
    decreases s, 0, 0
  {
    match s
    case PrimS(_) => x
    case ListS(item) => if x.JArr? then JArr(FilledAll(js, item, x.items, 0)) else x
    case TupleS(items) =>
      if !x.JArr? then x
      else if |items| == 1 then JArr(FilledAll(js, items[0], x.items, 0))
      else if |x.items| == |items| then JArr(FilledEach(js, items, x.items, 0))
      else x
    case UnionS(alternatives) => FilledFirst(js, alternatives, x)
    case DictS(_, value) => if x.JObj? then JObj(FilledProps(js, value, x.props)) else x
    case ClassS(properties) => if x.JObj? then JObj(FilledProperties(js, properties, x.props)) else x
  }

  // from element i on
  function FilledAll(js: Js5, s: Schema, xs: seq<Js>, i: nat): (r: seq<Js>)
    requires i <= |xs|
    ensures |r| == |xs| - i
    decreases s, 1, |xs| - i
  {
    if i == |xs| then [] else [Filled(js, s, xs[i])] + FilledAll(js, s, xs, i + 1)
  }

  function FilledEach(js: Js5, ss: seq<Schema>, xs: seq<Js>, i: nat): (r: seq<Js>)
    requires i <= |xs| == |ss|
    ensures |r| == |xs| - i
    decreases ss, 1, |xs| - i
  {
    if i == |xs| then [] else [Filled(js, ss[i], xs[i])] + FilledEach(js, ss, xs, i + 1)
  }

  function FilledFirst(js: Js5, ss: seq<Schema>, x: Js): Js
    decreases ss, 1, 0
  {
    if ss == [] then x
    else if Is(js, ss[0], x).Yes? then Filled(js, ss[0], x)
    else FilledFirst(js, ss[1..], x)
  }

  function FilledProps(js: Js5, s: Schema, props: seq<Prop>): (r: seq<Prop>)
    ensures |r| == |props|
    decreases s, 1, |props|
  {
    if props == [] then []
    else [Prop(props[0].name, Filled(js, s, props[0].value))] + FilledProps(js, s, props[1..])
  }

  // properties there are filled, those missing are added
  function FilledProperties(js: Js5, ps: seq<Property>, props: seq<Prop>): seq<Prop>
    decreases ps, 1, 0
  {
    if ps == [] then props else FilledProperties(js, ps[1..], FilledProperty(js, ps[0], props))
  }

  function FilledProperty(js: Js5, p: Property, props: seq<Prop>): seq<Prop>
    decreases p, 2, 0
  {
    match Find(props, p.name)
    case Some(v) => Put(props, p.name, Filled(js, p.schema, v))
    case None => if p.default.Some? then Put(props, p.name, p.default.value) else props
  }

  // ---- sequences of writes

  lemma {:induction false} ApplyAppend(x: Js, u: seq<Write>, w: seq<Write>)
    ensures ApplyAll(x, u + w) == ApplyAll(ApplyAll(x, u), w)
    decreases u
  {
    if u == [] {
      assert u + w == w;
    } else {
      assert (u + w)[1..] == u[1..] + w;
      ApplyAppend(WriteAt(x, u[0].path, u[0].name, u[0].value), u[1..], w);
    }
  }

  lemma {:induction false} ApplyUnderIndex(xs: seq<Js>, i: nat, ws: seq<Write>)
    requires i < |xs|
    ensures ApplyAll(JArr(xs), Under(Index(i), ws)) == JArr(xs[i := ApplyAll(xs[i], ws)])
    decreases ws
  {
    if ws == [] {
      assert xs[i := xs[i]] == xs;
    } else {
      var u := Under(Index(i), ws);
      assert u[0].path[1..] == ws[0].path && u[1..] == Under(Index(i), ws[1..]);
      var y := WriteAt(xs[i], ws[0].path, ws[0].name, ws[0].value);
      ApplyUnderIndex(xs[i := y], i, ws[1..]);
      assert xs[i := y][i := ApplyAll(y, ws[1..])] == xs[i := ApplyAll(y, ws[1..])];
    }
  }

  lemma {:induction false} PutFind(props: seq<Prop>, name: string, value: Js, other: string)
    ensures Find(Put(props, name, value), other) == if other == name then Some(value) else Find(props, other)
  {
    if props != [] && props[0].name != name { PutFind(props[1..], name, value, other); }
  }

  lemma {:induction false} PutAgain(props: seq<Prop>, name: string, v: Js, w: Js)
    ensures Put(Put(props, name, v), name, w) == Put(props, name, w)
  {
    if props != [] && props[0].name != name { PutAgain(props[1..], name, v, w); }
  }

  lemma {:induction false} PutSame(props: seq<Prop>, name: string)
    requires Find(props, name).Some?
    ensures Put(props, name, Find(props, name).value) == props
  {
    if props[0].name != name { PutSame(props[1..], name); }
  }

  lemma {:induction false} ApplyUnderField(props: seq<Prop>, f: string, ws: seq<Write>)
    requires Find(props, f).Some?
    ensures ApplyAll(JObj(props), Under(Field(f), ws)) == JObj(Put(props, f, ApplyAll(Find(props, f).value, ws)))
    decreases ws
  {
    var v := Find(props, f).value;
    if ws == [] {
      PutSame(props, f);
    } else {
      var u := Under(Field(f), ws);
      assert u[0].path[1..] == ws[0].path && u[1..] == Under(Field(f), ws[1..]);
      var y := WriteAt(v, ws[0].path, ws[0].name, ws[0].value);
      var props' := Put(props, f, y);
      PutFind(props, f, y, f);
      ApplyUnderField(props', f, ws[1..]);
      PutAgain(props, f, y, ApplyAll(y, ws[1..]));
    }
  }

  // ---- a schema's property names are different, and so are an object's

  ghost predicate ProperSchema(js: Js5, s: Schema)
    decreases s
  {
    match s
    case PrimS(_) => true
    case ListS(item) => ProperSchema(js, item)
    case TupleS(items) => forall i :: 0 <= i < |items| ==> ProperSchema(js, items[i])
    case UnionS(alternatives) => forall i :: 0 <= i < |alternatives| ==> ProperSchema(js, alternatives[i])
    case DictS(_, value) => ProperSchema(js, value)
    case ClassS(ps) =>
      (forall i, j :: 0 <= i < j < |ps| ==> ps[i].name != ps[j].name) &&
      forall i :: 0 <= i < |ps| ==> ProperProperty(js, ps[i])
  }

  // a default conforms to the property's own schema, and hides nothing
  ghost predicate ProperProperty(js: Js5, p: Property)
    decreases p
  {
    ProperSchema(js, p.schema) && p.name != HAS_OWN &&
    (p.default.Some? ==> Is(js, p.schema, p.default.value).Yes? && !Shadowed(p.default.value) && ProperJs(p.default.value))
  }

  // ---- the deferred writes fill the value

  /** Applying the defaults that validation collected, in place and in order, fills
      the value as a whole: no write disturbs another. */
  lemma {:induction false} DefaultsFill(js: Js5, s: Schema, x: Js)
    requires Is(js, s, x).Yes? && ProperSchema(js, s) && ProperJs(x)
    ensures ApplyAll(x, Is(js, s, x).writes) == Filled(js, s, x)
    decreases s, 0, 0
  {
    match s
    case PrimS(_) =>
    case ListS(item) => AllFill(js, item, x.items, 0, x.items);
    case TupleS(items) =>
      if |items| == 1 {
        AllFill(js, items[0], x.items, 0, x.items);
      } else {
        EachFill(js, items, x.items, 0, x.items);
      }
    case UnionS(alternatives) => FirstFills(js, alternatives, x);
    case DictS(key, value) =>
      assert [] + x.props[0..] == x.props;
      PropsFill(js, key, value, x.props, 0, []);
    case ClassS(properties) => PropertiesFill(js, properties, x.props, x.props);
  }

  lemma ProperAt(xs: seq<Js>, i: nat)
    requires ProperJs(JArr(xs)) && i < |xs|
    ensures ProperJs(xs[i])
  {
  }

  // ys is what the array has become so far: filled before i, as it was from there on
  lemma {:induction false} AllFill(js: Js5, s: Schema, xs: seq<Js>, i: nat, ys: seq<Js>)
    requires i <= |xs| == |ys| && ys[i..] == xs[i..]
    requires IsAll(js, s, xs, i).Yes? && ProperSchema(js, s) && ProperJs(JArr(xs))
    ensures ApplyAll(JArr(ys), IsAll(js, s, xs, i).writes) == JArr(ys[..i] + FilledAll(js, s, xs, i))
    decreases s, 1, |xs| - i
  {
    if i == |xs| {
      assert ys[..i] + [] == ys;
    } else {
      assert xs[i] == xs[i..][0] && ys[i] == ys[i..][0];
      ProperAt(xs, i);
      DefaultsFill(js, s, xs[i]);
      var ys' := OneFilled(js, s, xs, i, ys, IsAll(js, s, xs, i + 1).writes);
      AllFill(js, s, xs, i + 1, ys');
      assert ys'[..i + 1] + FilledAll(js, s, xs, i + 1) == ys[..i] + ([Filled(js, s, xs[i])] + FilledAll(js, s, xs, i + 1));
    }
  }

  // one element is filled, before the rest
  lemma {:induction false} OneFilled(js: Js5, s: Schema, xs: seq<Js>, i: nat, ys: seq<Js>, rest: seq<Write>)
    returns (ys': seq<Js>)
    requires i < |xs| == |ys| && ys[i..] == xs[i..] && ys[i] == xs[i] && Is(js, s, xs[i]).Yes?
    requires ApplyAll(xs[i], Is(js, s, xs[i]).writes) == Filled(js, s, xs[i])
    ensures ys' == ys[i := Filled(js, s, xs[i])] && ys'[i + 1..] == xs[i + 1..]
    ensures ApplyAll(JArr(ys), Under(Index(i), Is(js, s, xs[i]).writes) + rest) == ApplyAll(JArr(ys'), rest)
  {
    ys' := ys[i := Filled(js, s, xs[i])];
    ApplyAppend(JArr(ys), Under(Index(i), Is(js, s, xs[i]).writes), rest);
    ApplyUnderIndex(ys, i, Is(js, s, xs[i]).writes);
    assert ys[i + 1..] == ys[i..][1..] && xs[i + 1..] == xs[i..][1..];
    assert ys'[i + 1..] == ys[i + 1..];
  }

  lemma {:induction false} EachFill(js: Js5, ss: seq<Schema>, xs: seq<Js>, i: nat, ys: seq<Js>)
    requires i <= |xs| == |ys| == |ss| && ys[i..] == xs[i..]
    requires IsEach(js, ss, xs, i).Yes? && ProperJs(JArr(xs))
    requires forall k :: 0 <= k < |ss| ==> ProperSchema(js, ss[k])
    ensures ApplyAll(JArr(ys), IsEach(js, ss, xs, i).writes) == JArr(ys[..i] + FilledEach(js, ss, xs, i))
    decreases ss, 1, |xs| - i
  {
    if i == |xs| {
      assert ys[..i] + [] == ys;
    } else {
      assert xs[i] == xs[i..][0] && ys[i] == ys[i..][0];
      ProperAt(xs, i);
      DefaultsFill(js, ss[i], xs[i]);
      var ys' := OneFilled(js, ss[i], xs, i, ys, IsEach(js, ss, xs, i + 1).writes);
      EachFill(js, ss, xs, i + 1, ys');
      assert ys'[..i + 1] + FilledEach(js, ss, xs, i + 1) ==
        ys[..i] + ([Filled(js, ss[i], xs[i])] + FilledEach(js, ss, xs, i + 1));
    }
  }

  lemma {:induction false} FirstFills(js: Js5, ss: seq<Schema>, x: Js)
    requires IsFirst(js, ss, x).Yes? && ProperJs(x) && forall k :: 0 <= k < |ss| ==> ProperSchema(js, ss[k])
    ensures ApplyAll(x, IsFirst(js, ss, x).writes) == FilledFirst(js, ss, x)
    decreases ss, 1, 0
  {
    if Is(js, ss[0], x).Yes? {
      DefaultsFill(js, ss[0], x);
    } else {
      assert forall k :: 0 <= k < |ss[1..]| ==> ss[1..][k] == ss[k + 1];
      FirstFills(js, ss[1..], x);
    }
  }

  lemma {:induction false} FindIn(a: seq<Prop>, p: Prop, b: seq<Prop>)
    requires forall i :: 0 <= i < |a| ==> a[i].name != p.name
    ensures Find(a + [p] + b, p.name) == Some(p.value)
    ensures forall v :: Put(a + [p] + b, p.name, v) == a + [Prop(p.name, v)] + b
  {
    var all := a + [p] + b;
    if a == [] {
      assert all[0] == p && all[1..] == b;
    } else {
      assert all[0] == a[0] && all[1..] == a[1..] + [p] + b;
      assert forall i :: 0 <= i < |a[1..]| ==> a[1..][i] == a[i + 1];
      FindIn(a[1..], p, b);
      forall v ensures Put(all, p.name, v) == a + [Prop(p.name, v)] + b {
        assert [a[0]] + (a[1..] + [Prop(p.name, v)] + b) == a + [Prop(p.name, v)] + b;
      }
    }
  }

  lemma NextProp(done: seq<Prop>, props: seq<Prop>, i: nat, q: Prop, rest: seq<Prop>)
    requires i < |props|
    ensures props[i..] != [] && props[i..][0] == props[i] && props[i..][1..] == props[i + 1..]
    ensures done + props[i..] == done + [props[i]] + props[i + 1..]
    ensures done + ([q] + rest) == done + [q] + rest
  {
  }

  // done is what the first i properties have become
  lemma {:induction false} PropsFill(js: Js5, key: Key, s: Schema, props: seq<Prop>, i: nat, done: seq<Prop>)
    requires i <= |props| && |done| == i && forall k :: 0 <= k < i ==> done[k].name == props[k].name
    requires IsProps(js, key, s, props, i).Yes? && ProperSchema(js, s) && ProperJs(JObj(props))
    ensures ApplyAll(JObj(done + props[i..]), IsProps(js, key, s, props, i).writes) ==
      JObj(done + FilledProps(js, s, props[i..]))
    decreases s, 1, |props| - i
  {
    if i == |props| {
      assert props[i..] == [];
    } else {
      var p, b := props[i], props[i + 1..];
      assert ProperProp(p);
      DefaultsFill(js, s, p.value);
      var q := Prop(p.name, Filled(js, s, p.value));
      NextProp(done, props, i, q, FilledProps(js, s, b));
      assert ApplyAll(JObj(done + props[i..]), IsProps(js, key, s, props, i).writes) ==
        ApplyAll(JObj(done + [q] + b), IsProps(js, key, s, props, i + 1).writes) by {
        OnePropFills(done, p, b, Is(js, s, p.value).writes, IsProps(js, key, s, props, i + 1).writes);
      }
      PropsFill(js, key, s, props, i + 1, done + [q]);
    }
  }

  // one property is filled, before the rest
  lemma {:induction false} OnePropFills(a: seq<Prop>, p: Prop, b: seq<Prop>, ws: seq<Write>, rest: seq<Write>)
    requires forall i :: 0 <= i < |a| ==> a[i].name != p.name
    ensures ApplyAll(JObj(a + [p] + b), Under(Field(p.name), ws) + rest) ==
      ApplyAll(JObj(a + [Prop(p.name, ApplyAll(p.value, ws))] + b), rest)
  {
    FindIn(a, p, b);
    ApplyAppend(JObj(a + [p] + b), Under(Field(p.name), ws), rest);
    ApplyUnderField(a + [p] + b, p.name, ws);
  }

  // props is what was validated, now what it has become so far
  lemma {:induction false} PropertiesFill(js: Js5, ps: seq<Property>, props: seq<Prop>, now: seq<Prop>)
    requires IsProperties(js, ps, props).Yes? && ProperJs(JObj(props))
    requires forall i :: 0 <= i < |ps| ==> ProperProperty(js, ps[i]) && Find(now, ps[i].name) == Find(props, ps[i].name)
    requires forall i, j :: 0 <= i < j < |ps| ==> ps[i].name != ps[j].name
    ensures ApplyAll(JObj(now), IsProperties(js, ps, props).writes) == JObj(FilledProperties(js, ps, now))
    decreases ps, 1, 0
  {
    if ps != [] {
      var now' := FilledProperty(js, ps[0], now);
      PropertyFills(js, ps[0], props, now);
      ApplyAppend(JObj(now), IsProperty(js, ps[0], props).writes, IsProperties(js, ps[1..], props).writes);
      forall i | 0 <= i < |ps[1..]|
        ensures ProperProperty(js, ps[1..][i]) && Find(now', ps[1..][i].name) == Find(props, ps[1..][i].name)
      {
        assert ps[1..][i] == ps[i + 1] && ps[0].name != ps[i + 1].name;
        FilledPropertyFind(js, ps[0], now, ps[i + 1].name);
      }
      PropertiesFill(js, ps[1..], props, now');
    }
  }

  lemma {:induction false} FilledPropertyFind(js: Js5, p: Property, props: seq<Prop>, name: string)
    ensures name != p.name ==> Find(FilledProperty(js, p, props), name) == Find(props, name)
    ensures name == p.name ==>
      Find(FilledProperty(js, p, props), name) ==
        if Find(props, name).Some? then Some(Filled(js, p.schema, Find(props, name).value)) else p.default
  {
    match Find(props, p.name)
    case Some(v) => PutFind(props, p.name, Filled(js, p.schema, v), name);
    case None => if p.default.Some? { PutFind(props, p.name, p.default.value, name); }
  }

  lemma {:induction false} PropertyFills(js: Js5, p: Property, props: seq<Prop>, now: seq<Prop>)
    requires IsProperty(js, p, props).Yes? && ProperProperty(js, p) && ProperJs(JObj(props))
    requires Find(now, p.name) == Find(props, p.name)
    ensures ApplyAll(JObj(now), IsProperty(js, p, props).writes) == JObj(FilledProperty(js, p, now))
    decreases p, 2, 0
  {
    match Find(props, p.name)
    case Some(v) =>
      FindIsIn(props, p.name);
      var i :| 0 <= i < |props| && props[i] == Prop(p.name, v);
      assert ProperProp(props[i]);
      DefaultsFill(js, p.schema, v);
      var w := Is(js, p.schema, v).writes;
      assert Under(Field(p.name), w) + [] == Under(Field(p.name), w);
      ApplyUnderField(now, p.name, w);
    case None =>
      var w := [Write([], p.name, p.default.value)];
      assert w[1..] == [];
  }
}
