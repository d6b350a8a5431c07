/** What defaults do to a value that was validated: they only add what is missing,
    and leave a value that still conforms (xju/json_codec.ts). */
module ValidatorConformance {
  import opened Validators
  import opened ValidatorDefaults
  import opened Wrappers

  // ---- only missing properties are added

  predicate Extends(x: Js, y: Js)
    decreases x
  {
    match (x, y)
    case (JArr(xs), JArr(ys)) => |xs| == |ys| && forall i :: 0 <= i < |xs| ==> Extends(xs[i], ys[i])
    case (JObj(ps), JObj(qs)) =>
      |ps| <= |qs| && (forall i :: 0 <= i < |ps| ==> ExtendsProp(ps[i], qs[i])) &&
      forall i :: |ps| <= i < |qs| ==> Find(ps, qs[i].name).None?
    case _ => x == y
  }

  predicate ExtendsProp(p: Prop, q: Prop)
    decreases p
  {
    p.name == q.name && Extends(p.value, q.value)
  }

  lemma {:induction false} ExtendsItself(x: Js)
    ensures Extends(x, x)
    decreases x
  {
    match x
    case JArr(xs) => forall i | 0 <= i < |xs| ensures Extends(xs[i], xs[i]) { ExtendsItself(xs[i]); }
    case JObj(ps) => forall i | 0 <= i < |ps| ensures ExtendsProp(ps[i], ps[i]) { PropExtendsItself(ps[i]); }
    case _ =>
  }

  lemma {:induction false} PropExtendsItself(p: Prop)
    ensures ExtendsProp(p, p)
    decreases p
  {
    ExtendsItself(p.value);
  }

  lemma {:induction false} FindByNames(ps: seq<Prop>, qs: seq<Prop>, name: string)
    requires |ps| <= |qs| && forall i :: 0 <= i < |ps| ==> ps[i].name == qs[i].name
    ensures Find(ps, name).Some? ==> Find(qs, name).Some?
  {
    if ps != [] && ps[0].name != name {
      assert forall i :: 0 <= i < |ps[1..]| ==> ps[1..][i] == ps[i + 1] && qs[1..][i] == qs[i + 1];
      FindByNames(ps[1..], qs[1..], name);
    }
  }

  lemma {:induction false} ExtendsThrough(x: Js, y: Js, z: Js)
    requires Extends(x, y) && Extends(y, z)
    ensures Extends(x, z)
    decreases x
  {
    match x
    case JArr(xs) =>
      forall i | 0 <= i < |xs| ensures Extends(xs[i], z.items[i]) { ExtendsThrough(xs[i], y.items[i], z.items[i]); }
    case JObj(ps) =>
      var qs, rs := y.props, z.props;
      forall i | 0 <= i < |ps| ensures ExtendsProp(ps[i], rs[i]) {
        assert ExtendsProp(ps[i], qs[i]) && ExtendsProp(qs[i], rs[i]);
        PropExtendsThrough(ps[i], qs[i], rs[i]);
      }
      forall i | |ps| <= i < |rs| ensures Find(ps, rs[i].name).None? {
        assert forall k :: 0 <= k < |ps| ==> ExtendsProp(ps[k], qs[k]);
        if i < |qs| { assert ExtendsProp(qs[i], rs[i]); } else { FindByNames(ps, qs, rs[i].name); }
      }
    case _ =>
  }

  lemma {:induction false} PropExtendsThrough(p: Prop, q: Prop, r: Prop)
    requires ExtendsProp(p, q) && ExtendsProp(q, r)
    ensures ExtendsProp(p, r)
    decreases p
  {
    ExtendsThrough(p.value, q.value, r.value);
  }

  // setting a property extends an object if it is new, or the new value extends the old
  lemma {:induction false} PutExtends(props: seq<Prop>, name: string, v: Js)
    requires Find(props, name).Some? ==> Extends(Find(props, name).value, v)
    ensures var r := Put(props, name, v);
      |props| <= |r| <= |props| + 1 && (forall i :: 0 <= i < |props| ==> ExtendsProp(props[i], r[i])) &&
      (|r| > |props| ==> r[|props|].name == name && Find(props, name).None?)
  {
    var r := Put(props, name, v);
    if props != [] {
      if props[0].name == name {
        forall i | 0 <= i < |props| ensures ExtendsProp(props[i], r[i]) {
          if i > 0 { PropExtendsItself(props[i]); }
        }
      } else {
        PutExtends(props[1..], name, v);
        PropExtendsItself(props[0]);
        var r' := Put(props[1..], name, v);
        forall i | 0 <= i < |props| ensures ExtendsProp(props[i], r[i]) {
          if i > 0 { assert props[i] == props[1..][i - 1] && r[i] == r'[i - 1]; }
        }
      }
    }
  }

  /** Filling a value only adds properties that its objects lack. */
  lemma {:induction false} FilledExtends(js: Js5, s: Schema, x: Js)
    ensures Extends(x, Filled(js, s, x))
    decreases s, 0, 0
  {
    match s
    case PrimS(_) => ExtendsItself(x);
    case ListS(item) =>
      if x.JArr? { AllExtend(js, item, x.items, 0); } else { ExtendsItself(x); }
    case TupleS(items) => TupleExtends(js, items, x);
    case UnionS(alternatives) => FirstExtends(js, alternatives, x);
    case DictS(_, value) =>
      if x.JObj? { PropsExtend(js, value, x.props); } else { ExtendsItself(x); }
    case ClassS(properties) =>
      if x.JObj? { PropertiesExtend(js, properties, x.props); } else { ExtendsItself(x); }
  }

  lemma ArrayExtends(a: seq<Js>, b: seq<Js>)
    requires |a| == |b| && forall k :: 0 <= k < |a| ==> Extends(a[k], b[k - 0])
    ensures Extends(JArr(a), JArr(b))
  {
  }

  lemma {:induction false} TupleExtends(js: Js5, items: seq<Schema>, x: Js)
    ensures Extends(x, Filled(js, TupleS(items), x))
    decreases items, 2, 0
  {
    if x.JArr? && |items| == 1 {
      AllExtend(js, items[0], x.items, 0);
      ArrayExtends(x.items, FilledAll(js, items[0], x.items, 0));
    } else if x.JArr? && |x.items| == |items| {
      EachExtends(js, items, x.items, 0);
      ArrayExtends(x.items, FilledEach(js, items, x.items, 0));
    } else {
      ExtendsItself(x);
    }
  }

  lemma {:induction false} AllExtend(js: Js5, s: Schema, xs: seq<Js>, i: nat)
    requires i <= |xs|
    ensures forall k :: i <= k < |xs| ==> Extends(xs[k], FilledAll(js, s, xs, i)[k - i])
    decreases s, 1, |xs| - i
  {
    if i < |xs| {
      FilledExtends(js, s, xs[i]);
      AllExtend(js, s, xs, i + 1);
    }
  }

  lemma {:induction false} EachExtends(js: Js5, ss: seq<Schema>, xs: seq<Js>, i: nat)
    requires i <= |xs| == |ss|
    ensures forall k :: i <= k < |xs| ==> Extends(xs[k], FilledEach(js, ss, xs, i)[k - i])
    decreases ss, 1, |xs| - i
  {
    if i < |xs| {
      FilledExtends(js, ss[i], xs[i]);
      EachExtends(js, ss, xs, i + 1);
    }
  }

  lemma {:induction false} FirstExtends(js: Js5, ss: seq<Schema>, x: Js)
    ensures Extends(x, FilledFirst(js, ss, x))
    decreases ss, 1, 0
  {
    ExtendsItself(x);
    if ss != [] {
      FilledExtends(js, ss[0], x);
      FirstExtends(js, ss[1..], x);
    }
  }

  lemma {:induction false} PropsExtend(js: Js5, s: Schema, props: seq<Prop>)
    ensures forall i :: 0 <= i < |props| ==> ExtendsProp(props[i], FilledProps(js, s, props)[i])
    decreases s, 1, |props|
  {
    if props != [] {
      FilledExtends(js, s, props[0].value);
      PropsExtend(js, s, props[1..]);
      var r, r' := FilledProps(js, s, props), FilledProps(js, s, props[1..]);
      forall i | 0 <= i < |props| ensures ExtendsProp(props[i], r[i]) {
        if i > 0 { assert props[i] == props[1..][i - 1] && r[i] == r'[i - 1]; }
      }
    }
  }

  lemma {:induction false} PropertiesExtend(js: Js5, ps: seq<Property>, props: seq<Prop>)
    ensures Extends(JObj(props), JObj(FilledProperties(js, ps, props)))
    decreases ps, 1, 0
  {
    ExtendsItself(JObj(props));
    if ps != [] {
      var now := FilledProperty(js, ps[0], props);
      PropertyExtends(js, ps[0], props);
      PropertiesExtend(js, ps[1..], now);
      ExtendsThrough(JObj(props), JObj(now), JObj(FilledProperties(js, ps[1..], now)));
    }
  }

  lemma {:induction false} PropertyExtends(js: Js5, p: Property, props: seq<Prop>)
    ensures Extends(JObj(props), JObj(FilledProperty(js, p, props)))
    decreases p, 2, 0
  {
    ExtendsItself(JObj(props));
    match Find(props, p.name)
    case Some(v) =>
      FilledExtends(js, p.schema, v);
      PutExtends(props, p.name, Filled(js, p.schema, v));
    case None => if p.default.Some? { PutExtends(props, p.name, p.default.value); }
  }

  // ---- a filled value conforms

  lemma {:induction false} PutNotShadowed(props: seq<Prop>, name: string, v: Js)
    requires !Shadowed(JObj(props)) && !Shadowed(v) && name != HAS_OWN
    ensures !Shadowed(JObj(Put(props, name, v)))
  {
    PutFind(props, name, v, HAS_OWN);
    PutValues(props, name, v);
    var r := Put(props, name, v);
    forall i | 0 <= i < |r| ensures !ShadowedIn(r[i]) {
      if r[i] in props {
        var k :| 0 <= k < |props| && props[k] == r[i];
        assert !ShadowedIn(props[k]);
      }
    }
  }

  lemma {:induction false} PutValues(props: seq<Prop>, name: string, v: Js)
    ensures forall q :: q in Put(props, name, v) ==> q in props || q == Prop(name, v)
  {
    if props != [] && props[0].name != name { PutValues(props[1..], name, v); }
  }

  lemma {:induction false} NotShadowedAt(props: seq<Prop>, name: string)
    requires !Shadowed(JObj(props)) && Find(props, name).Some?
    ensures !Shadowed(Find(props, name).value)
  {
    FindIsIn(props, name);
    var i :| 0 <= i < |props| && props[i] == Prop(name, Find(props, name).value);
    assert !ShadowedIn(props[i]);
  }

  /** A value that validates, filled, validates again, if none of its objects hides
      hasOwnProperty or the schema's unions look into objects last. */
  lemma {:induction false} FilledConforms(js: Js5, s: Schema, x: Js)
    requires Is(js, s, x).Yes? && ProperSchema(js, s) && (!Shadowed(x) || ObjectsLast(s))
    ensures Is(js, s, Filled(js, s, x)).Yes? && (!Shadowed(x) ==> !Shadowed(Filled(js, s, x)))
    decreases s, 0, 0
  {
    match s
    case PrimS(_) =>
    case ListS(item) => AllConform(js, item, x.items, 0, FilledAll(js, item, x.items, 0));
    case TupleS(items) =>
      if |items| == 1 {
        AllConform(js, items[0], x.items, 0, FilledAll(js, items[0], x.items, 0));
      } else {
        EachConforms(js, items, x.items, 0, FilledEach(js, items, x.items, 0));
      }
    case UnionS(alternatives) => FirstConforms(js, alternatives, x);
    case DictS(key, value) => PropsConform(js, key, value, x.props, 0, FilledProps(js, value, x.props));
    case ClassS(properties) => PropertiesConform(js, properties, x.props);
  }

  // ys are xs filled
  lemma {:induction false} AllConform(js: Js5, s: Schema, xs: seq<Js>, i: nat, ys: seq<Js>)
    requires i <= |xs| == |ys| && ys[i..] == FilledAll(js, s, xs, i)
    requires IsAll(js, s, xs, i).Yes? && ProperSchema(js, s) && (!Shadowed(JArr(xs)) || ObjectsLast(s))
    ensures IsAll(js, s, ys, i).Yes? && (!Shadowed(JArr(xs)) ==> forall k :: i <= k < |ys| ==> !Shadowed(ys[k]))
    decreases s, 1, |xs| - i
  {
    if i < |xs| {
      FilledConforms(js, s, xs[i]);
      assert ys[i] == ys[i..][0] && ys[i + 1..] == ys[i..][1..];
      AllConform(js, s, xs, i + 1, ys);
    }
  }

  lemma {:induction false} EachConforms(js: Js5, ss: seq<Schema>, xs: seq<Js>, i: nat, ys: seq<Js>)
    requires i <= |xs| == |ys| == |ss| && ys[i..] == FilledEach(js, ss, xs, i)
    requires IsEach(js, ss, xs, i).Yes? && (!Shadowed(JArr(xs)) || forall k :: 0 <= k < |ss| ==> ObjectsLast(ss[k]))
    requires forall k :: 0 <= k < |ss| ==> ProperSchema(js, ss[k])
    ensures IsEach(js, ss, ys, i).Yes? && (!Shadowed(JArr(xs)) ==> forall k :: i <= k < |ys| ==> !Shadowed(ys[k]))
    decreases ss, 1, |xs| - i
  {
    if i < |xs| {
      FilledConforms(js, ss[i], xs[i]);
      assert ys[i] == ys[i..][0] && ys[i + 1..] == ys[i..][1..];
      EachConforms(js, ss, xs, i + 1, ys);
    }
  }

  // an earlier alternative may accept what was filled for a later one
  lemma {:induction false} FirstConforms(js: Js5, ss: seq<Schema>, x: Js)
    requires IsFirst(js, ss, x).Yes? && (!Shadowed(x) || ObjectsLast(UnionS(ss)))
    requires forall k :: 0 <= k < |ss| ==> ProperSchema(js, ss[k])
    ensures IsFirst(js, ss, FilledFirst(js, ss, x)).Yes? && (!Shadowed(x) ==> !Shadowed(FilledFirst(js, ss, x)))
    decreases ss, 1, 0
  {
    if Is(js, ss[0], x).Yes? {
      FilledConforms(js, ss[0], x);
    } else {
      assert forall k :: 0 <= k < |ss[1..]| ==> ss[1..][k] == ss[k + 1];
      FirstConforms(js, ss[1..], x);
      ValidatorsAgree(js, ss[0], FilledFirst(js, ss, x));
      if Shadowed(x) { NoObjectsNoThrow(js, ss[0], FilledFirst(js, ss, x)); }
    }
  }

  lemma {:induction false} FilledPropsAt(js: Js5, s: Schema, props: seq<Prop>, i: nat)
    requires i < |props|
    ensures FilledProps(js, s, props)[i] == Prop(props[i].name, Filled(js, s, props[i].value))
    decreases |props|
  {
    if i > 0 { FilledPropsAt(js, s, props[1..], i - 1); }
  }

  lemma {:induction false} SameNames(ps: seq<Prop>, qs: seq<Prop>, name: string)
    requires |ps| == |qs| && forall i :: 0 <= i < |ps| ==> ps[i].name == qs[i].name
    ensures Find(ps, name).Some? <==> Find(qs, name).Some?
  {
    FindByNames(ps, qs, name);
    FindByNames(qs, ps, name);
  }

  lemma {:induction false} FilledPropsShadow(js: Js5, s: Schema, props: seq<Prop>)
    ensures Shadows(FilledProps(js, s, props)) <==> Shadows(props)
  {
    var qs := FilledProps(js, s, props);
    forall k | 0 <= k < |props| ensures qs[k].name == props[k].name { FilledPropsAt(js, s, props, k); }
    SameNames(props, qs, HAS_OWN);
  }

  lemma {:induction false} PropsConform(js: Js5, key: Key, s: Schema, props: seq<Prop>, i: nat, qs: seq<Prop>)
    requires i <= |props| && qs == FilledProps(js, s, props)
    requires IsProps(js, key, s, props, i).Yes? && ProperSchema(js, s) && (!Shadowed(JObj(props)) || ObjectsLast(s))
    ensures IsProps(js, key, s, qs, i).Yes?
    ensures !Shadowed(JObj(props)) ==> !Shadows(qs) && forall k :: i <= k < |qs| ==> !ShadowedIn(qs[k])
    decreases s, 1, |props| - i
  {
    FilledPropsShadow(js, s, props);
    if i < |props| {
      assert !Shadowed(JObj(props)) ==> !ShadowedIn(props[i]);
      FilledConforms(js, s, props[i].value);
      FilledPropsAt(js, s, props, i);
      PropsConform(js, key, s, props, i + 1, qs);
    }
  }

  // ---- classes

  lemma {:induction false} FilledPropertiesFind(js: Js5, ps: seq<Property>, props: seq<Prop>, name: string)
    ensures (forall i :: 0 <= i < |ps| ==> ps[i].name != name) ==>
      Find(FilledProperties(js, ps, props), name) == Find(props, name)
    decreases ps, 1, 0
  {
    if ps != [] {
      FilledPropertyFind(js, ps[0], props, name);
      assert forall i :: 0 <= i < |ps[1..]| ==> ps[1..][i] == ps[i + 1];
      FilledPropertiesFind(js, ps[1..], FilledProperty(js, ps[0], props), name);
    }
  }

  lemma {:induction false} FilledPropertyIs(js: Js5, ps: seq<Property>, props: seq<Prop>, i: nat)
    requires i < |ps| && forall k, j :: 0 <= k < j < |ps| ==> ps[k].name != ps[j].name
    ensures Find(FilledProperties(js, ps, props), ps[i].name) ==
      if Find(props, ps[i].name).Some? then Some(Filled(js, ps[i].schema, Find(props, ps[i].name).value))
      else ps[i].default
    decreases ps, 1, 0
  {
    var now := FilledProperty(js, ps[0], props);
    assert forall k :: 0 <= k < |ps[1..]| ==> ps[1..][k] == ps[k + 1];
    FilledPropertyFind(js, ps[0], props, ps[i].name);
    if i == 0 {
      FilledPropertiesFind(js, ps[1..], now, ps[0].name);
    } else {
      FilledPropertyIs(js, ps[1..], now, i - 1);
    }
  }

  lemma {:induction false} PropertyIsYes(js: Js5, ps: seq<Property>, props: seq<Prop>, i: nat)
    requires IsProperties(js, ps, props).Yes? && i < |ps|
    ensures IsProperty(js, ps[i], props).Yes?
    decreases ps
  {
    if i > 0 { PropertyIsYes(js, ps[1..], props, i - 1); }
  }

  lemma {:induction false} AllPropertiesYes(js: Js5, ps: seq<Property>, props: seq<Prop>)
    requires forall i :: 0 <= i < |ps| ==> IsProperty(js, ps[i], props).Yes?
    ensures IsProperties(js, ps, props).Yes?
    decreases ps
  {
    if ps != [] {
      assert forall i :: 0 <= i < |ps[1..]| ==> ps[1..][i] == ps[i + 1];
      AllPropertiesYes(js, ps[1..], props);
    }
  }

  // the property, filled or defaulted, conforms
  lemma {:induction false} PropertyConforms(js: Js5, p: Property, props: seq<Prop>, filled: seq<Prop>)
    requires IsProperty(js, p, props).Yes? && ProperProperty(js, p) && !Shadows(filled)
    requires !Shadowed(JObj(props)) || ObjectsLastIn(p)
    requires Find(filled, p.name) ==
      if Find(props, p.name).Some? then Some(Filled(js, p.schema, Find(props, p.name).value)) else p.default
    ensures IsProperty(js, p, filled).Yes?
    ensures !Shadowed(JObj(props)) ==> Find(filled, p.name).Some? && !Shadowed(Find(filled, p.name).value)
    decreases p, 2, 0
  {
    if Find(props, p.name).Some? {
      if !Shadowed(JObj(props)) { NotShadowedAt(props, p.name); }
      FilledConforms(js, p.schema, Find(props, p.name).value);
    }
  }

  lemma {:induction false} PropertiesConform(js: Js5, ps: seq<Property>, props: seq<Prop>)
    requires IsProperties(js, ps, props).Yes? && ProperSchema(js, ClassS(ps))
    requires !Shadowed(JObj(props)) || ObjectsLast(ClassS(ps))
    ensures IsProperties(js, ps, FilledProperties(js, ps, props)).Yes?
    ensures !Shadowed(JObj(props)) ==> !Shadowed(JObj(FilledProperties(js, ps, props)))
    decreases ps, 1, 0
  {
    var filled := FilledProperties(js, ps, props);
    FilledPropertiesFind(js, ps, props, HAS_OWN);
    assert Shadows(filled) == Shadows(props) by { assert forall i :: 0 <= i < |ps| ==> ProperProperty(js, ps[i]); }
    forall i | 0 <= i < |ps|
      ensures IsProperty(js, ps[i], filled).Yes?
      ensures !Shadowed(JObj(props)) && Find(props, ps[i].name).Some? ==>
        !Shadowed(Filled(js, ps[i].schema, Find(props, ps[i].name).value))
    {
      PropertyIsYes(js, ps, props, i);
      FilledPropertyIs(js, ps, props, i);
      assert ProperProperty(js, ps[i]);
      PropertyConforms(js, ps[i], props, filled);
    }
    AllPropertiesYes(js, ps, filled);
    if !Shadowed(JObj(props)) { FilledNotShadowed(js, ps, props); }
  }

  lemma {:induction false} FilledNotShadowed(js: Js5, ps: seq<Property>, now: seq<Prop>)
    requires !Shadowed(JObj(now))
    requires forall i, j :: 0 <= i < j < |ps| ==> ps[i].name != ps[j].name
    requires forall i :: 0 <= i < |ps| ==> ProperProperty(js, ps[i])
    requires forall i :: 0 <= i < |ps| && Find(now, ps[i].name).Some? ==>
      !Shadowed(Filled(js, ps[i].schema, Find(now, ps[i].name).value))
    ensures !Shadowed(JObj(FilledProperties(js, ps, now)))
    decreases ps
  {
    if ps != [] {
      var p := ps[0];
      var now' := FilledProperty(js, p, now);
      match Find(now, p.name) {
        case Some(v) => PutNotShadowed(now, p.name, Filled(js, p.schema, v));
        case None => if p.default.Some? { PutNotShadowed(now, p.name, p.default.value); }
      }
      forall i | 0 <= i < |ps[1..]|
        ensures ps[1..][i] == ps[i + 1] && Find(now', ps[1..][i].name) == Find(now, ps[1..][i].name)
      {
        assert ps[0].name != ps[i + 1].name;
        FilledPropertyFind(js, p, now, ps[i + 1].name);
      }
      FilledNotShadowed(js, ps[1..], now');
    }
  }

  /** Otherwise it may not: filled for a later alternative, it may take an earlier
      one past a property that was missing, to an object that hides hasOwnProperty. */
  lemma {:induction false} FilledMayThrow(js: Js5, v: Js)
    ensures var inner := ClassS([Property("c", PrimS(NullP), None)]);
      var s := UnionS([ClassS([Property("a", PrimS(NullP), None), Property("b", inner, None)]),
                       ClassS([Property("a", PrimS(NullP), Some(JNull))])]);
      var x := JObj([Prop("b", JObj([Prop(HAS_OWN, v)]))]);
      Is(js, s, x).Yes? && Is(js, s, Filled(js, s, x)).Throws?
  {
    var inner := ClassS([Property("c", PrimS(NullP), None)]);
    var ps, qs := [Property("a", PrimS(NullP), None), Property("b", inner, None)], [Property("a", PrimS(NullP), Some(JNull))];
    var hidden := JObj([Prop(HAS_OWN, v)]);
    var props, filled := [Prop("b", hidden)], [Prop("b", hidden), Prop("a", JNull)];
    assert props[1..] == [] && filled[1..] == [Prop("a", JNull)] && [Prop("a", JNull)][1..] == [];
    assert ps[1..] == [Property("b", inner, None)] && qs[1..] == [] && [ClassS(ps), ClassS(qs)][1..] == [ClassS(qs)];
    assert "b" != HAS_OWN && "a" != HAS_OWN && "a" != "b" by { assert |HAS_OWN| == 14 && "a"[0] != "b"[0]; }
    assert Find(props, HAS_OWN) == Find(filled, HAS_OWN) == None;
    assert Find(props, "a") == None && Find(filled[1..], "a") == Some(JNull) == Find(filled, "a");
    assert Put(props, "a", JNull) == filled by { assert Put(props[1..], "a", JNull) == [Prop("a", JNull)]; }
    assert IsProperty(js, ps[0], props) == No && IsProperties(js, ps, props) == No;
    assert Is(js, ClassS(ps), JObj(props)) == No;
    assert IsProperty(js, qs[0], props) == Yes([Write([], "a", JNull)]);
    assert IsProperties(js, qs, props).Yes?;
    assert FilledProperties(js, qs, props) == filled;
    var ss := [ClassS(ps), ClassS(qs)];
    assert Is(js, ss[0], JObj(props)) == No && Is(js, ss[1], JObj(props)).Yes? && ss[1..][0] == ss[1];
    assert FilledFirst(js, ss[1..], JObj(props)) == JObj(filled) == FilledFirst(js, ss, JObj(props));
    assert IsFirst(js, ss[1..], JObj(props)).Yes? && IsFirst(js, ss, JObj(props)).Yes?;
    assert IsProperty(js, ps[0], filled).Yes?;
    assert Is(js, inner, hidden).Throws?;
    assert IsProperty(js, ps[1], filled).Throws?;
    assert IsProperties(js, ps[1..], filled).Throws? && IsProperties(js, ps, filled).Throws?;
    assert Is(js, ss[0], JObj(filled)).Throws?;
  }
}
