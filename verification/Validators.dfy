/** The paired validators of xju/json_codec.ts: is-functions answer, as-functions
    throw, and both only collect the defaults that are applied afterwards. */
module Validators {
  import opened Wrappers

  // ---- JSON, as JSON.parse gives it

  datatype Js =
    | JNull
    | JBool(b: bool)
    | JNum(r: real)
    | JStr(s: string)
    | JArr(items: seq<Js>)
    | JObj(props: seq<Prop>)

  datatype Prop = Prop(name: string, value: Js)

  // ---- schemas

  datatype Prim =
    | StringP
    | PatternP(matches: string -> bool)
    | FloatP
    | IntP
    | BoolP
    | NullP
    | LiteralP(value: Js)
    | BytesP
    | AnyListP
    | AnyDictP

  datatype Key =
    | StringK
    | PatternK(matches: string -> bool)
    | FloatK
    | IntK
    | BoolK
    | NullK
    | LiteralK(value: Js)
    | UnionK(alternatives: seq<Key>)

  datatype Schema =
    | PrimS(p: Prim)
    | ListS(item: Schema)
    | TupleS(items: seq<Schema>)
    | UnionS(alternatives: seq<Schema>)
    | DictS(key: Key, value: Schema)
    | ClassS(properties: seq<Property>)

  datatype Property = Property(name: string, schema: Schema, default: Option<Js>)

  // parseFloat and JSON.parse
  datatype Number = NaN | Infinite | Finite(r: real)
  datatype Js5 = Js5(parseFloat: string -> Number, parse: string -> Option<Js>)

  predicate IsWhole(r: real) {
    r == r.Floor as real
  }

  // ---- equality, as xju.assert.assertEqual has it: properties in any order

  function Find(props: seq<Prop>, name: string): Option<Js> {
    if props == [] then None
    else if props[0].name == name then Some(props[0].value)
    else Find(props[1..], name)
  }

  // x.hasOwnProperty(name): throws where x has a property of that name, which is then no function
  const HAS_OWN := "hasOwnProperty"

  predicate Shadows(props: seq<Prop>) {
    Find(props, HAS_OWN).Some?
  }

  function Names(props: seq<Prop>): set<string> {
    set i | 0 <= i < |props| :: props[i].name
  }

  // objects that hide hasOwnProperty are equal to none, since looking for their properties throws
  predicate SameJs(a: Js, b: Js)
    decreases a
  {
    match a
    case JArr(items) =>
      b.JArr? && |items| == |b.items| && forall i :: 0 <= i < |items| ==> SameJs(items[i], b.items[i])
    case JObj(props) =>
      b.JObj? && !Shadows(props) && !Shadows(b.props) && Names(props) == Names(b.props) &&
      forall i :: 0 <= i < |props| ==> SameIn(props[i], b.props)
    case _ => a == b
  }

  predicate SameIn(p: Prop, props: seq<Prop>)
    decreases p
  {
    Find(props, p.name).Some? && SameJs(p.value, Find(props, p.name).value)
  }

  // ---- primitives and keys

  predicate IsPrim(p: Prim, x: Js) {
    match p
    case StringP => x.JStr?
    case PatternP(matches) => x.JStr? && matches(x.s)
    case FloatP => x.JNum?
    case IntP => x.JNum? && IsWhole(x.r)
    case BoolP => x.JBool?
    case NullP => x == JNull
    case LiteralP(value) => SameJs(x, value)
    case BytesP => x.JArr? && forall i :: 0 <= i < |x.items| ==> IsByte(x.items[i])
    case AnyListP => x.JArr?
    case AnyDictP => x.JObj?
  }

  predicate IsByte(x: Js) {
    x.JNum? && IsWhole(x.r) && !(x.r < 0.0 || x.r > 255.0)
  }

  predicate FailsInt(x: Js) {
    !x.JNum? || !IsWhole(x.r)
  }

  // throws
  predicate FailsPrim(p: Prim, x: Js) {
    match p
    case StringP => !x.JStr?
    case PatternP(matches) => !x.JStr? || !matches(x.s)
    case FloatP => !x.JNum?
    case IntP => FailsInt(x)
    case BoolP => !x.JBool?
    case NullP => x != JNull
    case LiteralP(value) => !SameJs(x, value)
    // first all are whole numbers, then all are in range
    case BytesP =>
      !x.JArr? ||
      (exists i :: 0 <= i < |x.items| && FailsInt(x.items[i])) ||
      (exists i :: 0 <= i < |x.items| && x.items[i].JNum? && (x.items[i].r < 0.0 || x.items[i].r > 255.0))
    case AnyListP => !x.JArr?
    case AnyDictP => !x.JObj?
  }

  lemma PrimsAgree(p: Prim, x: Js)
    ensures IsPrim(p, x) <==> !FailsPrim(p, x)
  {
    if p.BytesP? && x.JArr? {
      if IsPrim(p, x) {
        assert forall i :: 0 <= i < |x.items| ==> IsByte(x.items[i]);
      } else {
        var i :| 0 <= i < |x.items| && !IsByte(x.items[i]);
        assert FailsInt(x.items[i]) || (x.items[i].JNum? && (x.items[i].r < 0.0 || x.items[i].r > 255.0));
      }
    }
  }

  predicate IsKey(js: Js5, k: Key, x: string) {
    match k
    case StringK => true
    case PatternK(matches) => matches(x)
    case FloatK => js.parseFloat(x) != NaN
    case IntK => js.parseFloat(x).Finite? && IsWhole(js.parseFloat(x).r)
    case BoolK => x == "true" || x == "false"
    case NullK => x == "null"
    // by ===, which no two arrays or objects are
    case LiteralK(value) => if value.JStr? then x == value.s else !Holds(value) && js.parse(x) == Some(value)
    case UnionK(ks) => exists i :: 0 <= i < |ks| && IsKey(js, ks[i], x)
  }

  predicate FailsKey(js: Js5, k: Key, x: string) {
    match k
    case StringK => false
    case PatternK(matches) => !matches(x)
    case FloatK => js.parseFloat(x) == NaN
    // the remainder of an infinite number is no number
    case IntK => js.parseFloat(x) == NaN || js.parseFloat(x) == Infinite || !IsWhole(js.parseFloat(x).r)
    case BoolK => x != "true" && x != "false"
    case NullK => x != "null"
    // by assertEqual
    case LiteralK(value) =>
      if value.JStr? then x != value.s else js.parse(x).None? || !SameJs(js.parse(x).value, value)
    case UnionK(ks) => forall i :: 0 <= i < |ks| ==> FailsKey(js, ks[i], x)
  }

  // an array or an object
  predicate Holds(x: Js) {
    x.JArr? || x.JObj?
  }

  // literal keys are not arrays or objects
  predicate ScalarKey(k: Key)
    decreases k
  {
    match k
    case LiteralK(value) => !Holds(value)
    case UnionK(ks) => forall i :: 0 <= i < |ks| ==> ScalarKey(ks[i])
    case _ => true
  }

  // JSON.parse reads the name as an array or object, and one that is equal to others
  predicate ReadsContainer(js: Js5, name: string) {
    js.parse(name).Some? && Holds(js.parse(name).value) && !Shadowed(js.parse(name).value)
  }

  /** What an is-function takes for a key its as-function takes too; they agree on
      all names if no literal is an array or object, and on all keys for a name that
      is not the text of one. */
  lemma {:induction false} KeysAgree(js: Js5, k: Key, x: string)
    ensures IsKey(js, k, x) ==> !FailsKey(js, k, x)
    ensures ScalarKey(k) || !ReadsContainer(js, x) ==> (IsKey(js, k, x) <==> !FailsKey(js, k, x))
    decreases k
  {
    if k.UnionK? {
      forall i | 0 <= i < |k.alternatives|
        ensures IsKey(js, k.alternatives[i], x) ==> !FailsKey(js, k.alternatives[i], x)
        ensures ScalarKey(k) || !ReadsContainer(js, x) ==>
                  (IsKey(js, k.alternatives[i], x) <==> !FailsKey(js, k.alternatives[i], x))
      {
        KeysAgree(js, k.alternatives[i], x);
      }
    }
    if k.LiteralK? && js.parse(x).Some? { SameUnshadowed(js.parse(x).value, k.value); }
  }

  /** A literal key's functions differ exactly on the texts of an array or object
      equal to the literal, which the as-function takes and the is-function does not. */
  lemma {:induction false} LiteralKeysDifferExactly(js: Js5, v: Js, x: string)
    ensures (IsKey(js, LiteralK(v), x) <==> !FailsKey(js, LiteralK(v), x)) <==>
            !(ReadsContainer(js, x) && SameJs(js.parse(x).value, v))
    ensures ReadsContainer(js, x) && SameJs(js.parse(x).value, v) ==>
              !IsKey(js, LiteralK(v), x) && !FailsKey(js, LiteralK(v), x)
  {
    KeysAgree(js, LiteralK(v), x);
    if js.parse(x).Some? { SameUnshadowed(js.parse(x).value, v); }
  }

  // ---- defaults to be applied, and where: x[path]...[name] = value

  datatype Step = Index(i: nat) | Field(name: string)
  datatype Write = Write(path: seq<Step>, name: string, value: Js)

  function Under(step: Step, ws: seq<Write>): seq<Write> {
    seq(|ws|, i requires 0 <= i < |ws| => Write([step] + ws[i].path, ws[i].name, ws[i].value))
  }

  // false, or what applyDefaults will do; or an exception
  datatype Answer = Throws | No | Yes(writes: seq<Write>)

  function Then(step: Step, first: Answer, rest: Answer): Answer {
    if !first.Yes? then first
    else if !rest.Yes? then rest
    else Yes(Under(step, first.writes) + rest.writes)
  }

  // ---- is-functions

  function Is(js: Js5, s: Schema, x: Js): Answer
    decreases s, 0, 0
  {
    match s
    case PrimS(p) => if IsPrim(p, x) then Yes([]) else No
    case ListS(item) => if x.JArr? then IsAll(js, item, x.items, 0) else No
    case TupleS(items) =>
      if !x.JArr? then No
      else if |items| == 1 then IsAll(js, items[0], x.items, 0)
      else if |x.items| != |items| then No
      else IsEach(js, items, x.items, 0)
    case UnionS(alternatives) => IsFirst(js, alternatives, x)
    case DictS(key, value) => if x.JObj? then IsProps(js, key, value, x.props, 0) else No
    case ClassS(properties) => if x.JObj? then IsProperties(js, properties, x.props) else No
  }

  function IsAll(js: Js5, s: Schema, xs: seq<Js>, i: nat): Answer
    requires i <= |xs|
    decreases s, 1, |xs| - i
  {
    if i == |xs| then Yes([]) else Then(Index(i), Is(js, s, xs[i]), IsAll(js, s, xs, i + 1))
  }

  function IsEach(js: Js5, ss: seq<Schema>, xs: seq<Js>, i: nat): Answer
    requires i <= |xs| == |ss|
    decreases ss, 1, |xs| - i
  {
    if i == |xs| then Yes([]) else Then(Index(i), Is(js, ss[i], xs[i]), IsEach(js, ss, xs, i + 1))
  }

  function IsFirst(js: Js5, ss: seq<Schema>, x: Js): Answer
    decreases ss, 1, 0
  {
    if ss == [] then No else
      var r := Is(js, ss[0], x);
      if r.No? then IsFirst(js, ss[1..], x) else r
  }

  function IsProps(js: Js5, key: Key, s: Schema, props: seq<Prop>, i: nat): Answer
    requires i <= |props|
    decreases s, 1, |props| - i
  {
    if i == |props| then Yes([])
    else if Shadows(props) then Throws
    else if !IsKey(js, key, props[i].name) then No
    else Then(Field(props[i].name), Is(js, s, props[i].value), IsProps(js, key, s, props, i + 1))
  }

  function IsProperties(js: Js5, ps: seq<Property>, props: seq<Prop>): Answer
    decreases ps, 1, 0
  {
    if ps == [] then Yes([]) else
      var first := IsProperty(js, ps[0], props);
      if !first.Yes? then first else
        var rest := IsProperties(js, ps[1..], props);
        if !rest.Yes? then rest else Yes(first.writes + rest.writes)
  }

  function IsProperty(js: Js5, p: Property, props: seq<Prop>): Answer
    decreases p, 2, 0
  {
    if Shadows(props) then Throws else
      match Find(props, p.name)
      case Some(v) => Then(Field(p.name), Is(js, p.schema, v), Yes([]))
      case None => if p.default.Some? then Yes([Write([], p.name, p.default.value)]) else No
  }

  // ---- as-functions: None is an exception

  function As(js: Js5, s: Schema, x: Js): Option<seq<Write>>
    decreases s, 0, 0
  {
    match s
    case PrimS(p) => if FailsPrim(p, x) then None else Some([])
    case ListS(item) => if x.JArr? then AsAll(js, item, x.items, 0) else None
    case TupleS(items) =>
      if !x.JArr? then None
      else if |items| == 1 then AsAll(js, items[0], x.items, 0)
      else if |x.items| != |items| then None
      else AsEach(js, items, x.items, 0)
    case UnionS(alternatives) => AsFirst(js, alternatives, x)
    case DictS(key, value) => if x.JObj? then AsProps(js, key, value, x.props, 0) else None
    case ClassS(properties) => if x.JObj? then AsProperties(js, properties, x.props) else None
  }

  function Both(step: Step, first: Option<seq<Write>>, rest: Option<seq<Write>>): Option<seq<Write>> {
    if first.None? || rest.None? then None else Some(Under(step, first.value) + rest.value)
  }

  function AsAll(js: Js5, s: Schema, xs: seq<Js>, i: nat): Option<seq<Write>>
    requires i <= |xs|
    decreases s, 1, |xs| - i
  {
    if i == |xs| then Some([]) else Both(Index(i), As(js, s, xs[i]), AsAll(js, s, xs, i + 1))
  }

  function AsEach(js: Js5, ss: seq<Schema>, xs: seq<Js>, i: nat): Option<seq<Write>>
    requires i <= |xs| == |ss|
    decreases ss, 1, |xs| - i
  {
    if i == |xs| then Some([]) else Both(Index(i), As(js, ss[i], xs[i]), AsEach(js, ss, xs, i + 1))
  }

  // exceptions of the alternatives are caught
  function AsFirst(js: Js5, ss: seq<Schema>, x: Js): Option<seq<Write>>
    decreases ss, 1, 0
  {
    if ss == [] then None else
      var r := As(js, ss[0], x);
      if r.None? then AsFirst(js, ss[1..], x) else r
  }

  // the key is checked first
  function AsProps(js: Js5, key: Key, s: Schema, props: seq<Prop>, i: nat): Option<seq<Write>>
    requires i <= |props|
    decreases s, 1, |props| - i
  {
    if i == |props| then Some([])
    else if FailsKey(js, key, props[i].name) then None
    else if Shadows(props) then None
    else Both(Field(props[i].name), As(js, s, props[i].value), AsProps(js, key, s, props, i + 1))
  }

  function AsProperties(js: Js5, ps: seq<Property>, props: seq<Prop>): Option<seq<Write>>
    decreases ps, 1, 0
  {
    if ps == [] then Some([]) else
      var first := AsProperty(js, ps[0], props);
      var rest := AsProperties(js, ps[1..], props);
      if first.None? || rest.None? then None else Some(first.value + rest.value)
  }

  function AsProperty(js: Js5, p: Property, props: seq<Prop>): Option<seq<Write>>
    decreases p, 2, 0
  {
    if Shadows(props) then None else
      match Find(props, p.name)
      case Some(v) => Both(Field(p.name), As(js, p.schema, v), Some([]))
      case None => if p.default.Some? then Some([Write([], p.name, p.default.value)]) else None
  }

  // ---- agreement

  // some object in x has a property that hides hasOwnProperty
  predicate Shadowed(x: Js)
    decreases x
  {
    match x
    case JArr(items) => exists i :: 0 <= i < |items| && Shadowed(items[i])
    case JObj(props) => Shadows(props) || exists i :: 0 <= i < |props| && ShadowedIn(props[i])
    case _ => false
  }

  predicate ShadowedIn(p: Prop)
    decreases p
  {
    Shadowed(p.value)
  }

  lemma {:induction false} SameUnshadowed(a: Js, b: Js)
    ensures SameJs(a, b) ==> !Shadowed(a) && (Holds(a) <==> Holds(b))
    decreases a
  {
    if SameJs(a, b) {
      match a
      case JArr(items) =>
        forall i | 0 <= i < |items| ensures !Shadowed(items[i]) { SameUnshadowed(items[i], b.items[i]); }
      case JObj(props) =>
        forall i | 0 <= i < |props| ensures !ShadowedIn(props[i]) {
          assert SameIn(props[i], b.props);
          SameUnshadowed(props[i].value, Find(b.props, props[i].name).value);
        }
      case _ =>
    }
  }

  // the names of an object's properties are distinct
  ghost predicate DistinctNames(props: seq<Prop>) {
    forall i, j :: 0 <= i < j < |props| ==> props[i].name != props[j].name
  }

  ghost predicate ProperJs(x: Js)
    decreases x
  {
    match x
    case JArr(items) => forall i :: 0 <= i < |items| ==> ProperJs(items[i])
    case JObj(props) => DistinctNames(props) && forall i :: 0 <= i < |props| ==> ProperProp(props[i])
    case _ => true
  }

  ghost predicate ProperProp(p: Prop)
    decreases p
  {
    ProperJs(p.value)
  }

  lemma {:induction false} FindAt(props: seq<Prop>, i: nat)
    requires i < |props| && DistinctNames(props)
    ensures Find(props, props[i].name) == Some(props[i].value)
  {
    if i > 0 {
      assert props[0].name != props[i].name;
      assert forall k :: 0 <= k < |props[1..]| ==> props[1..][k] == props[k + 1];
      FindAt(props[1..], i - 1);
    }
  }

  lemma {:induction false} SameAsItself(a: Js)
    requires ProperJs(a) && !Shadowed(a)
    ensures SameJs(a, a)
    decreases a
  {
    match a
    case JArr(items) => forall i | 0 <= i < |items| ensures SameJs(items[i], items[i]) { SameAsItself(items[i]); }
    case JObj(props) =>
      forall i | 0 <= i < |props| ensures SameIn(props[i], props) {
        assert ProperProp(props[i]) && !ShadowedIn(props[i]);
        FindAt(props, i);
        SameAsItself(props[i].value);
      }
    case _ =>
  }

  // some object in x has a property named by the text of an array or object
  predicate NamesContainers(js: Js5, x: Js)
    decreases x
  {
    match x
    case JArr(items) => exists i :: 0 <= i < |items| && NamesContainers(js, items[i])
    case JObj(props) => exists i :: 0 <= i < |props| && NamesContainersIn(js, props[i])
    case _ => false
  }

  predicate NamesContainersIn(js: Js5, p: Prop)
    decreases p
  {
    ReadsContainer(js, p.name) || NamesContainers(js, p.value)
  }

  // no dict in s has a literal key that is an array or object
  predicate ScalarKeys(s: Schema)
    decreases s
  {
    match s
    case PrimS(_) => true
    case ListS(item) => ScalarKeys(item)
    case TupleS(items) => forall i :: 0 <= i < |items| ==> ScalarKeys(items[i])
    case UnionS(alternatives) => forall i :: 0 <= i < |alternatives| ==> ScalarKeys(alternatives[i])
    case DictS(key, value) => ScalarKey(key) && ScalarKeys(value)
    case ClassS(properties) => forall i :: 0 <= i < |properties| ==> ScalarKeysIn(properties[i])
  }

  predicate ScalarKeysIn(p: Property)
    decreases p
  {
    ScalarKeys(p.schema)
  }

  // an answer that is no exception is the other function's
  predicate Agree(a: Answer, b: Option<seq<Write>>) {
    match a
    case Throws => true
    case No => b.None?
    case Yes(w) => b == Some(w)
  }

  lemma {:induction false} FindIsIn(props: seq<Prop>, name: string)
    ensures Find(props, name).Some? ==> exists i :: 0 <= i < |props| && props[i] == Prop(name, Find(props, name).value)
  {
    if props != [] {
      if props[0].name == name {
        assert props[0] == Prop(name, props[0].value);
      } else {
        FindIsIn(props[1..], name);
        if Find(props, name).Some? {
          var i :| 0 <= i < |props[1..]| && props[1..][i] == Prop(name, Find(props[1..], name).value);
          assert props[i + 1] == Prop(name, Find(props, name).value);
        }
      }
    }
  }

  // what the answers of a pair are to each other, for a value x, where keys agree and where they may not
  ghost predicate Paired(a: Answer, b: Option<seq<Write>>, keysAgree: bool, x: Js) {
    (a.Throws? ==> Shadowed(x)) && (a.Yes? ==> b.Some?) && (keysAgree ==> Agree(a, b))
  }

  /** For every schema and value: the is-function always answers, unless some object
      has a property that hides hasOwnProperty; what it accepts the as-function
      accepts; and if no literal key is an array or object, or no property is named
      by the text of one, then where it answers the as-function gives the same
      defaults, or throws. */
  lemma {:induction false} ValidatorsAgree(js: Js5, s: Schema, x: Js)
    ensures Paired(Is(js, s, x), As(js, s, x), ScalarKeys(s) || !NamesContainers(js, x), x)
    decreases s, 0, 0
  {
    match s
    case PrimS(p) => PrimsAgree(p, x);
    case ListS(item) => if x.JArr? { AllAgree(js, item, x.items, 0); }
    case TupleS(items) =>
      if x.JArr? {
        if |items| == 1 {
          AllAgree(js, items[0], x.items, 0);
        } else if |x.items| == |items| {
          EachAgree(js, items, x.items, 0);
        }
      }
    case UnionS(alternatives) => FirstAgree(js, alternatives, x);
    case DictS(key, value) => if x.JObj? { PropsAgree(js, key, value, x.props, 0); }
    case ClassS(properties) => if x.JObj? { PropertiesAgree(js, properties, x.props); }
  }

  lemma {:induction false} AllAgree(js: Js5, s: Schema, xs: seq<Js>, i: nat)
    requires i <= |xs|
    ensures Paired(IsAll(js, s, xs, i), AsAll(js, s, xs, i), ScalarKeys(s) || !NamesContainers(js, JArr(xs)), JArr(xs))
    decreases s, 1, |xs| - i
  {
    if i < |xs| {
      ValidatorsAgree(js, s, xs[i]);
      AllAgree(js, s, xs, i + 1);
    }
  }

  lemma {:induction false} EachAgree(js: Js5, ss: seq<Schema>, xs: seq<Js>, i: nat)
    requires i <= |xs| == |ss|
    ensures Paired(IsEach(js, ss, xs, i), AsEach(js, ss, xs, i),
                   ScalarKeys(TupleS(ss)) || !NamesContainers(js, JArr(xs)), JArr(xs))
    decreases ss, 1, |xs| - i
  {
    if i < |xs| {
      ValidatorsAgree(js, ss[i], xs[i]);
      EachAgree(js, ss, xs, i + 1);
    }
  }

  lemma {:induction false} FirstAgree(js: Js5, ss: seq<Schema>, x: Js)
    ensures Paired(IsFirst(js, ss, x), AsFirst(js, ss, x), ScalarKeys(UnionS(ss)) || !NamesContainers(js, x), x)
    decreases ss, 1, 0
  {
    if ss != [] {
      ValidatorsAgree(js, ss[0], x);
      assert forall i :: 0 <= i < |ss[1..]| ==> ss[1..][i] == ss[i + 1];
      FirstAgree(js, ss[1..], x);
    }
  }

  lemma {:induction false} PropsAgree(js: Js5, key: Key, s: Schema, props: seq<Prop>, i: nat)
    requires i <= |props|
    ensures Paired(IsProps(js, key, s, props, i), AsProps(js, key, s, props, i),
                   (ScalarKey(key) && ScalarKeys(s)) || !NamesContainers(js, JObj(props)), JObj(props))
    decreases s, 1, |props| - i
  {
    if i < |props| {
      KeysAgree(js, key, props[i].name);
      ValidatorsAgree(js, s, props[i].value);
      PropsAgree(js, key, s, props, i + 1);
      assert ShadowedIn(props[i]) <==> Shadowed(props[i].value);
      assert NamesContainersIn(js, props[i]) <==>
             ReadsContainer(js, props[i].name) || NamesContainers(js, props[i].value);
    }
  }

  lemma {:induction false} PropertiesAgree(js: Js5, ps: seq<Property>, props: seq<Prop>)
    ensures Paired(IsProperties(js, ps, props), AsProperties(js, ps, props),
                   ScalarKeys(ClassS(ps)) || !NamesContainers(js, JObj(props)), JObj(props))
    decreases ps, 1, 0
  {
    if ps != [] {
      PropertyAgrees(js, ps[0], props);
      assert forall i :: 0 <= i < |ps[1..]| ==> ps[1..][i] == ps[i + 1];
      PropertiesAgree(js, ps[1..], props);
    }
  }

  lemma {:induction false} PropertyAgrees(js: Js5, p: Property, props: seq<Prop>)
    ensures Paired(IsProperty(js, p, props), AsProperty(js, p, props),
                   ScalarKeysIn(p) || !NamesContainers(js, JObj(props)), JObj(props))
    decreases p, 2, 0
  {
    if !Shadows(props) && Find(props, p.name).Some? {
      ValidatorsAgree(js, p.schema, Find(props, p.name).value);
      FindIsIn(props, p.name);
      var i :| 0 <= i < |props| && props[i] == Prop(p.name, Find(props, p.name).value);
      assert ShadowedIn(props[i]) <==> Shadowed(props[i].value);
      assert NamesContainers(js, props[i].value) ==> NamesContainersIn(js, props[i]);
    }
  }

  // ---- exactly where they agree

  // Any: what every value is an instance of
  const ANY := UnionS([PrimS(StringP), PrimS(FloatP), PrimS(BoolP), PrimS(NullP), PrimS(AnyListP), PrimS(AnyDictP)])

  lemma {:induction false} AnyAccepts(js: Js5, x: Js)
    ensures As(js, ANY, x).Some?
  {
    var ss := ANY.alternatives;
    AcceptsLater(js, ss, x, if x.JStr? then 0 else if x.JNum? then 1 else if x.JBool? then 2
                            else if x.JNull? then 3 else if x.JArr? then 4 else 5);
  }

  // an as-function of a union succeeds if that of some alternative does
  lemma {:induction false} AcceptsLater(js: Js5, ss: seq<Schema>, x: Js, i: nat)
    requires i < |ss| && As(js, ss[i], x).Some?
    ensures AsFirst(js, ss, x).Some?
  {
    if i > 0 { AcceptsLater(js, ss[1..], x, i - 1); }
  }

  // a schema all of whose as-functions' calls succeed, while its is-function throws for x
  ghost predicate Separates(js: Js5, s: Schema, x: Js) {
    Is(js, s, x).Throws? && ScalarKeys(s) && forall y :: As(js, s, y).Some?
  }

  /** If some object in x hides hasOwnProperty, some schema tells the two apart. */
  lemma {:induction false} Separated(js: Js5, x: Js) returns (s: Schema)
    requires Shadowed(x)
    ensures Separates(js, s, x)
    decreases x
  {
    match x
    case JArr(items) =>
      var i :| 0 <= i < |items| && Shadowed(items[i]);
      var item := Separated(js, items[i]);
      s := OrAny(js, ListS(item));
      AllThrow(js, item, items, 0, i);
    case JObj(props) =>
      if Shadows(props) {
        s := OrAny(js, DictS(StringK, ANY));
      } else {
        var i :| 0 <= i < |props| && ShadowedIn(props[i]);
        var value := SeparatedIn(js, props[i]);
        s := OrAny(js, DictS(StringK, value));
        PropsThrow(js, value, props, 0, i);
      }
  }

  lemma {:induction false} SeparatedIn(js: Js5, p: Prop) returns (s: Schema)
    requires ShadowedIn(p)
    ensures Separates(js, s, p.value)
    decreases p
  {
    s := Separated(js, p.value);
  }

  lemma OrAny(js: Js5, s: Schema) returns (u: Schema)
    ensures u == UnionS([s, ANY]) && (ScalarKeys(s) ==> ScalarKeys(u))
    ensures forall y :: As(js, u, y).Some?
    ensures forall y :: Is(js, s, y).Throws? ==> Is(js, u, y).Throws?
  {
    u := UnionS([s, ANY]);
    forall y ensures As(js, u, y).Some? {
      AnyAccepts(js, y);
      AcceptsLater(js, [s, ANY], y, 1);
    }
  }

  // what the as-function accepts the is-function does not refuse: it answers yes, or throws
  lemma {:induction false} AllThrow(js: Js5, s: Schema, xs: seq<Js>, i: nat, j: nat)
    requires i <= j < |xs| && Separates(js, s, xs[j])
    ensures IsAll(js, s, xs, i).Throws?
    decreases j - i
  {
    ValidatorsAgree(js, s, xs[i]);
    if i < j { AllThrow(js, s, xs, i + 1, j); }
  }

  lemma {:induction false} PropsThrow(js: Js5, s: Schema, props: seq<Prop>, i: nat, j: nat)
    requires i <= j < |props| && Separates(js, s, props[j].value) && !Shadows(props)
    ensures IsProps(js, StringK, s, props, i).Throws?
    decreases j - i
  {
    ValidatorsAgree(js, s, props[i].value);
    if i < j { PropsThrow(js, s, props, i + 1, j); }
  }

  // the is-function succeeds just when the as-function does not throw
  predicate SameVerdict(js: Js5, s: Schema, x: Js) {
    Is(js, s, x).Yes? <==> As(js, s, x).Some?
  }

  /** The exact condition on a value, for schemas without array or object literals
      as keys: for all of them the is-function succeeds just when the as-function
      does not throw, if and only if no object in it has a property that hides
      hasOwnProperty. */
  lemma {:induction false} ScalarKeysAgreeExactly(js: Js5, x: Js)
    ensures (forall s: Schema :: ScalarKeys(s) ==> SameVerdict(js, s, x)) <==> !Shadowed(x)
  {
    if Shadowed(x) {
      var s := Separated(js, x);
      assert ScalarKeys(s) && !SameVerdict(js, s, x);
    } else {
      forall s: Schema | ScalarKeys(s) ensures SameVerdict(js, s, x) { ValidatorsAgree(js, s, x); }
    }
  }

  // ---- literal keys that are arrays or objects

  // the objects that JSON.parse gives have distinct names
  ghost predicate ParsesProperly(js: Js5) {
    forall t: string :: js.parse(t).Some? ==> ProperJs(js.parse(t).value)
  }

  // a schema that x's is-function does not say yes to, while its as-functions take all that hides nothing
  ghost predicate Refuses(js: Js5, s: Schema, x: Js) {
    !Is(js, s, x).Yes? && forall y :: !Shadowed(y) ==> As(js, s, y).Some?
  }

  // the literal that the name is the text of, and all other names
  function KeyApart(js: Js5, name: string): Key
    requires ReadsContainer(js, name)
  {
    UnionK([LiteralK(js.parse(name).value), PatternK(y => y != name)])
  }

  lemma {:induction false} KeyApartDiffers(js: Js5, name: string)
    requires ParsesProperly(js) && ReadsContainer(js, name)
    ensures !IsKey(js, KeyApart(js, name), name) && forall y :: !FailsKey(js, KeyApart(js, name), y)
  {
    var k := KeyApart(js, name);
    var v := js.parse(name).value;
    SameAsItself(v);
    forall y ensures !FailsKey(js, k, y) {
      if y == name { assert !FailsKey(js, k.alternatives[0], y); } else { assert !FailsKey(js, k.alternatives[1], y); }
    }
  }

  // an is-function of a union says yes only if that of some alternative does
  lemma {:induction false} FirstRefuses(js: Js5, ss: seq<Schema>, x: Js)
    requires forall i :: 0 <= i < |ss| ==> !Is(js, ss[i], x).Yes?
    ensures !IsFirst(js, ss, x).Yes?
  {
    if ss != [] {
      assert forall i :: 0 <= i < |ss[1..]| ==> ss[1..][i] == ss[i + 1];
      FirstRefuses(js, ss[1..], x);
    }
  }

  lemma {:induction false} AllRefuse(js: Js5, s: Schema, xs: seq<Js>, i: nat, j: nat)
    requires i <= j < |xs| && !Is(js, s, xs[j]).Yes?
    ensures !IsAll(js, s, xs, i).Yes?
    decreases j - i
  {
    if i < j { AllRefuse(js, s, xs, i + 1, j); }
  }

  lemma {:induction false} AllAccept(js: Js5, s: Schema, xs: seq<Js>, i: nat)
    requires i <= |xs| && forall k :: i <= k < |xs| ==> As(js, s, xs[k]).Some?
    ensures AsAll(js, s, xs, i).Some?
    decreases |xs| - i
  {
    if i < |xs| { AllAccept(js, s, xs, i + 1); }
  }

  lemma {:induction false} PropsRefuse(js: Js5, k: Key, s: Schema, props: seq<Prop>, i: nat, j: nat)
    requires i <= j < |props| && !(IsKey(js, k, props[j].name) && Is(js, s, props[j].value).Yes?)
    ensures !IsProps(js, k, s, props, i).Yes?
    decreases j - i
  {
    if i < j { PropsRefuse(js, k, s, props, i + 1, j); }
  }

  lemma {:induction false} PropsAccept(js: Js5, k: Key, s: Schema, props: seq<Prop>, i: nat)
    requires i <= |props| && !Shadows(props) && forall y :: !FailsKey(js, k, y)
    requires forall m :: i <= m < |props| ==> As(js, s, props[m].value).Some?
    ensures AsProps(js, k, s, props, i).Some?
    decreases |props| - i
  {
    if i < |props| { PropsAccept(js, k, s, props, i + 1); }
  }

  const SCALARS := [PrimS(StringP), PrimS(FloatP), PrimS(BoolP), PrimS(NullP)]

  // a list of items, or anything that is no array
  function ListOrOther(item: Schema): Schema {
    UnionS([ListS(item)] + SCALARS + [PrimS(AnyDictP)])
  }

  function DictOrOther(k: Key, value: Schema): Schema {
    UnionS([DictS(k, value)] + SCALARS + [PrimS(AnyListP)])
  }

  function Alternative(x: Js): nat {
    if x.JStr? then 1 else if x.JNum? then 2 else if x.JBool? then 3 else if x.JNull? then 4 else 5
  }

  lemma ListRefuses(js: Js5, item: Schema, items: seq<Js>, j: nat)
    requires j < |items| && Refuses(js, item, items[j])
    ensures Refuses(js, ListOrOther(item), JArr(items))
  {
    var ss := ListOrOther(item).alternatives;
    AllRefuse(js, item, items, 0, j);
    FirstRefuses(js, ss, JArr(items));
    forall y | !Shadowed(y) ensures As(js, UnionS(ss), y).Some? {
      if y.JArr? { AllAccept(js, item, y.items, 0); }
      AcceptsLater(js, ss, y, if y.JArr? then 0 else Alternative(y));
    }
  }

  lemma {:induction false} DictRefuses(js: Js5, k: Key, value: Schema, props: seq<Prop>, j: nat)
    requires j < |props| && !(IsKey(js, k, props[j].name) && Is(js, value, props[j].value).Yes?)
    requires (forall y :: !FailsKey(js, k, y)) && forall y :: !Shadowed(y) ==> As(js, value, y).Some?
    ensures Refuses(js, DictOrOther(k, value), JObj(props))
  {
    var ss := DictOrOther(k, value).alternatives;
    PropsRefuse(js, k, value, props, 0, j);
    FirstRefuses(js, ss, JObj(props));
    forall y | !Shadowed(y) ensures As(js, UnionS(ss), y).Some? {
      if y.JObj? {
        assert forall m :: 0 <= m < |y.props| ==> !ShadowedIn(y.props[m]);
        PropsAccept(js, k, value, y.props, 0);
      }
      AcceptsLater(js, ss, y, if y.JObj? then 0 else Alternative(y));
    }
  }

  /** If some property in x is named by the text of an array or object, some schema
      refuses x by its is-function and takes it by its as-function. */
  lemma {:induction false} Refused(js: Js5, x: Js) returns (s: Schema)
    requires ParsesProperly(js) && NamesContainers(js, x)
    ensures Refuses(js, s, x)
    decreases x
  {
    match x
    case JArr(items) =>
      var j :| 0 <= j < |items| && NamesContainers(js, items[j]);
      var item := Refused(js, items[j]);
      ListRefuses(js, item, items, j);
      s := ListOrOther(item);
    case JObj(props) =>
      var j :| 0 <= j < |props| && NamesContainersIn(js, props[j]);
      if ReadsContainer(js, props[j].name) {
        KeyApartDiffers(js, props[j].name);
        forall y ensures As(js, ANY, y).Some? { AnyAccepts(js, y); }
        DictRefuses(js, KeyApart(js, props[j].name), ANY, props, j);
        s := DictOrOther(KeyApart(js, props[j].name), ANY);
      } else {
        var value := RefusedIn(js, props[j]);
        DictRefuses(js, StringK, value, props, j);
        s := DictOrOther(StringK, value);
      }
  }

  lemma {:induction false} RefusedIn(js: Js5, p: Prop) returns (s: Schema)
    requires ParsesProperly(js) && NamesContainers(js, p.value)
    ensures Refuses(js, s, p.value)
    decreases p
  {
    s := Refused(js, p.value);
  }

  /** The exact condition on a value, for all schemas: the is-functions succeed just
      when the as-functions do not throw, if and only if no object in it has a
      property that hides hasOwnProperty, or one named by the text of an array or
      object. */
  lemma {:induction false} AgreeOnValueExactly(js: Js5, x: Js)
    requires ParsesProperly(js)
    ensures (forall s: Schema :: SameVerdict(js, s, x)) <==> !Shadowed(x) && !NamesContainers(js, x)
  {
    if Shadowed(x) {
      var s := Separated(js, x);
      assert !SameVerdict(js, s, x);
    } else if NamesContainers(js, x) {
      var s := Refused(js, x);
      assert !SameVerdict(js, s, x);
    } else {
      forall s: Schema ensures SameVerdict(js, s, x) { ValidatorsAgree(js, s, x); }
    }
  }

  /** Such a schema and value: a dict keyed by the literal [] and an object with the property "[]". */
  lemma {:induction false} ListKeysDiffer(js: Js5, r: real)
    requires js.parse("[]") == Some(JArr([]))
    ensures var s := DictS(LiteralK(JArr([])), PrimS(FloatP));
      var x := JObj([Prop("[]", JNum(r))]);
      Is(js, s, x) == No && As(js, s, x) == Some([])
  {
    var x := JObj([Prop("[]", JNum(r))]);
    assert "[]" != HAS_OWN by { assert |HAS_OWN| == 14; }
    assert x.props[1..] == [];
    assert Find(x.props[1..], HAS_OWN).None?;
    assert !Shadows(x.props);
    assert IsProps(js, LiteralK(JArr([])), PrimS(FloatP), x.props, 0) == No;
    assert SameJs(JArr([]), JArr([]));
    assert AsProps(js, LiteralK(JArr([])), PrimS(FloatP), x.props, 1) == Some([]);
    assert Under(Field("[]"), []) + [] == [];
  }

  // no validator of objects inside, so that hasOwnProperty is never called
  predicate NoObjects(s: Schema)
    decreases s
  {
    match s
    case PrimS(_) => true
    case ListS(item) => NoObjects(item)
    case TupleS(items) => forall i :: 0 <= i < |items| ==> NoObjects(items[i])
    case UnionS(alternatives) => forall i :: 0 <= i < |alternatives| ==> NoObjects(alternatives[i])
    case DictS(_, _) => false
    case ClassS(_) => false
  }

  // in every union, objects are looked into by the last alternative only
  predicate ObjectsLast(s: Schema)
    decreases s
  {
    match s
    case PrimS(_) => true
    case ListS(item) => ObjectsLast(item)
    case TupleS(items) => forall i :: 0 <= i < |items| ==> ObjectsLast(items[i])
    case UnionS(alternatives) =>
      forall i :: 0 <= i < |alternatives| ==>
        ObjectsLast(alternatives[i]) && (i < |alternatives| - 1 ==> NoObjects(alternatives[i]))
    case DictS(_, value) => ObjectsLast(value)
    case ClassS(properties) => forall i :: 0 <= i < |properties| ==> ObjectsLastIn(properties[i])
  }

  predicate ObjectsLastIn(p: Property)
    decreases p
  {
    ObjectsLast(p.schema)
  }

  lemma {:induction false} NoObjectsNoKeys(s: Schema)
    requires NoObjects(s)
    ensures ScalarKeys(s)
    decreases s
  {
    match s
    case PrimS(_) =>
    case ListS(item) => NoObjectsNoKeys(item);
    case TupleS(items) => forall i | 0 <= i < |items| ensures ScalarKeys(items[i]) { NoObjectsNoKeys(items[i]); }
    case UnionS(ss) => forall i | 0 <= i < |ss| ensures ScalarKeys(ss[i]) { NoObjectsNoKeys(ss[i]); }
  }

  lemma {:induction false} NoObjectsNoThrow(js: Js5, s: Schema, x: Js)
    requires NoObjects(s)
    ensures !Is(js, s, x).Throws?
    decreases s, 0, 0
  {
    match s
    case PrimS(_) =>
    case ListS(item) => if x.JArr? { AllNoThrow(js, item, x.items, 0); }
    case TupleS(items) =>
      if x.JArr? {
        if |items| == 1 {
          AllNoThrow(js, items[0], x.items, 0);
        } else if |x.items| == |items| {
          EachNoThrow(js, items, x.items, 0);
        }
      }
    case UnionS(alternatives) => FirstNoThrow(js, alternatives, x);
  }

  lemma {:induction false} AllNoThrow(js: Js5, s: Schema, xs: seq<Js>, i: nat)
    requires i <= |xs| && NoObjects(s)
    ensures !IsAll(js, s, xs, i).Throws?
    decreases s, 1, |xs| - i
  {
    if i < |xs| { NoObjectsNoThrow(js, s, xs[i]); AllNoThrow(js, s, xs, i + 1); }
  }

  lemma {:induction false} EachNoThrow(js: Js5, ss: seq<Schema>, xs: seq<Js>, i: nat)
    requires i <= |xs| == |ss| && forall i :: 0 <= i < |ss| ==> NoObjects(ss[i])
    ensures !IsEach(js, ss, xs, i).Throws?
    decreases ss, 1, |xs| - i
  {
    if i < |xs| { NoObjectsNoThrow(js, ss[i], xs[i]); EachNoThrow(js, ss, xs, i + 1); }
  }

  lemma {:induction false} FirstNoThrow(js: Js5, ss: seq<Schema>, x: Js)
    requires forall i :: 0 <= i < |ss| ==> NoObjects(ss[i])
    ensures !IsFirst(js, ss, x).Throws?
    decreases ss, 1, 0
  {
    if ss != [] { NoObjectsNoThrow(js, ss[0], x); FirstNoThrow(js, ss[1..], x); }
  }

  /** A condition on the schema, for every value whatever its objects hide: where
      unions look into objects last, or there are none, where the is-function
      throws the as-function does too. */
  lemma {:induction false} ThrowsAlike(js: Js5, s: Schema, x: Js)
    requires ObjectsLast(s)
    ensures Is(js, s, x).Throws? ==> As(js, s, x).None?
    decreases s, 0, 0
  {
    match s
    case PrimS(_) =>
    case ListS(item) => if x.JArr? { AllThrowAlike(js, item, x.items, 0); }
    case TupleS(items) =>
      if x.JArr? {
        if |items| == 1 {
          AllThrowAlike(js, items[0], x.items, 0);
        } else if |x.items| == |items| {
          EachThrowAlike(js, items, x.items, 0);
        }
      }
    case UnionS(alternatives) => FirstThrowAlike(js, alternatives, x);
    case DictS(key, value) => if x.JObj? { PropsThrowAlike(js, key, value, x.props, 0); }
    case ClassS(properties) => if x.JObj? { PropertiesThrowAlike(js, properties, x.props); }
  }

  lemma {:induction false} AllThrowAlike(js: Js5, s: Schema, xs: seq<Js>, i: nat)
    requires i <= |xs| && ObjectsLast(s)
    ensures IsAll(js, s, xs, i).Throws? ==> AsAll(js, s, xs, i).None?
    decreases s, 1, |xs| - i
  {
    if i < |xs| { ThrowsAlike(js, s, xs[i]); AllThrowAlike(js, s, xs, i + 1); }
  }

  lemma {:induction false} EachThrowAlike(js: Js5, ss: seq<Schema>, xs: seq<Js>, i: nat)
    requires i <= |xs| == |ss| && forall i :: 0 <= i < |ss| ==> ObjectsLast(ss[i])
    ensures IsEach(js, ss, xs, i).Throws? ==> AsEach(js, ss, xs, i).None?
    decreases ss, 1, |xs| - i
  {
    if i < |xs| { ThrowsAlike(js, ss[i], xs[i]); EachThrowAlike(js, ss, xs, i + 1); }
  }

  lemma {:induction false} FirstThrowAlike(js: Js5, ss: seq<Schema>, x: Js)
    requires ObjectsLast(UnionS(ss))
    ensures IsFirst(js, ss, x).Throws? ==> AsFirst(js, ss, x).None?
    decreases ss, 1, 0
  {
    if ss != [] {
      ThrowsAlike(js, ss[0], x);
      ValidatorsAgree(js, ss[0], x);
      if |ss| > 1 {
        NoObjectsNoKeys(ss[0]);
        NoObjectsNoThrow(js, ss[0], x);
        assert forall i :: 0 <= i < |ss[1..]| ==> ss[1..][i] == ss[i + 1];
        FirstThrowAlike(js, ss[1..], x);
      } else {
        assert ss[1..] == [] && AsFirst(js, ss[1..], x).None? && IsFirst(js, ss[1..], x).No?;
      }
    }
  }

  lemma {:induction false} PropsThrowAlike(js: Js5, key: Key, s: Schema, props: seq<Prop>, i: nat)
    requires i <= |props| && ObjectsLast(s)
    ensures IsProps(js, key, s, props, i).Throws? ==> AsProps(js, key, s, props, i).None?
    decreases s, 1, |props| - i
  {
    if i < |props| { ThrowsAlike(js, s, props[i].value); PropsThrowAlike(js, key, s, props, i + 1); }
  }

  lemma {:induction false} PropertiesThrowAlike(js: Js5, ps: seq<Property>, props: seq<Prop>)
    requires forall i :: 0 <= i < |ps| ==> ObjectsLastIn(ps[i])
    ensures IsProperties(js, ps, props).Throws? ==> AsProperties(js, ps, props).None?
    decreases ps, 1, 0
  {
    if ps != [] {
      PropertyThrowsAlike(js, ps[0], props);
      PropertiesThrowAlike(js, ps[1..], props);
    }
  }

  lemma {:induction false} PropertyThrowsAlike(js: Js5, p: Property, props: seq<Prop>)
    requires ObjectsLastIn(p)
    ensures IsProperty(js, p, props).Throws? ==> AsProperty(js, p, props).None?
    decreases p, 2, 0
  {
    if !Shadows(props) && Find(props, p.name).Some? { ThrowsAlike(js, p.schema, Find(props, p.name).value); }
  }

  /** So for such schemas, literal keys being no arrays or objects, the is-function
      succeeds just when the as-function does not throw, on every value. */
  lemma {:induction false} AgreeOnSchema(js: Js5, s: Schema, x: Js)
    requires ObjectsLast(s) && ScalarKeys(s)
    ensures SameVerdict(js, s, x)
  {
    ThrowsAlike(js, s, x);
    ValidatorsAgree(js, s, x);
  }

  /** Where that happens in a union the two may differ: the as-function goes on to
      the next alternative, the is-function's exception ends it all. */
  lemma {:induction false} UnionsMayDiffer(js: Js5, v: Js)
    ensures var s := UnionS([ClassS([Property("a", PrimS(NullP), None)]), PrimS(AnyDictP)]);
      var x := JObj([Prop(HAS_OWN, v)]);
      Is(js, s, x).Throws? && As(js, s, x) == Some([])
  {
    var c := ClassS([Property("a", PrimS(NullP), None)]);
    var x := JObj([Prop(HAS_OWN, v)]);
    assert Is(js, c, x).Throws? && As(js, c, x).None?;
    var ss := [c, PrimS(AnyDictP)];
    assert ss[1..] == [PrimS(AnyDictP)];
    assert AsFirst(js, ss[1..], x) == Some([]);
  }
}
