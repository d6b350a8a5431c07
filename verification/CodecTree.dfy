/** The codecs of xju/json_codec.py: trees over Python values and JSON, with
    references back to enclosing codecs. */
module CodecTree {
  import opened Wrappers
  import opened Decimals

  // ---- Python values, and JSON as Python has it before json.dumps

  datatype Value =
    | NoneV
    | BoolV(b: bool)
    | IntV(i: int)
    | FloatV(r: real)
    | StrV(s: string)
    | BytesV(bytes: seq<int>)
    | ListV(items: seq<Value>)
    | TupleV(items: seq<Value>)
    | SetV(items: seq<Value>)                 // a set or frozenset, in the order it is iterated
    | DictV(entries: seq<Entry>)
    | NewV(t: string, kind: Kind, base: Value)    // an xju.newtype.Int, Float or Str of class t
    | EnumV(t: string, name: string)
    | ObjV(t: string, attrs: seq<Attr>)

  datatype Entry = Entry(key: Value, value: Value)
  datatype Attr = Attr(name: string, value: Value)

  datatype Json =
    | JNull
    | JBool(b: bool)
    | JInt(i: int)
    | JFloat(r: real)
    | JStr(s: string)
    | JList(items: seq<Json>)
    | JObj(entries: seq<Member>)

  datatype Member = Member(key: Json, value: Json)

  // ---- codecs

  datatype Kind = IntK | FloatK | StrK | BoolK

  // codecs of values that can be dict keys
  datatype Atom =
    | Noop(kind: Kind)
    | NoneA
    | New(t: string, kind: Kind)
    | Literal(value: Value)
    | EnumA(t: string, members: seq<Enumerator>)

  datatype Enumerator = Enumerator(name: string, value: Value)

  datatype Codec =
    | AtomC(a: Atom)
    | BytesC
    | ListC(item: Codec)
    | SetC(item: Codec)
    | TupleC(codecs: seq<Codec>)
    | UnionC(codecs: seq<Codec>)
    | DictC(keys: seq<Atom>, value: Codec)    // several keys for a union of key types
    | ClassC(t: string, attrs: seq<AttrCodec>)
    | BackRefC(id: nat)

  datatype AttrCodec = AttrCodec(name: string, encodedName: string, codec: Codec, default: Option<Value>)

  /** What codecs refer to: the table resolves back-references, rank tells how deep
      a reference may be followed without going into a part of the value; dumped says
      whether what is encoded is written and read as JSON text before it is decoded.
      The rest is Python's: json.loads on texts other than null, true, false and integers,
      repr and rounding of floats, and the patterns of string types. */
  datatype Env = Env(
    table: map<nat, Codec>, rank: nat -> nat, top: nat, dumped: bool,
    loads: string -> Option<Json>, repr: real -> string, round: int -> real, fits: (string, string) -> bool)

  // ---- numbers as text

  function IntText(i: int): string {
    if i < 0 then "-" + Decimal(-i) else Decimal(i)
  }

  function Unsigned(s: string): string {
    if s != "" && s[0] == '-' then s[1..] else s
  }

  // an integer has no leading zeros
  predicate IsIntText(s: string) {
    Unsigned(s) != "" && (forall i :: 0 <= i < |Unsigned(s)| ==> IsDigit(Unsigned(s)[i])) &&
    (Unsigned(s)[0] != '0' || |Unsigned(s)| == 1)
  }

  function ParseInt(s: string): int
    requires IsIntText(s)
  {
    if s[0] == '-' then 0 - Number(Unsigned(s)) else Number(Unsigned(s))
  }

  lemma ParseIntText(i: int)
    ensures IsIntText(IntText(i)) && ParseInt(IntText(i)) == i
  {
    var n := if i < 0 then -i else i;
    DecimalStart(n);
    NumberOfDecimal(n);
    if i < 0 {
      assert Unsigned(IntText(i)) == Decimal(n);
    } else {
      assert IsDigit(Decimal(n)[0]);
    }
  }

  // json.loads on the text of a key
  function Loads(e: Env, s: string): Option<Json> {
    if s == "null" then Some(JNull)
    else if s == "true" then Some(JBool(true))
    else if s == "false" then Some(JBool(false))
    else if IsIntText(s) then Some(JInt(ParseInt(s)))
    else e.loads(s)
  }

  // what json.dumps makes of a key
  function KeyText(e: Env, k: Json): string {
    match k
    case JStr(s) => s
    case JInt(i) => IntText(i)
    case JBool(b) => if b then "true" else "false"
    case JFloat(r) => e.repr(r)
    case _ => "null"
  }

  // ---- equality: in Python 1 == 1.0 == True

  function Canon(v: Value): Value {
    match v
    case IntV(i) => FloatV(i as real)
    case BoolV(b) => FloatV(if b then 1.0 else 0.0)
    case ListV(items) => ListV(Canons(items))
    case TupleV(items) => TupleV(Canons(items))
    case SetV(items) => SetV(Canons(items))
    case DictV(entries) => DictV(CanonEntries(entries))
    case NewV(t, k, base) => NewV(t, k, Canon(base))
    case ObjV(t, attrs) => ObjV(t, CanonAttrs(attrs))
    case _ => v
  }

  function Canons(items: seq<Value>): seq<Value> {
    if items == [] then [] else [Canon(items[0])] + Canons(items[1..])
  }

  function CanonEntries(entries: seq<Entry>): seq<Entry> {
    if entries == [] then [] else [CanonEntry(entries[0])] + CanonEntries(entries[1..])
  }

  function CanonEntry(x: Entry): Entry {
    Entry(Canon(x.key), Canon(x.value))
  }

  function CanonAttrs(attrs: seq<Attr>): seq<Attr> {
    if attrs == [] then [] else [Attr(attrs[0].name, Canon(attrs[0].value))] + CanonAttrs(attrs[1..])
  }

  predicate Equal(v: Value, w: Value) {
    Canon(v) == Canon(w)
  }

  predicate SameKey(j: Json, k: Json) {
    match (j, k)
    case (JStr(s), JStr(t)) => s == t
    case (JNull, JNull) => true
    case _ => NumberOf(j).Some? && NumberOf(j) == NumberOf(k)
  }

  function NumberOf(j: Json): Option<real> {
    match j
    case JInt(i) => Some(i as real)
    case JBool(b) => Some(if b then 1.0 else 0.0)
    case JFloat(r) => Some(r)
    case _ => None
  }

  // d[k] = v: a key that is there stays, with the new value
  function Put(d: seq<Member>, k: Json, v: Json): seq<Member> {
    if d == [] then [Member(k, v)]
    else if SameKey(d[0].key, k) then [Member(d[0].key, v)] + d[1..]
    else [d[0]] + Put(d[1..], k, v)
  }

  function PutEntry(d: seq<Entry>, k: Value, v: Value): seq<Entry> {
    if d == [] then [Entry(k, v)]
    else if Equal(d[0].key, k) then [Entry(d[0].key, v)] + d[1..]
    else [d[0]] + PutEntry(d[1..], k, v)
  }

  // ---- what is decoded: j itself, or json.loads(json.dumps(j)), where all keys are strings

  function Reload(e: Env, j: Json): Json
    decreases j
  {
    match j
    case JList(items) => JList(ReloadAll(e, items))
    case JObj(entries) => JObj(if e.dumped then ReloadMembers(e, [], entries) else ReloadEach(e, entries))
    case _ => j
  }

  function ReloadAll(e: Env, items: seq<Json>): seq<Json>
    decreases items
  {
    if items == [] then [] else [Reload(e, items[0])] + ReloadAll(e, items[1..])
  }

  function ReloadEach(e: Env, entries: seq<Member>): (r: seq<Member>)
    ensures |r| == |entries| && forall i :: 0 <= i < |r| ==> r[i] == ReloadMember(e, entries[i])
    decreases entries
  {
    if entries == [] then [] else [ReloadMember(e, entries[0])] + ReloadEach(e, entries[1..])
  }

  function ReloadMembers(e: Env, d: seq<Member>, entries: seq<Member>): seq<Member>
    decreases entries
  {
    if entries == [] then d else
      var x := ReloadMember(e, entries[0]);
      ReloadMembers(e, Put(d, x.key, x.value), entries[1..])
  }

  function ReloadMember(e: Env, x: Member): Member
    decreases x
  {
    Member(ReloadKey(e, x.key), Reload(e, x.value))
  }

  function ReloadKey(e: Env, k: Json): Json {
    if e.dumped then JStr(KeyText(e, k)) else k
  }

  lemma {:induction false} DirectIsItself(e: Env, j: Json)
    requires !e.dumped
    ensures Reload(e, j) == j
    decreases j
  {
    match j
    case JList(items) => DirectAll(e, items);
    case JObj(entries) =>
      forall i | 0 <= i < |entries| ensures ReloadEach(e, entries)[i] == entries[i] {
        DirectIsItself(e, entries[i].value);
      }
      assert ReloadEach(e, entries) == entries;
    case _ =>
  }

  lemma {:induction false} DirectAll(e: Env, items: seq<Json>)
    requires !e.dumped
    ensures ReloadAll(e, items) == items
    decreases items
  {
    if items != [] {
      DirectIsItself(e, items[0]);
      DirectAll(e, items[1..]);
    }
  }

  // ---- atoms

  function EncodePlain(k: Kind, v: Value): Option<Json> {
    match (k, v)
    case (IntK, IntV(i)) => Some(JInt(i))
    case (FloatK, FloatV(r)) => Some(JFloat(r))
    case (FloatK, IntV(i)) => Some(JInt(i))
    case (StrK, StrV(s)) => Some(JStr(s))
    case (BoolK, BoolV(b)) => Some(JBool(b))
    case _ => None
  }

  function DecodePlain(e: Env, k: Kind, j: Json): Option<Value> {
    match (k, j)
    case (IntK, JInt(i)) => Some(IntV(i))
    case (FloatK, JFloat(r)) => Some(FloatV(r))
    case (FloatK, JInt(i)) => Some(FloatV(e.round(i)))
    case (StrK, JStr(s)) => Some(StrV(s))
    case (BoolK, JBool(b)) => Some(BoolV(b))
    case _ => None
  }

  // values json.dumps has a text for
  function Plain(v: Value): Option<Json> {
    match v
    case NoneV => Some(JNull)
    case BoolV(b) => Some(JBool(b))
    case IntV(i) => Some(JInt(i))
    case FloatV(r) => Some(JFloat(r))
    case StrV(s) => Some(JStr(s))
    case _ => None
  }

  // the codec of the value's own type
  function DecodeLike(e: Env, v: Value, j: Json): Option<Value> {
    match v
    case NoneV => if j == JNull then Some(NoneV) else None
    case BoolV(_) => DecodePlain(e, BoolK, j)
    case IntV(_) => DecodePlain(e, IntK, j)
    case FloatV(_) => DecodePlain(e, FloatK, j)
    case StrV(_) => DecodePlain(e, StrK, j)
    case _ => None
  }

  function Find(members: seq<Enumerator>, name: string): Option<Value> {
    if members == [] then None
    else if members[0].name == name then Some(members[0].value)
    else Find(members[1..], name)
  }

  // the first enumerator that j is the value of
  function DecodeEnum(e: Env, t: string, members: seq<Enumerator>, j: Json): Option<Value> {
    if members == [] then None else
      var w := DecodeLike(e, members[0].value, j);
      if w.Some? && Equal(w.value, members[0].value) then Some(EnumV(t, members[0].name))
      else DecodeEnum(e, t, members[1..], j)
  }

  function EncodeAtom(a: Atom, v: Value): Option<Json> {
    match a
    case Noop(k) => EncodePlain(k, v)
    case NoneA => if v == NoneV then Some(JNull) else None
    // an Int, Float or Str of any class
    case New(_, k) => if v.NewV? && v.kind == k then EncodePlain(k, v.base) else None
    case Literal(x) => if v == x then Plain(v) else None
    case EnumA(t, members) =>
      if v.EnumV? && v.t == t && Find(members, v.name).Some? then Plain(Find(members, v.name).value) else None
  }

  function DecodeAtom(e: Env, a: Atom, j: Json): Option<Value> {
    match a
    case Noop(k) => DecodePlain(e, k, j)
    case NoneA => if j == JNull then Some(NoneV) else None
    case New(t, k) =>
      var w := DecodePlain(e, k, j);
      if w.None? || (w.value.StrV? && !e.fits(t, w.value.s)) then None else Some(NewV(t, k, w.value))
    case Literal(x) => if Plain(x) == Some(j) then Some(x) else None
    case EnumA(t, members) => DecodeEnum(e, t, members, j)
  }

  // a union of key types is tried in order
  function EncodeKey(keys: seq<Atom>, v: Value): Option<Json> {
    if keys == [] then None
    else if EncodeAtom(keys[0], v).Some? then EncodeAtom(keys[0], v)
    else EncodeKey(keys[1..], v)
  }

  function DecodeKeyFrom(e: Env, keys: seq<Atom>, j: Json): Option<Value> {
    if keys == [] then None
    else if DecodeAtom(e, keys[0], j).Some? then DecodeAtom(e, keys[0], j)
    else DecodeKeyFrom(e, keys[1..], j)
  }

  predicate StringKeys(keys: seq<Atom>) {
    |keys| == 1 && (keys[0] == Noop(StrK) || (keys[0].New? && keys[0].kind == StrK))
  }

  // decode_key: a text is first taken for JSON, and only then for itself
  function DecodeKey(e: Env, keys: seq<Atom>, j: Json): Option<Value> {
    if StringKeys(keys) || !j.JStr? then DecodeKeyFrom(e, keys, j)
    else
      var k := Loads(e, j.s);
      if k.Some? && DecodeKeyFrom(e, keys, k.value).Some? then DecodeKeyFrom(e, keys, k.value)
      else DecodeKeyFrom(e, keys, j)
  }

  // ---- encoding

  function Get(attrs: seq<Attr>, name: string): Option<Value> {
    if attrs == [] then None
    else if attrs[0].name == name then Some(attrs[0].value)
    else Get(attrs[1..], name)
  }

  lemma {:induction false} GetSome(attrs: seq<Attr>, name: string)
    ensures Get(attrs, name).Some? ==> exists i :: 0 <= i < |attrs| && Get(attrs, name).value == attrs[i].value
  {
    if attrs != [] && attrs[0].name != name {
      GetSome(attrs[1..], name);
      if Get(attrs, name).Some? {
        var i :| 0 <= i < |attrs[1..]| && Get(attrs[1..], name).value == attrs[1..][i].value;
        assert attrs[i + 1].value == attrs[1..][i].value;
      }
    }
  }

  function Encode(e: Env, c: Codec, v: Value, n: nat): Option<Json>
    decreases v, n, c
  {
    match c
    case AtomC(a) => EncodeAtom(a, v)
    case BytesC => if v.BytesV? then Some(JList(Ints(v.bytes))) else None
    case ListC(item) => if v.ListV? then List(EncodeAll(e, item, v.items)) else None
    case SetC(item) => if v.SetV? then List(EncodeAll(e, item, v.items)) else None
    case TupleC(cs) =>
      if !v.TupleV? then None
      else if |cs| == 1 then List(EncodeAll(e, cs[0], v.items))
      else if |v.items| != |cs| then None
      else List(EncodeEach(e, cs, v.items))
    case UnionC(cs) => EncodeFirst(e, cs, v, n)
    case DictC(keys, vc) => if v.DictV? then Dict(EncodeEntries(e, keys, vc, [], v.entries)) else None
    case ClassC(t, attrs) => if v.ObjV? && v.t == t then Dict(EncodeAttrs(e, attrs, [], v)) else None
    case BackRefC(id) =>
      if id in e.table && e.rank(id) < n then Encode(e, e.table[id], v, e.rank(id)) else None
  }

  function List(items: Option<seq<Json>>): Option<Json> {
    if items.Some? then Some(JList(items.value)) else None
  }

  function Dict(entries: Option<seq<Member>>): Option<Json> {
    if entries.Some? then Some(JObj(entries.value)) else None
  }

  function Ints(bytes: seq<int>): seq<Json> {
    seq(|bytes|, i requires 0 <= i < |bytes| => JInt(bytes[i]))
  }

  function EncodeAll(e: Env, c: Codec, items: seq<Value>): Option<seq<Json>>
    decreases items
  {
    if items == [] then Some([]) else
      var j := Encode(e, c, items[0], e.top);
      var rest := EncodeAll(e, c, items[1..]);
      if j.None? || rest.None? then None else Some([j.value] + rest.value)
  }

  function EncodeEach(e: Env, cs: seq<Codec>, items: seq<Value>): Option<seq<Json>>
    requires |cs| == |items|
    decreases items
  {
    if items == [] then Some([]) else
      var j := Encode(e, cs[0], items[0], e.top);
      var rest := EncodeEach(e, cs[1..], items[1..]);
      if j.None? || rest.None? then None else Some([j.value] + rest.value)
  }

  function EncodeFirst(e: Env, cs: seq<Codec>, v: Value, n: nat): Option<Json>
    decreases v, n, cs
  {
    if cs == [] then None else
      var j := Encode(e, cs[0], v, n);
      if j.Some? then j else EncodeFirst(e, cs[1..], v, n)
  }

  function EncodeEntries(e: Env, keys: seq<Atom>, vc: Codec, d: seq<Member>, entries: seq<Entry>): Option<seq<Member>>
    decreases entries
  {
    if entries == [] then Some(d) else
      var x := EncodeEntry(e, keys, vc, entries[0]);
      if x.None? then None else EncodeEntries(e, keys, vc, Put(d, x.value.key, x.value.value), entries[1..])
  }

  function EncodeEntry(e: Env, keys: seq<Atom>, vc: Codec, x: Entry): Option<Member>
    decreases x
  {
    var k := EncodeKey(keys, x.key);
    var j := Encode(e, vc, x.value, e.top);
    if k.None? || j.None? then None else Some(Member(k.value, j.value))
  }

  function EncodeAttrs(e: Env, attrs: seq<AttrCodec>, d: seq<Member>, v: Value): Option<seq<Member>>
    requires v.ObjV?
    decreases v, 0, attrs
  {
    if attrs == [] then Some(d) else
      var a := attrs[0];
      var x := Get(v.attrs, a.name);
      if x.None? then None else
        GetSome(v.attrs, a.name);
        var j := Encode(e, a.codec, x.value, e.top);
        if j.None? then None
        else EncodeAttrs(e, attrs[1..], Put(d, JStr(a.encodedName), j.value), v)
  }

  // ---- decoding

  function Decode(e: Env, c: Codec, j: Json, n: nat): Option<Value>
    decreases j, n, c
  {
    match c
    case AtomC(a) => DecodeAtom(e, a, j)
    case BytesC => if j.JList? && AreBytes(j.items) then Some(BytesV(ToInts(j.items))) else None
    case ListC(item) => if j.JList? then Listed(DecodeAll(e, item, j.items)) else None
    case SetC(item) =>
      if !j.JList? then None else
        var items := DecodeAll(e, item, j.items);
        if items.None? || !Different(items.value) then None else Some(SetV(items.value))
    case TupleC(cs) =>
      if !j.JList? then None
      else if |cs| == 1 then Tupled(DecodeAll(e, cs[0], j.items))
      else if |j.items| != |cs| then None
      else Tupled(DecodeEach(e, cs, j.items))
    case UnionC(cs) => DecodeFirst(e, cs, j, n)
    case DictC(keys, vc) =>
      if !j.JObj? then None else
        var entries := DecodeEntries(e, keys, vc, [], j.entries);
        if entries.None? then None else Some(DictV(entries.value))
    case ClassC(t, attrs) =>
      var values := DecodeAttrs(e, attrs, j);
      if values.None? then None else Some(ObjV(t, values.value))
    case BackRefC(id) =>
      if id in e.table && e.rank(id) < n then Decode(e, e.table[id], j, e.rank(id)) else None
  }

  function Listed(items: Option<seq<Value>>): Option<Value> {
    if items.Some? then Some(ListV(items.value)) else None
  }

  function Tupled(items: Option<seq<Value>>): Option<Value> {
    if items.Some? then Some(TupleV(items.value)) else None
  }

  predicate AreBytes(items: seq<Json>) {
    forall i :: 0 <= i < |items| ==> items[i].JInt? && 0 <= items[i].i < 256
  }

  function ToInts(items: seq<Json>): seq<int>
    requires AreBytes(items)
  {
    seq(|items|, i requires 0 <= i < |items| => items[i].i)
  }

  // len(set(items)) == len(items)
  predicate Different(items: seq<Value>) {
    forall i, j :: 0 <= i < j < |items| ==> !Equal(items[i], items[j])
  }

  function DecodeAll(e: Env, c: Codec, items: seq<Json>): Option<seq<Value>>
    decreases items
  {
    if items == [] then Some([]) else
      var v := Decode(e, c, items[0], e.top);
      var rest := DecodeAll(e, c, items[1..]);
      if v.None? || rest.None? then None else Some([v.value] + rest.value)
  }

  function DecodeEach(e: Env, cs: seq<Codec>, items: seq<Json>): Option<seq<Value>>
    requires |cs| == |items|
    decreases items
  {
    if items == [] then Some([]) else
      var v := Decode(e, cs[0], items[0], e.top);
      var rest := DecodeEach(e, cs[1..], items[1..]);
      if v.None? || rest.None? then None else Some([v.value] + rest.value)
  }

  function DecodeFirst(e: Env, cs: seq<Codec>, j: Json, n: nat): Option<Value>
    decreases j, n, cs
  {
    if cs == [] then None else
      var v := Decode(e, cs[0], j, n);
      if v.Some? then v else DecodeFirst(e, cs[1..], j, n)
  }

  function DecodeEntries(e: Env, keys: seq<Atom>, vc: Codec, d: seq<Entry>, entries: seq<Member>): Option<seq<Entry>>
    decreases entries
  {
    if entries == [] then Some(d) else
      var x := DecodeEntry(e, keys, vc, entries[0]);
      if x.None? then None else DecodeEntries(e, keys, vc, PutEntry(d, x.value.key, x.value.value), entries[1..])
  }

  function DecodeEntry(e: Env, keys: seq<Atom>, vc: Codec, x: Member): Option<Entry>
    decreases x
  {
    var k := DecodeKey(e, keys, x.key);
    var v := Decode(e, vc, x.value, e.top);
    if k.None? || v.None? then None else Some(Entry(k.value, v.value))
  }

  datatype Lookup = Absent | Present(value: Json) | TypeError

  // "name in x", and x[name]: on a list or a str it is the element or the substring that is looked for
  function Property(j: Json, name: string): Lookup {
    match j
    case JObj(entries) => InMembers(entries, name)
    case JStr(s) => if Occurs(name, s) then TypeError else Absent
    case JList(items) => if JStr(name) in items then TypeError else Absent
    case _ => TypeError
  }

  function InMembers(entries: seq<Member>, name: string): Lookup {
    if entries == [] then Absent
    else if entries[0].key == JStr(name) then Present(entries[0].value)
    else InMembers(entries[1..], name)
  }

  predicate Occurs(a: string, s: string) {
    exists i :: 0 <= i <= |s| && a <= s[i..]
  }

  lemma {:induction false} InMembersSome(entries: seq<Member>, name: string)
    ensures InMembers(entries, name).Present? ==>
              exists i :: 0 <= i < |entries| && InMembers(entries, name).value == entries[i].value
  {
    if entries != [] && entries[0].key != JStr(name) {
      InMembersSome(entries[1..], name);
      if InMembers(entries, name).Present? {
        var i :| 0 <= i < |entries[1..]| && InMembers(entries[1..], name).value == entries[1..][i].value;
        assert entries[i + 1].value == entries[1..][i].value;
      }
    }
  }

  lemma PropertyIsPart(j: Json, name: string)
    ensures Property(j, name).Present? ==>
              j.JObj? && exists i :: 0 <= i < |j.entries| && Property(j, name).value == j.entries[i].value
  {
    if j.JObj? { InMembersSome(j.entries, name); }
  }

  // the arguments of the class's constructor, each given or by default
  function DecodeAttrs(e: Env, attrs: seq<AttrCodec>, j: Json): Option<seq<Attr>>
    decreases j, 0, attrs
  {
    if attrs == [] then Some([]) else
      var a := attrs[0];
      var p := Property(j, a.encodedName);
      var rest := DecodeAttrs(e, attrs[1..], j);
      match p
      case TypeError => None
      case Absent => if a.default.None? || rest.None? then None else Some([Attr(a.name, a.default.value)] + rest.value)
      case Present(x) =>
        PropertyIsPart(j, a.encodedName);
        var v := Decode(e, a.codec, x, e.top);
        if v.None? || rest.None? then None else Some([Attr(a.name, v.value)] + rest.value)
  }
}
