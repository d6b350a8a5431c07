/** What the codecs of xju/json_codec.py encode decodes to an equal value, with
    or without json.dumps and json.loads in between; and where it does not. */
module CodecRoundTrip {
  import opened CodecTree
  import opened Wrappers
  import opened Decimals

  // ---- atoms

  ghost predicate Rounds(e: Env, k: Kind, v: Value) {
    k == FloatK && v.IntV? ==> e.round(v.i) == v.i as real
  }

  // no enumerator before that of this name is what j decodes to
  ghost predicate NoEarlier(e: Env, members: seq<Enumerator>, name: string, j: Json) {
    members != [] && members[0].name != name ==>
      (var w := DecodeLike(e, members[0].value, j); w.Some? ==> !Equal(w.value, members[0].value)) &&
      NoEarlier(e, members[1..], name, j)
  }

  /** What it takes for a value that an atom's codec encodes to come back. */
  ghost predicate FaithfulAtom(e: Env, a: Atom, v: Value) {
    match a
    case Noop(k) => Rounds(e, k, v)
    case New(t, k) =>
      v.NewV? ==> v.t == t && Rounds(e, k, v.base) && (v.base.StrV? ==> e.fits(t, v.base.s))
    case EnumA(t, members) =>
      v.EnumV? && Find(members, v.name).Some? && Plain(Find(members, v.name).value).Some? ==>
        NoEarlier(e, members, v.name, Plain(Find(members, v.name).value).value)
    case _ => true
  }

  lemma {:induction false} EnumComesBack(e: Env, t: string, members: seq<Enumerator>, name: string, j: Json)
    requires Find(members, name).Some? && Plain(Find(members, name).value) == Some(j)
    requires NoEarlier(e, members, name, j)
    ensures DecodeEnum(e, t, members, j) == Some(EnumV(t, name))
  {
    if members[0].name != name { EnumComesBack(e, t, members[1..], name, j); }
  }

  lemma AtomComesBack(e: Env, a: Atom, v: Value)
    requires EncodeAtom(a, v).Some? && FaithfulAtom(e, a, v)
    ensures DecodeAtom(e, a, EncodeAtom(a, v).value).Some?
    ensures Equal(DecodeAtom(e, a, EncodeAtom(a, v).value).value, v)
  {
    if a.EnumA? { EnumComesBack(e, a.t, a.members, v.name, EncodeAtom(a, v).value); }
  }

  /** The codec of a new type encodes any Int, Float or Str, but only gives back
      those of its own class, which fit its pattern and are not rounded. */
  lemma NewComesBackExactly(e: Env, t: string, k: Kind, v: Value)
    requires EncodeAtom(New(t, k), v).Some?
    ensures var w := DecodeAtom(e, New(t, k), EncodeAtom(New(t, k), v).value);
      w.Some? && Equal(w.value, v) <==> FaithfulAtom(e, New(t, k), v)
  {
    var w := DecodePlain(e, k, EncodePlain(k, v.base).value);
    assert Equal(w.value, v.base) <==> Rounds(e, k, v.base);
  }

  // ---- keys

  ghost predicate FaithfulFirstAtom(e: Env, keys: seq<Atom>, v: Value, j: Json) {
    keys != [] ==>
      if EncodeAtom(keys[0], v).Some? then FaithfulAtom(e, keys[0], v)
      else DecodeAtom(e, keys[0], j).None? && FaithfulFirstAtom(e, keys[1..], v, j)
  }

  /** What it takes for a key: as for a union; a text that is to be itself must not
      be read as JSON for some key, and a float's text, if it is written, must be read
      as that float. */
  ghost predicate FaithfulKey(e: Env, keys: seq<Atom>, v: Value) {
    EncodeKey(keys, v).Some? ==>
      (var k := EncodeKey(keys, v).value;
       FaithfulFirstAtom(e, keys, v, k) &&
       (k.JStr? && !StringKeys(keys) && Loads(e, k.s).Some? ==> DecodeKeyFrom(e, keys, Loads(e, k.s).value).None?) &&
       (k.JFloat? && e.dumped ==> Loads(e, e.repr(k.r)) == Some(k)))
  }

  lemma {:induction false} FirstAtomComesBack(e: Env, keys: seq<Atom>, v: Value)
    requires EncodeKey(keys, v).Some? && FaithfulFirstAtom(e, keys, v, EncodeKey(keys, v).value)
    ensures var w := DecodeKeyFrom(e, keys, EncodeKey(keys, v).value); w.Some? && Equal(w.value, v)
  {
    if EncodeAtom(keys[0], v).Some? {
      AtomComesBack(e, keys[0], v);
    } else {
      FirstAtomComesBack(e, keys[1..], v);
    }
  }

  lemma {:induction false} KeysAreScalars(keys: seq<Atom>, v: Value)
    ensures EncodeKey(keys, v).Some? ==> !EncodeKey(keys, v).value.JList? && !EncodeKey(keys, v).value.JObj?
    ensures StringKeys(keys) && EncodeKey(keys, v).Some? ==> EncodeKey(keys, v).value.JStr?
  {
    if keys != [] { KeysAreScalars(keys[1..], v); }
  }

  /** int, bool and None keys survive as text. */
  lemma TextIsReadBack(e: Env, k: Json)
    requires k.JInt? || k.JBool? || k.JNull?
    ensures Loads(e, KeyText(e, k)) == Some(k)
  {
    if k.JInt? {
      ParseIntText(k.i);
      IntIsNoWord(k.i);
    }
  }

  lemma IntIsNoWord(i: int)
    ensures IntText(i) != "null" && IntText(i) != "true" && IntText(i) != "false"
  {
    var s := IntText(i);
    assert s[0] == '-' || '0' <= s[0] <= '9' by {
      if i >= 0 { assert IsDigit(Decimal(i)[0]); }
    }
    assert "null"[0] == 'n' && "true"[0] == 't' && "false"[0] == 'f';
  }

  lemma {:induction false} KeyComesBack(e: Env, keys: seq<Atom>, v: Value)
    requires EncodeKey(keys, v).Some? && FaithfulKey(e, keys, v)
    ensures var w := DecodeKey(e, keys, ReloadKey(e, EncodeKey(keys, v).value)); w.Some? && Equal(w.value, v)
  {
    var k := EncodeKey(keys, v).value;
    KeysAreScalars(keys, v);
    FirstAtomComesBack(e, keys, v);
    if k.JInt? || k.JBool? || k.JNull? { TextIsReadBack(e, k); }
  }

  // ---- dicts, key by key

  ghost predicate Fresh(d: seq<Member>, k: Json) {
    forall i :: 0 <= i < |d| ==> !SameKey(d[i].key, k)
  }

  lemma {:induction false} PutFresh(d: seq<Member>, k: Json, v: Json)
    requires Fresh(d, k)
    ensures Put(d, k, v) == d + [Member(k, v)]
  {
    if d != [] {
      assert forall i :: 0 <= i < |d[1..]| ==> d[1..][i] == d[i + 1];
      PutFresh(d[1..], k, v);
    }
  }

  // no two keys are the same, in Python
  ghost predicate DistinctKeys(d: seq<Member>) {
    forall i, j :: 0 <= i < j < |d| ==> !SameKey(d[i].key, d[j].key)
  }

  ghost predicate FreshEntry(d: seq<Entry>, k: Value) {
    forall i :: 0 <= i < |d| ==> !Equal(d[i].key, k)
  }

  lemma {:induction false} PutFreshEntry(d: seq<Entry>, k: Value, v: Value)
    requires FreshEntry(d, k)
    ensures PutEntry(d, k, v) == d + [Entry(k, v)]
  {
    if d != [] {
      assert forall i :: 0 <= i < |d[1..]| ==> d[1..][i] == d[i + 1];
      PutFreshEntry(d[1..], k, v);
    }
  }

  ghost predicate DifferentKeys(d: seq<Entry>) {
    forall i, j :: 0 <= i < j < |d| ==> !Equal(d[i].key, d[j].key)
  }

  lemma {:induction false} ReloadDistinct(e: Env, d: seq<Member>, entries: seq<Member>)
    requires DistinctKeys(d + ReloadEach(e, entries))
    ensures ReloadMembers(e, d, entries) == d + ReloadEach(e, entries)
    decreases entries
  {
    var all := d + ReloadEach(e, entries);
    if entries == [] {
      assert all == d;
    } else {
      var x := ReloadMember(e, entries[0]);
      assert all[|d|] == x;
      assert Fresh(d, x.key) by { assert forall i :: 0 <= i < |d| ==> all[i] == d[i]; }
      PutFresh(d, x.key, x.value);
      assert all == d + [x] + ReloadEach(e, entries[1..]);
      ReloadDistinct(e, d + [x], entries[1..]);
    }
  }

  lemma {:induction false} ReloadObject(e: Env, entries: seq<Member>)
    requires DistinctKeys(ReloadEach(e, entries))
    ensures Reload(e, JObj(entries)) == JObj(ReloadEach(e, entries))
  {
    if e.dumped {
      assert [] + ReloadEach(e, entries) == ReloadEach(e, entries);
      ReloadDistinct(e, [], entries);
    }
  }

  // the entries encoded one by one
  ghost predicate EncodedAs(e: Env, keys: seq<Atom>, vc: Codec, entries: seq<Entry>, r: seq<Member>) {
    |r| == |entries| && forall i :: 0 <= i < |entries| ==> EncodeEntry(e, keys, vc, entries[i]) == Some(r[i])
  }

  lemma {:induction false} EncodedOneByOne(e: Env, keys: seq<Atom>, vc: Codec, d: seq<Member>, entries: seq<Entry>)
    returns (r: seq<Member>)
    requires EncodeEntries(e, keys, vc, d, entries).Some?
    ensures EncodedAs(e, keys, vc, entries, r)
    ensures DistinctKeys(d + r) ==> EncodeEntries(e, keys, vc, d, entries).value == d + r
    decreases entries
  {
    if entries == [] {
      r := [];
      assert d + r == d;
    } else {
      var x := EncodeEntry(e, keys, vc, entries[0]).value;
      var d' := Put(d, x.key, x.value);
      var r' := EncodedOneByOne(e, keys, vc, d', entries[1..]);
      r := [x] + r';
      EncodedFirst(e, keys, vc, entries, x, r');
      PutsFresh(d, x, r');
    }
  }

  lemma {:induction false} EncodedFirst(e: Env, keys: seq<Atom>, vc: Codec, entries: seq<Entry>, x: Member,
                                        r: seq<Member>)
    requires entries != [] && EncodeEntry(e, keys, vc, entries[0]) == Some(x)
    requires EncodedAs(e, keys, vc, entries[1..], r)
    ensures EncodedAs(e, keys, vc, entries, [x] + r)
  {
    forall i | 0 <= i < |entries| ensures EncodeEntry(e, keys, vc, entries[i]) == Some(([x] + r)[i]) {
      if i > 0 { assert entries[i] == entries[1..][i - 1] && ([x] + r)[i] == r[i - 1]; }
    }
  }

  // the members decoded one by one
  ghost predicate DecodedAs(e: Env, keys: seq<Atom>, vc: Codec, members: seq<Member>, r: seq<Entry>) {
    |r| == |members| && forall i :: 0 <= i < |members| ==> DecodeEntry(e, keys, vc, members[i]) == Some(r[i])
  }

  lemma {:induction false} DecodedOneByOne(e: Env, keys: seq<Atom>, vc: Codec, d: seq<Entry>,
                                           members: seq<Member>, r: seq<Entry>)
    requires DecodedAs(e, keys, vc, members, r) && DifferentKeys(d + r)
    ensures DecodeEntries(e, keys, vc, d, members) == Some(d + r)
    decreases members
  {
    if members == [] {
      assert d + r == d;
    } else {
      var x := r[0];
      assert (d + r)[|d|] == x;
      assert FreshEntry(d, x.key) by { assert forall i :: 0 <= i < |d| ==> (d + r)[i] == d[i]; }
      PutFreshEntry(d, x.key, x.value);
      assert d + [x] + r[1..] == d + r;
      assert forall i :: 0 <= i < |members[1..]| ==> members[1..][i] == members[i + 1] && r[1..][i] == r[i + 1];
      DecodedOneByOne(e, keys, vc, d + [x], members[1..], r[1..]);
    }
  }

  // ---- trees

  /** What it takes for a value to come back: Python's own invariants (a set's
      elements and a dict's keys are different), distinct encoded names and keys,
      and no earlier alternative that decodes what a later one has encoded. */
  ghost predicate Faithful(e: Env, c: Codec, v: Value, n: nat)
    decreases v, n, c
  {
    match c
    case AtomC(a) => FaithfulAtom(e, a, v)
    case BytesC => v.BytesV? ==> forall i :: 0 <= i < |v.bytes| ==> 0 <= v.bytes[i] < 256
    case ListC(item) => v.ListV? ==> FaithfulAll(e, item, v.items)
    case SetC(item) => v.SetV? ==> FaithfulAll(e, item, v.items) && Different(v.items)
    case TupleC(cs) =>
      v.TupleV? ==>
        if |cs| == 1 then FaithfulAll(e, cs[0], v.items)
        else |v.items| == |cs| ==> FaithfulEach(e, cs, v.items)
    case UnionC(cs) => FaithfulFirst(e, cs, v, n)
    case DictC(keys, vc) => v.DictV? ==> DifferentKeys(v.entries) && FaithfulEntries(e, keys, vc, v.entries)
    case ClassC(t, attrs) => v.ObjV? ==> HasAttrs(attrs, v.attrs) && FaithfulAttrs(e, attrs, v.attrs)
    case BackRefC(id) => id in e.table && e.rank(id) < n ==> Faithful(e, e.table[id], v, e.rank(id))
  }

  ghost predicate FaithfulAll(e: Env, c: Codec, items: seq<Value>)
    decreases items
  {
    items != [] ==> Faithful(e, c, items[0], e.top) && FaithfulAll(e, c, items[1..])
  }

  ghost predicate FaithfulEach(e: Env, cs: seq<Codec>, items: seq<Value>)
    requires |cs| == |items|
    decreases items
  {
    items != [] ==> Faithful(e, cs[0], items[0], e.top) && FaithfulEach(e, cs[1..], items[1..])
  }

  ghost predicate FaithfulFirst(e: Env, cs: seq<Codec>, v: Value, n: nat)
    decreases v, n, cs
  {
    cs != [] ==>
      if Encode(e, cs[0], v, n).Some? then Faithful(e, cs[0], v, n)
      else
        FaithfulFirst(e, cs[1..], v, n) &&
        (EncodeFirst(e, cs, v, n).Some? ==>
          Decode(e, cs[0], Reload(e, EncodeFirst(e, cs, v, n).value), n).None?)
  }

  ghost predicate FaithfulEntries(e: Env, keys: seq<Atom>, vc: Codec, entries: seq<Entry>)
    decreases entries
  {
    entries != [] ==>
      FaithfulEntry(e, keys, vc, entries[0]) && FaithfulEntries(e, keys, vc, entries[1..]) &&
      forall i :: 0 < i < |entries| ==> KeysApart(keys, entries[0].key, entries[i].key)
  }

  ghost predicate FaithfulEntry(e: Env, keys: seq<Atom>, vc: Codec, x: Entry)
    decreases x
  {
    FaithfulKey(e, keys, x.key) && Faithful(e, vc, x.value, e.top)
  }

  // the encoded keys do not meet in the dict that is built
  ghost predicate KeysApart(keys: seq<Atom>, v: Value, w: Value) {
    EncodeKey(keys, v).Some? && EncodeKey(keys, w).Some? ==>
      !SameKey(EncodeKey(keys, v).value, EncodeKey(keys, w).value)
  }

  // an object has just the attributes its class has, the encoded names are different
  ghost predicate HasAttrs(attrs: seq<AttrCodec>, values: seq<Attr>) {
    |attrs| == |values| && (forall i :: 0 <= i < |attrs| ==> attrs[i].name == values[i].name) &&
    (forall i, j :: 0 <= i < j < |attrs| ==> attrs[i].name != attrs[j].name) &&
    (forall i, j :: 0 <= i < j < |attrs| ==> attrs[i].encodedName != attrs[j].encodedName)
  }

  ghost predicate FaithfulAttrs(e: Env, attrs: seq<AttrCodec>, values: seq<Attr>)
    requires |attrs| == |values|
    decreases values
  {
    attrs != [] ==> FaithfulAttr(e, attrs[0].codec, values[0]) && FaithfulAttrs(e, attrs[1..], values[1..])
  }

  ghost predicate FaithfulAttr(e: Env, c: Codec, x: Attr)
    decreases x
  {
    Faithful(e, c, x.value, e.top)
  }

  // ---- canonical forms, element by element

  lemma {:induction false} CanonsAt(items: seq<Value>)
    ensures |Canons(items)| == |items| && forall i :: 0 <= i < |items| ==> Canons(items)[i] == Canon(items[i])
  {
    if items != [] {
      CanonsAt(items[1..]);
      forall i | 0 <= i < |items| ensures Canons(items)[i] == Canon(items[i]) {
        if i > 0 { assert items[i] == items[1..][i - 1]; }
      }
    }
  }

  lemma {:induction false} DifferentStays(v: seq<Value>, w: seq<Value>)
    requires Canons(v) == Canons(w) && Different(v)
    ensures Different(w)
  {
    CanonsAt(v);
    CanonsAt(w);
  }

  lemma {:induction false} CanonEntriesAt(d: seq<Entry>, r: seq<Entry>)
    requires |d| == |r| && forall i :: 0 <= i < |d| ==> Equal(d[i].key, r[i].key) && Equal(d[i].value, r[i].value)
    ensures CanonEntries(d) == CanonEntries(r)
  {
    if d != [] {
      assert forall i :: 0 <= i < |d[1..]| ==> d[1..][i] == d[i + 1] && r[1..][i] == r[i + 1];
      CanonEntriesAt(d[1..], r[1..]);
    }
  }

  // ---- bytes

  lemma {:induction false} ReloadInts(e: Env, bytes: seq<int>)
    ensures ReloadAll(e, Ints(bytes)) == Ints(bytes)
  {
    if bytes == [] {
      assert Ints(bytes) == [];
    } else {
      assert Ints(bytes) == [JInt(bytes[0])] + Ints(bytes[1..]);
      assert Ints(bytes)[1..] == Ints(bytes[1..]);
      ReloadInts(e, bytes[1..]);
    }
  }

  lemma BytesComeBack(e: Env, bytes: seq<int>)
    requires forall i :: 0 <= i < |bytes| ==> 0 <= bytes[i] < 256
    ensures AreBytes(Ints(bytes)) && ToInts(Ints(bytes)) == bytes
  {
  }

  // ---- dicts

  lemma {:induction false} EntriesApart(e: Env, keys: seq<Atom>, vc: Codec, entries: seq<Entry>, i: nat, j: nat)
    requires FaithfulEntries(e, keys, vc, entries) && i < |entries|
    ensures FaithfulEntry(e, keys, vc, entries[i])
    ensures i < j < |entries| ==> KeysApart(keys, entries[i].key, entries[j].key)
    decreases entries
  {
    if i > 0 {
      assert entries[i] == entries[1..][i - 1];
      if i < j < |entries| { assert entries[j] == entries[1..][j - 1]; }
      EntriesApart(e, keys, vc, entries[1..], i - 1, if j > 0 then j - 1 else 0);
    }
  }

  // the encoded keys are distinct, in Python and as texts
  lemma {:induction false} EncodedKeysDistinct(e: Env, keys: seq<Atom>, vc: Codec, entries: seq<Entry>, r: seq<Member>)
    requires FaithfulEntries(e, keys, vc, entries) && DifferentKeys(entries) && EncodedAs(e, keys, vc, entries, r)
    ensures DistinctKeys(r) && DistinctKeys(ReloadEach(e, r))
  {
    forall i, j | 0 <= i < j < |r| ensures !SameKey(r[i].key, r[j].key) {
      assert EncodeEntry(e, keys, vc, entries[i]) == Some(r[i]) && EncodeEntry(e, keys, vc, entries[j]) == Some(r[j]);
      EntriesApart(e, keys, vc, entries, i, j);
    }
    forall i, j | 0 <= i < j < |r| ensures !SameKey(ReloadKey(e, r[i].key), ReloadKey(e, r[j].key)) {
      assert EncodeEntry(e, keys, vc, entries[i]) == Some(r[i]) && EncodeEntry(e, keys, vc, entries[j]) == Some(r[j]);
      EntriesApart(e, keys, vc, entries, i, j);
      EntriesApart(e, keys, vc, entries, j, j);
      KeyComesBack(e, keys, entries[i].key);
      KeyComesBack(e, keys, entries[j].key);
      assert !Equal(entries[i].key, entries[j].key);
    }
  }

  // ---- round trips

  /** Through any tree of codecs and back-references: what encode accepts, if it is
      faithful, decodes to an equal value, once the JSON has been written and read
      or, undumped, as it is. */
  lemma {:induction false} ComesBack(e: Env, c: Codec, v: Value, n: nat)
    requires Encode(e, c, v, n).Some? && Faithful(e, c, v, n)
    ensures Decode(e, c, Reload(e, Encode(e, c, v, n).value), n).Some?
    ensures Equal(Decode(e, c, Reload(e, Encode(e, c, v, n).value), n).value, v)
    decreases v, n, c
  {
    match c
    case AtomC(a) => AtomComesBack(e, a, v);
    case BytesC =>
      ReloadInts(e, v.bytes);
      BytesComeBack(e, v.bytes);
    case ListC(item) => AllComeBack(e, item, v.items);
    case SetC(item) => SetComesBack(e, item, v, n);
    case TupleC(cs) => TupleComesBack(e, cs, v, n);
    case UnionC(cs) => FirstComesBack(e, cs, v, n);
    case DictC(keys, vc) => DictComesBack(e, keys, vc, v, n);
    case ClassC(t, attrs) => ObjectComesBack(e, t, attrs, v, n);
    case BackRefC(id) => ComesBack(e, e.table[id], v, e.rank(id));
  }

  /** Without text in between, decode gives back what encode was given. */
  lemma {:induction false} ComesBackDirectly(e: Env, c: Codec, v: Value, n: nat)
    requires !e.dumped && Encode(e, c, v, n).Some? && Faithful(e, c, v, n)
    ensures Decode(e, c, Encode(e, c, v, n).value, n).Some?
    ensures Equal(Decode(e, c, Encode(e, c, v, n).value, n).value, v)
  {
    ComesBack(e, c, v, n);
    DirectIsItself(e, Encode(e, c, v, n).value);
  }

  lemma {:induction false} AllComeBack(e: Env, c: Codec, items: seq<Value>)
    requires EncodeAll(e, c, items).Some? && FaithfulAll(e, c, items)
    ensures var w := DecodeAll(e, c, ReloadAll(e, EncodeAll(e, c, items).value));
      w.Some? && Canons(w.value) == Canons(items)
    decreases items
  {
    if items != [] {
      ComesBack(e, c, items[0], e.top);
      AllComeBack(e, c, items[1..]);
    }
  }

  lemma {:induction false} SetComesBack(e: Env, item: Codec, v: Value, n: nat)
    requires v.SetV? && Encode(e, SetC(item), v, n).Some? && Faithful(e, SetC(item), v, n)
    ensures var w := Decode(e, SetC(item), Reload(e, Encode(e, SetC(item), v, n).value), n);
      w.Some? && Equal(w.value, v)
    decreases v, n, item
  {
    AllComeBack(e, item, v.items);
    DifferentStays(v.items, DecodeAll(e, item, ReloadAll(e, EncodeAll(e, item, v.items).value)).value);
  }

  lemma {:induction false} TupleComesBack(e: Env, cs: seq<Codec>, v: Value, n: nat)
    requires v.TupleV? && Encode(e, TupleC(cs), v, n).Some? && Faithful(e, TupleC(cs), v, n)
    ensures var w := Decode(e, TupleC(cs), Reload(e, Encode(e, TupleC(cs), v, n).value), n);
      w.Some? && Equal(w.value, v)
    decreases v, n, cs
  {
    if |cs| == 1 {
      AllComeBack(e, cs[0], v.items);
    } else {
      EachComeBack(e, cs, v.items);
    }
  }

  lemma {:induction false} EachComeBack(e: Env, cs: seq<Codec>, items: seq<Value>)
    requires |cs| == |items| && EncodeEach(e, cs, items).Some? && FaithfulEach(e, cs, items)
    ensures var js := ReloadAll(e, EncodeEach(e, cs, items).value);
      |js| == |cs| && DecodeEach(e, cs, js).Some? && Canons(DecodeEach(e, cs, js).value) == Canons(items)
    decreases items
  {
    if items != [] {
      ComesBack(e, cs[0], items[0], e.top);
      EachComeBack(e, cs[1..], items[1..]);
    }
  }

  lemma {:induction false} FirstComesBack(e: Env, cs: seq<Codec>, v: Value, n: nat)
    requires EncodeFirst(e, cs, v, n).Some? && FaithfulFirst(e, cs, v, n)
    ensures var w := DecodeFirst(e, cs, Reload(e, EncodeFirst(e, cs, v, n).value), n);
      w.Some? && Equal(w.value, v)
    decreases v, n, cs
  {
    if Encode(e, cs[0], v, n).Some? {
      ComesBack(e, cs[0], v, n);
    } else {
      FirstComesBack(e, cs[1..], v, n);
    }
  }

  lemma {:induction false} EntryComesBack(e: Env, keys: seq<Atom>, vc: Codec, x: Entry)
    requires EncodeEntry(e, keys, vc, x).Some? && FaithfulEntry(e, keys, vc, x)
    ensures var w := DecodeEntry(e, keys, vc, ReloadMember(e, EncodeEntry(e, keys, vc, x).value));
      w.Some? && Equal(w.value.key, x.key) && Equal(w.value.value, x.value)
    decreases x
  {
    KeyComesBack(e, keys, x.key);
    ComesBack(e, vc, x.value, e.top);
  }

  lemma {:induction false} EntriesComeBack(e: Env, keys: seq<Atom>, vc: Codec, entries: seq<Entry>, r: seq<Member>)
    returns (d: seq<Entry>)
    requires FaithfulEntries(e, keys, vc, entries) && EncodedAs(e, keys, vc, entries, r)
    ensures DecodedAs(e, keys, vc, ReloadEach(e, r), d)
    ensures forall i :: 0 <= i < |d| ==> Equal(d[i].key, entries[i].key) && Equal(d[i].value, entries[i].value)
    decreases entries
  {
    if entries == [] {
      d := [];
    } else {
      assert EncodeEntry(e, keys, vc, entries[0]) == Some(r[0]);
      EntryComesBack(e, keys, vc, entries[0]);
      assert forall i :: 0 <= i < |entries[1..]| ==> entries[1..][i] == entries[i + 1] && r[1..][i] == r[i + 1];
      var d' := EntriesComeBack(e, keys, vc, entries[1..], r[1..]);
      var x := DecodeEntry(e, keys, vc, ReloadMember(e, r[0])).value;
      d := [x] + d';
      assert ReloadEach(e, r) == [ReloadMember(e, r[0])] + ReloadEach(e, r[1..]);
      DecodedFirst(e, keys, vc, ReloadMember(e, r[0]), ReloadEach(e, r[1..]), x, d');
      EqualFirst(d, entries);
    }
  }

  lemma {:induction false} DecodedFirst(e: Env, keys: seq<Atom>, vc: Codec, m: Member, members: seq<Member>, x: Entry,
                                        d: seq<Entry>)
    requires DecodeEntry(e, keys, vc, m) == Some(x) && DecodedAs(e, keys, vc, members, d)
    ensures DecodedAs(e, keys, vc, [m] + members, [x] + d)
  {
    forall i | 0 <= i < |[m] + members| ensures DecodeEntry(e, keys, vc, ([m] + members)[i]) == Some(([x] + d)[i]) {
      if i > 0 { assert ([m] + members)[i] == members[i - 1] && ([x] + d)[i] == d[i - 1]; }
    }
  }

  lemma EqualFirst(d: seq<Entry>, entries: seq<Entry>)
    requires |d| == |entries| > 0 && Equal(d[0].key, entries[0].key) && Equal(d[0].value, entries[0].value)
    requires forall i :: 0 <= i < |d[1..]| ==>
      Equal(d[1..][i].key, entries[1..][i].key) && Equal(d[1..][i].value, entries[1..][i].value)
    ensures forall i :: 0 <= i < |d| ==> Equal(d[i].key, entries[i].key) && Equal(d[i].value, entries[i].value)
  {
    assert forall i :: 0 < i < |d| ==> d[i] == d[1..][i - 1] && entries[i] == entries[1..][i - 1];
  }

  // a dict's JSON has just its entries, with the keys as text
  lemma {:induction false} DictReloaded(e: Env, keys: seq<Atom>, vc: Codec, entries: seq<Entry>)
    returns (r: seq<Member>)
    requires EncodeEntries(e, keys, vc, [], entries).Some?
    requires DifferentKeys(entries) && FaithfulEntries(e, keys, vc, entries)
    ensures EncodedAs(e, keys, vc, entries, r)
    ensures Reload(e, JObj(EncodeEntries(e, keys, vc, [], entries).value)) == JObj(ReloadEach(e, r))
  {
    r := EncodedOneByOne(e, keys, vc, [], entries);
    EncodedKeysDistinct(e, keys, vc, entries, r);
    assert [] + r == r;
    ReloadObject(e, r);
  }

  lemma {:induction false} MembersDecode(e: Env, keys: seq<Atom>, vc: Codec, members: seq<Member>, d: seq<Entry>,
                                         entries: seq<Entry>)
    requires DecodedAs(e, keys, vc, members, d) && DifferentKeys(entries) && |d| == |entries|
    requires forall i :: 0 <= i < |d| ==> Equal(d[i].key, entries[i].key) && Equal(d[i].value, entries[i].value)
    ensures DecodeEntries(e, keys, vc, [], members) == Some(d) && CanonEntries(d) == CanonEntries(entries)
  {
    forall i, j | 0 <= i < j < |d| ensures !Equal(d[i].key, d[j].key) {
      assert !Equal(entries[i].key, entries[j].key);
    }
    assert [] + d == d;
    DecodedOneByOne(e, keys, vc, [], members, d);
    CanonEntriesAt(d, entries);
  }

  lemma {:induction false} DictComesBack(e: Env, keys: seq<Atom>, vc: Codec, v: Value, n: nat)
    requires v.DictV? && Encode(e, DictC(keys, vc), v, n).Some? && Faithful(e, DictC(keys, vc), v, n)
    ensures var w := Decode(e, DictC(keys, vc), Reload(e, Encode(e, DictC(keys, vc), v, n).value), n);
      w.Some? && Equal(w.value, v)
    decreases v, n, vc
  {
    var r := DictReloaded(e, keys, vc, v.entries);
    var d := EntriesComeBack(e, keys, vc, v.entries, r);
    MembersDecode(e, keys, vc, ReloadEach(e, r), d, v.entries);
  }

  // ---- objects

  lemma {:induction false} GetAt(values: seq<Attr>, i: nat)
    requires i < |values| && forall k, j :: 0 <= k < j < |values| ==> values[k].name != values[j].name
    ensures Get(values, values[i].name) == Some(values[i].value)
  {
    if i > 0 {
      assert values[0].name != values[i].name;
      assert forall k :: 0 <= k < |values[1..]| ==> values[1..][k] == values[k + 1];
      GetAt(values[1..], i - 1);
    }
  }

  // the attributes encoded one by one
  ghost predicate AttrsEncodedAs(e: Env, attrs: seq<AttrCodec>, values: seq<Attr>, r: seq<Member>)
    requires |attrs| == |values|
  {
    |r| == |attrs| && forall i :: 0 <= i < |r| ==>
      r[i].key == JStr(attrs[i].encodedName) && Encode(e, attrs[i].codec, values[i].value, e.top) == Some(r[i].value)
  }

  lemma {:induction false} AttrsOneByOne(e: Env, attrs: seq<AttrCodec>, values: seq<Attr>, d: seq<Member>, v: Value)
    returns (r: seq<Member>)
    requires v.ObjV? && |attrs| == |values| && EncodeAttrs(e, attrs, d, v).Some?
    requires forall i :: 0 <= i < |attrs| ==> Get(v.attrs, attrs[i].name) == Some(values[i].value)
    ensures AttrsEncodedAs(e, attrs, values, r)
    ensures DistinctKeys(d + r) ==> EncodeAttrs(e, attrs, d, v).value == d + r
    decreases attrs
  {
    if attrs == [] {
      r := [];
      assert d + r == d;
    } else {
      var x := Member(JStr(attrs[0].encodedName), Encode(e, attrs[0].codec, values[0].value, e.top).value);
      var d' := Put(d, x.key, x.value);
      assert forall i :: 0 <= i < |attrs[1..]| ==> attrs[1..][i] == attrs[i + 1] && values[1..][i] == values[i + 1];
      var r' := AttrsOneByOne(e, attrs[1..], values[1..], d', v);
      r := [x] + r';
      AttrsEncodedOn(e, attrs, values, x, r');
      PutsFresh(d, x, r');
    }
  }

  // with distinct keys, putting is appending
  lemma {:induction false} PutsFresh(d: seq<Member>, x: Member, r: seq<Member>)
    ensures DistinctKeys(d + ([x] + r)) ==> Put(d, x.key, x.value) + r == d + ([x] + r)
  {
    var all := d + ([x] + r);
    if DistinctKeys(all) {
      assert all[|d|] == x;
      assert Fresh(d, x.key) by { assert forall i :: 0 <= i < |d| ==> all[i] == d[i]; }
      PutFresh(d, x.key, x.value);
    }
  }

  lemma {:induction false} AttrsEncodedOn(e: Env, attrs: seq<AttrCodec>, values: seq<Attr>, x: Member, r: seq<Member>)
    requires |attrs| == |values| > 0 && AttrsEncodedAs(e, attrs[1..], values[1..], r)
    requires x.key == JStr(attrs[0].encodedName) && Encode(e, attrs[0].codec, values[0].value, e.top) == Some(x.value)
    ensures AttrsEncodedAs(e, attrs, values, [x] + r)
  {
    forall i | 0 <= i < |attrs|
      ensures ([x] + r)[i].key == JStr(attrs[i].encodedName)
      ensures Encode(e, attrs[i].codec, values[i].value, e.top) == Some(([x] + r)[i].value)
    {
      if i > 0 { assert attrs[i] == attrs[1..][i - 1] && values[i] == values[1..][i - 1] && ([x] + r)[i] == r[i - 1]; }
    }
  }

  lemma {:induction false} InMembersAt(r: seq<Member>, i: nat)
    requires i < |r| && r[i].key.JStr? && DistinctKeys(r)
    ensures InMembers(r, r[i].key.s) == Present(r[i].value)
  {
    if i > 0 {
      assert !SameKey(r[0].key, r[i].key);
      assert forall k :: 0 <= k < |r[1..]| ==> r[1..][k] == r[k + 1];
      InMembersAt(r[1..], i - 1);
    }
  }

  lemma {:induction false} AttrComesBack(e: Env, c: Codec, x: Attr)
    requires Encode(e, c, x.value, e.top).Some? && FaithfulAttr(e, c, x)
    ensures var w := Decode(e, c, Reload(e, Encode(e, c, x.value, e.top).value), e.top);
      w.Some? && Equal(w.value, x.value)
    decreases x
  {
    ComesBack(e, c, x.value, e.top);
  }

  lemma {:induction false} AttrsComeBack(e: Env, attrs: seq<AttrCodec>, values: seq<Attr>, r: seq<Member>,
                                         all: seq<Member>)
    requires |attrs| == |values| && FaithfulAttrs(e, attrs, values) && AttrsEncodedAs(e, attrs, values, r)
    requires forall i :: 0 <= i < |attrs| ==> attrs[i].name == values[i].name
    requires forall i :: 0 <= i < |r| ==> InMembers(all, attrs[i].encodedName) == Present(Reload(e, r[i].value))
    ensures var w := DecodeAttrs(e, attrs, JObj(all));
      w.Some? && CanonAttrs(w.value) == CanonAttrs(values)
    decreases values
  {
    if attrs != [] {
      assert Encode(e, attrs[0].codec, values[0].value, e.top) == Some(r[0].value);
      AttrComesBack(e, attrs[0].codec, values[0]);
      assert forall i :: 0 <= i < |attrs[1..]| ==>
        attrs[1..][i] == attrs[i + 1] && values[1..][i] == values[i + 1] && r[1..][i] == r[i + 1];
      AttrsComeBack(e, attrs[1..], values[1..], r[1..], all);
    }
  }

  lemma {:induction false} ObjectComesBack(e: Env, t: string, attrs: seq<AttrCodec>, v: Value, n: nat)
    requires v.ObjV? && Encode(e, ClassC(t, attrs), v, n).Some? && Faithful(e, ClassC(t, attrs), v, n)
    ensures var w := Decode(e, ClassC(t, attrs), Reload(e, Encode(e, ClassC(t, attrs), v, n).value), n);
      w.Some? && Equal(w.value, v)
    decreases v, n, attrs
  {
    var r := ObjectReloaded(e, attrs, v);
    AttrsComeBack(e, attrs, v.attrs, r, ReloadEach(e, r));
  }

  // an object's JSON that lacks some of its members
  function Lacking(entries: seq<Member>, names: set<string>): seq<Member> {
    if entries == [] then [] else
      (if entries[0].key.JStr? && entries[0].key.s in names then [] else [entries[0]]) + Lacking(entries[1..], names)
  }

  lemma {:induction false} InLacking(entries: seq<Member>, names: set<string>, name: string)
    ensures InMembers(Lacking(entries, names), name) == if name in names then Absent else InMembers(entries, name)
  {
    if entries != [] {
      InLacking(entries[1..], names, name);
      var rest := Lacking(entries[1..], names);
      assert ([entries[0]] + rest)[1..] == rest && [] + rest == rest;
    }
  }

  // w is v, but for defaults in the place of the attributes whose encoded names are missing
  ghost predicate Defaulted(attrs: seq<AttrCodec>, values: seq<Attr>, missing: set<string>, w: seq<Attr>) {
    |w| == |attrs| == |values| && forall i :: 0 <= i < |attrs| ==> DefaultedAt(attrs[i], values[i], missing, w[i])
  }

  ghost predicate DefaultedAt(a: AttrCodec, x: Attr, missing: set<string>, y: Attr) {
    y.name == a.name &&
    if a.encodedName in missing then a.default == Some(y.value) else Equal(y.value, x.value)
  }

  predicate HaveDefaults(attrs: seq<AttrCodec>, missing: set<string>) {
    forall i :: 0 <= i < |attrs| && attrs[i].encodedName in missing ==> attrs[i].default.Some?
  }

  /** Decoding an object whose JSON lacks some attributes: it succeeds just when
      each of them has a default, and gives those, the others as in the round trip. */
  lemma {:induction false} MissingTakeDefaultsExactly(e: Env, t: string, attrs: seq<AttrCodec>, v: Value, n: nat,
                                                      missing: set<string>)
    requires v.ObjV? && Encode(e, ClassC(t, attrs), v, n).Some? && Faithful(e, ClassC(t, attrs), v, n)
    ensures var j := Reload(e, Encode(e, ClassC(t, attrs), v, n).value);
      j.JObj? &&
      var w := Decode(e, ClassC(t, attrs), JObj(Lacking(j.entries, missing)), n);
      (w.Some? <==> HaveDefaults(attrs, missing)) &&
      (w.Some? ==> w.value.ObjV? && w.value.t == t && Defaulted(attrs, v.attrs, missing, w.value.attrs))
  {
    var r := ObjectReloaded(e, attrs, v);
    var all := ReloadEach(e, r);
    forall i | 0 <= i < |r|
      ensures InMembers(Lacking(all, missing), attrs[i].encodedName) ==
        if attrs[i].encodedName in missing then Absent else Present(Reload(e, r[i].value))
    {
      InLacking(all, missing, attrs[i].encodedName);
    }
    AttrsDefaulted(e, attrs, v.attrs, r, Lacking(all, missing), missing);
  }

  lemma {:induction false} AttrsDefaulted(e: Env, attrs: seq<AttrCodec>, values: seq<Attr>, r: seq<Member>,
                                          all: seq<Member>, missing: set<string>)
    requires |attrs| == |values| && FaithfulAttrs(e, attrs, values) && AttrsEncodedAs(e, attrs, values, r)
    requires forall i :: 0 <= i < |r| ==>
      InMembers(all, attrs[i].encodedName) ==
      if attrs[i].encodedName in missing then Absent else Present(Reload(e, r[i].value))
    ensures var w := DecodeAttrs(e, attrs, JObj(all));
      (w.Some? <==> HaveDefaults(attrs, missing)) && (w.Some? ==> Defaulted(attrs, values, missing, w.value))
    decreases values
  {
    if attrs != [] {
      assert Encode(e, attrs[0].codec, values[0].value, e.top) == Some(r[0].value);
      AttrComesBack(e, attrs[0].codec, values[0]);
      assert forall i :: 0 <= i < |attrs[1..]| ==>
        attrs[1..][i] == attrs[i + 1] && values[1..][i] == values[i + 1] && r[1..][i] == r[i + 1];
      AttrsDefaulted(e, attrs[1..], values[1..], r[1..], all, missing);
      DefaultedOn(attrs, values, missing, DecodeAttrs(e, attrs, JObj(all)), DecodeAttrs(e, attrs[1..], JObj(all)));
    }
  }

  // one attribute before
  lemma DefaultedOn(attrs: seq<AttrCodec>, values: seq<Attr>, missing: set<string>,
                    w: Option<seq<Attr>>, rest: Option<seq<Attr>>)
    requires |attrs| == |values| > 0
    requires rest.Some? <==> HaveDefaults(attrs[1..], missing)
    requires rest.Some? ==> Defaulted(attrs[1..], values[1..], missing, rest.value)
    requires w.Some? <==> rest.Some? && (attrs[0].encodedName in missing ==> attrs[0].default.Some?)
    requires w.Some? ==> |w.value| > 0 && w.value[1..] == rest.value && DefaultedAt(attrs[0], values[0], missing, w.value[0])
    ensures (w.Some? <==> HaveDefaults(attrs, missing)) && (w.Some? ==> Defaulted(attrs, values, missing, w.value))
  {
    assert forall i :: 0 <= i < |attrs[1..]| ==> attrs[1..][i] == attrs[i + 1] && values[1..][i] == values[i + 1];
    if HaveDefaults(attrs[1..], missing) && (attrs[0].encodedName in missing ==> attrs[0].default.Some?) {
      forall i | 0 <= i < |attrs| && attrs[i].encodedName in missing ensures attrs[i].default.Some? {
        if i > 0 { assert attrs[1..][i - 1] == attrs[i]; }
      }
    }
    if w.Some? {
      forall i | 0 <= i < |attrs| ensures DefaultedAt(attrs[i], values[i], missing, w.value[i]) {
        if i > 0 { assert w.value[i] == rest.value[i - 1] && DefaultedAt(attrs[1..][i - 1], values[1..][i - 1], missing, rest.value[i - 1]); }
      }
    }
  }

  // an object's JSON has just its attributes
  lemma {:induction false} ObjectReloaded(e: Env, attrs: seq<AttrCodec>, v: Value) returns (r: seq<Member>)
    requires v.ObjV? && HasAttrs(attrs, v.attrs) && EncodeAttrs(e, attrs, [], v).Some?
    ensures AttrsEncodedAs(e, attrs, v.attrs, r)
    ensures Reload(e, JObj(EncodeAttrs(e, attrs, [], v).value)) == JObj(ReloadEach(e, r))
    ensures forall i :: 0 <= i < |r| ==>
      InMembers(ReloadEach(e, r), attrs[i].encodedName) == Present(Reload(e, r[i].value))
  {
    forall i | 0 <= i < |attrs| ensures Get(v.attrs, attrs[i].name) == Some(v.attrs[i].value) { GetAt(v.attrs, i); }
    r := AttrsOneByOne(e, attrs, v.attrs, [], v);
    NamesApart(e, attrs, v.attrs, r);
    var all := ReloadEach(e, r);
    assert [] + r == r;
    ReloadObject(e, r);
    forall i | 0 <= i < |r| ensures InMembers(all, attrs[i].encodedName) == Present(Reload(e, r[i].value)) {
      assert r[i].key == JStr(attrs[i].encodedName);
      InMembersAt(all, i);
    }
  }

  lemma {:induction false} NamesApart(e: Env, attrs: seq<AttrCodec>, values: seq<Attr>, r: seq<Member>)
    requires |attrs| == |values| && AttrsEncodedAs(e, attrs, values, r)
    requires forall i, j :: 0 <= i < j < |attrs| ==> attrs[i].encodedName != attrs[j].encodedName
    ensures DistinctKeys(r) && DistinctKeys(ReloadEach(e, r))
  {
    assert forall i :: 0 <= i < |r| ==> r[i].key == JStr(attrs[i].encodedName);
  }

  // ---- where keys do not come back

  /** In a dict[str|int, ...] a string key comes back just if it is not the JSON text
      of an integer, or of another string. */
  lemma StrOrIntKeyExactly(e: Env, s: string)
    ensures var keys := [Noop(StrK), Noop(IntK)];
      EncodeKey(keys, StrV(s)) == Some(JStr(s)) &&
      (DecodeKey(e, keys, JStr(s)) == Some(StrV(s)) <==>
        (Loads(e, s).Some? ==> !Loads(e, s).value.JInt? && (Loads(e, s).value.JStr? ==> Loads(e, s).value.s == s)))
  {
    var keys := [Noop(StrK), Noop(IntK)];
    assert keys[1..] == [Noop(IntK)] && keys[1..][1..] == [];
    assert DecodeKeyFrom(e, keys, JStr(s)) == Some(StrV(s));
    if Loads(e, s).Some? {
      var j := Loads(e, s).value;
      assert DecodeKeyFrom(e, keys, j) ==
        if j.JStr? then Some(StrV(j.s)) else DecodeKeyFrom(e, keys[1..], j);
      assert DecodeKeyFrom(e, keys[1..], j) == if j.JInt? then Some(IntV(j.i)) else None;
    }
  }

  // so a key that is an integer's text does not
  lemma IntegerTextIsLost(e: Env, i: int)
    ensures DecodeKey(e, [Noop(StrK), Noop(IntK)], JStr(IntText(i))) != Some(StrV(IntText(i)))
  {
    TextIsReadBack(e, JInt(i));
    StrOrIntKeyExactly(e, IntText(i));
  }

  // ---- back-references

  // following references from c without going into a part of the value, ranks fall from below n
  ghost predicate Below(e: Env, c: Codec, n: nat) {
    match c
    case UnionC(cs) => forall i :: 0 <= i < |cs| ==> Below(e, cs[i], n)
    case BackRefC(id) => id in e.table && e.rank(id) < n
    case _ => true
  }

  ghost predicate Resolved(e: Env) {
    forall id :: id in e.table ==> e.rank(id) < e.top && Below(e, e.table[id], e.rank(id))
  }

  lemma {:induction false} LevelDoesNotMatter(e: Env, c: Codec, v: Value, j: Json, n: nat, m: nat)
    requires Below(e, c, n) && Below(e, c, m)
    ensures Encode(e, c, v, n) == Encode(e, c, v, m) && Decode(e, c, j, n) == Decode(e, c, j, m)
    decreases c
  {
    if c.UnionC? { LevelsDoNotMatter(e, c.codecs, v, j, n, m); }
  }

  lemma {:induction false} LevelsDoNotMatter(e: Env, cs: seq<Codec>, v: Value, j: Json, n: nat, m: nat)
    requires forall i :: 0 <= i < |cs| ==> Below(e, cs[i], n) && Below(e, cs[i], m)
    ensures EncodeFirst(e, cs, v, n) == EncodeFirst(e, cs, v, m) && DecodeFirst(e, cs, j, n) == DecodeFirst(e, cs, j, m)
    decreases cs
  {
    if cs != [] {
      LevelDoesNotMatter(e, cs[0], v, j, n, m);
      assert forall i :: 0 <= i < |cs[1..]| ==> cs[1..][i] == cs[i + 1];
      LevelsDoNotMatter(e, cs[1..], v, j, n, m);
    }
  }

  /** A back-reference does what the codec it was resolved to does. */
  lemma {:induction false} BackRefIsItsCodec(e: Env, id: nat, v: Value, j: Json)
    requires Resolved(e) && id in e.table
    ensures Encode(e, BackRefC(id), v, e.top) == Encode(e, e.table[id], v, e.top)
    ensures Decode(e, BackRefC(id), j, e.top) == Decode(e, e.table[id], j, e.top)
  {
    BelowMore(e, e.table[id], e.rank(id), e.top);
    LevelDoesNotMatter(e, e.table[id], v, j, e.rank(id), e.top);
  }

  lemma {:induction false} BelowMore(e: Env, c: Codec, n: nat, m: nat)
    requires Below(e, c, n) && n <= m
    ensures Below(e, c, m)
    decreases c
  {
    if c.UnionC? {
      forall i | 0 <= i < |c.codecs| ensures Below(e, c.codecs[i], m) { BelowMore(e, c.codecs[i], n, m); }
    }
  }
}
