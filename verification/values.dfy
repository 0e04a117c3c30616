/** Python runtime values as they appear in the dictionaries the system
    builds, stores and reads back (the JSON-compatible subset, plus the
    int-keyed dictionaries used for spell slots). */
module Values {
  import opened Wrappers

  datatype Value =
    | Null
    | Bool(b: bool)
    | Int(i: int)
    | Float(r: real)
    | Str(s: string)
    | List(items: seq<Value>)
    | Dict(fields: map<string, Value>)
    | IntDict(entries: map<int, Value>)

  /** Python truthiness: `None`, `False`, zero and empty containers are false. */
  predicate Truthy(v: Value)
  {
    match v
    case Null => false
    case Bool(b) => b
    case Int(i) => i != 0
    case Float(r) => r != 0.0
    case Str(s) => s != ""
    case List(items) => |items| > 0
    case Dict(fields) => |fields| > 0
    case IntDict(entries) => |entries| > 0
  }

  /** Why reading a dictionary back into a record failed: Python's `KeyError`
      for `d[key]`, or a value of a shape the record cannot hold. */
  datatype DecodeError = MissingKey(key: string) | WrongType(key: string)

  type Decoded<T> = Result<T, DecodeError>

  /** `d[key]`. */
  function Required(d: map<string, Value>, key: string): (r: Decoded<Value>)
    ensures r.Success? <==> key in d
    ensures r.Success? ==> r.value == d[key]
  {
    if key in d then Success(d[key]) else Failure(MissingKey(key))
  }

  /** `d[key]` is present and holds `v`. */
  predicate Holds(d: map<string, Value>, key: string, v: Value)
  {
    key in d && d[key] == v
  }

  /** `d.get(key, default)`: the default applies only when the key is absent. */
  function GetOr(d: map<string, Value>, key: string, default: Value): Value
  {
    if key in d then d[key] else default
  }

  function AsStr(v: Value, key: string): Decoded<string>
  {
    if v.Str? then Success(v.s) else Failure(WrongType(key))
  }

  function AsInt(v: Value, key: string): Decoded<int>
  {
    if v.Int? then Success(v.i) else Failure(WrongType(key))
  }

  function AsBool(v: Value, key: string): Decoded<bool>
  {
    if v.Bool? then Success(v.b) else Failure(WrongType(key))
  }

  /** A Python float; an int is accepted too, as Python arithmetic does. */
  function AsReal(v: Value, key: string): Decoded<real>
  {
    if v.Float? then Success(v.r) else if v.Int? then Success(v.i as real) else Failure(WrongType(key))
  }

  function AsDict(v: Value, key: string): Decoded<map<string, Value>>
  {
    if v.Dict? then Success(v.fields) else Failure(WrongType(key))
  }

  function AsList(v: Value, key: string): Decoded<seq<Value>>
  {
    if v.List? then Success(v.items) else Failure(WrongType(key))
  }

  /** `None` or a value of the given kind. */
  function AsOptStr(v: Value, key: string): Decoded<Option<string>>
  {
    if v.Null? then Success(None) else if v.Str? then Success(Some(v.s)) else Failure(WrongType(key))
  }

  function AsOptInt(v: Value, key: string): Decoded<Option<int>>
  {
    if v.Null? then Success(None) else if v.Int? then Success(Some(v.i)) else Failure(WrongType(key))
  }

  function AsOptReal(v: Value, key: string): Decoded<Option<real>>
  {
    if v.Null? then Success(None) else if v.Float? then Success(Some(v.r)) else Failure(WrongType(key))
  }

  function OptStr(o: Option<string>): Value
  {
    if o.Some? then Str(o.value) else Null
  }

  function OptInt(o: Option<int>): Value
  {
    if o.Some? then Int(o.value) else Null
  }

  function OptReal(o: Option<real>): Value
  {
    if o.Some? then Float(o.value) else Null
  }

  function StrList(xs: seq<string>): (v: Value)
    ensures v.List? && |v.items| == |xs|
  {
    List(seq(|xs|, i requires 0 <= i < |xs| => Str(xs[i])))
  }

  function AsStrList(v: Value, key: string): (r: Decoded<seq<string>>)
    ensures r.Success? ==> v.List? && |r.value| == |v.items|
  {
    if v.List? && forall i :: 0 <= i < |v.items| ==> v.items[i].Str? then
      Success(seq(|v.items|, i requires 0 <= i < |v.items| => v.items[i].s))
    else Failure(WrongType(key))
  }

  lemma StrListRoundTrip(xs: seq<string>, key: string)
    ensures AsStrList(StrList(xs), key) == Success(xs)
  {
    var v := StrList(xs);
    assert forall i :: 0 <= i < |v.items| ==> v.items[i].Str? && v.items[i].s == xs[i];
    assert seq(|v.items|, i requires 0 <= i < |v.items| => v.items[i].s) == xs;
  }

  lemma StrListInjective(a: seq<string>, b: seq<string>)
    requires StrList(a) == StrList(b)
    ensures a == b
  {
    forall i | 0 <= i < |a| ensures a[i] == b[i] {
      assert StrList(a).items[i] == Str(a[i]);
      assert StrList(b).items[i] == Str(b[i]);
    }
  }

  function RealList(xs: seq<real>): (v: Value)
    ensures v.List? && |v.items| == |xs|
  {
    List(seq(|xs|, i requires 0 <= i < |xs| => Float(xs[i])))
  }

  function AsRealList(v: Value, key: string): (r: Decoded<seq<real>>)
    ensures r.Success? ==> v.List? && |r.value| == |v.items|
  {
    if v.List? && forall i :: 0 <= i < |v.items| ==> v.items[i].Float? then
      Success(seq(|v.items|, i requires 0 <= i < |v.items| => v.items[i].r))
    else Failure(WrongType(key))
  }

  lemma RealListRoundTrip(xs: seq<real>, key: string)
    ensures AsRealList(RealList(xs), key) == Success(xs)
  {
    var v := RealList(xs);
    assert forall i :: 0 <= i < |v.items| ==> v.items[i].Float? && v.items[i].r == xs[i];
    assert seq(|v.items|, i requires 0 <= i < |v.items| => v.items[i].r) == xs;
  }

  lemma RealListInjective(a: seq<real>, b: seq<real>)
    requires RealList(a) == RealList(b)
    ensures a == b
  {
    forall i | 0 <= i < |a| ensures a[i] == b[i] {
      assert RealList(a).items[i] == Float(a[i]);
      assert RealList(b).items[i] == Float(b[i]);
    }
  }

  function StrMap(m: map<string, string>): Value
  {
    Dict(map k | k in m :: Str(m[k]))
  }

  function AsStrMap(v: Value, key: string): (r: Decoded<map<string, string>>)
    ensures r.Success? ==> v.Dict? && r.value.Keys == v.fields.Keys
  {
    if v.Dict? && forall k :: k in v.fields ==> v.fields[k].Str? then
      Success(map k | k in v.fields :: v.fields[k].s)
    else Failure(WrongType(key))
  }

  lemma StrMapRoundTrip(m: map<string, string>, key: string)
    ensures AsStrMap(StrMap(m), key) == Success(m)
  {
    var v := StrMap(m);
    assert forall k :: k in v.fields ==> v.fields[k].Str? && v.fields[k].s == m[k];
    assert (map k | k in v.fields :: v.fields[k].s) == m;
  }

  function IntMap(m: map<string, int>): Value
  {
    Dict(map k | k in m :: Int(m[k]))
  }

  function AsIntMap(v: Value, key: string): (r: Decoded<map<string, int>>)
    ensures r.Success? ==> v.Dict? && r.value.Keys == v.fields.Keys
  {
    if v.Dict? && forall k :: k in v.fields ==> v.fields[k].Int? then
      Success(map k | k in v.fields :: v.fields[k].i)
    else Failure(WrongType(key))
  }

  lemma IntMapRoundTrip(m: map<string, int>, key: string)
    ensures AsIntMap(IntMap(m), key) == Success(m)
  {
    var v := IntMap(m);
    assert forall k :: k in v.fields ==> v.fields[k].Int? && v.fields[k].i == m[k];
    assert (map k | k in v.fields :: v.fields[k].i) == m;
  }

  /** A dictionary keyed by int with int values (`Dict[int, int]`). */
  function SlotMap(m: map<int, int>): Value
  {
    IntDict(map k | k in m :: Int(m[k]))
  }

  function AsSlotMap(v: Value, key: string): (r: Decoded<map<int, int>>)
    ensures r.Success? ==> v.IntDict? && r.value.Keys == v.entries.Keys
  {
    if v.IntDict? && forall k :: k in v.entries ==> v.entries[k].Int? then
      Success(map k | k in v.entries :: v.entries[k].i)
    else Failure(WrongType(key))
  }

  lemma SlotMapRoundTrip(m: map<int, int>, key: string)
    ensures AsSlotMap(SlotMap(m), key) == Success(m)
  {
    var v := SlotMap(m);
    assert forall k :: k in v.entries ==> v.entries[k].Int? && v.entries[k].i == m[k];
    assert (map k | k in v.entries :: v.entries[k].i) == m;
  }

  /** Decodes every element in order; the first failure wins, as a list
      comprehension stops at its first exception. */
  function DecodeAll<T>(vs: seq<Value>, dec: Value -> Decoded<T>): (r: Decoded<seq<T>>)
    ensures r.Success? ==> |r.value| == |vs|
  {
    if |vs| == 0 then Success([])
    else
      match dec(vs[0])
      case Failure(e) => Failure(e)
      case Success(x) =>
        match DecodeAll(vs[1..], dec)
        case Failure(e) => Failure(e)
        case Success(xs) => Success([x] + xs)
  }

  /** Decoding a list succeeds with `xs` when each element decodes to the
      element of `xs` at its position. */
  lemma {:induction false} DecodeAllRoundTrip<T>(vs: seq<Value>, xs: seq<T>, dec: Value -> Decoded<T>)
    requires |vs| == |xs|
    requires forall i :: 0 <= i < |xs| ==> dec(vs[i]) == Success(xs[i])
    ensures DecodeAll(vs, dec) == Success(xs)
    decreases |xs|
  {
    if |xs| > 0 {
      DecodeAllRoundTrip(vs[1..], xs[1..], dec);
      assert [xs[0]] + xs[1..] == xs;
    }
  }

  /** A list of records encoded element by element. */
  function EncodeAll<T>(xs: seq<T>, enc: T -> Value): (v: Value)
    ensures v.List? && |v.items| == |xs|
  {
    List(seq(|xs|, i requires 0 <= i < |xs| => enc(xs[i])))
  }

  /** A string-keyed dictionary of records, encoded entry by entry. */
  function EncodeMap<T>(m: map<string, T>, enc: T -> Value): (v: Value)
    ensures v.Dict? && v.fields.Keys == m.Keys
  {
    Dict(map k | k in m :: enc(m[k]))
  }

  /** Decodes every entry of a dictionary, keeping its keys; fails if any
      entry fails (which entry is reported is not modelled). */
  function DecodeMap<T>(v: Value, dec: Value -> Decoded<T>, key: string): (r: Decoded<map<string, T>>)
    ensures r.Success? <==> v.Dict? && forall k :: k in v.fields ==> dec(v.fields[k]).Success?
    ensures r.Success? ==> r.value.Keys == v.fields.Keys
    ensures r.Success? ==> forall k :: k in r.value ==> dec(v.fields[k]) == Success(r.value[k])
  {
    if v.Dict? && forall k :: k in v.fields ==> dec(v.fields[k]).Success? then
      Success(map k | k in v.fields :: dec(v.fields[k]).value)
    else Failure(WrongType(key))
  }

  lemma DecodeMapRoundTrip<T>(m: map<string, T>, enc: T -> Value, dec: Value -> Decoded<T>, key: string)
    requires forall k :: k in m ==> dec(enc(m[k])) == Success(m[k])
    ensures DecodeMap(EncodeMap(m, enc), dec, key) == Success(m)
  {
    var v := EncodeMap(m, enc);
    assert forall k :: k in v.fields ==> dec(v.fields[k]) == Success(m[k]);
    assert (map k | k in v.fields :: dec(v.fields[k]).value) == m;
  }
}
