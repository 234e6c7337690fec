/** Plain values to DynamoDB attribute values and back. A decimal is its value, a real. A float is
    the decimal its shortest spelling denotes, and `round` takes a decimal to the float nearest
    it, spelled so: the floats are the numbers `round` leaves alone. */
module Ddb {

  datatype Value =
    | Null
    | Bool(b: bool)
    | Str(s: string)
    | Int(n: int)
    | Float(x: real)
    | Decimal(x: real)
    | List(items: seq<Value>)
    | Tuple(items: seq<Value>)
    | Map(entries: map<string, Value>)

  datatype Attribute =
    | NULL
    | BOOL(b: bool)
    | S(s: string)
    | N(x: real)
    | L(items: seq<Attribute>)
    | M(entries: map<string, Attribute>)

  /** Spelling a float and reading it back gives that float. */
  ghost predicate Rounds(round: real -> real) { forall x :: round(round(x)) == round(x) }

  /** Every float in the value is one. */
  ghost predicate WellFormed(round: real -> real, v: Value) {
    match v
    case Float(x) => round(x) == x
    case Map(entries) => forall k :: k in entries ==> WellFormed(round, entries[k])
    case List(items) => forall i :: 0 <= i < |items| ==> WellFormed(round, items[i])
    case Tuple(items) => forall i :: 0 <= i < |items| ==> WellFormed(round, items[i])
    case _ => true
  }

  predicate Whole(x: real) { x == x.Floor as real }

  // ===== the conversions =====

  function Sanitize(v: Value): Value {
    match v
    case Float(x) => Decimal(x)
    case Map(entries) => Map(map k | k in entries :: Sanitize(entries[k]))
    case List(items) => List(seq(|items|, i requires 0 <= i < |items| => Sanitize(items[i])))
    case Tuple(items) => List(seq(|items|, i requires 0 <= i < |items| => Sanitize(items[i])))
    case _ => v
  }

  /** What the serializer accepts: it raises on a float or a tuple at any depth. */
  ghost predicate Supported(v: Value) {
    match v
    case Float(_) => false
    case Tuple(_) => false
    case Map(entries) => forall k :: k in entries ==> Supported(entries[k])
    case List(items) => forall i :: 0 <= i < |items| ==> Supported(items[i])
    case _ => true
  }

  function Serialize(v: Value): Attribute
    requires Supported(v)
  {
    match v
    case Null => NULL
    case Bool(b) => BOOL(b)
    case Str(s) => S(s)
    case Int(n) => N(n as real)
    case Decimal(x) => N(x)
    case List(items) => L(seq(|items|, i requires 0 <= i < |items| => Serialize(items[i])))
    case Map(entries) => M(map k | k in entries :: Serialize(entries[k]))
  }

  function Deserialize(a: Attribute): Value {
    match a
    case NULL => Null
    case BOOL(b) => Bool(b)
    case S(s) => Str(s)
    case N(x) => Decimal(x)
    case L(items) => List(seq(|items|, i requires 0 <= i < |items| => Deserialize(items[i])))
    case M(entries) => Map(map k | k in entries :: Deserialize(entries[k]))
  }

  /** Decimals back to int where they are whole, to the nearest float otherwise. */
  function Unwrap(round: real -> real, v: Value): Value {
    match v
    case Decimal(x) => if Whole(x) then Int(x.Floor) else Float(round(x))
    case Map(entries) => Map(map k | k in entries :: Unwrap(round, entries[k]))
    case List(items) => List(seq(|items|, i requires 0 <= i < |items| => Unwrap(round, items[i])))
    case _ => v
  }

  lemma {:induction false} SanitizeSupported(v: Value)
    ensures Supported(Sanitize(v))
  {
    match v {
      case Map(entries) => forall k | k in entries ensures Supported(Sanitize(entries[k])) {
        SanitizeSupported(entries[k]);
      }
      case List(items) => forall i | 0 <= i < |items| ensures Supported(Sanitize(items[i])) {
        SanitizeSupported(items[i]);
      }
      case Tuple(items) => forall i | 0 <= i < |items| ensures Supported(Sanitize(items[i])) {
        SanitizeSupported(items[i]);
      }
      case _ =>
    }
  }

  function ToValue(v: Value): Attribute {
    SanitizeSupported(v);
    Serialize(Sanitize(v))
  }

  /** Attributes for the values that are not null; a null writes no attribute. */
  function ToItem(data: map<string, Value>): map<string, Attribute> {
    map k | k in data && !data[k].Null? :: ToValue(data[k])
  }

  function FromItem(round: real -> real, item: map<string, Attribute>): map<string, Value> {
    map k | k in item :: Unwrap(round, Deserialize(item[k]))
  }

  // ===== what comes back =====

  /** A value with no tuple, no decimal and no float that is a whole number. */
  ghost predicate IsNormal(v: Value) {
    match v
    case Float(x) => !Whole(x)
    case Decimal(_) => false
    case Tuple(_) => false
    case Map(entries) => forall k :: k in entries ==> IsNormal(entries[k])
    case List(items) => forall i :: 0 <= i < |items| ==> IsNormal(items[i])
    case _ => true
  }

  /** The same data, written differently: numbers by value, tuples as lists. */
  ghost predicate SameData(v: Value, w: Value) {
    match v
    case Null => w.Null?
    case Bool(_) => w == v
    case Str(_) => w == v
    case Int(n) => HasNumber(w, n as real)
    case Float(x) => HasNumber(w, x)
    case Decimal(x) => HasNumber(w, x)
    case Map(entries) => w.Map? && w.entries.Keys == entries.Keys && forall k :: k in entries ==>
        SameData(entries[k], w.entries[k])
    case _ => (w.List? || w.Tuple?) && |w.items| == |v.items| && forall i :: 0 <= i < |v.items| ==>
        SameData(v.items[i], w.items[i])
  }

  ghost predicate HasNumber(v: Value, x: real) {
    match v
    case Int(n) => n as real == x
    case Float(y) => y == x
    case Decimal(y) => y == x
    case _ => false
  }

  /** Every decimal in the value is whole or is exactly a float. */
  ghost predicate Exact(round: real -> real, v: Value) {
    match v
    case Decimal(x) => Whole(x) || round(x) == x
    case Map(entries) => forall k :: k in entries ==> Exact(round, entries[k])
    case List(items) => forall i :: 0 <= i < |items| ==> Exact(round, items[i])
    case Tuple(items) => forall i :: 0 <= i < |items| ==> Exact(round, items[i])
    case _ => true
  }

  function RoundTrip(round: real -> real, v: Value): Value { Unwrap(round, Deserialize(ToValue(v))) }

  /** One level of the round trip. */
  lemma RoundTripStep(round: real -> real, v: Value)
    ensures v.Map? ==> RoundTrip(round, v) == Map(map k | k in v.entries :: RoundTrip(round, v.entries[k]))
    ensures v.List? || v.Tuple? ==>
      RoundTrip(round, v) == List(seq(|v.items|, i requires 0 <= i < |v.items| => RoundTrip(round, v.items[i])))
  {
    match v {
      case Map(entries) =>
        assert RoundTrip(round, v).entries == map k | k in v.entries :: RoundTrip(round, v.entries[k]);
      case List(items) =>
        assert RoundTrip(round, v).items ==
            seq(|v.items|, i requires 0 <= i < |v.items| => RoundTrip(round, v.items[i]));
      case Tuple(items) =>
        assert RoundTrip(round, v).items ==
            seq(|v.items|, i requires 0 <= i < |v.items| => RoundTrip(round, v.items[i]));
      case _ =>
    }
  }

  /** Whatever went in, the result has no tuples and no decimals, and its floats are floats. */
  ghost predicate Plain(round: real -> real, v: Value) {
    match v
    case Float(x) => round(x) == x
    case Decimal(_) => false
    case Tuple(_) => false
    case Map(entries) => forall k :: k in entries ==> Plain(round, entries[k])
    case List(items) => forall i :: 0 <= i < |items| ==> Plain(round, items[i])
    case _ => true
  }

  lemma {:induction false} RoundTripPlain(round: real -> real, v: Value)
    requires Rounds(round)
    ensures Plain(round, RoundTrip(round, v))
  {
    RoundTripStep(round, v);
    match v {
      case Map(entries) => forall k | k in entries { RoundTripPlain(round, entries[k]); }
      case List(items) => forall i | 0 <= i < |items| { RoundTripPlain(round, items[i]); }
      case Tuple(items) => forall i | 0 <= i < |items| { RoundTripPlain(round, items[i]); }
      case _ =>
    }
  }

  lemma {:induction false} ExactComesBack(round: real -> real, v: Value)
    requires WellFormed(round, v) && Exact(round, v)
    ensures IsNormal(RoundTrip(round, v)) && SameData(v, RoundTrip(round, v))
  {
    RoundTripStep(round, v);
    match v {
      case Map(entries) => forall k | k in entries { ExactComesBack(round, entries[k]); }
      case List(items) => forall i | 0 <= i < |items| { ExactComesBack(round, items[i]); }
      case Tuple(items) => forall i | 0 <= i < |items| { ExactComesBack(round, items[i]); }
      case _ =>
    }
  }

  lemma {:induction false} SameMeansExact(round: real -> real, v: Value)
    requires SameData(v, RoundTrip(round, v))
    ensures Exact(round, v)
  {
    RoundTripStep(round, v);
    match v {
      case Map(entries) => forall k | k in entries { SameMeansExact(round, entries[k]); }
      case List(items) => forall i | 0 <= i < |items| { SameMeansExact(round, items[i]); }
      case Tuple(items) => forall i | 0 <= i < |items| { SameMeansExact(round, items[i]); }
      case _ =>
    }
  }

  /** A value comes back as the same data in normal form exactly when every decimal in it, at any
      depth, is whole or a float. */
  lemma RoundTripSameIff(round: real -> real, v: Value)
    requires WellFormed(round, v)
    ensures IsNormal(RoundTrip(round, v)) && SameData(v, RoundTrip(round, v)) <==> Exact(round, v)
  {
    if Exact(round, v) {
      ExactComesBack(round, v);
    } else if SameData(v, RoundTrip(round, v)) {
      SameMeansExact(round, v);
    }
  }

  /** A longer decimal, such as 0.12345678901234567890, comes back as another number; one whose
      nearest float is whole, such as 9007199254740993.5, comes back as a whole float. */
  lemma LongDecimal(round: real -> real, x: real)
    requires !Whole(x) && round(x) != x
    ensures RoundTrip(round, Decimal(x)) == Float(round(x)) && !SameData(Decimal(x), RoundTrip(round, Decimal(x)))
    ensures Whole(round(x)) ==> !IsNormal(RoundTrip(round, Decimal(x)))
  {}

  lemma NumberUnique(x: real, a: Value, b: Value)
    requires HasNumber(a, x) && HasNumber(b, x) && IsNormal(a) && IsNormal(b)
    ensures a == b
  {}

  /** There is only one normal form of any data, so the two facts above determine the result. */
  lemma {:induction false} NormalUnique(v: Value, a: Value, b: Value)
    requires SameData(v, a) && SameData(v, b) && IsNormal(a) && IsNormal(b)
    ensures a == b
    decreases v, 1
  {
    match v {
      case Map(_) => NormalMapUnique(v, a.entries, b.entries);
      case List(_) => NormalListUnique(v, a.items, b.items);
      case Tuple(_) => NormalListUnique(v, a.items, b.items);
      case Int(n) => NumberUnique(n as real, a, b);
      case Float(x) => NumberUnique(x, a, b);
      case Decimal(x) => NumberUnique(x, a, b);
      case _ =>
    }
  }

  lemma {:induction false} NormalListUnique(v: Value, a: seq<Value>, b: seq<Value>)
    requires (v.List? || v.Tuple?) && |a| == |v.items| == |b|
    requires forall i :: 0 <= i < |v.items| ==>
        SameData(v.items[i], a[i]) && SameData(v.items[i], b[i]) && IsNormal(a[i]) && IsNormal(b[i])
    ensures a == b
    decreases v, 0
  {
    forall i | 0 <= i < |v.items| ensures a[i] == b[i] { NormalUnique(v.items[i], a[i], b[i]); }
  }

  lemma {:induction false} NormalMapUnique(v: Value, a: map<string, Value>, b: map<string, Value>)
    requires v.Map? && a.Keys == v.entries.Keys == b.Keys
    requires forall k :: k in v.entries ==>
      SameData(v.entries[k], a[k]) && SameData(v.entries[k], b[k]) && IsNormal(a[k]) && IsNormal(b[k])
    ensures a == b
    decreases v, 0
  {
    forall k | k in v.entries ensures a[k] == b[k] { NormalUnique(v.entries[k], a[k], b[k]); }
  }

  lemma {:induction false} SameAsItself(v: Value)
    ensures SameData(v, v)
  {
    match v {
      case Map(entries) => forall k | k in entries { SameAsItself(entries[k]); }
      case List(items) => forall i | 0 <= i < |items| { SameAsItself(items[i]); }
      case Tuple(items) => forall i | 0 <= i < |items| { SameAsItself(items[i]); }
      case _ =>
    }
  }

  lemma {:induction false} NormalIsExact(round: real -> real, v: Value)
    requires IsNormal(v)
    ensures Exact(round, v)
  {
    match v {
      case Map(entries) => forall k | k in entries { NormalIsExact(round, entries[k]); }
      case List(items) => forall i | 0 <= i < |items| { NormalIsExact(round, items[i]); }
      case _ =>
    }
  }

  /** The round trip gives back exactly what went in for the normal values and no others, long
      decimals included. */
  lemma RoundTripIdentityIff(round: real -> real, v: Value)
    requires WellFormed(round, v)
    ensures RoundTrip(round, v) == v <==> IsNormal(v)
  {
    SameAsItself(v);
    if IsNormal(v) {
      NormalIsExact(round, v);
      ExactComesBack(round, v);
      NormalUnique(v, v, RoundTrip(round, v));
    } else if RoundTrip(round, v) == v {
      SameMeansExact(round, v);
      ExactComesBack(round, v);
    }
  }

  lemma ItemValue(round: real -> real, data: map<string, Value>, k: string)
    ensures k in FromItem(round, ToItem(data)) <==> k in data && !data[k].Null?
    ensures k in FromItem(round, ToItem(data)) ==> FromItem(round, ToItem(data))[k] == RoundTrip(round, data[k])
  {}

  /** An item comes back without its top-level nulls and with nothing added; nulls further down
      survive. A value in it comes back as the same data in normal form exactly when its decimals
      are whole or floats. */
  lemma ItemRoundTrip(round: real -> real, data: map<string, Value>, k: string)
    requires k in data ==> WellFormed(round, data[k])
    ensures k in FromItem(round, ToItem(data)) <==> k in data && !data[k].Null?
    ensures var back := FromItem(round, ToItem(data));
      k in back ==> (IsNormal(back[k]) && SameData(data[k], back[k]) <==> Exact(round, data[k]))
  {
    ItemValue(round, data, k);
    if k in data { RoundTripSameIff(round, data[k]); }
  }

  /** The item itself comes back exactly when no value in it is null and all are normal. */
  lemma ItemIdentityIff(round: real -> real, data: map<string, Value>)
    requires forall k :: k in data ==> WellFormed(round, data[k])
    ensures FromItem(round, ToItem(data)) == data <==> forall k :: k in data ==> !data[k].Null? && IsNormal(data[k])
  {
    var back := FromItem(round, ToItem(data));
    forall k ensures (k in back <==> k in data && !data[k].Null?) &&
        (k in back ==> (back[k] == data[k] <==> IsNormal(data[k]))) {
      ItemValue(round, data, k);
      if k in data { RoundTripIdentityIff(round, data[k]); }
    }
  }
}
