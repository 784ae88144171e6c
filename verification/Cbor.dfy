/**
 The wire form of values: what the serializer writes, what it reads back, and what it skips.
 Bytes and items follow section 3 of RFC 8949.
 */
module Cbor {
  import opened Wrappers

  type byte = x: int | 0 <= x < 256

  // ----- Types and values -----

  // Widths are in bytes. Times are floats of eight bytes, property sets unsigned of four; floats are bit patterns.
  datatype Desc =
    | Boolean
    | Unsigned(width: nat)
    | Signed(width: nat)
    | Float(width: nat)
    | Uuid
    | Text
    | Enum(enumerators: seq<Enumerator>)
    | Vector(element: Desc)
    | Struct(props: seq<Prop>)

  datatype Enumerator = Enumerator(tag: nat, value: int)

  datatype Prop = Prop(tag: nat, of: Desc)

  datatype Value =
    | Bool(b: bool)
    | Number(i: int)
    | Bytes(bytes: seq<byte>)
    | List(items: seq<Value>)
    | Record(fields: map<nat, Value>)

  function Pow256(n: nat): (p: nat)
    ensures p > 0
  {
    if n == 0 then 1 else 256 * Pow256(n - 1)
  }

  lemma Powers()
    ensures Pow256(1) == 0x100 && Pow256(2) == 0x1_0000 && Pow256(4) == 0x1_0000_0000
        && Pow256(8) == 0x1_0000_0000_0000_0000
  {
    assert Pow256(2) == 256 * Pow256(1) && Pow256(3) == 256 * Pow256(2) && Pow256(4) == 256 * Pow256(3);
    assert Pow256(5) == 256 * Pow256(4) && Pow256(6) == 256 * Pow256(5) && Pow256(7) == 256 * Pow256(6)
      && Pow256(8) == 256 * Pow256(7);
  }

  const ALL: set<nat> := set t | 0 <= t < 32

  function TagsOf(props: seq<Prop>): set<nat> {
    set p | p in props :: p.tag
  }

  /** Widths exist, tags are distinct and fit a property set, enumerators have distinct tags and values. */
  ghost predicate Described(d: Desc)
    decreases d
  {
    match d
    case Unsigned(w) => w in {1, 2, 4, 8}
    case Signed(w) => w in {1, 2, 4, 8}
    case Float(w) => w in {4, 8}
    case Enum(es) =>
      && (forall i :: 0 <= i < |es| ==> es[i].tag < Pow256(4))
      && (forall i, j :: 0 <= i < j < |es| ==> es[i].tag != es[j].tag && es[i].value != es[j].value)
    case Vector(e) => Described(e)
    case Struct(props) => DescribedProps(props)
    case _ => true
  }

  ghost predicate DescribedProps(props: seq<Prop>)
    decreases props
  {
    && |props| <= 32
    && (forall i, j :: 0 <= i < j < |props| ==> props[i].tag != props[j].tag)
    && (forall i :: 0 <= i < |props| ==> props[i].tag < 32)
    && (forall i :: 0 <= i < |props| ==> DescribedProp(props[i]))
  }

  ghost predicate DescribedProp(p: Prop)
    decreases p
  {
    Described(p.of)
  }

  ghost predicate Typed(d: Desc, v: Value)
    decreases d
  {
    match d
    case Boolean => v.Bool?
    case Unsigned(w) => v.Number? && 0 <= v.i < Pow256(w)
    case Signed(w) => v.Number? && 0 <= 2 * v.i + Pow256(w) && 2 * v.i < Pow256(w)
    case Float(w) => v.Number? && 0 <= v.i < Pow256(w)
    case Uuid => v.Bytes? && |v.bytes| == 16
    case Text => v.Bytes? && |v.bytes| < Pow256(8)
    case Enum(es) => v.Number? && HasValue(es, v.i)
    case Vector(e) => v.List? && |v.items| < Pow256(8) && forall i :: 0 <= i < |v.items| ==> Typed(e, v.items[i])
    case Struct(props) => v.Record? && TypedFields(props, v.fields)
  }

  ghost predicate TypedFields(props: seq<Prop>, fields: map<nat, Value>)
    decreases props
  {
    && fields.Keys <= TagsOf(props)
    && forall i :: 0 <= i < |props| && props[i].tag in fields ==> TypedProp(props[i], fields[props[i].tag])
  }

  ghost predicate TypedProp(p: Prop, v: Value)
    decreases p
  {
    Typed(p.of, v)
  }

  // ----- Numbers -----

  function ShiftRight(value: nat, bytes: nat): nat {
    if bytes == 0 then value else ShiftRight(value / 256, bytes - 1)
  }

  function ShiftLeft(value: nat, bytes: nat): nat
    decreases bytes
  {
    if bytes == 0 then value else ShiftLeft(value * 256, bytes - 1)
  }

  /** The `n` lowest bytes of `value`, highest first. */
  function BigEndian(value: nat, n: nat): (b: seq<byte>)
    ensures |b| == n
  {
    if n == 0 then [] else BigEndian(value / 256, n - 1) + [value % 256]
  }

  function FromBigEndian(b: seq<byte>): nat {
    if b == [] then 0 else FromBigEndian(b[..|b| - 1]) * 256 + b[|b| - 1]
  }

  lemma {:induction false} BigEndianInverse(value: nat, n: nat)
    requires value < Pow256(n)
    ensures FromBigEndian(BigEndian(value, n)) == value
  {
    if n > 0 {
      BigEndianInverse(value / 256, n - 1);
      assert BigEndian(value, n)[..n - 1] == BigEndian(value / 256, n - 1);
    }
  }

  lemma {:induction false} BigEndianAt(value: nat, n: nat, k: nat)
    requires k < n
    ensures BigEndian(value, n)[k] == ShiftRight(value, n - 1 - k) % 256
  {
    if k < n - 1 {
      BigEndianAt(value / 256, n - 1, k);
    }
  }

  lemma {:induction false} ShiftLeftAdds(x: nat, y: nat, bytes: nat)
    ensures ShiftLeft(x + y, bytes) == ShiftLeft(x, bytes) + ShiftLeft(y, bytes)
    decreases bytes
  {
    if bytes > 0 {
      ShiftLeftAdds(x * 256, y * 256, bytes - 1);
    }
  }

  lemma Multiple(d: int, x: int)
    requires d > 0
    ensures x >= 1 ==> d * x >= d
    ensures x <= -1 ==> d * x <= -d
  {
    if x >= 1 {
      assert d * x == d + d * (x - 1);
    } else if x <= -1 {
      assert d * x == -d + d * (x + 1);
    }
  }

  lemma Quotient(m: nat, d: nat, q: nat, r: nat)
    requires r < d && m == d * q + r
    ensures m / d == q && m % d == r
  {
    var p := m / d;
    assert m == d * p + m % d;
    Multiple(d, p - q);
    assert d * (p - q) == d * p - d * q;
  }

  // ----- Heads -----

  const UNSIGNED := 0x00
  const NEGATIVE := 0x20
  const BYTE_STRING := 0x40
  const TEXT_STRING := 0x60
  const ARRAY := 0x80
  const MAP := 0xA0
  const SIMPLE := 0xE0

  const MAX_INPLACE := 23
  const FOLLOWING_1 := 24
  const FOLLOWING_8 := 27

  predicate Major(m: int) {
    m in {UNSIGNED, NEGATIVE, BYTE_STRING, TEXT_STRING, ARRAY, MAP, SIMPLE}
  }

  function MajorOf(initial: byte): int {
    initial / 32 * 32
  }

  function InfoOf(initial: byte): nat {
    initial % 32
  }

  function Exponent(value: nat): (e: nat)
    ensures e <= 3
  {
    (if value > 0xFFFF_FFFF then 1 else 0) + (if value > 0xFFFF then 1 else 0) + if value > 0xFF then 1 else 0
  }

  function Following(e: nat): nat
    requires e <= 3
  {
    if e == 0 then 1 else if e == 1 then 2 else if e == 2 then 4 else 8
  }

  /** The shortest head for `value`. */
  function Head(major: int, value: nat): seq<byte>
    requires Major(major)
  {
    if value <= MAX_INPLACE then [major + value]
    else [major + FOLLOWING_1 + Exponent(value)] + BigEndian(value, Following(Exponent(value)))
  }

  datatype Fault =
    OutOfData | WrongType | Unsupported | TooWide | WrongSize | NotABool | NoEnumerator | Widened | NoType

  datatype Parsed<+T> = Got(value: T, rest: seq<byte>) | Bad(fault: Fault)

  function ParseHead(major: int, width: nat, b: seq<byte>): (r: Parsed<nat>)
    ensures r.Got? ==> |r.rest| < |b|
  {
    if b == [] then Bad(OutOfData)
    else
      var m, info := MajorOf(b[0]), InfoOf(b[0]);
      if m != major then Bad(WrongType)
      else if info <= MAX_INPLACE then Got(info, b[1..])
      else if info > FOLLOWING_8 then Bad(Unsupported)
      else
        var n := Following(info - FOLLOWING_1);
        if n > width then Bad(TooWide)
        else if |b| - 1 < n then Bad(OutOfData)
        else Got(FromBigEndian(b[1..1 + n]), b[1 + n..])
  }

  lemma ExponentFits(value: nat, width: nat)
    requires width in {1, 2, 4, 8} && value < Pow256(width)
    ensures Following(Exponent(value)) <= width && value < Pow256(Following(Exponent(value)))
  {
    Powers();
  }

  lemma HeadInverse(major: int, value: nat, width: nat, rest: seq<byte>)
    requires Major(major) && width in {1, 2, 4, 8} && value < Pow256(width)
    ensures ParseHead(major, width, Head(major, value) + rest) == Got(value, rest)
  {
    hide Pow256, BigEndian, FromBigEndian;
    var b := Head(major, value) + rest;
    if value <= MAX_INPLACE {
      assert b[0] == major + value && b[1..] == rest;
    } else {
      var n := Following(Exponent(value));
      ExponentFits(value, width);
      assert b[0] == major + FOLLOWING_1 + Exponent(value);
      assert b[1..1 + n] == BigEndian(value, n) && b[1 + n..] == rest;
      BigEndianInverse(value, n);
    }
  }

  // ----- Writing -----

  predicate HasValue(es: seq<Enumerator>, value: int) {
    exists i :: 0 <= i < |es| && es[i].value == value
  }

  function TagOfValue(es: seq<Enumerator>, value: int): nat
    requires HasValue(es, value)
  {
    if es[0].value == value then es[0].tag else
      assert exists i :: 0 <= i < |es[1..]| && es[1..][i].value == value by {
        var i :| 0 <= i < |es| && es[i].value == value;
        assert es[1..][i - 1] == es[i];
      }
      TagOfValue(es[1..], value)
  }

  function ValueOfTag(es: seq<Enumerator>, tag: nat): Option<int> {
    if es == [] then None else if es[0].tag == tag then Some(es[0].value) else ValueOfTag(es[1..], tag)
  }

  function Encode(d: Desc, v: Value): seq<byte>
    requires Described(d) && Typed(d, v)
    decreases d, 0
  {
    match d
    case Boolean => [SIMPLE + if v.b then 21 else 20]
    case Unsigned(_) => Head(UNSIGNED, v.i)
    case Signed(_) => if v.i >= 0 then Head(UNSIGNED, v.i) else Head(NEGATIVE, -1 - v.i)
    case Float(w) => [SIMPLE + if w == 4 then 26 else 27] + BigEndian(v.i, w)
    case Uuid => Head(BYTE_STRING, 16) + v.bytes
    case Text => Head(TEXT_STRING, |v.bytes|) + v.bytes
    case Enum(es) => Head(UNSIGNED, TagOfValue(es, v.i))
    case Vector(e) => Head(ARRAY, |v.items|) + EncodeAll(e, v.items)
    case Struct(props) =>
      assert DescribedProps(props) && TypedFields(props, v.fields);
      Head(MAP, |v.fields|) + EncodeProps(props, v.fields, v.fields.Keys)
  }

  function EncodeAll(e: Desc, items: seq<Value>): seq<byte>
    requires Described(e) && forall i :: 0 <= i < |items| ==> Typed(e, items[i])
    decreases e, |items|
  {
    if items == [] then [] else Encode(e, items[0]) + EncodeAll(e, items[1..])
  }

  /** Properties in the order of the descriptor; only valid ones that are included are written. */
  function EncodeProps(props: seq<Prop>, fields: map<nat, Value>, included: set<nat>): seq<byte>
    requires forall i :: 0 <= i < |props| ==> DescribedProp(props[i])
    requires forall i :: 0 <= i < |props| && props[i].tag in fields ==> TypedProp(props[i], fields[props[i].tag])
    decreases props, 0
  {
    if props == [] then []
    else
      var p := props[0];
      (if p.tag in fields && p.tag in included then EncodeProp(p, fields[p.tag]) else [])
        + EncodeProps(props[1..], fields, included)
  }

  function EncodeProp(p: Prop, v: Value): seq<byte>
    requires DescribedProp(p) && TypedProp(p, v)
    decreases p, 0
  {
    Head(UNSIGNED, p.tag) + Encode(p.of, v)
  }

  /** A struct at the top level: the included ones of its valid properties. */
  function EncodeStruct(props: seq<Prop>, fields: map<nat, Value>, included: set<nat>): seq<byte>
    requires DescribedProps(props) && TypedFields(props, fields)
  {
    Head(MAP, |fields.Keys * included|) + EncodeProps(props, fields, included)
  }

  // ----- Skipping -----

  function Consume(b: seq<byte>, n: nat): (r: Parsed<()>)
    ensures r.Got? ==> |r.rest| == |b| - n
  {
    if n > |b| then Bad(OutOfData) else Got((), b[n..])
  }

  /** The size of an item to skip. The bytes of a long size are read, and then consumed once more. */
  function SkippedSize(info: nat, b: seq<byte>): (r: Parsed<nat>)
    ensures r.Got? ==> |r.rest| <= |b|
  {
    if info <= MAX_INPLACE then Got(info, b)
    else if info > FOLLOWING_8 then Bad(Unsupported)
    else
      var n := Following(info - FOLLOWING_1);
      if |b| < n || |b| - n < n then Bad(OutOfData)
      else Got(FromBigEndian(b[..n]), b[2 * n..])
  }

  function Skip(b: seq<byte>): (r: Parsed<()>)
    ensures r.Got? ==> |r.rest| < |b|
    decreases |b|, 0
  {
    if b == [] then Bad(OutOfData)
    else
      var m, info, rest := MajorOf(b[0]), InfoOf(b[0]), b[1..];
      if m == UNSIGNED || m == NEGATIVE || m == SIMPLE then
        if info <= MAX_INPLACE then Got((), rest)
        else if info > FOLLOWING_8 then Bad(Unsupported)
        else Consume(rest, Following(info - FOLLOWING_1))
      else if m == BYTE_STRING || m == TEXT_STRING then
        match SkippedSize(info, rest)
        case Bad(f) => Bad(f)
        case Got(size, next) => Consume(next, size)
      else if m == ARRAY || m == MAP then
        match SkippedSize(info, rest)
        case Bad(f) => Bad(f)
        case Got(size, next) => SkipMany(if m == ARRAY then size else 2 * size, next)
      else Got((), rest)
  }

  function SkipMany(n: nat, b: seq<byte>): (r: Parsed<()>)
    ensures r.Got? ==> |r.rest| <= |b|
    decreases |b|, n + 1
  {
    if n == 0 then Got((), b)
    else
      match Skip(b)
      case Bad(f) => Bad(f)
      case Got(_, rest) => SkipMany(n - 1, rest)
  }

  // ----- Reading -----

  function ToSigned(u: nat, width: nat): int {
    if 2 * u < Pow256(width) then u else u - Pow256(width)
  }

  function ParseSigned(width: nat, b: seq<byte>): (r: Parsed<int>)
    ensures r.Got? ==> |r.rest| < |b|
  {
    if b == [] then Bad(OutOfData)
    else if MajorOf(b[0]) == NEGATIVE then
      match ParseHead(NEGATIVE, width, b)
      case Bad(f) => Bad(f)
      case Got(u, rest) => Got(-1 - ToSigned(u, width), rest)
    else
      match ParseHead(UNSIGNED, width, b)
      case Bad(f) => Bad(f)
      case Got(u, rest) => Got(ToSigned(u, width), rest)
  }

  function ParseBool(b: seq<byte>): (r: Parsed<bool>)
    ensures r.Got? ==> |r.rest| < |b|
  {
    match ParseHead(SIMPLE, 1, b)
    case Bad(f) => Bad(f)
    case Got(v, rest) => if v == 20 then Got(false, rest) else if v == 21 then Got(true, rest) else Bad(NotABool)
  }

  /** A float of the expected width; converting one of another width is not part of this model. */
  function ParseFloat(width: nat, b: seq<byte>): (r: Parsed<nat>)
    ensures r.Got? ==> |r.rest| < |b|
  {
    if b == [] then Bad(OutOfData)
    else if MajorOf(b[0]) != SIMPLE then Bad(WrongType)
    else
      var info := InfoOf(b[0]);
      if info <= MAX_INPLACE then Bad(Widened)
      else if info > FOLLOWING_8 then Bad(Unsupported)
      else
        var n := Following(info - FOLLOWING_1);
        if n > width then Bad(TooWide)
        else if |b| - 1 < n then Bad(OutOfData)
        else if n < width then Bad(Widened)
        else Got(FromBigEndian(b[1..1 + n]), b[1 + n..])
  }

  function ParseBytes(major: int, b: seq<byte>): (r: Parsed<seq<byte>>)
    ensures r.Got? ==> |r.rest| < |b|
  {
    match ParseHead(major, 8, b)
    case Bad(f) => Bad(f)
    case Got(size, rest) => if size > |rest| then Bad(OutOfData) else Got(rest[..size], rest[size..])
  }

  function ParseUuid(b: seq<byte>): (r: Parsed<seq<byte>>)
    ensures r.Got? ==> |r.rest| < |b|
  {
    match ParseHead(BYTE_STRING, 8, b)
    case Bad(f) => Bad(f)
    case Got(size, rest) => if size != 16 then Bad(WrongSize) else if 16 > |rest| then Bad(OutOfData)
      else Got(rest[..16], rest[16..])
  }

  function Lift<T, U>(p: Parsed<T>, f: T -> U): Parsed<U> {
    match p
    case Bad(e) => Bad(e)
    case Got(v, rest) => Got(f(v), rest)
  }

  /** Reads a value over `was`, what the property held before; only structs keep any of it. */
  function Decode(d: Desc, was: Option<Value>, b: seq<byte>): (r: Parsed<Value>)
    ensures r.Got? ==> |r.rest| < |b|
    decreases d, 0
  {
    match d
    case Boolean => Lift(ParseBool(b), x => Bool(x))
    case Unsigned(w) => Lift(ParseHead(UNSIGNED, w, b), x => Number(x))
    case Signed(w) => Lift(ParseSigned(w, b), x => Number(x))
    case Float(w) => Lift(ParseFloat(w, b), x => Number(x))
    case Uuid => Lift(ParseUuid(b), x => Bytes(x))
    case Text => Lift(ParseBytes(TEXT_STRING, b), x => Bytes(x))
    case Enum(es) =>
      (match ParseHead(UNSIGNED, 4, b)
       case Bad(f) => Bad(f)
       case Got(tag, rest) =>
         match ValueOfTag(es, tag)
         case None => Bad(NoEnumerator)
         case Some(v) => Got(Number(v), rest))
    case Vector(e) =>
      (match ParseHead(ARRAY, 8, b)
       case Bad(f) => Bad(f)
       case Got(n, rest) => Lift(DecodeAll(e, n, rest), x => List(x)))
    case Struct(props) =>
      var fields := match was case Some(Record(fields)) => fields case _ => map[];
      (match ParseHead(MAP, 8, b)
       case Bad(f) => Bad(f)
       case Got(n, rest) => Lift(DecodeEntries(props, ALL, n, fields, rest), x => Record(x)))
  }

  function DecodeAll(e: Desc, n: nat, b: seq<byte>): (r: Parsed<seq<Value>>)
    ensures r.Got? ==> |r.rest| <= |b|
    decreases e, n
  {
    if n == 0 then Got([], b)
    else
      match Decode(e, None, b)
      case Bad(f) => Bad(f)
      case Got(v, rest) => Lift(DecodeAll(e, n - 1, rest), x => [v] + x)
  }

  function Find(props: seq<Prop>, tag: nat): (k: Option<nat>)
    ensures k.Some? ==> k.value < |props| && props[k.value].tag == tag
    ensures k.None? <==> tag !in TagsOf(props)
  {
    if props == [] then None
    else if props[0].tag == tag then Some(0)
    else
      assert props == [props[0]] + props[1..];
      match Find(props[1..], tag)
      case None => None
      case Some(k) => Some(k + 1)
  }

  /** The `n` entries of a map: unknown properties and those that are not included are skipped. */
  function DecodeEntries(props: seq<Prop>, included: set<nat>, n: nat, fields: map<nat, Value>,
                         b: seq<byte>): (r: Parsed<map<nat, Value>>)
    ensures r.Got? ==> |r.rest| <= |b|
    decreases props, n
  {
    if n == 0 then Got(fields, b)
    else
      match ParseHead(UNSIGNED, 4, b)
      case Bad(f) => Bad(f)
      case Got(tag, rest) =>
        var k := Find(props, tag);
        if k.Some? && tag in included then
          match DecodeProp(props[k.value], if tag in fields then Some(fields[tag]) else None, rest)
          case Bad(f) => Bad(f)
          case Got(v, next) => DecodeEntries(props, included, n - 1, fields[tag := v], next)
        else
          match Skip(rest)
          case Bad(f) => Bad(f)
          case Got(_, next) => DecodeEntries(props, included, n - 1, fields, next)
  }

  function DecodeProp(p: Prop, was: Option<Value>, b: seq<byte>): (r: Parsed<Value>)
    ensures r.Got? ==> |r.rest| < |b|
    decreases p, 0
  {
    Decode(p.of, was, b)
  }

  function DecodeStruct(props: seq<Prop>, included: set<nat>, fields: map<nat, Value>,
                        b: seq<byte>): (r: Parsed<map<nat, Value>>)
    ensures r.Got? ==> |r.rest| < |b|
  {
    match ParseHead(MAP, 8, b)
    case Bad(f) => Bad(f)
    case Got(n, rest) => DecodeEntries(props, included, n, fields, rest)
  }
}
