/** Reading undoes writing, and what a receiver makes of properties it does not know. */
module CborRoundTrip {
  import opened Wrappers
  import opened Cbor

  predicate Leaf(d: Desc) {
    !d.Vector? && !d.Struct?
  }

  // ----- Single items -----

  lemma {:induction false} EnumInverse(es: seq<Enumerator>, value: int)
    requires HasValue(es, value) && Described(Enum(es))
    ensures ValueOfTag(es, TagOfValue(es, value)) == Some(value) && TagOfValue(es, value) < Pow256(4)
    ensures exists i :: 0 <= i < |es| && es[i] == Enumerator(TagOfValue(es, value), value)
  {
    if es[0].value != value {
      var i :| 0 <= i < |es| && es[i].value == value;
      assert es[1..][i - 1] == es[i];
      EnumInverse(es[1..], value);
      var j :| 0 <= j < |es[1..]| && es[1..][j] == Enumerator(TagOfValue(es[1..], value), value);
      assert es[j + 1] == Enumerator(TagOfValue(es, value), value);
    }
  }

  lemma BytesInverse(major: int, bytes: seq<byte>, rest: seq<byte>)
    requires Major(major) && |bytes| < Pow256(8)
    ensures ParseBytes(major, Head(major, |bytes|) + bytes + rest) == Got(bytes, rest)
    ensures |bytes| == 16 && major == BYTE_STRING ==> ParseUuid(Head(major, |bytes|) + bytes + rest) == Got(bytes, rest)
  {
    hide Head, ParseHead, Pow256;
    HeadInverse(major, |bytes|, 8, bytes + rest);
    assert Head(major, |bytes|) + bytes + rest == Head(major, |bytes|) + (bytes + rest);
    assert (bytes + rest)[..|bytes|] == bytes && (bytes + rest)[|bytes|..] == rest;
  }

  lemma HeadFirst(major: int, value: nat)
    requires Major(major)
    ensures Head(major, value) != [] && MajorOf(Head(major, value)[0]) == major
  {
  }

  lemma SignedInverse(width: nat, i: int, rest: seq<byte>)
    requires width in {1, 2, 4, 8} && 0 <= 2 * i + Pow256(width) && 2 * i < Pow256(width)
    ensures ParseSigned(width, (if i >= 0 then Head(UNSIGNED, i) else Head(NEGATIVE, -1 - i)) + rest) == Got(i, rest)
  {
    hide Head, ParseHead, Pow256;
    var major, u := if i >= 0 then UNSIGNED else NEGATIVE, if i >= 0 then i else -1 - i;
    HeadFirst(major, u);
    assert (Head(major, u) + rest)[0] == Head(major, u)[0];
    HeadInverse(major, u, width, rest);
  }

  lemma FloatInverse(width: nat, bits: nat, rest: seq<byte>)
    requires width in {4, 8} && bits < Pow256(width)
    ensures ParseFloat(width, [SIMPLE + if width == 4 then 26 else 27] + BigEndian(bits, width) + rest)
        == Got(bits, rest)
  {
    hide Pow256, FromBigEndian, BigEndian;
    var b := [SIMPLE + if width == 4 then 26 else 27] + BigEndian(bits, width) + rest;
    assert b[1..1 + width] == BigEndian(bits, width) && b[1 + width..] == rest;
    BigEndianInverse(bits, width);
  }

  lemma LeafInverse(d: Desc, was: Option<Value>, v: Value, rest: seq<byte>)
    requires Leaf(d) && Described(d) && Typed(d, v)
    ensures Decode(d, was, Encode(d, v) + rest) == Got(v, rest)
  {
    hide Head, ParseHead, Pow256, BigEndian, FromBigEndian, ParseSigned, ParseFloat, ParseBytes, ParseUuid,
      TagOfValue, ValueOfTag, HasValue;
    match d
    case Boolean =>
      BoolInverse(v.b, rest);
    case Unsigned(w) => HeadInverse(UNSIGNED, v.i, w, rest);
    case Signed(w) => SignedInverse(w, v.i, rest);
    case Float(w) => FloatInverse(w, v.i, rest);
    case Uuid =>
      SixteenFits();
      BytesInverse(BYTE_STRING, v.bytes, rest);
    case Text => BytesInverse(TEXT_STRING, v.bytes, rest);
    case Enum(es) =>
      EnumInverse(es, v.i);
      HeadInverse(UNSIGNED, TagOfValue(es, v.i), 4, rest);
  }

  lemma SixteenFits()
    ensures 16 < Pow256(8)
  {
    Powers();
  }

  lemma BoolInverse(b: bool, rest: seq<byte>)
    ensures ParseBool([SIMPLE + if b then 21 else 20] + rest) == Got(b, rest)
  {
  }

  // ----- Skipping -----

  /** Every length fits the first byte of its item. */
  ghost predicate Lean(d: Desc, v: Value)
    requires Typed(d, v)
    decreases d
  {
    match d
    case Text => |v.bytes| <= MAX_INPLACE
    case Vector(e) => |v.items| <= MAX_INPLACE && forall i :: 0 <= i < |v.items| ==> Lean(e, v.items[i])
    case Struct(props) =>
      && |v.fields| <= MAX_INPLACE
      && assert TypedFields(props, v.fields); forall i ::
        0 <= i < |props| && props[i].tag in v.fields ==> LeanProp(props[i], v.fields[props[i].tag])
    case _ => true
  }

  ghost predicate LeanProp(p: Prop, v: Value)
    requires TypedProp(p, v)
    decreases p
  {
    Lean(p.of, v)
  }

  lemma SkipNumber(major: int, value: nat, rest: seq<byte>)
    requires major in {UNSIGNED, NEGATIVE}
    ensures Skip(Head(major, value) + rest) == Got((), rest)
  {
    var b := Head(major, value) + rest;
    assert b[1..] == Head(major, value)[1..] + rest;
  }

  lemma SkipFloat(width: nat, bits: nat, rest: seq<byte>)
    requires width in {4, 8}
    ensures Skip([SIMPLE + if width == 4 then 26 else 27] + BigEndian(bits, width) + rest) == Got((), rest)
  {
    var b := [SIMPLE + if width == 4 then 26 else 27] + BigEndian(bits, width) + rest;
    assert b[1..] == BigEndian(bits, width) + rest;
  }

  lemma LongSize(value: nat, tail: seq<byte>)
    requires MAX_INPLACE < value < Pow256(8)
    ensures var e := Exponent(value);
            SkippedSize(FOLLOWING_1 + e, BigEndian(value, Following(e)) + tail)
            == if Following(e) <= |tail| then Got(value, tail[Following(e)..]) else Bad(OutOfData)
  {
    hide Pow256, BigEndian, FromBigEndian, Exponent, Following;
    var n := Following(Exponent(value));
    var b := BigEndian(value, n) + tail;
    ExponentFits(value, 8);
    BigEndianInverse(value, n);
    assert b[..n] == BigEndian(value, n);
    if n <= |tail| {
      assert b[2 * n..] == tail[n..];
    }
  }

  lemma LongHead(major: int, value: nat, tail: seq<byte>)
    requires Major(major) && value > MAX_INPLACE
    ensures var b := Head(major, value) + tail;
            && b != [] && MajorOf(b[0]) == major && InfoOf(b[0]) == FOLLOWING_1 + Exponent(value)
            && b[1..] == BigEndian(value, Following(Exponent(value))) + tail
  {
    hide BigEndian;
  }

  /** A string is skipped exactly if its length fits the first byte; otherwise the bytes of the length count twice. */
  lemma SkipBytes(major: int, bytes: seq<byte>, rest: seq<byte>)
    requires major in {BYTE_STRING, TEXT_STRING} && |bytes| < Pow256(8)
    ensures Skip(Head(major, |bytes|) + bytes + rest) == Got((), rest) <==> |bytes| <= MAX_INPLACE
    ensures |bytes| > MAX_INPLACE
        ==> Skip(Head(major, |bytes|) + bytes + rest) == Consume(rest, Following(Exponent(|bytes|)))
  {
    hide Pow256, BigEndian, FromBigEndian, Exponent, Following, Skip, Head;
    assert Head(major, |bytes|) + bytes + rest == Head(major, |bytes|) + (bytes + rest);
    if |bytes| <= MAX_INPLACE {
      SkipShortBytes(major, bytes, rest);
    } else {
      SkipLongBytes(major, bytes, rest);
      FollowingFits(Exponent(|bytes|));
    }
  }

  lemma SkipShortBytes(major: int, bytes: seq<byte>, rest: seq<byte>)
    requires major in {BYTE_STRING, TEXT_STRING} && |bytes| <= MAX_INPLACE
    ensures Skip(Head(major, |bytes|) + (bytes + rest)) == Got((), rest)
  {
    hide SkippedSize, Skip, Head, MajorOf, InfoOf;
    ShortHead(major, |bytes|, bytes + rest);
    SkipString(major, Head(major, |bytes|) + (bytes + rest));
    ShortSize(|bytes|, bytes + rest);
    assert (bytes + rest)[|bytes|..] == rest;
  }

  lemma SkipLongBytes(major: int, bytes: seq<byte>, rest: seq<byte>)
    requires major in {BYTE_STRING, TEXT_STRING} && MAX_INPLACE < |bytes| < Pow256(8)
    ensures Skip(Head(major, |bytes|) + (bytes + rest)) == Consume(rest, Following(Exponent(|bytes|)))
  {
    hide Pow256, BigEndian, FromBigEndian, Exponent, Following, SkippedSize, Skip, Head, MajorOf, InfoOf;
    var size, n, tail := |bytes|, Following(Exponent(|bytes|)), bytes + rest;
    LongSize(size, tail);
    LongHead(major, size, tail);
    SkipString(major, Head(major, size) + tail);
    FollowingFits(Exponent(size));
    if n <= |rest| {
      assert tail[n..][size..] == rest[n..];
    }
  }

  lemma FollowingFits(e: nat)
    requires e <= 3
    ensures 0 < Following(e) <= 8
  {
  }

  lemma ShortHead(major: int, value: nat, tail: seq<byte>)
    requires Major(major) && value <= MAX_INPLACE
    ensures var b := Head(major, value) + tail;
            b != [] && MajorOf(b[0]) == major && InfoOf(b[0]) == value && b[1..] == tail
  {
  }

  lemma SkipString(major: int, b: seq<byte>)
    requires b != [] && MajorOf(b[0]) == major && major in {BYTE_STRING, TEXT_STRING}
    ensures Skip(b) == match SkippedSize(InfoOf(b[0]), b[1..]) case Bad(f) => Bad(f)
        case Got(size, next) => Consume(next, size)
  {
    hide SkippedSize;
  }

  lemma ShortSize(info: nat, b: seq<byte>)
    requires info <= MAX_INPLACE
    ensures SkippedSize(info, b) == Got(info, b)
  {
  }

  lemma SkipLeaf(d: Desc, v: Value, rest: seq<byte>)
    requires Leaf(d) && Described(d) && Typed(d, v)
    ensures Skip(Encode(d, v) + rest) == Got((), rest) <==> Lean(d, v)
  {
    hide Head, Skip, Pow256, BigEndian, TagOfValue, HasValue;
    match d
    case Boolean => SkipBool(v.b, rest);
    case Unsigned(_) => SkipNumber(UNSIGNED, v.i, rest);
    case Signed(_) => SkipNumber(if v.i >= 0 then UNSIGNED else NEGATIVE, if v.i >= 0 then v.i else -1 - v.i, rest);
    case Float(w) => SkipFloat(w, v.i, rest);
    case Uuid =>
      SixteenFits();
      SkipBytes(BYTE_STRING, v.bytes, rest);
    case Text => SkipBytes(TEXT_STRING, v.bytes, rest);
    case Enum(es) => SkipNumber(UNSIGNED, TagOfValue(es, v.i), rest);
  }

  lemma SkipBool(b: bool, rest: seq<byte>)
    ensures Skip([SIMPLE + if b then 21 else 20] + rest) == Got((), rest)
  {
  }

  lemma SkipGroup(major: int, n: nat, items: seq<byte>, rest: seq<byte>)
    requires major in {ARRAY, MAP} && n <= MAX_INPLACE
    ensures Skip(Head(major, n) + items + rest) == SkipMany(if major == ARRAY then n else 2 * n, items + rest)
  {
    var b := Head(major, n) + items + rest;
    assert b[1..] == items + rest;
    assert MajorOf(b[0]) == major && InfoOf(b[0]) == n;
  }

  // ----- Nested values -----

  predicate Carried(p: Prop, fields: map<nat, Value>, included: set<nat>) {
    p.tag in fields && p.tag in included
  }

  function Count(props: seq<Prop>, fields: map<nat, Value>, included: set<nat>): nat {
    if props == [] then 0
        else (if Carried(props[0], fields, included) then 1 else 0) + Count(props[1..], fields, included)
  }

  ghost predicate Writable(props: seq<Prop>, fields: map<nat, Value>) {
    && (forall i, j :: 0 <= i < j < |props| ==> props[i].tag != props[j].tag)
    && (forall i :: 0 <= i < |props| ==> props[i].tag < 32 && DescribedProp(props[i]))
    && forall i :: 0 <= i < |props| && props[i].tag in fields ==> TypedProp(props[i], fields[props[i].tag])
  }

  lemma TagsMore(props: seq<Prop>)
    requires props != [] && forall i, j :: 0 <= i < j < |props| ==> props[i].tag != props[j].tag
    ensures TagsOf(props) == {props[0].tag} + TagsOf(props[1..]) && props[0].tag !in TagsOf(props[1..])
  {
    assert props == [props[0]] + props[1..];
    forall q | q in props[1..]
      ensures q.tag != props[0].tag
    {
      var i :| 0 <= i < |props[1..]| && props[1..][i] == q;
      assert props[i + 1] == q;
    }
  }

  lemma {:induction false} CountIs(props: seq<Prop>, fields: map<nat, Value>, included: set<nat>)
    requires forall i, j :: 0 <= i < j < |props| ==> props[i].tag != props[j].tag
    ensures Count(props, fields, included) == |fields.Keys * included * TagsOf(props)|
    ensures Count(props, fields, included) <= |props|
  {
    if props == [] {
      assert fields.Keys * included * TagsOf(props) == {};
    } else {
      hide TagsOf;
      CountIs(props[1..], fields, included);
      TagsMore(props);
      var all, tags, tag := fields.Keys * included, TagsOf(props[1..]), props[0].tag;
      if tag in all {
        assert all * TagsOf(props) == all * tags + {tag};
      } else {
        assert all * TagsOf(props) == all * tags;
      }
    }
  }

  lemma CountWhole(props: seq<Prop>, fields: map<nat, Value>, included: set<nat>)
    requires DescribedProps(props) && TypedFields(props, fields)
    ensures Count(props, fields, included) == |fields.Keys * included| <= 32
    ensures Writable(props, fields)
  {
    CountIs(props, fields, included);
    assert fields.Keys * included * TagsOf(props) == fields.Keys * included;
  }

  lemma CountValid(props: seq<Prop>, fields: map<nat, Value>)
    requires DescribedProps(props) && TypedFields(props, fields)
    ensures Count(props, fields, fields.Keys) == |fields| <= 32 && Writable(props, fields)
  {
    CountWhole(props, fields, fields.Keys);
    assert fields.Keys * fields.Keys == fields.Keys;
    assert |fields.Keys| == |fields|;
  }

  /** A value whose lengths all fit the first bytes is skipped exactly. */
  lemma {:induction false} SkipExact(d: Desc, v: Value, rest: seq<byte>)
    requires Described(d) && Typed(d, v) && Lean(d, v)
    ensures Skip(Encode(d, v) + rest) == Got((), rest)
    decreases d, 0
  {
    hide Skip, Head, SkipMany;
    match d
    case Vector(e) =>
      SkipGroup(ARRAY, |v.items|, EncodeAll(e, v.items), rest);
      SkipAll(e, v.items, rest);
    case Struct(props) =>
      assert DescribedProps(props) && TypedFields(props, v.fields);
      CountValid(props, v.fields);
      SkipGroup(MAP, |v.fields|, EncodeProps(props, v.fields, v.fields.Keys), rest);
      SkipProps(props, v.fields, v.fields.Keys, rest);
    case _ => SkipLeaf(d, v, rest);
  }

  lemma {:induction false} SkipAll(e: Desc, items: seq<Value>, rest: seq<byte>)
    requires Described(e) && forall i :: 0 <= i < |items| ==> Typed(e, items[i]) && Lean(e, items[i])
    ensures SkipMany(|items|, EncodeAll(e, items) + rest) == Got((), rest)
    decreases e, |items|
  {
    hide Skip, Encode, Lean, Described, Typed;
    if items == [] {
      assert EncodeAll(e, items) + rest == rest;
    } else {
      var tail := EncodeAll(e, items[1..]) + rest;
      assert EncodeAll(e, items) + rest == Encode(e, items[0]) + tail;
      SkipExact(e, items[0], tail);
      SkipAll(e, items[1..], rest);
    }
  }

  lemma {:induction false} SkipProp(p: Prop, v: Value, rest: seq<byte>)
    requires DescribedProp(p) && TypedProp(p, v) && LeanProp(p, v)
    ensures SkipMany(2, EncodeProp(p, v) + rest) == Got((), rest)
    decreases p, 0
  {
    hide Skip, Head, Encode;
    var b, next := EncodeProp(p, v) + rest, Encode(p.of, v) + rest;
    assert b == Head(UNSIGNED, p.tag) + next;
    SkipNumber(UNSIGNED, p.tag, next);
    SkipExact(p.of, v, rest);
    assert SkipMany(1, next) == SkipMany(0, rest) == Got((), rest);
    assert SkipMany(2, b) == SkipMany(1, next);
  }

  lemma {:induction false} SkipMore(m: nat, n: nat, b: seq<byte>)
    requires SkipMany(m, b).Got?
    ensures SkipMany(m + n, b) == SkipMany(n, SkipMany(m, b).rest)
  {
    hide Skip;
    if m > 0 {
      SkipMore(m - 1, n, Skip(b).rest);
    }
  }

  lemma {:induction false} SkipProps(props: seq<Prop>, fields: map<nat, Value>, included: set<nat>, rest: seq<byte>)
    requires Writable(props, fields)
    requires forall i ::
        0 <= i < |props| && Carried(props[i], fields, included) ==> LeanProp(props[i], fields[props[i].tag])
    ensures SkipMany(2 * Count(props, fields, included), EncodeProps(props, fields, included) + rest) == Got((), rest)
    decreases props, 1
  {
    hide Skip, EncodeProp, LeanProp, DescribedProp, TypedProp;
    if props == [] {
      assert EncodeProps(props, fields, included) + rest == rest;
    } else {
      var p, tail := props[0], EncodeProps(props[1..], fields, included) + rest;
      SkipProps(props[1..], fields, included, rest);
      if Carried(p, fields, included) {
        assert EncodeProps(props, fields, included) + rest == EncodeProp(p, fields[p.tag]) + tail;
        SkipProp(p, fields[p.tag], tail);
        SkipMore(2, 2 * Count(props[1..], fields, included), EncodeProp(p, fields[p.tag]) + tail);
      } else {
        assert EncodeProps(props, fields, included) + rest == tail;
      }
    }
  }

  // ----- Reading undoes writing -----

  /** Both ends know the same type under a tag that both know. */
  ghost predicate Agree(from: seq<Prop>, to: seq<Prop>) {
    forall i, j :: 0 <= i < |from| && 0 <= j < |to| && from[i].tag == to[j].tag ==> from[i].of == to[j].of
  }

  ghost predicate Known(to: seq<Prop>, wanted: set<nat>, tag: nat) {
    tag in TagsOf(to) && tag in wanted
  }

  /** What of `fields` a receiver that knows `to` and wants `wanted` gets to see. */
  ghost function Projection(props: seq<Prop>, fields: map<nat, Value>, included: set<nat>, to: seq<Prop>,
                            wanted: set<nat>): map<nat, Value>
  {
    map t | t in fields && t in included && t in TagsOf(props) && Known(to, wanted, t) :: fields[t]
  }

  /** All that the receiver has to skip fits the first bytes. */
  ghost predicate Skippable(props: seq<Prop>, fields: map<nat, Value>, included: set<nat>, to: seq<Prop>,
                            wanted: set<nat>)
    requires Writable(props, fields)
  {
    forall i ::
        0 <= i < |props| && Carried(props[i], fields, included) && !Known(to, wanted, props[i].tag)
        ==> LeanProp(props[i], fields[props[i].tag])
  }

  /** Reading what was written gives the value back, and leaves what follows it. */
  lemma {:induction false} DecodeInverse(d: Desc, v: Value, rest: seq<byte>)
    requires Described(d) && Typed(d, v)
    ensures Decode(d, None, Encode(d, v) + rest) == Got(v, rest)
    decreases d, 0
  {
    hide Head, ParseHead, Pow256, DecodeAll, DecodeEntries, DecodeStruct, EncodeStruct, Projection;
    match d
    case Vector(e) =>
      HeadInverse(ARRAY, |v.items|, 8, EncodeAll(e, v.items) + rest);
      assert Encode(d, v) + rest == Head(ARRAY, |v.items|) + (EncodeAll(e, v.items) + rest);
      AllInverse(e, v.items, rest);
    case Struct(props) =>
      assert DescribedProps(props) && TypedFields(props, v.fields);
      ValidProjection(props, v.fields);
      StructInverse(props, props, v.fields, v.fields.Keys, ALL, rest);
      Nested(props, v.fields, Encode(d, v) + rest);
    case _ => LeafInverse(d, None, v, rest);
  }

  lemma {:induction false} AllInverse(e: Desc, items: seq<Value>, rest: seq<byte>)
    requires Described(e) && forall i :: 0 <= i < |items| ==> Typed(e, items[i])
    ensures DecodeAll(e, |items|, EncodeAll(e, items) + rest) == Got(items, rest)
    decreases e, |items|
  {
    hide Decode, Encode, Described, Typed;
    if items == [] {
      assert EncodeAll(e, items) + rest == rest;
    } else {
      var tail := EncodeAll(e, items[1..]) + rest;
      assert EncodeAll(e, items) + rest == Encode(e, items[0]) + tail;
      DecodeInverse(e, items[0], tail);
      AllInverse(e, items[1..], rest);
      assert items == [items[0]] + items[1..];
    }
  }

  lemma Nested(props: seq<Prop>, fields: map<nat, Value>, b: seq<byte>)
    requires Described(Struct(props)) && Typed(Struct(props), Record(fields))
    ensures DescribedProps(props) && TypedFields(props, fields)
    ensures Encode(Struct(props), Record(fields)) == EncodeStruct(props, fields, fields.Keys)
    ensures DecodeStruct(props, ALL, map[], b).Got? ==>
              Decode(Struct(props), None, b)
                == Got(Record(DecodeStruct(props, ALL, map[], b).value), DecodeStruct(props, ALL, map[], b).rest)
  {
    hide Head, ParseHead, EncodeProps, DecodeEntries;
    assert fields.Keys * fields.Keys == fields.Keys && |fields.Keys| == |fields|;
  }

  lemma ValidProjection(props: seq<Prop>, fields: map<nat, Value>)
    requires DescribedProps(props) && TypedFields(props, fields)
    ensures Projection(props, fields, fields.Keys, props, ALL) == fields
    ensures Writable(props, fields) && Skippable(props, fields, fields.Keys, props, ALL) && Agree(props, props)
  {
    AllTags(props);
  }

  lemma AllTags(props: seq<Prop>)
    requires DescribedProps(props)
    ensures TagsOf(props) <= ALL
    ensures Agree(props, props) && forall i :: 0 <= i < |props| ==> props[i].tag in TagsOf(props)
  {
  }

  /**
   The receiver of a struct gets the included valid properties that it knows and wants, whatever it
   skips on the way, and exactly the bytes written are consumed.
   */
  lemma {:induction false} StructInverse(from: seq<Prop>, to: seq<Prop>, fields: map<nat, Value>, included: set<nat>,
                                         wanted: set<nat>, rest: seq<byte>)
    requires DescribedProps(from) && TypedFields(from, fields) && Agree(from, to)
    requires Writable(from, fields) ==> Skippable(from, fields, included, to, wanted)
    ensures DecodeStruct(to, wanted, map[], EncodeStruct(from, fields, included) + rest)
        == Got(Projection(from, fields, included, to, wanted), rest)
    decreases from, 1
  {
    hide Head, ParseHead, Pow256, DecodeEntries, EncodeProps, DescribedProps, TypedFields, Skippable, Agree, Projection;
    CountWhole(from, fields, included);
    var n, body := |fields.Keys * included|, EncodeProps(from, fields, included);
    assert n < Pow256(8) by {
      Powers();
    }
    HeadInverse(MAP, n, 8, body + rest);
    assert EncodeStruct(from, fields, included) + rest == Head(MAP, n) + (body + rest);
    EntriesInverse(from, to, fields, included, wanted, map[], rest);
    assert map[] + Projection(from, fields, included, to, wanted) == Projection(from, fields, included, to, wanted);
  }

  lemma {:induction false} EntriesInverse(props: seq<Prop>, to: seq<Prop>, fields: map<nat, Value>,
                                          included: set<nat>, wanted: set<nat>, got: map<nat, Value>, rest: seq<byte>)
    requires Writable(props, fields) && Agree(props, to) && Skippable(props, fields, included, to, wanted)
    requires forall p :: p in props ==> p.tag !in got
    ensures DecodeEntries(to, wanted, Count(props, fields, included), got, EncodeProps(props, fields, included) + rest)
         == Got(got + Projection(props, fields, included, to, wanted), rest)
    decreases props, 0
  {
    hide Skip, Encode, Decode, EncodeProp, EncodeProps, DecodeEntries, LeanProp, DescribedProp, TypedProp,
      Projection, Known, TagsOf, Agree, Skippable, Count;
    if props == [] {
      NoEntries(to, fields, included, wanted, got, rest);
    } else {
      var p, more := props[0], props[1..];
      assert p in props;
      RestFacts(props, to, fields, included, wanted);
      ProjectionMore(props, fields, included, to, wanted, got) by {
        DistinctTags(props, fields);
      }
      EncodeStep(props, fields, included, rest);
      var tail := EncodeProps(more, fields, included) + rest;
      if Carried(p, fields, included) {
        var next := if Known(to, wanted, p.tag) then got[p.tag := fields[p.tag]] else got;
        OneEntry(p, to, fields[p.tag], wanted, Count(more, fields, included), got, tail);
        EntriesInverse(more, to, fields, included, wanted, next, rest);
      } else {
        EntriesInverse(more, to, fields, included, wanted, got, rest);
      }
    }
  }

  lemma DistinctTags(props: seq<Prop>, fields: map<nat, Value>)
    requires Writable(props, fields)
    ensures forall i, j :: 0 <= i < j < |props| ==> props[i].tag != props[j].tag
  {
  }

  lemma EncodeStep(props: seq<Prop>, fields: map<nat, Value>, included: set<nat>, rest: seq<byte>)
    requires props != [] && Writable(props, fields) && Writable(props[1..], fields)
    ensures var p, tail := props[0], EncodeProps(props[1..], fields, included) + rest;
            && EncodeProps(props, fields, included) + rest == (if Carried(p, fields, included)
              then EncodeProp(p, fields[p.tag]) + tail else tail)
            && Count(props, fields, included) == Count(props[1..], fields, included)
              + if Carried(p, fields, included) then 1 else 0
  {
    hide EncodeProp, DescribedProp, TypedProp;
    var p := props[0];
    if Carried(p, fields, included) {
      Grouped(EncodeProp(p, fields[p.tag]), EncodeProps(props[1..], fields, included), rest);
    } else {
      assert [] + EncodeProps(props[1..], fields, included) == EncodeProps(props[1..], fields, included);
    }
  }

  lemma RestFacts(props: seq<Prop>, to: seq<Prop>, fields: map<nat, Value>, included: set<nat>, wanted: set<nat>)
    requires props != [] && Writable(props, fields) && Agree(props, to)
        && Skippable(props, fields, included, to, wanted)
    ensures var p, more := props[0], props[1..];
            && Writable(more, fields) && Agree(more, to) && Skippable(more, fields, included, to, wanted)
            && p.tag < 32 && DescribedProp(p) && Agree([p], to)
            && (Carried(p, fields, included) ==>
                  TypedProp(p, fields[p.tag]) && (!Known(to, wanted, p.tag) ==> LeanProp(p, fields[p.tag])))
            && forall q :: q in more ==> q.tag != p.tag && q in props
  {
    hide LeanProp, DescribedProp, TypedProp, Known;
  }

  lemma ProjectionMore(props: seq<Prop>, fields: map<nat, Value>, included: set<nat>, to: seq<Prop>,
                       wanted: set<nat>, got: map<nat, Value>)
    requires props != [] && forall i, j :: 0 <= i < j < |props| ==> props[i].tag != props[j].tag
    ensures var p, more := props[0], Projection(props[1..], fields, included, to, wanted);
            got + Projection(props, fields, included, to, wanted)
            == if Carried(p, fields, included) && Known(to, wanted, p.tag) then got[p.tag := fields[p.tag]] + more
              else got + more
  {
    hide Known, TagsOf;
    TagsMore(props);
  }

  lemma NoEntries(to: seq<Prop>, fields: map<nat, Value>, included: set<nat>, wanted: set<nat>, got: map<nat, Value>,
                  rest: seq<byte>)
    ensures DecodeEntries(to, wanted, Count([], fields, included), got, EncodeProps([], fields, included) + rest)
        == Got(got + Projection([], fields, included, to, wanted), rest)
  {
    assert Projection([], fields, included, to, wanted) == map[];
    assert got + map[] == got && EncodeProps([], fields, included) + rest == rest;
  }

  lemma {:induction false} OneEntry(p: Prop, to: seq<Prop>, v: Value, wanted: set<nat>, n: nat, got: map<nat, Value>,
                                    tail: seq<byte>)
    requires DescribedProp(p) && TypedProp(p, v) && p.tag < 32 && p.tag !in got && Agree([p], to)
    requires !Known(to, wanted, p.tag) ==> LeanProp(p, v)
    ensures DecodeEntries(to, wanted, n + 1, got, EncodeProp(p, v) + tail)
         == DecodeEntries(to, wanted, n, if Known(to, wanted, p.tag) then got[p.tag := v] else got, tail)
    decreases p, 1
  {
    hide Head, ParseHead, Pow256, Skip, Encode, Decode;
    var b := Encode(p.of, v) + tail;
    assert EncodeProp(p, v) + tail == Head(UNSIGNED, p.tag) + b;
    assert 32 < Pow256(4) by {
      Powers();
    }
    HeadInverse(UNSIGNED, p.tag, 4, b);
    var k := Find(to, p.tag);
    if Known(to, wanted, p.tag) {
      assert [p][0] == p && to[k.value].of == p.of;
      DecodeInverse(p.of, v, tail);
    } else {
      SkipExact(p.of, v, tail);
    }
  }

  /** Different values of one type are written differently, and neither is a prefix of the other. */
  lemma EncodeInjective(d: Desc, v: Value, w: Value, x: seq<byte>, y: seq<byte>)
    requires Described(d) && Typed(d, v) && Typed(d, w)
    ensures Encode(d, v) + x == Encode(d, w) + y ==> v == w && x == y
  {
    DecodeInverse(d, v, x);
    DecodeInverse(d, w, y);
  }

  // ----- Long items that have to be skipped -----

  const TEXT_AND_FLAG := [Prop(1, Text), Prop(2, Boolean)]
  const FLAG := [Prop(2, Boolean)]

  function TextAndFlag(text: seq<byte>, flag: bool): map<nat, Value> {
    map[1 := Bytes(text), 2 := Bool(flag)]
  }

  lemma TextAndFlagTyped(text: seq<byte>, flag: bool)
    requires |text| < Pow256(8)
    ensures DescribedProps(TEXT_AND_FLAG) && TypedFields(TEXT_AND_FLAG, TextAndFlag(text, flag))
  {
    hide Pow256;
    var props, fields := TEXT_AND_FLAG, TextAndFlag(text, flag);
    assert props[0] in props && props[1] in props;
    assert TagsOf(props) >= {1, 2};
    assert TypedProp(props[0], fields[1]) && TypedProp(props[1], fields[2]);
    assert DescribedProp(props[0]) && DescribedProp(props[1]);
  }

  lemma TextAndFlagBytes(text: seq<byte>, flag: bool, rest: seq<byte>)
    requires |text| < Pow256(8) && DescribedProps(TEXT_AND_FLAG) && TypedFields(TEXT_AND_FLAG, TextAndFlag(text, flag))
    ensures EncodeStruct(TEXT_AND_FLAG, TextAndFlag(text, flag), ALL) + rest
         == Head(MAP, 2) + (Head(UNSIGNED, 1) + (Head(TEXT_STRING, |text|) + text
           + ([2, SIMPLE + if flag then 21 else 20] + rest)))
  {
    hide Head, Pow256, DescribedProps, TypedFields;
    var props, fields := TEXT_AND_FLAG, TextAndFlag(text, flag);
    assert fields.Keys * ALL == {1, 2};
    assert props[1..] == [Prop(2, Boolean)] && props[1..][1..] == [];
    var last := EncodeProp(props[1], fields[2]);
    assert EncodeProps(props[1..], fields, ALL) == last + [];
    assert EncodeProps(props, fields, ALL) == EncodeProp(props[0], fields[1]) + (last + []);
    assert Head(UNSIGNED, 2) == [2] by {
      SmallHead(2);
    }
  }

  lemma SmallHead(value: nat)
    requires value <= MAX_INPLACE
    ensures Head(UNSIGNED, value) == [value]
  {
  }

  /** A receiver that does not know a text gets the property after it right if and only if the text is short. */
  lemma UnknownText(text: seq<byte>, flag: bool, rest: seq<byte>)
    requires |text| < Pow256(8)
    ensures DescribedProps(TEXT_AND_FLAG) && TypedFields(TEXT_AND_FLAG, TextAndFlag(text, flag))
    ensures |text| <= MAX_INPLACE <==>
              DecodeStruct(FLAG, ALL, map[], EncodeStruct(TEXT_AND_FLAG, TextAndFlag(text, flag), ALL) + rest)
              == Got(map[2 := Bool(flag)], rest)
  {
    hide Head, ParseHead, Pow256, Skip, Following, Exponent, EncodeStruct, DecodeStruct, DecodeEntries,
      DescribedProps, TypedFields, Consume;
    TextAndFlagTyped(text, flag);
    TextAndFlagBytes(text, flag, rest);
    var tail := [2, SIMPLE + if flag then 21 else 20] + rest;
    TwoEntries(Head(TEXT_STRING, |text|) + text + tail);
    SkipBytes(TEXT_STRING, text, tail);
    if |text| <= MAX_INPLACE {
      LastFlag(flag, rest);
    } else {
      FollowingFits(Exponent(|text|));
      LateFlag(Following(Exponent(|text|)), flag, rest);
    }
  }

  lemma TwoEntries(middle: seq<byte>)
    ensures DecodeStruct(FLAG, ALL, map[], Head(MAP, 2) + (Head(UNSIGNED, 1) + middle))
         == match Skip(middle) case Bad(f) => Bad(f) case Got(_, next) => DecodeEntries(FLAG, ALL, 1, map[], next)
  {
    hide Head, ParseHead, Pow256, Skip, DecodeEntries;
    Powers();
    HeadInverse(MAP, 2, 8, Head(UNSIGNED, 1) + middle);
    HeadInverse(UNSIGNED, 1, 4, middle);
    SecondEntry(middle);
  }

  lemma LateFlag(n: nat, flag: bool, rest: seq<byte>)
    requires n > 0
    ensures var tail := [2, SIMPLE + if flag then 21 else 20] + rest;
            match Consume(tail, n)
            case Bad(f) => true
            case Got(_, next) => DecodeEntries(FLAG, ALL, 1, map[], next) != Got(map[2 := Bool(flag)], rest)
  {
    hide DecodeEntries;
    var tail := [2, SIMPLE + if flag then 21 else 20] + rest;
    if n <= |tail| {
      assert tail[n..] == if n == 1 then [SIMPLE + if flag then 21 else 20] + rest else rest[n - 2..];
      LostFlag(tail[n..], rest);
    }
  }

  lemma SecondEntry(middle: seq<byte>)
    requires ParseHead(UNSIGNED, 4, Head(UNSIGNED, 1) + middle) == Got(1, middle)
    ensures DecodeEntries(FLAG, ALL, 2, map[], Head(UNSIGNED, 1) + middle)
         == match Skip(middle) case Bad(f) => Bad(f) case Got(_, next) => DecodeEntries(FLAG, ALL, 1, map[], next)
  {
    hide Head, ParseHead, Skip;
    assert Find(FLAG, 1) == None;
  }

  lemma LastFlag(flag: bool, rest: seq<byte>)
    ensures DecodeEntries(FLAG, ALL, 1, map[], [2, SIMPLE + if flag then 21 else 20] + rest)
        == Got(map[2 := Bool(flag)], rest)
  {
    hide Head, ParseHead, Pow256;
    var b := [SIMPLE + if flag then 21 else 20] + rest;
    Powers();
    HeadInverse(UNSIGNED, 2, 4, b);
    SmallHead(2);
    assert [2, SIMPLE + if flag then 21 else 20] + rest == [2] + b;
    assert Find(FLAG, 2) == Some(0);
    LeafInverse(Boolean, None, Bool(flag), rest);
    assert DecodeEntries(FLAG, ALL, 0, map[2 := Bool(flag)], rest) == Got(map[2 := Bool(flag)], rest);
  }

  // One byte late the flag is taken for a tag; later still it is gone.
  lemma LostFlag(b: seq<byte>, rest: seq<byte>)
    requires |b| <= |rest| || (b != [] && MajorOf(b[0]) != UNSIGNED)
    ensures var r := DecodeEntries(FLAG, ALL, 1, map[], b); r.Bad? || |r.rest| < |rest|
  {
    hide Skip;
    var r := ParseHead(UNSIGNED, 4, b);
    if r.Got? {
      assert FLAG[0].of == Boolean;
      OneLess(r.rest, r.value);
    }
  }

  lemma OneLess(b: seq<byte>, tag: nat)
    ensures var r := DecodeProp(FLAG[0], None, b); r.Got? ==> |r.rest| < |b|
    ensures forall fields, next :: DecodeEntries(FLAG, ALL, 0, fields, next) == Got(fields, next)
  {
    hide ParseHead;
  }

  // The reverse of `SkipExact` fails: after a long count a lost byte can be made up for by chance.

  function Zeros(n: nat): seq<byte> {
    seq(n, _ => 0)
  }

  lemma {:induction false} SkipZeros(n: nat, rest: seq<byte>)
    ensures SkipMany(n, Zeros(n) + rest) == Got((), rest)
  {
    if n == 0 {
      assert Zeros(0) + rest == rest;
    } else {
      assert Zeros(n) + rest == [0] + (Zeros(n - 1) + rest);
      SmallHead(0);
      SkipNumber(UNSIGNED, 0, Zeros(n - 1) + rest);
      SkipZeros(n - 1, rest);
    }
  }

  lemma {:induction false} EncodeZeros(n: nat)
    ensures EncodeAll(Unsigned(1), seq(n, _ => Number(0))) == Zeros(n)
  {
    var items := seq(n, _ => Number(0));
    if n > 0 {
      assert items[1..] == seq(n - 1, _ => Number(0));
      EncodeZeros(n - 1);
      SmallHead(0);
      assert Zeros(n) == [0] + Zeros(n - 1);
    }
  }

  function Coincidence(): Value {
    List([Number(32)] + seq(23, _ => Number(0)))
  }

  lemma CoincidenceTyped()
    ensures Typed(Vector(Unsigned(1)), Coincidence())
  {
    Powers();
  }

  lemma LiteralHeads()
    ensures Head(UNSIGNED, 32) == [24, 32] && Head(ARRAY, 24) == [ARRAY + 24, 24]
  {
    assert BigEndian(32, 1) == [32] && BigEndian(24, 1) == [24];
  }

  lemma FirstAndZeros(items: seq<Value>, zeros: seq<Value>)
    requires items == [Number(32)] + zeros && EncodeAllOk(zeros) && EncodeAllOk(items)
    ensures EncodeAll(Unsigned(1), items) == [24, 32] + EncodeAll(Unsigned(1), zeros)
  {
    hide Head, Pow256;
    assert items[0] == Number(32) && items[1..] == zeros;
    LiteralHeads();
  }

  ghost predicate EncodeAllOk(items: seq<Value>) {
    forall i :: 0 <= i < |items| ==> Typed(Unsigned(1), items[i])
  }

  lemma CoincidenceBytes()
    ensures Typed(Vector(Unsigned(1)), Coincidence())
    ensures Encode(Vector(Unsigned(1)), Coincidence()) == [ARRAY + 24, 24] + ([24, 32] + Zeros(23))
  {
    hide Pow256, Zeros, Head, EncodeAll;
    CoincidenceTyped();
    EncodeZeros(23);
    FirstAndZeros(Coincidence().items, seq(23, _ => Number(0)));
    LiteralHeads();
  }

  lemma Regroup(z: seq<byte>, rest: seq<byte>)
    ensures [ARRAY + 24, 24] + ([24, 32] + z) + rest == [ARRAY + 24, 24] + ([24] + ([32] + (z + rest)))
  {
  }

  lemma LongButSkipped(rest: seq<byte>)
    ensures exists v ::
        Typed(Vector(Unsigned(1)), v) && !Lean(Vector(Unsigned(1)), v) && Skip(Encode(Vector(Unsigned(1)), v) + rest)
        == Got((), rest)
  {
    hide Skip, SkipMany, Encode, Head, Zeros;
    CoincidenceBytes();
    Regroup(Zeros(23), rest);
    var zeros := Zeros(23) + rest;
    SkipArray24([32] + zeros);
    SmallNegative();
    SkipNumber(NEGATIVE, 0, zeros);
    SkipZeros(23, rest);
    SkipOneMore(23, [32] + zeros);
    assert |Coincidence().items| == 24;
  }

  lemma SmallNegative()
    ensures Head(NEGATIVE, 0) == [32]
  {
  }

  lemma SkipOneMore(n: nat, b: seq<byte>)
    requires Skip(b).Got?
    ensures SkipMany(n + 1, b) == SkipMany(n, Skip(b).rest)
  {
    hide Skip;
  }

  lemma SkipArray24(tail: seq<byte>)
    ensures Skip([ARRAY + 24, 24] + ([24] + tail)) == SkipMany(24, tail)
  {
    hide SkipMany;
    var b := [ARRAY + 24, 24] + ([24] + tail);
    assert b[1..][..1] == [24] && b[1..][2..] == tail;
    assert FromBigEndian([24]) == 24 by {
      assert [24][..0] == [];
    }
  }
}
