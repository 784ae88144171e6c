/** What is written, byte by byte, against section 3 of RFC 8949. */
module CborStandard {
  import opened Wrappers
  import opened Cbor
  import opened CborRoundTrip

  /** The head of section 3 of RFC 8949: the major type in the highest three bits, and the shortest argument. */
  function StandardHead(major: nat, value: nat): seq<byte>
    requires major < 8 && value < 0x1_0000_0000_0000_0000
  {
    if value < 24 then [32 * major + value]
    else if value < 0x100 then [32 * major + 24, value]
    else if value < 0x1_0000 then [32 * major + 25, value / 0x100, value % 0x100]
    else if value < 0x1_0000_0000 then [32 * major + 26] + FourBytes(value)
    else [32 * major + 27] + FourBytes(value / 0x1_0000_0000) + FourBytes(value % 0x1_0000_0000)
  }

  function FourBytes(value: nat): seq<byte>
    requires value < 0x1_0000_0000
  {
    [value / 0x100_0000, value / 0x1_0000 % 0x100, value / 0x100 % 0x100, value % 0x100]
  }

  lemma TwoBytes(value: nat)
    requires value < 0x1_0000
    ensures BigEndian(value, 1) == [value % 0x100] && BigEndian(value, 2) == [value / 0x100, value % 0x100]
  {
    assert BigEndian(value, 0) == BigEndian(value / 256, 0) == [];
    assert BigEndian(value / 256, 1) == [value / 256 % 256];
  }

  lemma FourBytesBigEndian(value: nat)
    requires value < 0x1_0000_0000
    ensures BigEndian(value, 4) == FourBytes(value)
  {
    TwoBytes(value / 0x1_0000);
    assert value / 256 / 256 == value / 0x1_0000;
    assert BigEndian(value / 256, 3) == BigEndian(value / 0x1_0000, 2) + [value / 0x100 % 0x100];
  }

  // A number of eight bytes from its parts.
  lemma Parts(h: nat, b3: nat, b2: nat, b1: nat, b0: nat)
    requires b3 < 256 && b2 < 256 && b1 < 256 && b0 < 256
    ensures var low := 0x100_0000 * b3 + 0x1_0000 * b2 + 0x100 * b1 + b0;
            && low / 0x100_0000 == b3 && low / 0x1_0000 % 0x100 == b2 && low / 0x100 % 0x100 == b1 && low % 0x100 == b0
    ensures var value := 0x1_0000_0000 * h + 0x100_0000 * b3 + 0x1_0000 * b2 + 0x100 * b1 + b0;
            && value / 0x100 == 0x100_0000 * h + 0x1_0000 * b3 + 0x100 * b2 + b1 && value % 0x100 == b0
  {
    var low := 0x100_0000 * b3 + 0x1_0000 * b2 + 0x100 * b1 + b0;
    Quotient(low, 0x100_0000, b3, 0x1_0000 * b2 + 0x100 * b1 + b0);
    Quotient(low, 0x1_0000, 0x100 * b3 + b2, 0x100 * b1 + b0);
    Quotient(0x100 * b3 + b2, 0x100, b3, b2);
    Quotient(low, 0x100, 0x1_0000 * b3 + 0x100 * b2 + b1, b0);
    Quotient(0x1_0000 * b3 + 0x100 * b2 + b1, 0x100, 0x100 * b3 + b2, b1);
    Quotient(0x1_0000_0000 * h + low, 0x100, 0x100_0000 * h + 0x1_0000 * b3 + 0x100 * b2 + b1, b0);
  }

  lemma Split(low: nat) returns (b3: nat, b2: nat, b1: nat, b0: nat)
    requires low < 0x1_0000_0000
    ensures b3 < 256 && b2 < 256 && b1 < 256 && b0 < 256
    ensures low == 0x100_0000 * b3 + 0x1_0000 * b2 + 0x100 * b1 + b0
  {
    var x := low / 0x100;
    var y := x / 0x100;
    b0, b1, b2, b3 := low % 0x100, x % 0x100, y % 0x100, y / 0x100;
  }

  lemma EightBytesBigEndian(value: nat)
    requires value < 0x1_0000_0000_0000_0000
    ensures BigEndian(value, 8) == FourBytes(value / 0x1_0000_0000) + FourBytes(value % 0x1_0000_0000)
  {
    var h, low := value / 0x1_0000_0000, value % 0x1_0000_0000;
    var b3, b2, b1, b0 := Split(low);
    Parts(h, b3, b2, b1, b0);
    var x, y, z := 0x100_0000 * h + 0x1_0000 * b3 + 0x100 * b2 + b1, 0x1_0000 * h + 0x100 * b3 + b2, 0x100 * h + b3;
    assert x / 0x100 == y && x % 0x100 == b1;
    assert y / 0x100 == z && y % 0x100 == b2;
    assert z / 0x100 == h && z % 0x100 == b3;
    FourBytesBigEndian(h);
    assert BigEndian(z, 5) == BigEndian(h, 4) + [b3];
    assert BigEndian(y, 6) == BigEndian(z, 5) + [b2];
    assert BigEndian(x, 7) == BigEndian(y, 6) + [b1];
    assert FourBytes(low) == [b3, b2, b1, b0];
  }

  lemma HeadStandard(major: nat, value: nat)
    requires major < 8 && Major(32 * major) && value < 0x1_0000_0000_0000_0000
    ensures Head(32 * major, value) == StandardHead(major, value)
  {
    hide FourBytes, BigEndian;
    if value < 0x1_0000 {
      TwoBytes(value);
    } else if value < 0x1_0000_0000 {
      FourBytesBigEndian(value);
    } else {
      EightBytesBigEndian(value);
    }
  }

  predicate Fits(n: int) {
    0 <= n < 0x1_0000_0000_0000_0000
  }

  /** `b` are the items that RFC 8949 has for a value. */
  ghost predicate Standard(d: Desc, v: Value, b: seq<byte>)
    requires Described(d) && Typed(d, v)
  {
    match d
    case Boolean => b == [if v.b then 0xF5 else 0xF4]
    case Unsigned(_) => Fits(v.i) && b == StandardHead(0, v.i)
    case Signed(_) =>
      if v.i >= 0 then Fits(v.i) && b == StandardHead(0, v.i) else Fits(-1 - v.i) && b == StandardHead(1, -1 - v.i)
    case Float(w) => b == [if w == 4 then 0xFA else 0xFB] + BigEndian(v.i, w)
    case Uuid => b == [0x50] + v.bytes
    case Text => Fits(|v.bytes|) && b == StandardHead(3, |v.bytes|) + v.bytes
    case Enum(es) => Fits(TagOfValue(es, v.i)) && b == StandardHead(0, TagOfValue(es, v.i))
    case Vector(e) => Fits(|v.items|) && b == StandardHead(4, |v.items|) + EncodeAll(e, v.items)
    case Struct(props) =>
      assert DescribedProps(props) && TypedFields(props, v.fields);
      Fits(|v.fields|) && b == StandardHead(5, |v.fields|) + EncodeProps(props, v.fields, v.fields.Keys)
  }

  /** Every value is written as the items that RFC 8949 has for it. */
  lemma WritesStandard(d: Desc, v: Value)
    requires Described(d) && Typed(d, v)
    ensures Standard(d, v, Encode(d, v))
  {
    hide Head, StandardHead, BigEndian, HasValue, TagOfValue, Pow256, EncodeAll, EncodeProps;
    Powers();
    match d
    case Unsigned(_) => HeadStandard(0, v.i);
    case Signed(_) =>
      if v.i >= 0 {
        HeadStandard(0, v.i);
      } else {
        HeadStandard(1, -1 - v.i);
      }
    case Uuid => SixteenBytes();
    case Text => HeadStandard(3, |v.bytes|);
    case Enum(es) =>
      EnumInverse(es, v.i);
      HeadStandard(0, TagOfValue(es, v.i));
    case Vector(e) => HeadStandard(4, |v.items|);
    case Struct(props) =>
      FieldsFit(props, v.fields);
      HeadStandard(5, |v.fields|);
    case _ =>
  }

  lemma SixteenBytes()
    ensures Head(BYTE_STRING, 16) == [0x50]
  {
  }

  lemma FieldsFit(props: seq<Prop>, fields: map<nat, Value>)
    requires DescribedProps(props) && TypedFields(props, fields)
    ensures |fields| <= 32
  {
    hide DescribedProp, TypedProp;
    CountWhole(props, fields, fields.Keys);
    assert fields.Keys * fields.Keys == fields.Keys && |fields.Keys| == |fields|;
  }

  /** The same for a struct at the top level and for the properties in it: a tag, then the value. */
  lemma WritesStandardStruct(props: seq<Prop>, fields: map<nat, Value>, included: set<nat>)
    requires DescribedProps(props) && TypedFields(props, fields)
    ensures Fits(|fields.Keys * included|)
    ensures EncodeStruct(props, fields, included)
         == StandardHead(5, |fields.Keys * included|) + EncodeProps(props, fields, included)
    ensures forall p :: p in props && p.tag in fields ==>
              DescribedProp(p) && TypedProp(p, fields[p.tag]) && Fits(p.tag)
              && EncodeProp(p, fields[p.tag]) == StandardHead(0, p.tag) + Encode(p.of, fields[p.tag])
  {
    hide Head, StandardHead, Encode, Described, Typed, EncodeProps, Count;
    CountWhole(props, fields, included);
    HeadStandard(5, |fields.Keys * included|);
    forall p | p in props && p.tag in fields
      ensures DescribedProp(p) && TypedProp(p, fields[p.tag]) && Fits(p.tag)
      ensures EncodeProp(p, fields[p.tag]) == StandardHead(0, p.tag) + Encode(p.of, fields[p.tag])
    {
      var i :| 0 <= i < |props| && props[i] == p;
      HeadStandard(0, p.tag);
    }
  }
}
