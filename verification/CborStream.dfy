/** The writer and the reader as they work on a buffer: byte loops, counters of the visiting level, early exits. */
module CborStream {
  import opened Wrappers
  import opened Cbor
  import opened CborRoundTrip

  lemma IncludedValid(props: seq<Prop>, fields: map<nat, Value>, included: set<nat>)
    requires Writable(props, fields)
    ensures EncodeProps(props, fields, included * fields.Keys) == EncodeProps(props, fields, included)
  {
    if props != [] {
      IncludedValid(props[1..], fields, included);
    }
  }

  lemma EncodePropsFrom(props: seq<Prop>, fields: map<nat, Value>, included: set<nat>, n: nat)
    requires Writable(props, fields) && n < |props|
    ensures Writable(props[n..], fields) && Writable(props[n + 1..], fields)
    ensures EncodeProps(props[n..], fields, included)
         == (if Carried(props[n], fields, included) then EncodeProp(props[n], fields[props[n].tag]) else [])
           + EncodeProps(props[n + 1..], fields, included)
  {
    hide EncodeProp, DescribedProp, TypedProp;
    assert props[n..][1..] == props[n + 1..] && props[n..][0] == props[n];
  }

  class CborWriter {
    var output: seq<byte>
    var level: nat

    constructor ()
      ensures output == [] && level == 0
    {
      output, level := [], 0;
    }

    function VisitingLevel(): nat
      reads this`level
    {
      if level == 0 then 0 else level - 1
    }

    method WriteByte(b: byte)
      modifies this`output
      ensures output == old(output) + [b]
    {
      output := output + [b];
    }

    method WriteContingentBytes(value: nat, width: nat)
      modifies this`output
      ensures output == old(output) + BigEndian(value, width)
    {
      var i := width;
      while i > 0
        invariant 0 <= i <= width
        invariant output == old(output) + BigEndian(value, width)[..width - i]
      {
        i := i - 1;
        BigEndianAt(value, width, width - 1 - i);
        WriteByte(ShiftRight(value, i) % 256);
      }
    }

    method WriteHead(major: int, value: nat)
      requires Major(major) && value < Pow256(8)
      modifies this`output
      ensures output == old(output) + Head(major, value)
    {
      hide Pow256, BigEndian, ShiftRight;
      if value <= MAX_INPLACE {
        WriteByte(major + value);
      } else {
        var exponent := Exponent(value);
        WriteByte(major + FOLLOWING_1 + exponent);
        WriteContingentBytes(value, Following(exponent));
      }
    }

    method WriteBytes(bytes: seq<byte>)
      modifies this`output
      ensures output == old(output) + bytes
    {
      output := output + bytes;
    }

    method WriteString(major: int, bytes: seq<byte>)
      requires Major(major) && |bytes| < Pow256(8)
      modifies this`output
      ensures output == old(output) + (Head(major, |bytes|) + bytes)
    {
      hide Head, Pow256;
      WriteHead(major, |bytes|);
      WriteBytes(bytes);
    }

    method WriteFloat(bits: nat, width: nat)
      requires width in {4, 8}
      modifies this`output
      ensures output == old(output) + ([SIMPLE + if width == 4 then 26 else 27] + BigEndian(bits, width))
    {
      hide BigEndian;
      WriteByte(SIMPLE + if width == 4 then 26 else 27);
      WriteContingentBytes(bits, width);
    }

    method WriteLeaf(d: Desc, v: Value)
      requires Leaf(d) && Described(d) && Typed(d, v)
      modifies this`output
      ensures output == old(output) + Encode(d, v)
    {
      hide Head, BigEndian, HasValue, TagOfValue;
      LeafFits(d, v);
      match d
      case Boolean => WriteByte(SIMPLE + if v.b then 21 else 20);
      case Unsigned(_) => WriteHead(UNSIGNED, v.i);
      case Signed(_) =>
        if v.i >= 0 {
          WriteHead(UNSIGNED, v.i);
        } else {
          WriteHead(NEGATIVE, -1 - v.i);
        }
      case Float(w) => WriteFloat(v.i, w);
      case Uuid => WriteString(BYTE_STRING, v.bytes);
      case Text => WriteString(TEXT_STRING, v.bytes);
      case Enum(es) =>
        EnumInverse(es, v.i);
        WriteHead(UNSIGNED, TagOfValue(es, v.i));
    }

    method VisitType(d: Desc, v: Value)
      requires Described(d) && Typed(d, v) && level > 0
      modifies this
      ensures output == old(output) + Encode(d, v) && level == old(level)
      decreases d, 3
    {
      hide Head, Pow256;
      match d {
        case Vector(e) =>
          VisitVector(e, v.items);
        case Struct(props) =>
          VisitStruct(props, v.fields, v.fields.Keys);
          assert v.fields.Keys * v.fields.Keys == v.fields.Keys;
        case _ =>
          WriteLeaf(d, v);
      }
    }

    method VisitVector(e: Desc, items: seq<Value>)
      requires Described(e) && |items| < Pow256(8) && level > 0
      requires forall i :: 0 <= i < |items| ==> Typed(e, items[i])
      modifies this
      ensures output == old(output) + (Head(ARRAY, |items|) + EncodeAll(e, items)) && level == old(level)
      decreases e, 4
    {
      hide Head, Pow256, Encode;
      WriteHead(ARRAY, |items|);
      level := level + 1;
      ghost var start := output;
      var n := 0;
      while n < |items|
        invariant n <= |items| && level == old(level) + 1
        invariant output + EncodeAll(e, items[n..]) == start + EncodeAll(e, items)
      {
        assert items[n..][1..] == items[n + 1..] && items[n..][0] == items[n];
        ghost var before := output;
        VisitType(e, items[n]);
        Grouped(before, Encode(e, items[n]), EncodeAll(e, items[n + 1..]));
        n := n + 1;
      }
      assert output + [] == output;
      level := level - 1;
    }

    method VisitStruct(props: seq<Prop>, fields: map<nat, Value>, includedProperties: set<nat>)
      requires DescribedProps(props) && TypedFields(props, fields) && level > 0
      modifies this
      ensures output == old(output) + EncodeStruct(props, fields, includedProperties) && level == old(level)
      decreases props, 2
    {
      hide Head, Pow256, EncodeProps, DescribedProps, TypedFields;
      CountWhole(props, fields, includedProperties);
      IncludedValid(props, fields, includedProperties);
      var included := includedProperties * fields.Keys;
      assert included == fields.Keys * includedProperties;
      SizeFits(|included|);
      WriteHead(MAP, |included|);
      level := level + 1;
      VisitProperties(props, fields, included);
      level := level - 1;
    }

    method VisitProperties(props: seq<Prop>, fields: map<nat, Value>, included: set<nat>)
      requires Writable(props, fields) && included <= fields.Keys && level > 1
      modifies this
      ensures output == old(output) + EncodeProps(props, fields, included) && level == old(level)
      decreases props, 1
    {
      hide EncodeProps, EncodeProp, DescribedProp, TypedProp;
      ghost var start := output;
      var n := 0;
      assert props[0..] == props;
      while n < |props|
        invariant n <= |props| && level == old(level) && Writable(props[n..], fields)
        invariant output + EncodeProps(props[n..], fields, included) == start + EncodeProps(props, fields, included)
      {
        EncodePropsFrom(props, fields, included, n);
        ghost var before := output;
        var p := props[n];
        if p.tag in included {
          VisitProperty(p, fields[p.tag]);
        }
        Grouped(before, if Carried(p, fields, included) then EncodeProp(p, fields[p.tag]) else [],
          EncodeProps(props[n + 1..], fields, included));
        n := n + 1;
      }
      NothingLeft(props[n..], fields, included);
      assert output + [] == output;
    }

    method VisitProperty(p: Prop, v: Value)
      requires DescribedProp(p) && TypedProp(p, v) && p.tag < 32 && level > 1
      modifies this
      ensures output == old(output) + EncodeProp(p, v) && level == old(level)
      decreases p, 1
    {
      hide Head, Pow256, Encode;
      SizeFits(p.tag);
      if VisitingLevel() > 0 {
        WriteHead(UNSIGNED, p.tag);
      }
      VisitType(p.of, v);
    }

    /** Writes a struct with the included ones of its valid properties. */
    method Serialize(props: seq<Prop>, fields: map<nat, Value>, included: set<nat>)
      requires DescribedProps(props) && TypedFields(props, fields)
      modifies this
      ensures output == old(output) + EncodeStruct(props, fields, included) && level == old(level)
    {
      hide EncodeStruct, DescribedProps, TypedFields;
      level := level + 1;
      VisitStruct(props, fields, included);
      level := level - 1;
    }
  }

  lemma {:induction false} ShiftLeftZero(bytes: nat)
    ensures ShiftLeft(0, bytes) == 0
  {
    if bytes > 0 {
      ShiftLeftZero(bytes - 1);
    }
  }

  // ----- Reading -----

  class CborReader {
    var input: seq<byte>
    var at: nat
    var level: nat

    ghost predicate Valid()
      reads this`at, this`input
    {
      at <= |input|
    }

    ghost function Rest(): seq<byte>
      requires Valid()
      reads this`at, this`input
    {
      input[at..]
    }

    // Where a specification consumes bytes, the reader moves; where it fails, the reader throws.
    ghost predicate Yields<T>(p: Parsed<T>, r: Result<T, Fault>)
      requires Valid()
      reads this`at, this`input
    {
      match p
      case Got(v, rest) => r == Success(v) && Rest() == rest
      case Bad(f) => r == Failure(f)
    }

    constructor (input: seq<byte>)
      ensures Valid() && Rest() == this.input == input && level == 0
    {
      this.input, at, level := input, 0, 0;
    }

    /** New input for the same reader; the visiting level stays as it is. */
    method SetInput(input: seq<byte>)
      modifies this`input, this`at
      ensures Valid() && Rest() == this.input == input
    {
      this.input, at := input, 0;
    }

    function VisitingLevel(): nat
      reads this`level
    {
      if level == 0 then 0 else level - 1
    }

    method ReadBigEndian(n: nat) returns (value: nat)
      requires Valid() && n <= |Rest()|
      modifies this`at
      ensures Valid() && Rest() == old(Rest())[n..] && value == FromBigEndian(old(Rest())[..n])
    {
      ghost var b := Rest()[..n];
      value := 0;
      ShiftLeftZero(n);
      var i := n;
      while i > 0
        invariant 0 <= i <= n && at == old(at) + (n - i) <= |input|
        invariant value == ShiftLeft(FromBigEndian(b[..n - i]), i)
      {
        i := i - 1;
        var k := n - 1 - i;
        assert b[..k + 1][..k] == b[..k] && b[..k + 1][k] == b[k] == input[at];
        ShiftLeftAdds(FromBigEndian(b[..k]) * 256, b[k], i);
        value := value + ShiftLeft(input[at], i);
        at := at + 1;
      }
      assert b[..n] == b;
    }

    method ReadHead(major: int, width: nat) returns (r: Result<nat, Fault>)
      requires Valid()
      modifies this`at
      ensures Valid() && at >= old(at) && Yields(ParseHead(major, width, old(Rest())), r)
    {
      hide FromBigEndian, MajorOf, InfoOf;
      ghost var b := Rest();
      if at == |input| {
        return Failure(OutOfData);
      }
      var initial := input[at];
      assert b[0] == initial;
      at := at + 1;
      if MajorOf(initial) != major {
        return Failure(WrongType);
      }
      var info := InfoOf(initial);
      if info <= MAX_INPLACE {
        return Success(info);
      }
      if info > FOLLOWING_8 {
        return Failure(Unsupported);
      }
      var n := Following(info - FOLLOWING_1);
      if n > width {
        return Failure(TooWide);
      }
      if |input| - at < n {
        return Failure(OutOfData);
      }
      assert Rest()[..n] == b[1..1 + n] && Rest()[n..] == b[1 + n..];
      var value := ReadBigEndian(n);
      return Success(value);
    }

    method ReadBytes(size: nat) returns (bytes: seq<byte>)
      requires Valid() && size <= |Rest()|
      modifies this`at
      ensures Valid() && bytes == old(Rest())[..size] && Rest() == old(Rest())[size..]
    {
      bytes := input[at..at + size];
      at := at + size;
    }

    method ReadString(major: int, expected: Option<nat>) returns (r: Result<seq<byte>, Fault>)
      requires Valid() && (expected == None || (major == BYTE_STRING && expected == Some(16)))
      modifies this`at
      ensures Valid() && at >= old(at) && Yields(if expected == None then ParseBytes(major, old(Rest()))
          else ParseUuid(old(Rest())), r)
    {
      hide ParseHead;
      var head := ReadHead(major, 8);
      if head.Failure? {
        return Failure(head.error);
      }
      if expected.Some? && head.value != expected.value {
        return Failure(WrongSize);
      }
      if head.value > |input| - at {
        return Failure(OutOfData);
      }
      var bytes := ReadBytes(head.value);
      return Success(bytes);
    }

    method ReadSigned(width: nat) returns (r: Result<int, Fault>)
      requires Valid()
      modifies this`at
      ensures Valid() && at >= old(at) && Yields(ParseSigned(width, old(Rest())), r)
    {
      hide ParseHead, MajorOf, ToSigned;
      if at == |input| {
        return Failure(OutOfData);
      }
      assert Rest()[0] == input[at];
      var negative := MajorOf(input[at]) == NEGATIVE;
      var head := ReadHead(if negative then NEGATIVE else UNSIGNED, width);
      if head.Failure? {
        return Failure(head.error);
      }
      return Success(if negative then -1 - ToSigned(head.value, width) else ToSigned(head.value, width));
    }

    method ReadFloat(width: nat) returns (r: Result<nat, Fault>)
      requires Valid()
      modifies this`at
      ensures Valid() && at >= old(at) && Yields(ParseFloat(width, old(Rest())), r)
    {
      hide FromBigEndian, MajorOf, InfoOf;
      ghost var b := Rest();
      if at == |input| {
        return Failure(OutOfData);
      }
      var initial := input[at];
      assert b[0] == initial;
      at := at + 1;
      if MajorOf(initial) != SIMPLE {
        return Failure(WrongType);
      }
      var info := InfoOf(initial);
      if info <= MAX_INPLACE {
        return Failure(Widened);
      }
      if info > FOLLOWING_8 {
        return Failure(Unsupported);
      }
      var n := Following(info - FOLLOWING_1);
      if n > width {
        return Failure(TooWide);
      }
      if |input| - at < n {
        return Failure(OutOfData);
      }
      if n < width {
        return Failure(Widened);
      }
      assert Rest()[..n] == b[1..1 + n] && Rest()[n..] == b[1 + n..];
      var bits := ReadBigEndian(n);
      return Success(bits);
    }

    method Consume(n: nat) returns (r: Result<(), Fault>)
      requires Valid()
      modifies this`at
      ensures Valid() && at >= old(at) && Yields(Cbor.Consume(old(Rest()), n), r)
    {
      if n > |input| - at {
        return Failure(OutOfData);
      }
      assert input[at..][n..] == input[at + n..];
      at := at + n;
      return Success(());
    }

    method ReadSkippedSize(info: nat) returns (r: Result<nat, Fault>)
      requires Valid()
      modifies this`at
      ensures Valid() && at >= old(at) && Yields(SkippedSize(info, old(Rest())), r)
    {
      hide FromBigEndian;
      ghost var b := Rest();
      if info <= MAX_INPLACE {
        return Success(info);
      }
      if info > FOLLOWING_8 {
        return Failure(Unsupported);
      }
      var n := Following(info - FOLLOWING_1);
      if n > |input| - at {
        return Failure(OutOfData);
      }
      var size := ReadBigEndian(n);
      if n > |input| - at {
        return Failure(OutOfData);
      }
      var _ := Consume(n);
      assert b[n..][n..] == b[2 * n..];
      return Success(size);
    }

    method Skip() returns (r: Result<(), Fault>)
      requires Valid()
      modifies this`at
      ensures Valid() && at >= old(at) && Yields(Cbor.Skip(old(Rest())), r)
      decreases |input| - at, 0
    {
      hide FromBigEndian, MajorOf, InfoOf, SkippedSize, SkipMany, Cbor.Consume;
      ghost var b := Rest();
      if at == |input| {
        return Failure(OutOfData);
      }
      var initial := input[at];
      at := at + 1;
      assert b[0] == initial && b[1..] == Rest();
      var m, info := MajorOf(initial), InfoOf(initial);
      if m == UNSIGNED || m == NEGATIVE || m == SIMPLE {
        if info > FOLLOWING_8 {
          return Failure(Unsupported);
        }
        if info > MAX_INPLACE {
          r := Consume(Following(info - FOLLOWING_1));
          return;
        }
        return Success(());
      } else if m == BYTE_STRING || m == TEXT_STRING {
        var size := ReadSkippedSize(info);
        if size.Failure? {
          return Failure(size.error);
        }
        r := Consume(size.value);
      } else if m == ARRAY || m == MAP {
        var size := ReadSkippedSize(info);
        if size.Failure? {
          return Failure(size.error);
        }
        r := SkipItems(if m == ARRAY then size.value else 2 * size.value);
      } else {
        return Success(());
      }
    }

    method SkipItems(n: nat) returns (r: Result<(), Fault>)
      requires Valid()
      modifies this`at
      ensures Valid() && at >= old(at) && Yields(SkipMany(n, old(Rest())), r)
      decreases |input| - at, n + 1
    {
      hide Cbor.Skip;
      var left := n;
      while left > 0
        invariant Valid() && at >= old(at) && 0 <= left <= n
        invariant SkipMany(left, Rest()) == SkipMany(n, old(Rest()))
      {
        r := Skip();
        if r.Failure? {
          return;
        }
        left := left - 1;
      }
      return Success(());
    }

    method ReadLeaf(d: Desc, ghost was: Option<Value>) returns (r: Result<Value, Fault>)
      requires Valid() && Leaf(d)
      modifies this`at
      ensures Valid() && at >= old(at) && Yields(Decode(d, was, old(Rest())), r)
    {
      hide ParseHead, ParseSigned, ParseFloat, ParseUuid, ParseBytes, ValueOfTag;
      match d {
        case Boolean =>
          var head := ReadHead(SIMPLE, 1);
          r := if head.Failure? then Failure(head.error) else if head.value == 20 then Success(Bool(false))
            else if head.value == 21 then Success(Bool(true)) else Failure(NotABool);
        case Unsigned(w) =>
          var head := ReadHead(UNSIGNED, w);
          r := if head.Failure? then Failure(head.error) else Success(Number(head.value));
        case Signed(w) =>
          var number := ReadSigned(w);
          r := if number.Failure? then Failure(number.error) else Success(Number(number.value));
        case Float(w) =>
          var bits := ReadFloat(w);
          r := if bits.Failure? then Failure(bits.error) else Success(Number(bits.value));
        case Uuid =>
          var bytes := ReadString(BYTE_STRING, Some(16));
          r := if bytes.Failure? then Failure(bytes.error) else Success(Bytes(bytes.value));
        case Text =>
          var bytes := ReadString(TEXT_STRING, None);
          r := if bytes.Failure? then Failure(bytes.error) else Success(Bytes(bytes.value));
        case Enum(es) =>
          var tag := ReadHead(UNSIGNED, 4);
          if tag.Failure? {
            return Failure(tag.error);
          }
          var value := ValueOfTag(es, tag.value);
          r := if value.None? then Failure(NoEnumerator) else Success(Number(value.value));
      }
    }

    method VisitType(d: Desc, was: Option<Value>) returns (r: Result<Value, Fault>)
      requires Valid() && level > 1
      modifies this`at, this`level
      ensures Valid() && at >= old(at) && Yields(Decode(d, was, old(Rest())), r)
      ensures r.Success? ==> level == old(level)
      ensures r.Failure? ==> level >= old(level)
      decreases d, 2
    {
      hide ParseHead, DecodeAll, DecodeEntries;
      match d {
        case Vector(e) =>
          var items := VisitVector(e);
          r := if items.Failure? then Failure(items.error) else Success(List(items.value));
        case Struct(props) =>
          var fields := match was case Some(Record(fields)) => fields case _ => map[];
          var record := VisitStruct(props, fields.Keys, fields);
          r := if record.Failure? then Failure(record.error) else Success(Record(record.value));
        case _ =>
          r := ReadLeaf(d, was);
      }
    }

    // A vector is cleared and filled with new elements before they are read.
    method VisitVector(e: Desc) returns (r: Result<seq<Value>, Fault>)
      requires Valid() && level > 1
      modifies this`at, this`level
      ensures Valid() && at >= old(at)
      ensures Yields(match ParseHead(ARRAY, 8, old(Rest())) case Bad(f) => Bad(f)
          case Got(n, rest) => DecodeAll(e, n, rest), r)
      ensures r.Success? ==> level == old(level)
      ensures r.Failure? ==> level >= old(level)
      decreases e, 3
    {
      hide ParseHead, Decode;
      var size := ReadHead(ARRAY, 8);
      if size.Failure? {
        return Failure(size.error);
      }
      level := level + 1;
      ghost var total := DecodeAll(e, size.value, Rest());
      var items := [];
      assert total == Prepended(items, total) by {
        assert total.Got? ==> items + total.value == total.value;
      }
      var n := 0;
      while n < size.value
        invariant Valid() && at >= old(at) && n <= size.value && level == old(level) + 1
        invariant total == Prepended(items, DecodeAll(e, size.value - n, Rest()))
      {
        ghost var rest := DecodeAll(e, size.value - n, Rest());
        var item := VisitType(e, None);
        if item.Failure? {
          return Failure(item.error);
        }
        PrependedMore(items, item.value, DecodeAll(e, size.value - n - 1, Rest()));
        items := items + [item.value];
        n := n + 1;
      }
      assert items + [] == items;
      level := level - 1;
      return Success(items);
    }

    method VisitStruct(props: seq<Prop>, includedProperties: set<nat>, was: map<nat, Value>)
      returns (r: Result<map<nat, Value>, Fault>)
      requires Valid() && level > 0
      modifies this`at, this`level
      ensures Valid() && at >= old(at)
      ensures Yields(DecodeStruct(props, if old(level) > 1 then ALL else includedProperties, was, old(Rest())), r)
      ensures r.Success? ==> level == old(level)
      ensures r.Failure? ==> level >= old(level)
      decreases props, 1
    {
      hide ParseHead, Entry, DecodeEntries;
      var size := ReadHead(MAP, 8);
      if size.Failure? {
        return Failure(size.error);
      }
      ghost var wanted := if level > 1 then ALL else includedProperties;
      ghost var total := DecodeEntries(props, wanted, size.value, was, Rest());
      var fields := was;
      var n := 0;
      while n < size.value
        invariant Valid() && at >= old(at) && n <= size.value && level == old(level)
        invariant total == DecodeEntries(props, wanted, size.value - n, fields, Rest())
      {
        EntriesNext(props, wanted, size.value - n, fields, Rest());
        var entry := VisitEntry(props, includedProperties, fields);
        if entry.Failure? {
          return Failure(entry.error);
        }
        fields := entry.value;
        n := n + 1;
      }
      EntriesEnd(props, wanted, fields, Rest());
      return Success(fields);
    }

    // One round of that loop; below the outermost struct every property is included.
    method VisitEntry(props: seq<Prop>, includedProperties: set<nat>, was: map<nat, Value>)
      returns (r: Result<map<nat, Value>, Fault>)
      requires Valid() && level > 0
      modifies this`at, this`level
      ensures Valid() && at >= old(at)
      ensures Yields(Entry(props, if old(level) > 1 then ALL else includedProperties, was, old(Rest())), r)
      ensures r.Success? ==> level == old(level)
      ensures r.Failure? ==> level >= old(level)
      decreases props, 0
    {
      hide ParseHead, Cbor.Skip, DecodeProp, Find;
      var tag := ReadHead(UNSIGNED, 4);
      if tag.Failure? {
        return Failure(tag.error);
      }
      var included := if VisitingLevel() > 0 then ALL else includedProperties;
      var k := Find(props, tag.value);
      if k.Some? && tag.value in included {
        level := level + 1;
        var value := VisitProperty(props[k.value], if tag.value in was then Some(was[tag.value]) else None);
        if value.Failure? {
          return Failure(value.error);
        }
        level := level - 1;
        return Success(was[tag.value := value.value]);
      }
      var skipped := Skip();
      return if skipped.Failure? then Failure(skipped.error) else Success(was);
    }

    method VisitProperty(p: Prop, was: Option<Value>) returns (r: Result<Value, Fault>)
      requires Valid() && level > 1
      modifies this`at, this`level
      ensures Valid() && at >= old(at) && Yields(DecodeProp(p, was, old(Rest())), r)
      ensures r.Success? ==> level == old(level)
      ensures r.Failure? ==> level >= old(level)
      decreases p, 1
    {
      hide Decode;
      r := VisitType(p.of, was);
    }

    /**
     Reads a struct over `was`. When it throws, the visiting level is not taken back, and a reader
     that is used again takes every property, included or not.
     */
    method Deserialize(props: seq<Prop>, included: set<nat>, was: map<nat, Value>)
      returns (r: Result<map<nat, Value>, Fault>)
      requires Valid()
      modifies this`at, this`level
      ensures Valid() && Yields(DecodeStruct(props, if old(level) > 0 then ALL else included, was, old(Rest())), r)
      ensures r.Success? ==> level == old(level)
      ensures r.Failure? ==> level > old(level)
    {
      hide DecodeStruct;
      level := level + 1;
      r := VisitStruct(props, included, was);
      if r.Success? {
        level := level - 1;
      }
    }
  }

  lemma EntriesEnd(props: seq<Prop>, included: set<nat>, fields: map<nat, Value>, b: seq<byte>)
    ensures DecodeEntries(props, included, 0, fields, b) == Got(fields, b)
  {
  }

  // One entry: its tag, and its value or what is skipped.
  ghost function Entry(props: seq<Prop>, included: set<nat>, fields: map<nat, Value>, b: seq<byte>)
    : Parsed<map<nat, Value>>
  {
    match ParseHead(UNSIGNED, 4, b)
    case Bad(f) => Bad(f)
    case Got(tag, rest) =>
      var k := Find(props, tag);
      if k.Some? && tag in included then
        match DecodeProp(props[k.value], if tag in fields then Some(fields[tag]) else None, rest)
        case Bad(f) => Bad(f)
        case Got(v, rest) => Got(fields[tag := v], rest)
      else
        match Cbor.Skip(rest)
        case Bad(f) => Bad(f)
        case Got(_, rest) => Got(fields, rest)
  }

  lemma EntriesNext(props: seq<Prop>, included: set<nat>, n: nat, fields: map<nat, Value>, b: seq<byte>)
    requires n > 0
    ensures var entry, r := Entry(props, included, fields, b), DecodeEntries(props, included, n, fields, b);
            if entry.Bad? then r == Bad(entry.fault)
            else r == DecodeEntries(props, included, n - 1, entry.value, entry.rest)
  {
  }

  ghost function Prepended<T>(items: seq<T>, p: Parsed<seq<T>>): Parsed<seq<T>> {
    match p
    case Bad(f) => Bad(f)
    case Got(more, rest) => Got(items + more, rest)
  }

  lemma PrependedMore<T>(items: seq<T>, item: T, p: Parsed<seq<T>>)
    ensures Prepended(items, Prepended([item], p)) == Prepended(items + [item], p)
  {
    if p.Got? {
      assert items + ([item] + p.value) == items + [item] + p.value;
    }
  }

  lemma NothingLeft(props: seq<Prop>, fields: map<nat, Value>, included: set<nat>)
    requires props == []
    ensures EncodeProps(props, fields, included) == []
  {
  }

  lemma SizeFits(n: nat)
    requires n <= 32
    ensures n < Pow256(8)
  {
    Powers();
  }

  lemma LeafFits(d: Desc, v: Value)
    requires Leaf(d) && Described(d) && Typed(d, v)
    ensures d.Unsigned? ==> v.i < Pow256(8)
    ensures d.Signed? ==> v.i < Pow256(8) && -1 - v.i < Pow256(8)
    ensures 16 < Pow256(8) && Pow256(4) < Pow256(8)
  {
    Powers();
  }

  // ----- A reader that is used again -----

  lemma SkippableAll(props: seq<Prop>, fields: map<nat, Value>, included: set<nat>, to: seq<Prop>, wanted: set<nat>)
    requires Writable(props, fields) && Skippable(props, fields, included, to, wanted)
    ensures Skippable(props, fields, included, to, ALL)
  {
    hide LeanProp;
    forall i | 0 <= i < |props| && Carried(props[i], fields, included) && !Known(to, ALL, props[i].tag)
      ensures LeanProp(props[i], fields[props[i].tag])
    {
    }
  }

  /**
   A reader that failed before takes all that it knows. This differs from what was wanted exactly if
   a property is carried that the reader knows and did not want.
   */
  lemma UsedAgain(from: seq<Prop>, to: seq<Prop>, fields: map<nat, Value>, included: set<nat>, wanted: set<nat>,
                  rest: seq<byte>)
    requires DescribedProps(from) && TypedFields(from, fields) && Agree(from, to)
    requires Writable(from, fields) ==> Skippable(from, fields, included, to, wanted)
    ensures var b := EncodeStruct(from, fields, included) + rest;
            && DecodeStruct(to, ALL, map[], b) == Got(Projection(from, fields, included, to, ALL), rest)
            && DecodeStruct(to, wanted, map[], b) == Got(Projection(from, fields, included, to, wanted), rest)
            && (DecodeStruct(to, ALL, map[], b) != DecodeStruct(to, wanted, map[], b)
                <==> exists t :: t in fields && t in included && t in TagsOf(from) && t in TagsOf(to) && t !in wanted)
  {
    hide EncodeStruct, DecodeStruct, DescribedProps, TypedFields, Skippable, Agree;
    CountWhole(from, fields, included);
    SkippableAll(from, fields, included, to, wanted);
    StructInverse(from, to, fields, included, wanted, rest);
    StructInverse(from, to, fields, included, ALL, rest);
    ProjectionsDiffer(from, fields, included, to, wanted);
  }

  lemma ProjectionsDiffer(from: seq<Prop>, fields: map<nat, Value>, included: set<nat>, to: seq<Prop>, wanted: set<nat>)
    requires TagsOf(from) <= ALL
    ensures Projection(from, fields, included, to, ALL) != Projection(from, fields, included, to, wanted)
            <==> exists t :: t in fields && t in included && t in TagsOf(from) && t in TagsOf(to) && t !in wanted
  {
    hide TagsOf;
    var all, some := Projection(from, fields, included, to, ALL), Projection(from, fields, included, to, wanted);
    if t :| t in fields && t in included && t in TagsOf(from) && t in TagsOf(to) && t !in wanted {
      assert t in all && t !in some;
    } else {
      assert all.Keys == some.Keys;
    }
  }

  /** Two reads with one reader: once the first has failed, the second takes all that the reader knows. */
  method ReadTwice(props: seq<Prop>, wanted: set<nat>, bad: seq<byte>, next: seq<byte>)
    returns (first: Result<map<nat, Value>, Fault>, second: Result<map<nat, Value>, Fault>)
    requires DecodeStruct(props, wanted, map[], bad).Bad?
    ensures first.Failure?
    ensures var p := DecodeStruct(props, ALL, map[], next); second == if p.Got? then Success(p.value)
        else Failure(p.fault)
  {
    hide DecodeStruct;
    var reader := new CborReader(bad);
    first := reader.Deserialize(props, wanted, map[]);
    reader.SetInput(next);
    second := reader.Deserialize(props, wanted, map[]);
  }

  lemma NotAMap(props: seq<Prop>, wanted: set<nat>)
    ensures DecodeStruct(props, wanted, map[], [0]) == Bad(WrongType)
  {
  }

  lemma TwoFlags(props: seq<Prop>, fields: map<nat, Value>, wanted: set<nat>)
    requires props == [Prop(1, Boolean), Prop(2, Boolean)] && fields == map[1 := Bool(true), 2 := Bool(false)]
        && wanted == {1}
    ensures DescribedProps(props) && TypedFields(props, fields) && Agree(props, props)
    ensures Writable(props, fields) ==> Skippable(props, fields, ALL, props, wanted)
  {
  }

  lemma BothFlags(props: seq<Prop>, fields: map<nat, Value>)
    requires props == [Prop(1, Boolean), Prop(2, Boolean)] && fields == map[1 := Bool(true), 2 := Bool(false)]
    ensures Projection(props, fields, ALL, props, ALL) == fields && 2 in TagsOf(props)
  {
    assert Known(props, ALL, 1) by {
      assert props[0] in props;
    }
    assert Known(props, ALL, 2) by {
      assert props[1] in props;
    }
  }

  /** Such reads: a byte that is no map, and then two flags of which one was wanted. */
  lemma UnwantedTaken()
    ensures exists props, wanted, bad, next ::
              && DecodeStruct(props, wanted, map[], bad).Bad?
              && DecodeStruct(props, ALL, map[], next) == Got(map[1 := Bool(true), 2 := Bool(false)], [])
              && DecodeStruct(props, wanted, map[], next) != DecodeStruct(props, ALL, map[], next)
  {
    hide EncodeStruct, DecodeStruct, DescribedProps, TypedFields, Skippable, Agree, Projection, TagsOf;
    var props, fields, wanted := [Prop(1, Boolean), Prop(2, Boolean)], map[1 := Bool(true), 2 := Bool(false)], {1};
    TwoFlags(props, fields, wanted);
    BothFlags(props, fields);
    NotAMap(props, wanted);
    UsedAgain(props, props, fields, ALL, wanted, []);
    assert 2 in fields && 2 in ALL && 2 in TagsOf(props) && 2 !in wanted;
  }
}
