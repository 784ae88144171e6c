/**
 Transmissions as frames of a byte stream, version 2: the size as an unsigned item of fixed width,
 the header, and the included properties of the instance.
 */
module Frames {
  import opened Wrappers
  import opened Cbor
  import opened CborRoundTrip

  datatype Transmission = Transmission(header: map<nat, Value>, instance: map<nat, Value>)

  // Types by name, as both ends know them.
  type Types = map<seq<byte>, seq<Prop>>

  const TYPE_NAME := 1
  const ATTRIBUTES := 3
  const HEADER := [Prop(1, Text), Prop(2, Float(8)), Prop(7, Float(8)), Prop(3, Unsigned(4)), Prop(5, Unsigned(4)),
    Prop(8, Unsigned(4)), Prop(4, Boolean), Prop(6, Boolean)]

  const SIZE_SIZE := 5
  const FIXED_SIZE_HEAD := 0x1A

  function Pow2(n: nat): (p: nat)
    ensures p > 0
  {
    if n == 0 then 1 else 2 * Pow2(n - 1)
  }

  /** The property set that a 32-bit mask stands for. */
  function Bits(mask: nat): set<nat> {
    set t | t in ALL && mask / Pow2(t) % 2 == 1
  }

  /** The mask of a property set: the sum of the powers of two of its tags. */
  function Mask(a: set<nat>): nat {
    MaskBelow(a, 32)
  }

  function MaskBelow(a: set<nat>, n: nat): (m: nat)
    ensures m < Pow2(n)
  {
    if n == 0 then 0 else MaskBelow(a, n - 1) + if n - 1 in a then Pow2(n - 1) else 0
  }

  lemma {:induction false} Pow2Sum(i: nat, j: nat)
    ensures Pow2(i + j) == Pow2(i) * Pow2(j)
  {
    if j > 0 {
      Pow2Sum(i, j - 1);
      assert Pow2(i) * (2 * Pow2(j - 1)) == 2 * (Pow2(i) * Pow2(j - 1));
    }
  }

  lemma HigherBit(low: nat, d: nat, k: nat)
    requires d > 0
    ensures (low + d * (2 * k)) / d % 2 == low / d % 2
  {
    var q := low / d;
    assert low == d * q + low % d;
    assert low + d * (2 * k) == d * (q + 2 * k) + low % d by {
      assert d * (q + 2 * k) == d * q + d * (2 * k);
    }
    Quotient(low + d * (2 * k), d, q + 2 * k, low % d);
  }

  lemma TopBit(low: nat, d: nat)
    requires low < d
    ensures low / d % 2 == 0 && (low + d) / d % 2 == 1
  {
    Quotient(low, d, 0, low);
    Quotient(low + d, d, 1, low);
  }

  // Bit `t` of a mask is set exactly if the tag is in the set.
  lemma {:induction false} MaskBit(a: set<nat>, n: nat, t: nat)
    requires t < n
    ensures MaskBelow(a, n) / Pow2(t) % 2 == 1 <==> t in a
  {
    hide Pow2;
    var low := MaskBelow(a, n - 1);
    if t == n - 1 {
      TopBit(low, Pow2(t));
    } else {
      MaskBit(a, n - 1, t);
      var k := Pow2(n - 2 - t);
      HigherPower(t, n - 1);
      HigherBit(low, Pow2(t), k);
    }
  }

  lemma HigherPower(t: nat, n: nat)
    requires t < n
    ensures Pow2(n) == Pow2(t) * (2 * Pow2(n - 1 - t))
  {
    Pow2Sum(t + 1, n - 1 - t);
    assert 2 * Pow2(t) * Pow2(n - 1 - t) == Pow2(t) * (2 * Pow2(n - 1 - t));
  }

  /** A mask stands for exactly the tags that went into it. */
  lemma BitsOfMask(a: set<nat>)
    requires a <= ALL
    ensures Bits(Mask(a)) == a
  {
    forall t
      ensures t in Bits(Mask(a)) <==> t in a
    {
      if t < 32 {
        MaskBit(a, 32, t);
      }
    }
  }

  /** Where a header carries the name of its type and the attributes: under tags 1 and 3. */
  lemma HeaderTags(name: seq<byte>, a: set<nat>)
    requires a <= ALL
    ensures var header := map[1 := Bytes(name), 3 := Number(Mask(a))];
            NameOf(header) == Some(name) && AttributesOf(header) == a
  {
    hide Bits, Mask;
    BitsOfMask(a);
  }

  ghost predicate Known(types: Types) {
    forall name :: name in types ==> DescribedProps(types[name])
  }

  function NameOf(header: map<nat, Value>): Option<seq<byte>> {
    if TYPE_NAME in header && header[TYPE_NAME].Bytes? then Some(header[TYPE_NAME].bytes) else None
  }

  function AttributesOf(header: map<nat, Value>): set<nat> {
    if ATTRIBUTES in header && header[ATTRIBUTES].Number? && header[ATTRIBUTES].i >= 0
        then Bits(header[ATTRIBUTES].i) else {}
  }

  lemma HeaderDescribed()
    ensures DescribedProps(HEADER)
  {
    forall i | 0 <= i < |HEADER|
      ensures DescribedProp(HEADER[i])
    {
    }
  }

  ghost predicate HeaderTyped(header: map<nat, Value>) {
    HeaderDescribed();
    TypedFields(HEADER, header)
  }

  function HeaderBytes(header: map<nat, Value>): seq<byte>
    requires HeaderTyped(header)
  {
    HeaderDescribed();
    EncodeStruct(HEADER, header, header.Keys)
  }

  /** A header with name and attributes, an instance of the named type, and a size that fits 32 bits. */
  ghost predicate Sendable(types: Types, t: Transmission) {
    && HeaderTyped(t.header) && ATTRIBUTES in t.header
    && NameOf(t.header).Some? && NameOf(t.header).value in types
    && var props := types[NameOf(t.header).value];
    && DescribedProps(props) && TypedFields(props, t.instance)
    && |Payload(props, t)| < Pow256(4)
  }

  function Payload(props: seq<Prop>, t: Transmission): seq<byte>
    requires HeaderTyped(t.header) && DescribedProps(props) && TypedFields(props, t.instance)
  {
    HeaderBytes(t.header) + EncodeStruct(props, t.instance, AttributesOf(t.header))
  }

  function PayloadOf(types: Types, t: Transmission): seq<byte>
    requires Sendable(types, t)
  {
    Payload(types[NameOf(t.header).value], t)
  }

  function FrameSize(size: nat): seq<byte> {
    [FIXED_SIZE_HEAD] + BigEndian(size, 4)
  }

  function Frame(types: Types, t: Transmission): seq<byte>
    requires Sendable(types, t)
  {
    FrameSize(|PayloadOf(types, t)|) + PayloadOf(types, t)
  }

  ghost predicate AllSendable(types: Types, ts: seq<Transmission>) {
    forall t :: t in ts ==> Sendable(types, t)
  }

  function Stream(types: Types, ts: seq<Transmission>): seq<byte>
    requires AllSendable(types, ts)
  {
    if ts == [] then [] else Frame(types, ts[0]) + Stream(types, ts[1..])
  }

  function Narrowed(fields: map<nat, Value>, included: set<nat>): map<nat, Value> {
    map p | p in fields && p in included :: fields[p]
  }

  /** What the other end gets to see of a transmission. */
  function Received(t: Transmission): Transmission {
    Transmission(t.header, Narrowed(t.instance, AttributesOf(t.header)))
  }

  function AllReceived(ts: seq<Transmission>): seq<Transmission> {
    seq(|ts|, n requires 0 <= n < |ts| => Received(ts[n]))
  }

  lemma SizeInverse(size: nat, rest: seq<byte>)
    requires size < Pow256(4)
    ensures ParseHead(UNSIGNED, 4, FrameSize(size) + rest) == Got(size, rest)
  {
    var b := FrameSize(size) + rest;
    assert b[1..5] == BigEndian(size, 4) && b[5..] == rest;
    BigEndianInverse(size, 4);
  }

  // ----- Reading one payload -----

  function ParsePayload(types: Types, b: seq<byte>): (r: Parsed<Transmission>)
    ensures r.Got? ==> |r.rest| < |b|
  {
    match DecodeStruct(HEADER, ALL, map[], b)
    case Bad(f) => Bad(f)
    case Got(header, rest) =>
      var name := NameOf(header);
      if name.None? || name.value !in types then Bad(NoType)
      else
        match DecodeStruct(types[name.value], ALL, map[], rest)
        case Bad(f) => Bad(f)
        case Got(instance, next) => Got(Transmission(header, instance), next)
  }

  /** The attributes of `t` are the mask of `a`. */
  ghost predicate Masked(t: Transmission, a: set<nat>) {
    a <= ALL && ATTRIBUTES in t.header && t.header[ATTRIBUTES] == Number(Mask(a))
  }

  /** What arrives if the attributes are the mask of `a`: the header, and the valid properties in `a`. */
  lemma PayloadInverse(types: Types, t: Transmission, a: set<nat>, rest: seq<byte>)
    requires Sendable(types, t) && Masked(t, a)
    ensures ParsePayload(types, PayloadOf(types, t) + rest)
         == Got(Transmission(t.header, map p | p in t.instance && p in a :: t.instance[p]), rest)
  {
    hide PayloadOf, ParsePayload, Mask, Bits, Payload;
    PayloadReceived(types, t, rest);
    MaskedAttributes(t.header, a);
  }

  lemma MaskedAttributes(header: map<nat, Value>, a: set<nat>)
    requires a <= ALL && ATTRIBUTES in header && header[ATTRIBUTES] == Number(Mask(a))
    ensures AttributesOf(header) == a
  {
    BitsOfMask(a);
  }

  /** A frame carries the size, the header, and the valid properties of the instance that are in `a`. */
  ghost predicate FrameOf(types: Types, t: Transmission, a: set<nat>, b: seq<byte>)
    requires Sendable(types, t)
  {
    var payload := HeaderBytes(t.header) + EncodeStruct(types[NameOf(t.header).value], t.instance, a);
    b == [FIXED_SIZE_HEAD] + BigEndian(|payload|, 4) + payload
  }

  lemma FrameMasked(types: Types, t: Transmission, a: set<nat>)
    requires Sendable(types, t) && Masked(t, a)
    ensures FrameOf(types, t, a, Frame(types, t))
  {
    hide HeaderBytes, EncodeStruct, BigEndian, Mask, Bits;
    MaskedAttributes(t.header, a);
  }

  lemma PayloadReceived(types: Types, t: Transmission, rest: seq<byte>)
    requires Sendable(types, t)
    ensures ParsePayload(types, PayloadOf(types, t) + rest) == Got(Received(t), rest)
  {
    hide EncodeStruct, DecodeStruct, DescribedProps, TypedFields, Projection, Pow256, Bits;
    HeaderDescribed();
    var props := types[NameOf(t.header).value];
    var attributes := AttributesOf(t.header);
    var tail := EncodeStruct(props, t.instance, attributes) + rest;
    assert PayloadOf(types, t) + rest == HeaderBytes(t.header) + tail;
    ValidProjection(HEADER, t.header);
    StructInverse(HEADER, HEADER, t.header, t.header.Keys, ALL, tail);
    assert DecodeStruct(HEADER, ALL, map[], PayloadOf(types, t) + rest) == Got(t.header, tail);
    WholeInstance(props, t.instance, attributes);
    StructInverse(props, props, t.instance, attributes, ALL, rest);
  }

  lemma WholeInstance(props: seq<Prop>, fields: map<nat, Value>, included: set<nat>)
    requires DescribedProps(props) && TypedFields(props, fields)
    ensures Projection(props, fields, included, props, ALL) == Narrowed(fields, included)
    ensures Agree(props, props) && (Writable(props, fields) ==> Skippable(props, fields, included, props, ALL))
  {
    AllTags(props);
  }

  // ----- Reassembly -----

  /** How far a receiver got: what it handed on, the bytes it has not used, the size of the payload it waits for. */
  datatype Progress = Progress(delivered: seq<Transmission>, unread: seq<byte>, need: Option<nat>, live: bool)

  function Required(s: Progress): nat {
    if s.need.Some? then s.need.value else SIZE_SIZE
  }

  /** What a receiver does with the bytes it has; `keep` says whether its handler wants more. */
  function Drain(types: Types, keep: nat -> bool, s: Progress): Progress
    decreases |s.unread|
  {
    if !s.live || |s.unread| < Required(s) then s
    else
      match s.need
      case None =>
        (match ParseHead(UNSIGNED, 4, s.unread)
         case Bad(_) => s.(live := false)
         case Got(size, rest) => Drain(types, keep, s.(unread := rest, need := Some(size))))
      case Some(_) =>
        match ParsePayload(types, s.unread)
        case Bad(_) => s.(live := false)
        case Got(t, rest) =>
          Drain(types, keep, Progress(s.delivered + [t], rest, None, keep(|s.delivered|)))
  }

  /**
   A receiver that has `got` of a stream: whole frames handed on, and what is left belongs to the
   next one. It stops only where its handler said so.
   */
  ghost predicate Aligned(types: Types, keep: nat -> bool, ts: seq<Transmission>, got: seq<byte>, s: Progress)
    requires AllSendable(types, ts)
  {
    var k := |s.delivered|;
    && k <= |ts| && s.delivered == AllReceived(ts[..k])
    && if !s.live then k > 0 && !keep(k - 1)
       else match s.need
            case None => got == Stream(types, ts[..k]) + s.unread
            case Some(n) =>
              && k < |ts| && n == |PayloadOf(types, ts[k])|
              && got == Stream(types, ts[..k]) + (FrameSize(n) + s.unread)
  }

  ghost predicate Settled(s: Progress) {
    s.live ==> |s.unread| < Required(s)
  }

  lemma {:induction false} StreamAppend(types: Types, a: seq<Transmission>, b: seq<Transmission>)
    requires AllSendable(types, a) && AllSendable(types, b)
    ensures Stream(types, a + b) == Stream(types, a) + Stream(types, b)
  {
    hide Sendable, Frame;
    if a == [] {
      assert a + b == b;
    } else {
      assert (a + b)[1..] == a[1..] + b && (a + b)[0] == a[0];
      StreamAppend(types, a[1..], b);
    }
  }

  lemma StreamSplit(types: Types, ts: seq<Transmission>, k: nat)
    requires k <= |ts| && AllSendable(types, ts)
    ensures Stream(types, ts) == Stream(types, ts[..k]) + Stream(types, ts[k..])
    ensures k < |ts| ==> Stream(types, ts[k..]) == Frame(types, ts[k]) + Stream(types, ts[k + 1..])
    ensures k < |ts| ==> Stream(types, ts[..k + 1]) == Stream(types, ts[..k]) + Frame(types, ts[k])
  {
    hide Sendable, Frame;
    assert ts == ts[..k] + ts[k..];
    StreamAppend(types, ts[..k], ts[k..]);
    if k < |ts| {
      assert ts[k..][1..] == ts[k + 1..];
      assert ts[..k + 1] == ts[..k] + [ts[k]];
      StreamAppend(types, ts[..k], [ts[k]]);
      assert Stream(types, [ts[k]]) == Frame(types, ts[k]) + [];
    }
  }

  // What a prefix of `a + b` looks like that is long enough to hold `a`.
  lemma PrefixHolds<T>(a: seq<T>, b: seq<T>, p: seq<T>)
    requires p <= a + b && |a| <= |p|
    ensures p == a + p[|a|..] && p[|a|..] <= b
  {
    assert p == (a + b)[..|p|];
  }

  lemma PrefixRest<T>(a: seq<T>, b: seq<T>, p: seq<T>)
    requires a + p <= a + b
    ensures p <= b
  {
    assert (a + p)[|a|..] == p && (a + b)[|a|..] == b;
    assert a + p == (a + b)[..|a + p|];
  }

  // The bytes a receiver has not used yet are a prefix of what comes next.
  lemma NextBytes(types: Types, keep: nat -> bool, ts: seq<Transmission>, got: seq<byte>, s: Progress)
    requires AllSendable(types, ts) && Aligned(types, keep, ts, got, s) && s.live && got <= Stream(types, ts)
    ensures var k := |s.delivered|;
            && (s.need == None ==> s.unread <= Stream(types, ts[k..]))
            && (s.need.Some? ==> s.unread <= PayloadOf(types, ts[k]) + Stream(types, ts[k + 1..]))
    ensures s.need == None && s.unread != [] ==> |s.delivered| < |ts|
  {
    hide Sendable, Frame, PayloadOf, FrameSize;
    var k := |s.delivered|;
    StreamSplit(types, ts, k);
    if s.need == None {
      PrefixRest(Stream(types, ts[..k]), Stream(types, ts[k..]), s.unread);
    } else {
      var n := s.need.value;
      PrefixRest(Stream(types, ts[..k]), Stream(types, ts[k..]), FrameSize(n) + s.unread);
      FrameParts(types, ts[k], Stream(types, ts[k + 1..]));
      PrefixRest(FrameSize(n), PayloadOf(types, ts[k]) + Stream(types, ts[k + 1..]), s.unread);
    }
  }

  lemma FrameParts(types: Types, t: Transmission, tail: seq<byte>)
    requires Sendable(types, t)
    ensures Frame(types, t) + tail == FrameSize(|PayloadOf(types, t)|) + (PayloadOf(types, t) + tail)
    ensures |FrameSize(|PayloadOf(types, t)|)| == SIZE_SIZE && |PayloadOf(types, t)| < Pow256(4)
  {
    hide Payload, Pow256, TypedFields, DescribedProps, Stream;
    Grouped(FrameSize(|PayloadOf(types, t)|), PayloadOf(types, t), tail);
  }

  lemma MemberSendable(types: Types, ts: seq<Transmission>, k: nat)
    requires AllSendable(types, ts) && k < |ts|
    ensures Sendable(types, ts[k])
  {
    hide Sendable;
  }

  lemma SizeArrived(types: Types, keep: nat -> bool, ts: seq<Transmission>, got: seq<byte>, s: Progress)
    requires AllSendable(types, ts) && Aligned(types, keep, ts, got, s) && s.live && got <= Stream(types, ts)
    requires s.need == None && |s.unread| >= SIZE_SIZE
    ensures var p := ParseHead(UNSIGNED, 4, s.unread);
            p.Got? && Aligned(types, keep, ts, got, s.(unread := p.rest, need := Some(p.value)))
  {
    hide Sendable, Frame, PayloadOf, FrameSize, ParseHead;
    var k := |s.delivered|;
    NextBytes(types, keep, ts, got, s);
    StreamSplit(types, ts, k);
    var n, tail := |PayloadOf(types, ts[k])|, Stream(types, ts[k + 1..]);
    FrameParts(types, ts[k], tail);
    PrefixHolds(FrameSize(n), PayloadOf(types, ts[k]) + tail, s.unread);
    SizeInverse(n, s.unread[SIZE_SIZE..]);
  }

  lemma ReceivedMore(ts: seq<Transmission>, k: nat)
    requires k < |ts|
    ensures AllReceived(ts[..k + 1]) == AllReceived(ts[..k]) + [Received(ts[k])]
    ensures |AllReceived(ts[..k])| == k
  {
  }

  lemma PayloadArrived(types: Types, keep: nat -> bool, ts: seq<Transmission>, got: seq<byte>, s: Progress)
    requires AllSendable(types, ts) && Aligned(types, keep, ts, got, s) && s.live && got <= Stream(types, ts)
    requires s.need.Some? && |s.unread| >= s.need.value
    ensures var p := ParsePayload(types, s.unread);
            p.Got? && Aligned(types, keep, ts, got, Progress(s.delivered + [p.value], p.rest, None,
              keep(|s.delivered|)))
  {
    hide Sendable, Frame, PayloadOf, FrameSize, ParsePayload, Received, AllReceived, Stream;
    assert Sendable(types, ts[|s.delivered|]) by {
      MemberSendable(types, ts, |s.delivered|);
    }
    var k := |s.delivered|;
    NextBytes(types, keep, ts, got, s);
    StreamSplit(types, ts, k);
    var n, tail := s.need.value, Stream(types, ts[k + 1..]);
    PrefixHolds(PayloadOf(types, ts[k]), tail, s.unread);
    var rest := s.unread[n..];
    PayloadReceived(types, ts[k], rest);
    FrameParts(types, ts[k], rest);
    ReceivedMore(ts, k);
    Grouped(Stream(types, ts[..k]), Frame(types, ts[k]), rest);
  }

  lemma {:induction false} DrainAligned(types: Types, keep: nat -> bool, ts: seq<Transmission>, got: seq<byte>,
                                        s: Progress)
    requires AllSendable(types, ts) && Aligned(types, keep, ts, got, s) && got <= Stream(types, ts)
    ensures Aligned(types, keep, ts, got, Drain(types, keep, s)) && Settled(Drain(types, keep, s))
    decreases |s.unread|
  {
    hide Sendable, ParsePayload, ParseHead, Aligned, Stream, AllSendable;
    if s.live && |s.unread| >= Required(s) {
      if s.need == None {
        SizeArrived(types, keep, ts, got, s);
        var head := ParseHead(UNSIGNED, 4, s.unread);
        DrainAligned(types, keep, ts, got, s.(unread := head.rest, need := Some(head.value)));
      } else {
        PayloadArrived(types, keep, ts, got, s);
        var p := ParsePayload(types, s.unread);
        DrainAligned(types, keep, ts, got, Progress(s.delivered + [p.value], p.rest, None, keep(|s.delivered|)));
      }
    }
  }

  function Feed(types: Types, keep: nat -> bool, s: Progress, chunk: seq<byte>): Progress {
    if s.live then Drain(types, keep, s.(unread := s.unread + chunk)) else s
  }

  function FeedAll(types: Types, keep: nat -> bool, chunks: seq<seq<byte>>): Progress {
    if chunks == [] then Progress([], [], None, true)
    else Feed(types, keep, FeedAll(types, keep, chunks[..|chunks| - 1]), chunks[|chunks| - 1])
  }

  function Concat(chunks: seq<seq<byte>>): seq<byte> {
    if chunks == [] then [] else Concat(chunks[..|chunks| - 1]) + chunks[|chunks| - 1]
  }

  lemma FeedAligned(types: Types, keep: nat -> bool, ts: seq<Transmission>, got: seq<byte>, s: Progress,
                    chunk: seq<byte>)
    requires AllSendable(types, ts) && Aligned(types, keep, ts, got, s) && Settled(s)
        && got + chunk <= Stream(types, ts)
    ensures Aligned(types, keep, ts, got + chunk, Feed(types, keep, s, chunk)) && Settled(Feed(types, keep, s, chunk))
  {
    hide Sendable, Drain, Stream, PayloadOf, FrameSize;
    if s.live {
      var more := s.(unread := s.unread + chunk);
      var k := |s.delivered|;
      if s.need == None {
        assert Stream(types, ts[..k]) + s.unread + chunk == Stream(types, ts[..k]) + more.unread;
      } else {
        var n := s.need.value;
        assert Stream(types, ts[..k]) + (FrameSize(n) + s.unread) + chunk == Stream(types, ts[..k])
          + (FrameSize(n) + more.unread);
      }
      DrainAligned(types, keep, ts, got + chunk, more);
    }
  }

  lemma {:induction false} ChunksAligned(types: Types, keep: nat -> bool, ts: seq<Transmission>, chunks: seq<seq<byte>>)
    requires AllSendable(types, ts) && Concat(chunks) <= Stream(types, ts)
    ensures Aligned(types, keep, ts, Concat(chunks), FeedAll(types, keep, chunks))
        && Settled(FeedAll(types, keep, chunks))
  {
    hide Sendable, Feed, Stream;
    if chunks == [] {
      EmptyStream(types, ts);
    } else {
      var init, last := chunks[..|chunks| - 1], chunks[|chunks| - 1];
      ChunksAligned(types, keep, ts, init);
      FeedAligned(types, keep, ts, Concat(init), FeedAll(types, keep, init), last);
    }
  }

  lemma EmptyStream(types: Types, ts: seq<Transmission>)
    requires AllSendable(types, ts)
    ensures ts[..0] == [] && Stream(types, ts[..0]) == [] && AllReceived(ts[..0]) == []
  {
  }

  /** The first `k` frames have arrived completely. */
  ghost predicate Arrived(types: Types, ts: seq<Transmission>, k: nat, got: seq<byte>)
    requires AllSendable(types, ts) && k <= |ts|
  {
    |Stream(types, ts[..k])| <= |got|
  }

  /**
   However the stream cuts the bytes into reads, the receiver hands on exactly the transmissions
   whose frames have arrived completely, in order; a whole stream leaves nothing behind.
   */
  lemma Reassembly(types: Types, keep: nat -> bool, ts: seq<Transmission>, chunks: seq<seq<byte>>, k: nat)
    requires AllSendable(types, ts) && Concat(chunks) <= Stream(types, ts) && k <= |ts|
    requires forall n :: keep(n)
    ensures var s := FeedAll(types, keep, chunks);
            && s.live && |s.delivered| <= |ts| && s.delivered == AllReceived(ts[..|s.delivered|])
            && (k <= |s.delivered| <==> Arrived(types, ts, k, Concat(chunks)))
            && (Concat(chunks) == Stream(types, ts) ==> s == Progress(AllReceived(ts), [], None, true))
  {
    hide Sendable, FeedAll, Stream, PayloadOf, FrameSize, Concat, Frame, AllReceived;
    ChunksAligned(types, keep, ts, chunks);
    var s, got := FeedAll(types, keep, chunks), Concat(chunks);
    var d := |s.delivered|;
    StreamSplit(types, ts, d);
    NextBytes(types, keep, ts, got, s);
    StreamGrows(types, ts, k, d);
    if d < |ts| {
      FrameParts(types, ts[d], []);
      assert Frame(types, ts[d]) + [] == Frame(types, ts[d]);
      StreamGrows(types, ts, d + 1, k);
    }
    if d < |ts| {
      WholeLonger(types, ts, d);
    }
    assert ts[..|ts|] == ts;
  }

  lemma StreamGrows(types: Types, ts: seq<Transmission>, a: nat, b: nat)
    requires AllSendable(types, ts) && a <= |ts| && b <= |ts|
    ensures a <= b ==> |Stream(types, ts[..a])| <= |Stream(types, ts[..b])|
  {
    hide Sendable, Frame;
    if a <= b {
      assert ts[..b] == ts[..a] + ts[a..b];
      StreamAppend(types, ts[..a], ts[a..b]);
    }
  }

  lemma WholeLonger(types: Types, ts: seq<Transmission>, d: nat)
    requires AllSendable(types, ts) && d < |ts|
    ensures |Stream(types, ts)| >= |Stream(types, ts[..d + 1])|
  {
    assert ts[..|ts|] == ts;
    StreamGrows(types, ts, d + 1, |ts|);
  }
}
