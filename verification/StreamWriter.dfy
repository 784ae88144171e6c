/**
 The transmitting half of stream channels: double-buffered writes, and the payload cache that all
 channels of a listener share.
 */
module StreamWriters {
  import opened Wrappers
  import opened Cbor
  import opened CborStream
  import opened Frames

  const WRITE_BUFFER_MAX_SIZE := 10 * 1024 * 1024

  type Id = nat

  /** Every transmission gets an id when it is made: the next number, so never 0 and never the same twice. */
  class Ids {
    var lastId: nat
    ghost var made: seq<Transmission>

    ghost predicate Valid()
      reads this
    {
      lastId == |made|
    }

    // Ids below the next one stand for one transmission each.
    ghost predicate Names(id: Id, t: Transmission)
      reads this
    {
      1 <= id <= |made| && made[id - 1] == t
    }

    constructor ()
      ensures Valid() && made == []
    {
      lastId, made := 0, [];
    }

    method New(t: Transmission) returns (id: Id)
      requires Valid()
      modifies this
      ensures Valid() && id == |made| && made == old(made) + [t]
    {
      lastId, made := lastId + 1, made + [t];
      return lastId;
    }
  }

  /** The bytes of the transmission that was serialized last, under its id; 0 stands for none. */
  class PayloadCache {
    const types: Types
    const ids: Ids
    var id: Id
    var buffer: seq<byte>

    ghost predicate Valid()
      reads this, ids
    {
      id != 0 ==> id <= |ids.made| && Sendable(types, ids.made[id - 1]) && buffer == Frame(types, ids.made[id - 1])
    }

    constructor (types: Types, ids: Ids)
      ensures Valid() && this.types == types && this.ids == ids
    {
      this.types, this.ids, id, buffer := types, ids, 0, [];
    }
  }

  lemma SendableFacts(types: Types, t: Transmission)
    requires Sendable(types, t)
    ensures NameOf(t.header).Some? && NameOf(t.header).value in types
    ensures var props := types[NameOf(t.header).value];
            && HeaderTyped(t.header) && DescribedProps(props) && TypedFields(props, t.instance)
            && PayloadOf(types, t) == HeaderBytes(t.header) + EncodeStruct(props, t.instance, AttributesOf(t.header))
            && Frame(types, t) == FrameSize(|PayloadOf(types, t)|) + PayloadOf(types, t)
  {
    hide DescribedProps, TypedFields, EncodeStruct;
  }

  lemma Layout(before: seq<byte>, space: seq<byte>, header: seq<byte>, instance: seq<byte>)
    ensures var all := before + space + header + instance;
            all[..|before|] == before && all[|before| + |space|..] == header + instance
              && |all| == |before| + |space| + |header + instance|
  {
  }

  lemma Assembled(before: seq<byte>, size: seq<byte>, payload: seq<byte>)
    ensures before + size + payload == before + (size + payload)
  {
  }

  class StreamWriter {
    const types: Types
    const cache: PayloadCache?
    const serializer: CborWriter
    var writeBuffer: seq<byte>
    var asyncWriting: bool
    // What the stream has taken, and what the channel was asked to transmit.
    ghost var written: seq<byte>
    ghost var accepted: seq<Transmission>

    ghost predicate Valid()
      reads this, serializer
    {
      && AllSendable(types, accepted)
      && written + writeBuffer + serializer.output == Stream(types, accepted)
      && (asyncWriting <==> writeBuffer != [])
      && (!asyncWriting ==> serializer.output == [])
      && (cache != null ==> cache.types == types)
    }

    constructor (types: Types, cache: PayloadCache?)
      requires cache != null ==> cache.types == types
      ensures Valid() && accepted == [] && !asyncWriting && fresh(serializer)
      ensures this.types == types && this.cache == cache
    {
      hide Sendable, Frame;
      this.types, this.cache, writeBuffer, asyncWriting, written, accepted := types, cache, [], false, [], [];
      serializer := new CborWriter();
    }

    // The buffers change places: what was written is dropped, what was collected goes out as a whole.
    method AsyncWrite()
      modifies this`writeBuffer, this`asyncWriting, serializer`output
      ensures writeBuffer == old(serializer.output) && serializer.output == [] && (asyncWriting <==> writeBuffer != [])
    {
      writeBuffer, serializer.output := serializer.output, writeBuffer;
      serializer.output := [];
      asyncWriting := writeBuffer != [];
    }

    // The size goes into five bytes that were left for it.
    method PatchSize(begin: nat, size: nat)
      requires begin + SIZE_SIZE <= |serializer.output|
      modifies serializer`output
      ensures serializer.output == old(serializer.output)[..begin] + FrameSize(size) + old(serializer.output)[begin
          + SIZE_SIZE..]
    {
      hide BigEndian, ShiftRight;
      ghost var before, digits := serializer.output, BigEndian(size, 4);
      serializer.output := serializer.output[begin := FIXED_SIZE_HEAD];
      var i := 4;
      while i > 0
        invariant 0 <= i <= 4 && |serializer.output| == |before| && serializer.output[begin] == FIXED_SIZE_HEAD
        invariant forall k ::
            0 <= k < |before| && !(begin <= k < begin + SIZE_SIZE) ==> serializer.output[k] == before[k]
        invariant forall k :: 0 <= k < 4 - i ==> serializer.output[begin + 1 + k] == digits[k]
      {
        i := i - 1;
        BigEndianAt(size, 4, 3 - i);
        serializer.output := serializer.output[begin + SIZE_SIZE - 1 - i := ShiftRight(size, i) % 256];
      }
      assert serializer.output[begin..begin + SIZE_SIZE] == FrameSize(size);
    }

    method SerializeTransmission(t: Transmission) returns (begin: Option<nat>)
      requires Sendable(types, t)
      modifies serializer
      ensures begin.None? <==> |old(serializer.output)| > WRITE_BUFFER_MAX_SIZE
      ensures begin.None? ==> serializer.output == old(serializer.output)
      ensures begin.Some? ==>
                begin.value == |old(serializer.output)| && serializer.output == old(serializer.output) + Frame(types, t)
      ensures begin.Some? ==> forall a :: Masked(t, a) ==> FrameOf(types, t, a, serializer.output[begin.value..])
    {
      hide Sendable, DescribedProps, TypedFields, EncodeStruct, FrameSize, Bits, Masked, FrameOf;
      if |serializer.output| > WRITE_BUFFER_MAX_SIZE {
        return None;
      }
      SendableFacts(types, t);
      HeaderDescribed();
      var start, props := |serializer.output|, types[NameOf(t.header).value];
      ghost var before, space: seq<byte> := serializer.output, [0, 0, 0, 0, 0];
      serializer.output := serializer.output + [0, 0, 0, 0, 0];
      serializer.Serialize(HEADER, t.header, t.header.Keys);
      serializer.Serialize(props, t.instance, AttributesOf(t.header));
      Layout(before, space, HeaderBytes(t.header), EncodeStruct(props, t.instance, AttributesOf(t.header)));
      PatchSize(start, |serializer.output| - start - SIZE_SIZE);
      Assembled(before, FrameSize(|PayloadOf(types, t)|), PayloadOf(types, t));
      assert serializer.output[start..] == Frame(types, t);
      forall a | Masked(t, a)
        ensures FrameOf(types, t, a, Frame(types, t))
      {
        FrameMasked(types, t, a);
      }
      return Some(start);
    }

    // After a serialization: the bytes go out at once if no write is outstanding.
    method Written(ghost t: Transmission, ghost before: seq<byte>)
      requires AllSendable(types, accepted) && Sendable(types, t) && (cache != null ==> cache.types == types)
      requires written + writeBuffer + before == Stream(types, accepted)
      requires serializer.output == before + Frame(types, t)
      requires (asyncWriting <==> writeBuffer != []) && (!asyncWriting ==> before == [])
      modifies this, serializer
      ensures Valid() && written == old(written) && accepted == old(accepted) + [t]
    {
      hide Stream, Sendable, Frame, AllSendable;
      Accepts(types, accepted, t);
      assert written + writeBuffer + serializer.output == written + writeBuffer + before + Frame(types, t);
      accepted := accepted + [t];
      if !asyncWriting {
        assert writeBuffer == [];
        AsyncWrite();
        assert written + writeBuffer + [] == written + old(writeBuffer) + old(serializer.output);
      }
    }

    /** A transmission of its own; a full buffer is an error. */
    method Transmit(t: Transmission) returns (ok: bool)
      requires Valid() && Sendable(types, t)
      modifies this, serializer
      ensures Valid() && written == old(written)
      ensures ok <==> |old(serializer.output)| <= WRITE_BUFFER_MAX_SIZE
      ensures accepted == if ok then old(accepted) + [t] else old(accepted)
    {
      hide Stream, Sendable, Frame;
      var begin := SerializeTransmission(t);
      if begin.None? {
        return false;
      }
      Written(t, old(serializer.output));
      return true;
    }

    // Serialized once for all channels of the listener, copied from then on.
    method SerializeShared(id: Id, t: Transmission) returns (ok: bool)
      requires Sendable(types, t) && id != 0
      requires cache != null ==> cache.types == types && cache.Valid() && cache.ids.Names(id, t)
      modifies serializer, cache
      ensures cache != null ==> cache.Valid()
      ensures ok <==> |old(serializer.output)| <= WRITE_BUFFER_MAX_SIZE || (cache != null && old(cache.id) == id)
      ensures cache != null ==> cache.id == if ok then id else old(cache.id)
      ensures serializer.output == if ok then old(serializer.output) + Frame(types, t) else old(serializer.output)
    {
      hide Sendable, Frame;
      if cache == null {
        var begin := SerializeTransmission(t);
        return begin.Some?;
      }
      if id == cache.id {
        serializer.output := serializer.output + cache.buffer;
        return true;
      }
      var begin := SerializeTransmission(t);
      if begin.None? {
        return false;
      }
      cache.id := id;
      cache.buffer := serializer.output[begin.value..];
      return true;
    }

    /** A transmission that other channels get as well: a full buffer matters only if it has to be serialized. */
    method TransmitShared(id: Id, t: Transmission) returns (ok: bool)
      requires Valid() && Sendable(types, t) && id != 0 && (cache != null ==> cache.Valid() && cache.ids.Names(id, t))
      modifies this, serializer, cache
      ensures Valid() && written == old(written) && (cache != null ==> cache.Valid())
      ensures ok <==> |old(serializer.output)| <= WRITE_BUFFER_MAX_SIZE || (cache != null && old(cache.id) == id)
      ensures cache != null ==> cache.id == if ok then id else old(cache.id)
      ensures accepted == if ok then old(accepted) + [t] else old(accepted)
    {
      hide Stream, Sendable, Frame, PayloadCache.Valid, AllSendable;
      ok := SerializeShared(id, t);
      if ok {
        Written(t, old(serializer.output));
      }
    }

    /** The outstanding write is done. */
    method Complete()
      requires Valid() && asyncWriting
      modifies this, serializer
      ensures Valid() && accepted == old(accepted) && written == old(written + writeBuffer)
    {
      hide Stream, Sendable, Frame;
      written := written + writeBuffer;
      AsyncWrite();
      assert written + writeBuffer + [] == old(written + writeBuffer + serializer.output);
    }
  }

  ghost function Roomy(channels: seq<StreamWriter>): (room: seq<bool>)
    reads channels, set c | c in channels :: c.serializer
    ensures |room| == |channels|
    ensures forall k :: 0 <= k < |channels| ==> (room[k] <==> |channels[k].serializer.output| <= WRITE_BUFFER_MAX_SIZE)
  {
    if channels == [] then []
    else Roomy(channels[..|channels| - 1]) + [|channels[|channels| - 1].serializer.output| <= WRITE_BUFFER_MAX_SIZE]
  }

  /** The first channel with room. */
  function FirstRoom(room: seq<bool>): (n: nat)
    ensures n <= |room| && (n < |room| ==> room[n]) && forall k :: 0 <= k < n ==> !room[k]
  {
    if room == [] || room[0] then 0 else 1 + FirstRoom(room[1..])
  }

  // The loop over the members of a group.
  method TransmitMade(channels: seq<StreamWriter>, cache: PayloadCache, id: Id, t: Transmission, ghost first: nat)
    returns (ok: seq<bool>)
    requires cache.Valid() && cache.ids.Names(id, t) && cache.id != id && Sendable(cache.types, t)
    requires forall k :: 0 <= k < |channels| ==> channels[k].cache == cache && channels[k].Valid()
    requires forall j, k ::
        0 <= j < k < |channels| ==> channels[j] != channels[k] && channels[j].serializer != channels[k].serializer
    requires first < |channels| ==> |channels[first].serializer.output| <= WRITE_BUFFER_MAX_SIZE
    requires forall k :: 0 <= k < first && k < |channels| ==> |channels[k].serializer.output| > WRITE_BUFFER_MAX_SIZE
    modifies (set k | 0 <= k < |channels| :: channels[k]), (set k | 0 <= k < |channels| :: channels[k].serializer),
        cache
    ensures cache.Valid() && |ok| == |channels| && forall k :: 0 <= k < |channels| ==> (ok[k] <==> first <= k)
    ensures forall k :: 0 <= k < |channels| ==> channels[k].Valid()
    ensures forall k :: 0 <= k < |channels| ==>
              channels[k].accepted == if ok[k] then old(channels[k].accepted) + [t] else old(channels[k].accepted)
  {
    hide Sendable, Frame, Stream, AllSendable;
    ok := [];
    var n := 0;
    while n < |channels|
      invariant n <= |channels| && |ok| == n && cache.Valid()
      invariant cache.id == id <==> first < n
      invariant forall k :: 0 <= k < n ==> (ok[k] <==> first <= k)
      invariant forall k :: 0 <= k < |channels| ==> channels[k].Valid()
      invariant forall k :: 0 <= k < n ==> channels[k].accepted == if ok[k] then old(channels[k].accepted) + [t]
          else old(channels[k].accepted)
      invariant forall k :: n <= k < |channels| ==> unchanged(channels[k]) && unchanged(channels[k].serializer)
    {
      label Before:
      var done := channels[n].TransmitShared(id, t);
      assert forall k :: 0 <= k < |channels| && k != n ==>
          unchanged@Before(channels[k]) && unchanged@Before(channels[k].serializer);
      ok := ok + [done];
      n := n + 1;
    }
  }

  /**
   A new transmission for all channels of a listener: each accepts it as if it were the only one, and
   whatever it has to write are the uncached bytes. A channel with a full buffer fails just if no
   channel before it had room to serialize.
   */
  method TransmitToAll(channels: seq<StreamWriter>, cache: PayloadCache, t: Transmission) returns (ok: seq<bool>)
    requires cache.Valid() && cache.ids.Valid() && Sendable(cache.types, t)
    requires forall k :: 0 <= k < |channels| ==> channels[k].cache == cache && channels[k].Valid()
    requires forall j, k ::
        0 <= j < k < |channels| ==> channels[j] != channels[k] && channels[j].serializer != channels[k].serializer
    modifies (set k | 0 <= k < |channels| :: channels[k]), (set k | 0 <= k < |channels| :: channels[k].serializer),
        cache, cache.ids
    ensures cache.Valid() && cache.ids.Valid() && |ok| == |channels|
    ensures forall k :: 0 <= k < |channels| ==> (ok[k] <==> FirstRoom(old(Roomy(channels))) <= k)
    ensures forall k :: 0 <= k < |channels| ==> channels[k].Valid()
    ensures forall k :: 0 <= k < |channels| ==>
              channels[k].accepted == if ok[k] then old(channels[k].accepted) + [t] else old(channels[k].accepted)
  {
    hide Sendable, Frame, Stream, AllSendable, Roomy;
    ghost var room := Roomy(channels);
    var id := cache.ids.New(t);
    ok := TransmitMade(channels, cache, id, t, FirstRoom(room));
  }

  lemma Accepts(types: Types, ts: seq<Transmission>, t: Transmission)
    requires AllSendable(types, ts) && Sendable(types, t)
    ensures AllSendable(types, ts + [t]) && Stream(types, ts + [t]) == Stream(types, ts) + Frame(types, t)
  {
    hide Sendable, Frame;
    StreamAppend(types, ts, [t]);
    assert Stream(types, [t]) == Frame(types, t) + [];
  }

  /** A completely written channel has put the uncached serializations of what it accepted on the stream. */
  lemma AllWritten(w: StreamWriter)
    requires w.Valid() && !w.asyncWriting
    ensures w.written == Stream(w.types, w.accepted)
  {
    assert w.written + [] + [] == w.written;
  }
}
