/** The receiving half of a stream channel: its read buffer, its one outstanding read, and the drain loop. */
module StreamReaders {
  import opened Wrappers
  import opened Cbor
  import opened CborStream
  import opened Frames

  const READ_BUFFER_MIN_SIZE := 16 * 128

  // An asynchronous read that is under way: for a payload of `required` bytes, or for the size of one.
  datatype Read = Read(required: nat, payload: bool)

  lemma DrainSize(types: Types, keep: nat -> bool, s: Progress)
    requires s.live && s.need == None && |s.unread| >= SIZE_SIZE
    ensures var p := ParseHead(UNSIGNED, 4, s.unread);
            Drain(types, keep, s) == if p.Got? then Drain(types, keep, s.(unread := p.rest, need := Some(p.value)))
              else s.(live := false)
  {
    hide ParseHead;
  }

  lemma DrainPayload(types: Types, keep: nat -> bool, s: Progress)
    requires s.live && s.need.Some? && |s.unread| >= s.need.value
    ensures var p := ParsePayload(types, s.unread);
            Drain(types, keep, s) == if p.Got? then Drain(types, keep, Progress(s.delivered + [p.value], p.rest,
              None, keep(|s.delivered|))) else s.(live := false)
  {
    hide ParsePayload;
  }

  lemma DrainStops(types: Types, keep: nat -> bool, s: Progress)
    requires !s.live || |s.unread| < Required(s)
    ensures Drain(types, keep, s) == s
  {
  }

  class StreamReader {
    const types: Types
    const keep: nat -> bool
    var readBuffer: seq<byte>
    // The part of the buffer that is received and not deserialized.
    var begin: nat
    var end: nat
    var reading: Option<Read>
    var readDispatching: bool
    var delivered: seq<Transmission>
    // The chunks the stream delivered so far.
    ghost var chunks: seq<seq<byte>>

    ghost predicate Window()
      reads this
    {
      begin <= end <= |readBuffer|
    }

    function Unread(): seq<byte>
      requires Window()
      reads this
    {
      readBuffer[begin..end]
    }

    // How far the receiver got when it is about to look for the size of the next payload, or for a payload.
    ghost function At(need: Option<nat>): Progress
      requires Window()
      reads this
    {
      Progress(delivered, Unread(), need, true)
    }

    ghost predicate Reaches(s: Progress)
      requires Window()
      reads this
    {
      && delivered == s.delivered && (reading.Some? <==> s.live)
      && (s.live ==> Unread() == s.unread && s.need == if reading.value.payload then Some(reading.value.required)
        else None)
      && (s.live ==> Ready())
    }

    /** While a read is under way it has room, and everything unread is at the front of the buffer. */
    ghost predicate Ready()
      reads this
    {
      reading.Some? && begin == 0 && end < reading.value.required <= |readBuffer|
        && |readBuffer| >= READ_BUFFER_MIN_SIZE
      && (!reading.value.payload ==> reading.value.required == SIZE_SIZE)
    }

    /** Between two events: the receiver is where its chunks, taken one by one, brought it. */
    ghost predicate Valid()
      reads this
    {
      Window() && !readDispatching && Reaches(FeedAll(types, keep, chunks))
    }

    constructor (types: Types, keep: nat -> bool)
      ensures this.types == types && this.keep == keep
      ensures Window() && Unread() == [] && reading == None && !readDispatching && delivered == [] && chunks == []
    {
      this.types, this.keep := types, keep;
      readBuffer, begin, end, reading, readDispatching, delivered, chunks := [], 0, 0, None, false, [], [];
    }

    method Start()
      requires Window() && Unread() == [] && reading == None && !readDispatching && delivered == [] && chunks == []
      modifies this
      ensures Valid() && chunks == []
    {
      DrainStops(types, keep, At(None));
      AsyncReceiveImpl();
    }

    // Called again while a read is being dispatched, it only says so.
    method AsyncReceiveImpl()
      requires Window() && reading == None
      modifies this`readBuffer, this`begin, this`end, this`reading, this`readDispatching, this`delivered
      ensures Window() && !readDispatching
      ensures if old(readDispatching) then unchanged(`readBuffer, `begin, `end, `reading, `delivered)
          else Reaches(Drain(types, keep, old(At(None))))
      decreases end - begin, 3
    {
      if readDispatching {
        readDispatching := false;
        return;
      }
      AsyncRead(SIZE_SIZE, false);
    }

    method AsyncRead(required: nat, payload: bool)
      requires Window() && reading == None && (!payload ==> required == SIZE_SIZE && !readDispatching)
      requires payload ==> end - begin < required
      modifies this`readBuffer, this`begin, this`end, this`reading, this`readDispatching, this`delivered
      ensures Window() && readDispatching == old(readDispatching)
      ensures Reaches(Drain(types, keep, old(At(if payload then Some(required) else None))))
      decreases end - begin, 2
    {
      hide Drain;
      if required <= end - begin {
        readDispatching := true;
        ProcessTransmissionSize();
        if readDispatching {
          readDispatching := false;
        } else {
          AsyncReceiveImpl();
        }
      } else {
        DrainStops(types, keep, At(if payload then Some(required) else None));
        var available := end - begin;
        var size := if required > READ_BUFFER_MIN_SIZE then required else READ_BUFFER_MIN_SIZE;
        ghost var unread := Unread();
        Compact(size);
        assert Unread() == unread;
        reading := Some(Read(required, payload));
      }
    }

    // The unread bytes move to the front, then the buffer gets its new size.
    method Compact(size: nat)
      requires Window() && end - begin <= size
      modifies this`readBuffer, this`begin, this`end
      ensures begin == 0 && end == old(end - begin) && |readBuffer| == size && readBuffer[..end] == old(Unread())
    {
      var available := end - begin;
      readBuffer := readBuffer[begin..end] + readBuffer[available..];
      readBuffer := if size <= |readBuffer| then readBuffer[..size] else readBuffer + seq(size - |readBuffer|, _ => 0);
      begin, end := 0, available;
    }

    /**
     The size of a payload has arrived. While dispatching, the flag that is taken back means that a
     transmission was handed on and the caller is to go on with what is unread.
     */
    method ProcessTransmissionSize()
      requires Window() && reading == None && end - begin >= SIZE_SIZE
      modifies this`readBuffer, this`begin, this`end, this`reading, this`readDispatching, this`delivered
      ensures Window() && (readDispatching ==> old(readDispatching))
      ensures if old(readDispatching) && !readDispatching
              then reading == None && end - begin < old(end - begin) && Drain(types, keep, At(None)) == Drain(types,
                keep, old(At(None)))
              else Reaches(Drain(types, keep, old(At(None))))
      decreases end - begin, 1
    {
      hide Drain, ParseHead;
      ghost var s := At(None);
      DrainSize(types, keep, s);
      HeadShrinks(s.unread);
      var size := DeserializeTransmissionSize();
      if size.None? {
        return;
      }
      assert At(Some(size.value)) == s.(unread := Unread(), need := Some(size.value));
      if size.value <= end - begin {
        ProcessTransmission(size.value);
      } else {
        AsyncRead(size.value, true);
      }
    }

    method Advance(reader: CborReader)
      requires Window() && reader.Valid() && reader.input == Unread()
      modifies this`begin
      ensures Window() && Unread() == reader.Rest() && begin >= old(begin)
    {
      begin := begin + reader.at;
    }

    method DeserializeTransmissionSize() returns (size: Option<nat>)
      requires Window()
      modifies this`begin
      ensures Window() && begin >= old(begin)
      ensures match ParseHead(UNSIGNED, 4, old(Unread())) case Bad(_) => size == None
          case Got(v, rest) => size == Some(v) && Unread() == rest
    {
      hide ParseHead;
      var reader := new CborReader(Unread());
      var head := reader.ReadHead(UNSIGNED, 4);
      if head.Failure? {
        return None;
      }
      Advance(reader);
      return Some(head.value);
    }

    method DeserializeTransmission() returns (t: Option<Transmission>)
      requires Window()
      modifies this`begin
      ensures Window() && begin >= old(begin)
      ensures match ParsePayload(types, old(Unread())) case Bad(_) => t == None
          case Got(v, rest) => t == Some(v) && Unread() == rest
    {
      hide DecodeStruct, NameOf, FeedAll, Drain, ParsePayload;
      PayloadSteps(types, Unread());
      var reader := new CborReader(Unread());
      var header := reader.Deserialize(HEADER, ALL, map[]);
      if header.Failure? {
        return None;
      }
      var name := NameOf(header.value);
      if name.None? || name.value !in types {
        return None;
      }
      var instance := reader.Deserialize(types[name.value], ALL, map[]);
      if instance.Failure? {
        return None;
      }
      Advance(reader);
      return Some(Transmission(header.value, instance.value));
    }

    method ProcessTransmission(ghost size: nat)
      requires Window() && reading == None && end - begin >= size
      modifies this`readBuffer, this`begin, this`end, this`reading, this`readDispatching, this`delivered
      ensures Window() && (readDispatching ==> old(readDispatching))
      ensures if old(readDispatching) && !readDispatching
              then reading == None && end - begin < old(end - begin) && Drain(types, keep, At(None)) == Drain(types,
                keep, old(At(Some(size))))
              else Reaches(Drain(types, keep, old(At(Some(size)))))
      decreases end - begin, 0
    {
      hide Drain, ParsePayload;
      ghost var s := At(Some(size));
      DrainPayload(types, keep, s);
      var t := DeserializeTransmission();
      if t.None? {
        return;
      }
      var more := keep(|delivered|);
      delivered := delivered + [t.value];
      ParsePayloadShrinks(types, s.unread);
      DrainStops(types, keep, At(None).(live := false));
      if more {
        AsyncReceiveImpl();
      }
    }

    /** One outstanding read completes with `bytes`, any number of them that fits the window. */
    method Complete(bytes: seq<byte>)
      requires Valid() && reading.Some? && 0 < |bytes| <= |readBuffer| - end
      modifies this
      ensures Valid() && chunks == old(chunks) + [bytes]
    {
      hide Drain;
      ghost var s := FeedAll(types, keep, chunks);
      chunks := chunks + [bytes];
      assert chunks[..|chunks| - 1] == old(chunks);
      readBuffer := readBuffer[..end] + bytes + readBuffer[end + |bytes|..];
      end := end + |bytes|;
      assert Unread() == s.unread + bytes;
      var read := reading.value;
      reading := None;
      if end - begin < read.required {
        AsyncRead(read.required, read.payload);
      } else if read.payload {
        ProcessTransmission(read.required);
      } else {
        ProcessTransmissionSize();
      }
    }

    /** Whatever the chunks, the receiver handed on exactly the transmissions that have arrived completely. */
    lemma Delivers(ts: seq<Transmission>, k: nat)
      requires Valid() && AllSendable(types, ts) && Concat(chunks) <= Stream(types, ts) && k <= |ts|
      requires forall n :: keep(n)
      ensures |delivered| <= |ts| && delivered == AllReceived(ts[..|delivered|]) && reading.Some?
      ensures k <= |delivered| <==> Arrived(types, ts, k, Concat(chunks))
      ensures Concat(chunks) == Stream(types, ts) ==> delivered == AllReceived(ts) && Unread() == []
    {
      hide FeedAll, Concat, Stream, Arrived, AllReceived, AllSendable;
      Reassembly(types, keep, ts, chunks, k);
    }
  }

  lemma PayloadSteps(types: Types, b: seq<byte>)
    ensures var header := DecodeStruct(HEADER, ALL, map[], b);
            && (header.Bad? ==> ParsePayload(types, b).Bad?)
            && (header.Got? ==>
                  var name := NameOf(header.value);
                  && (name.None? || name.value !in types ==> ParsePayload(types, b).Bad?)
                  && (name.Some? && name.value in types ==>
                        var instance := DecodeStruct(types[name.value], ALL, map[], header.rest);
                        ParsePayload(types, b) == if instance.Bad? then Bad(instance.fault)
                          else Got(Transmission(header.value, instance.value), instance.rest)))
  {
    hide DecodeStruct;
  }

  lemma HeadShrinks(b: seq<byte>)
    ensures ParseHead(UNSIGNED, 4, b).Got? ==> |ParseHead(UNSIGNED, 4, b).rest| < |b|
  {
  }

  lemma ParsePayloadShrinks(types: Types, b: seq<byte>)
    ensures ParsePayload(types, b).Got? ==> |ParsePayload(types, b).rest| < |b|
  {
    hide DecodeStruct;
  }
}
