/** One end of a connection as it is updated in place; `React` in module `Handshake` is its specification. */
module Connections {
  import opened Wrappers
  import opened Handshake

  lemma FaultShuts(e: End, m: Message, verified: bool)
    ensures React(e, m, verified).fault != None ==> React(e, m, verified).end == Shut(e)
  {
  }

  lemma JoinsFrom(types: seq<TypeName>, n: nat)
    requires n <= |types|
    ensures Joins(types[n..]) == if n == |types| then []
        else [Descriptor(types[n]), Join(types[n])] + Joins(types[n + 1..])
    ensures Joins(types[0..]) == Joins(types)
  {
    assert types[0..] == types;
    if n < |types| {
      assert types[n..][1..] == types[n + 1..];
    }
  }

  lemma DescriptorsNext(types: seq<TypeName>, n: nat)
    requires n <= |types|
    ensures |Descriptors(types)| == |types| && Descriptors(types)[..0] == []
    ensures n < |types| ==> Descriptors(types)[..n + 1] == Descriptors(types)[..n] + [Descriptor(types[n])]
    ensures n == |types| ==> Descriptors(types)[..n] == Descriptors(types)
  {
  }

  lemma PairThen(out: seq<Message>, t: TypeName, rest: seq<Message>)
    ensures out + ([Descriptor(t), Join(t)] + rest) == out + [Descriptor(t)] + [Join(t)] + rest
  {
  }

  class Connection {
    var state: State
    var expected: Slot
    var selfId: nat
    const peerId: nat
    const selfName: string
    const secret: bool
    const publishes: seq<TypeName>
    const subscribes: seq<TypeName>
    // What the transition handler of a guest has not sent yet.
    var preloadPublish: seq<TypeName>
    var preloadSubscribe: seq<TypeName>
    var joinedGroups: set<TypeName>
    // Everything handed to the channel so far.
    var out: seq<Message>

    ghost function Abs(): End
      reads this
    {
      End(state, expected, selfId, peerId, selfName, secret, publishes, subscribes)
    }

    // Until the answer to the connect arrives, nothing is preloaded yet; a group is subscribed once.
    ghost predicate Valid()
      reads this
    {
      && (forall i, j :: 0 <= i < j < |subscribes| ==> subscribes[i] != subscribes[j])
      && (expected.handler == OnHello || expected.handler == OnResponse ==>
            preloadPublish == publishes && preloadSubscribe == subscribes && joinedGroups == {})
      && (state == Connected ==> expected.handler == OnPeerError)
    }

    constructor Host(id: nat, required: bool)
      ensures Valid() && fresh(this)
      ensures Abs() == Start(id, required, "", false, [], []).host
          && out == Start(id, required, "", false, [], []).toGuest
    {
      state, expected, selfId, peerId, selfName, secret := Connecting, EXPECT_CONNECT, HOST_ID, id, "", false;
      publishes, subscribes, preloadPublish, preloadSubscribe, joinedGroups := [], [], [], [], {};
      out := [Hello(required)];
    }

    constructor Guest(name: string, secret: bool, publishes: seq<TypeName>, subscribes: seq<TypeName>)
      requires forall i, j :: 0 <= i < j < |subscribes| ==> subscribes[i] != subscribes[j]
      ensures Valid() && fresh(this)
      ensures Abs() == Start(0, false, name, secret, publishes, subscribes).guest && out == []
    {
      state, expected, selfId, peerId, selfName := Connecting, EXPECT_HELLO, 0, HOST_ID, name;
      this.secret, this.publishes, this.subscribes := secret, publishes, subscribes;
      preloadPublish, preloadSubscribe, joinedGroups, out := publishes, subscribes, {}, [];
    }

    method Transmit(m: Message)
      modifies this`out
      ensures out == old(out) + [m]
    {
      out := out + [m];
    }

    method JoinGroup(t: TypeName)
      modifies this`out, this`joinedGroups
      ensures joinedGroups == old(joinedGroups) + {t}
      ensures out == if t in old(joinedGroups) then old(out) else old(out) + [Join(t)]
    {
      if t !in joinedGroups {
        Transmit(Join(t));
        joinedGroups := joinedGroups + {t};
      }
    }

    method EnterEarlySubscribe()
      requires expected.handler == OnResponse && Valid()
      modifies this`state, this`out, this`preloadPublish, this`preloadSubscribe, this`joinedGroups
      ensures state == EarlySubscribe && out == old(out) + PreloadMessages(Abs())
    {
      hide Joins, Descriptors;
      state := EarlySubscribe;
      var n := 0;
      DescriptorsNext(publishes, 0);
      assert out + [] == out;
      while n < |preloadPublish|
        modifies this`out
        invariant n <= |preloadPublish| == |Descriptors(publishes)|
        invariant out == old(out) + Descriptors(publishes)[..n]
      {
        DescriptorsNext(publishes, n);
        Grouped(old(out), Descriptors(publishes)[..n], [Descriptor(publishes[n])]);
        Transmit(Descriptor(preloadPublish[n]));
        n := n + 1;
      }
      DescriptorsNext(publishes, n);
      ghost var announced := out;
      assert announced == old(out) + Descriptors(publishes);
      n := 0;
      while n < |preloadSubscribe|
        modifies this`out, this`joinedGroups
        invariant n <= |preloadSubscribe|
        invariant forall t :: t in joinedGroups ==> t in subscribes[..n]
        invariant announced + Joins(subscribes) == out + Joins(subscribes[n..])
      {
        var t := preloadSubscribe[n];
        JoinsFrom(subscribes, n);
        PairThen(out, t, Joins(subscribes[n + 1..]));
        Transmit(Descriptor(t));
        JoinGroup(t);
        n := n + 1;
      }
      JoinsFrom(subscribes, n);
      assert out + [] == out;
      Grouped(old(out), Descriptors(publishes), Joins(subscribes));
      preloadPublish, preloadSubscribe := [], [];
    }

    method HandleHello(required: bool) returns (thrown: Option<Fault>)
      requires Valid() && expected.handler == OnHello
      modifies this`out, this`expected
      ensures Valid()
      ensures var r := ReactToExpected(old(Abs()), Hello(required), false);
              thrown == r.fault && (thrown == None ==> Abs() == r.end && out == old(out) + r.out)
                && (thrown != None ==> Abs() == old(Abs()) && out == old(out))
    {
      if required && !secret {
        return Some(NoSecret);
      }
      Transmit(Connect(Some(selfName), Some(true), None));
      expected := EXPECT_RESPONSE;
      return None;
    }

    method HandleAuthorizationRequest(id: nat, preload: Option<bool>)
      requires Valid() && expected.handler == OnResponse
      modifies this
      ensures Valid()
      ensures forall accepted, finished ::
                var r := ReactToExpected(old(Abs()), Response(Some(id), accepted, preload, finished), false);
                Abs() == r.end && out == old(out) + r.out && r.fault == None
    {
      selfId := id;
      if preload == Some(true) {
        EnterEarlySubscribe();
        Transmit(Connect(None, None, Some(true)));
        expected := EXPECT_PRELOAD_FINISHED;
      } else {
        state := Connected;
        expected := EXPECT_ERROR;
      }
    }

    method HandlePreloadFinished()
      requires Valid()
      modifies this`state, this`expected
      ensures Valid() && Abs() == old(Abs()).(state := Connected, slot := EXPECT_ERROR)
    {
      state := Connected;
      expected := EXPECT_ERROR;
    }

    // Only a rejected connect leaves the answer behind although the handler throws.
    method HandleConnect(m: Message, verified: bool) returns (thrown: Option<Fault>)
      requires Valid() && expected.handler == OnConnect && m.Connect?
      modifies this`state, this`expected, this`out
      ensures Valid()
      ensures var r := ReactToExpected(old(Abs()), m, verified);
              thrown == r.fault && out == old(out) + r.out && Abs() == if thrown == None then r.end else old(Abs())
    {
      var preload := m.preloadCache == Some(true);
      if !verified {
        Transmit(Response(Some(peerId), Some(false), Some(preload), None));
        return Some(InvalidAuthorization);
      }
      Transmit(Response(Some(peerId), Some(true), Some(preload), None));
      if preload {
        state := EarlySubscribe;
        expected := EXPECT_CLIENT_FINISHED;
      } else {
        state := Connected;
        expected := EXPECT_ERROR;
      }
      return None;
    }

    method HandlePreloadClientFinished(m: Message) returns (thrown: Option<Fault>)
      requires Valid() && expected.handler == OnClientFinished && m.Connect?
      modifies this`state, this`expected, this`out
      ensures Valid()
      ensures var r := ReactToExpected(old(Abs()), m, false);
              thrown == r.fault && (thrown == None ==> Abs() == r.end && out == old(out) + r.out)
                && (thrown != None ==> Abs() == old(Abs()) && out == old(out))
    {
      if m.preloadClientFinished == Some(false) {
        return Some(NotFinished);
      }
      state := Connected;
      Transmit(Response(None, None, None, Some(true)));
      expected := EXPECT_ERROR;
      return None;
    }

    method HandleClose()
      requires Valid()
      modifies this`state, this`expected
      ensures Valid() && Abs() == Shut(old(Abs()))
    {
      expected := EXPECT_NOTHING;
      state := Closed;
    }

    method HandleError()
      requires Valid()
      modifies this`state, this`expected, this`out
      ensures Valid() && Abs() == Shut(old(Abs()))
      ensures out == old(out) + Parting(old(Abs()), 1)
    {
      if state == Connected {
        Transmit(PeerError(1));
      }
      HandleClose();
    }

    method HandlePeerError(code: int)
      requires Valid()
      modifies this`state, this`expected, this`out
      ensures Valid() && Abs() == ReactToError(old(Abs()), code).end
      ensures out == old(out) + ReactToError(old(Abs()), code).out
    {
      if code == 0 {
        HandleClose();
      } else {
        HandleError();
      }
    }

    method HandleExpected(m: Message, verified: bool) returns (thrown: Option<Fault>)
      requires Valid() && m.Kind() == expected.kind && expected.needs <= m.Valid()
      modifies this
      ensures Valid()
      ensures var r := ReactToExpected(old(Abs()), m, verified);
              && thrown == r.fault
              && (thrown == None ==> Abs() == r.end && out == old(out) + r.out)
              && (thrown != None ==> Abs() == old(Abs()) && out + Parting(old(Abs()), 1) == old(out) + r.out)
    {
      match (expected.handler, m) {
        case (OnHello, Hello(required)) => thrown := HandleHello(required);
        case (OnResponse, Response(Some(id), _, preload, _)) => HandleAuthorizationRequest(id, preload); thrown := None;
        case (OnPreloadFinished, Response(_, _, _, _)) => HandlePreloadFinished(); thrown := None;
        case (OnConnect, Connect(_, _, _)) => thrown := HandleConnect(m, verified);
        case (OnClientFinished, Connect(_, _, _)) => thrown := HandlePreloadClientFinished(m);
        case _ => thrown := Some(WrongType);
      }
    }

    method HandleReceive(m: Message, verified: bool) returns (keep: bool, thrown: Option<Fault>)
      requires Valid()
      modifies this
      ensures Valid()
      ensures var r := React(old(Abs()), m, verified);
              && thrown == r.fault
              && (thrown == None ==> Abs() == r.end && out == old(out) + r.out && (keep <==> state != Closed))
              && (thrown != None ==> Abs() == old(Abs()) && out + Parting(old(Abs()), 1) == old(out) + r.out)
    {
      if state == Closed {
        return false, None;
      }
      if m.PeerError? {
        HandlePeerError(m.code);
        return false, None;
      }
      if m.Kind() != UserKind {
        if m.Kind() != expected.kind {
          return false, Some(WrongType);
        }
        if !(expected.needs <= m.Valid()) {
          return false, Some(MissingProperty);
        }
        thrown := HandleExpected(m, verified);
        return true, thrown;
      }
      if state == Connected || state == EarlySubscribe {
        return true, None;
      }
      return false, Some(NotConnected);
    }

    /** One message from the channel: what the handler throws comes back through the error handler. */
    method Receive(m: Message, verified: bool) returns (keep: bool)
      requires Valid()
      modifies this
      ensures Valid()
      ensures var r := React(old(Abs()), m, verified);
              Abs() == r.end && out == old(out) + r.out && (keep <==> r.end.state != Closed)
    {
      hide React;
      var thrown;
      FaultShuts(Abs(), m, verified);
      keep, thrown := HandleReceive(m, verified);
      if thrown != None {
        HandleError();
        keep := false;
      }
    }

    // Destroying the connection object takes leave of a connected peer.
    method Leave()
      requires Valid()
      modifies this`state, this`expected, this`out
      ensures Valid()
      ensures old(state) != Closed ==> Abs() == Shut(old(Abs())) && out == old(out) + Parting(old(Abs()), 0)
      ensures old(state) == Closed ==> Abs() == old(Abs()) && out == old(out)
    {
      if state != Closed {
        if state == Connected {
          Transmit(PeerError(0));
        }
        HandleClose();
      }
    }
  }
}
