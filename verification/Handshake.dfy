/**
 The connection handshake: both ends of a connection, each with the system type it expects next,
 joined by two queues that deliver in order.
 */
module Handshake {
  import opened Wrappers

  type TypeName = string

  datatype State = Connecting | EarlySubscribe | Connected | Closed

  datatype Kind = HelloKind | ConnectKind | ResponseKind | ErrorKind | UserKind

  datatype Field =
    | ServerName | AuthChallenge
    | ClientName | PreloadCache | PreloadClientFinished
    | ClientId | Accepted | Preload | PreloadFinished
    | ErrorCode

  // Messages carry the properties the handshake looks at; an absent property is not valid.
  datatype Message =
    | Hello(authenticationRequired: bool)
    | Connect(clientName: Option<string>, preloadCache: Option<bool>, preloadClientFinished: Option<bool>)
    | Response(clientId: Option<nat>, accepted: Option<bool>, preload: Option<bool>, preloadFinished: Option<bool>)
    | PeerError(code: int)
    | Descriptor(describes: TypeName)
    | Join(group: TypeName)
    | Data(payload: int)
  {
    function Kind(): Kind {
      match this
      case Hello(_) => HelloKind
      case Connect(_, _, _) => ConnectKind
      case Response(_, _, _, _) => ResponseKind
      case PeerError(_) => ErrorKind
      case _ => UserKind
    }

    function Valid(): set<Field> {
      match this
      case Hello(_) => {ServerName, AuthChallenge}
      case Connect(n, p, f) => (if n.Some? then {ClientName} else {}) + (if p.Some? then {PreloadCache}
        else {}) + (if f.Some? then {PreloadClientFinished} else {})
      case Response(i, a, p, f) => (if i.Some? then {ClientId} else {}) + (if a.Some? then {Accepted}
        else {}) + (if p.Some? then {Preload} else {}) + (if f.Some? then {PreloadFinished} else {})
      case PeerError(_) => {ErrorCode}
      case _ => {}
    }
  }

  datatype Handler = OnHello | OnResponse | OnPreloadFinished | OnConnect | OnClientFinished | OnPeerError

  // The expected system type, the properties it has to have, and what handles it.
  datatype Slot = Slot(kind: Kind, needs: set<Field>, handler: Handler)

  datatype Fault = WrongType | MissingProperty | NotConnected | NoSecret | InvalidAuthorization | NotFinished

  // `publishes` and `subscribes` are the types a guest preloads.
  datatype End = End(state: State, slot: Slot, selfId: nat, peerId: nat, name: string, secret: bool,
                     publishes: seq<TypeName>, subscribes: seq<TypeName>)

  datatype Reaction = Reaction(end: End, out: seq<Message>, fault: Option<Fault>)

  const HOST_ID: nat := 1

  const EXPECT_HELLO := Slot(HelloKind, {ServerName, AuthChallenge}, OnHello)
  const EXPECT_RESPONSE := Slot(ResponseKind, {ClientId, Accepted, Preload}, OnResponse)
  const EXPECT_PRELOAD_FINISHED := Slot(ResponseKind, {PreloadFinished}, OnPreloadFinished)
  const EXPECT_CONNECT := Slot(ConnectKind, {ClientName, PreloadCache}, OnConnect)
  const EXPECT_CLIENT_FINISHED := Slot(ConnectKind, {PreloadClientFinished}, OnClientFinished)
  const EXPECT_ERROR := Slot(ErrorKind, {ErrorCode}, OnPeerError)
  const EXPECT_NOTHING := Slot(ErrorKind, {}, OnPeerError)

  function Descriptors(types: seq<TypeName>): seq<Message> {
    seq(|types|, n requires 0 <= n < |types| => Descriptor(types[n]))
  }

  /** What a guest sends on entering early subscribe: descriptors, then a descriptor and a join per subscribed type. */
  function Joins(types: seq<TypeName>): seq<Message> {
    if types == [] then [] else [Descriptor(types[0]), Join(types[0])] + Joins(types[1..])
  }

  function PreloadMessages(e: End): seq<Message> {
    Descriptors(e.publishes) + Joins(e.subscribes)
  }

  function Shut(e: End): End {
    e.(state := Closed, slot := EXPECT_NOTHING)
  }

  /** A fault is reported to the peer only from the connected state, then the connection closes. */
  function Fail(e: End, out: seq<Message>, f: Fault): Reaction {
    Reaction(Shut(e), out + if e.state == Connected then [PeerError(1)] else [], Some(f))
  }

  function ReactToError(e: End, code: int): Reaction {
    Reaction(Shut(e), if code != 0 && e.state == Connected then [PeerError(1)] else [], None)
  }

  function ReactToExpected(e: End, m: Message, verified: bool): Reaction {
    match (e.slot.handler, m)
    case (OnHello, Hello(required)) =>
      if required && !e.secret then Fail(e, [], NoSecret)
      else Reaction(e.(slot := EXPECT_RESPONSE), [Connect(Some(e.name), Some(true), None)], None)
    case (OnResponse, Response(Some(id), _, preload, _)) =>
      if preload == Some(true) then
        Reaction(e.(selfId := id, state := EarlySubscribe, slot := EXPECT_PRELOAD_FINISHED), PreloadMessages(e)
          + [Connect(None, None, Some(true))], None)
      else
        Reaction(e.(selfId := id, state := Connected, slot := EXPECT_ERROR), [], None)
    case (OnPreloadFinished, Response(_, _, _, _)) =>
      Reaction(e.(state := Connected, slot := EXPECT_ERROR), [], None)
    case (OnConnect, Connect(_, preload, _)) =>
      var answer := Response(Some(e.peerId), Some(verified), Some(preload == Some(true)), None);
      if !verified then Fail(e, [answer], InvalidAuthorization)
      else if preload == Some(true)
        then Reaction(e.(state := EarlySubscribe, slot := EXPECT_CLIENT_FINISHED), [answer], None)
      else Reaction(e.(state := Connected, slot := EXPECT_ERROR), [answer], None)
    case (OnClientFinished, Connect(_, _, finished)) =>
      if finished == Some(false) then Fail(e, [], NotFinished)
      else Reaction(e.(state := Connected, slot := EXPECT_ERROR), [Response(None, None, None, Some(true))], None)
    case _ => Fail(e, [], WrongType)
  }

  /** What an end does with one received message; `verified` is the verdict of the authentication manager. */
  function React(e: End, m: Message, verified: bool): Reaction {
    if e.state == Closed then Reaction(e, [], None)
    else if m.PeerError? then ReactToError(e, m.code)
    else if m.Kind() != UserKind then
      if m.Kind() != e.slot.kind then Fail(e, [], WrongType)
      else if !(e.slot.needs <= m.Valid()) then Fail(e, [], MissingProperty)
      else ReactToExpected(e, m, verified)
    else if e.state == EarlySubscribe || e.state == Connected then Reaction(e, [], None)
    else Fail(e, [], NotConnected)
  }

  // ----- The pair -----

  /**
   `hostAt` and `guestAt` count how far each end got, and stay once it closes: for the host 0 before
   the connect, 1 preloading, 2 connected; for the guest 0 before the hello, 1 before the response,
   2 preloading, 3 connected. `seen` are the messages the host has consumed.
   */
  datatype Pair = Pair(host: End, guest: End, toHost: seq<Message>, toGuest: seq<Message>,
                       hostAt: nat, guestAt: nat, rejected: bool, seen: seq<Message>)

  datatype Step =
    | HostReceives(verified: bool)
    | GuestReceives
    | HostSends(m: Message)
    | GuestSends(m: Message)
    | HostLeaves(code: int)
    | GuestLeaves(code: int)

  function Start(id: nat, authenticationRequired: bool, name: string, secret: bool, publishes: seq<TypeName>,
                 subscribes: seq<TypeName>): Pair
  {
    Pair(End(Connecting, EXPECT_CONNECT, HOST_ID, id, "", false, [], []),
         End(Connecting, EXPECT_HELLO, 0, HOST_ID, name, secret, publishes, subscribes),
         [], [Hello(authenticationRequired)], 0, 0, false, [])
  }

  predicate Open(e: End) {
    e.state != Closed
  }

  function HostProgress(e: End): nat {
    if e.state == EarlySubscribe then 1 else if e.state == Connected then 2 else 0
  }

  function GuestProgress(e: End): nat {
    if e.state == EarlySubscribe then 2 else if e.state == Connected then 3 else if e.slot == EXPECT_HELLO then 0 else 1
  }

  /** The host sends user messages only to a guest that joined; a guest may send once it has answered the hello. */
  predicate Enabled(p: Pair, step: Step) {
    match step
    case HostReceives(_) => p.toHost != []
    case GuestReceives => p.toGuest != []
    case HostSends(m) => m.Kind() == UserKind && (p.host.state == EarlySubscribe || p.host.state == Connected)
    case GuestSends(m) => m.Kind() == UserKind && Open(p.guest) && p.guest.slot != EXPECT_HELLO
    case HostLeaves(_) => Open(p.host)
    case GuestLeaves(_) => Open(p.guest)
  }

  function Parting(e: End, code: int): seq<Message> {
    if e.state == Connected then [PeerError(code)] else []
  }

  function Next(p: Pair, step: Step): Pair
    requires Enabled(p, step)
  {
    match step
    case HostReceives(verified) =>
      var r := React(p.host, p.toHost[0], verified);
      p.(host := r.end, toHost := p.toHost[1..], toGuest := p.toGuest + r.out, seen := p.seen + [p.toHost[0]],
         hostAt := if Open(r.end) then HostProgress(r.end) else p.hostAt,
         rejected := p.rejected || r.fault == Some(InvalidAuthorization))
    case GuestReceives =>
      var r := React(p.guest, p.toGuest[0], false);
      p.(guest := r.end, toGuest := p.toGuest[1..], toHost := p.toHost + r.out,
         guestAt := if Open(r.end) then GuestProgress(r.end) else p.guestAt)
    case HostSends(m) => p.(toGuest := p.toGuest + [m])
    case GuestSends(m) => p.(toHost := p.toHost + [m])
    case HostLeaves(code) => p.(host := Shut(p.host), toGuest := p.toGuest + Parting(p.host, code))
    case GuestLeaves(code) => p.(guest := Shut(p.guest), toHost := p.toHost + Parting(p.guest, code))
  }

  // ----- Invariant -----

  ghost predicate UserOnly(q: seq<Message>) {
    forall m :: m in q ==> m.Kind() == UserKind
  }

  /** User messages, and after them at most one error from a peer that left the connected state. */
  ghost predicate Plain(q: seq<Message>, left: bool) {
    UserOnly(q) || (left && |q| > 0 && UserOnly(q[..|q| - 1]) && q[|q| - 1].PeerError?)
  }

  ghost predicate Around(q: seq<Message>, i: nat, m: Message, left: bool) {
    i < |q| && q[i] == m && UserOnly(q[..i]) && Plain(q[i + 1..], left)
  }

  const FINISHED := Connect(None, None, Some(true))
  const PRELOADED := Response(None, None, None, Some(true))

  function Verdict(p: Pair, accepted: bool): Message {
    Response(Some(p.host.peerId), Some(accepted), Some(true), None)
  }

  ghost predicate HostEnd(p: Pair) {
    Open(p.host) ==>
      match p.hostAt
      case 0 => p.host.state == Connecting && p.host.slot == EXPECT_CONNECT && !p.rejected
      case 1 => p.host.state == EarlySubscribe && p.host.slot == EXPECT_CLIENT_FINISHED
      case _ => p.hostAt == 2 && p.host.state == Connected && p.host.slot == EXPECT_ERROR
  }

  ghost predicate GuestEnd(p: Pair) {
    Open(p.guest) ==>
      match p.guestAt
      case 0 => p.guest.state == Connecting && p.guest.slot == EXPECT_HELLO
      case 1 => p.guest.state == Connecting && p.guest.slot == EXPECT_RESPONSE
      case 2 => p.guest.state == EarlySubscribe && p.guest.slot == EXPECT_PRELOAD_FINISHED
      case _ => p.guestAt == 3 && p.guest.state == Connected && p.guest.slot == EXPECT_ERROR
  }

  ghost predicate ToHost(p: Pair) {
    Open(p.host) ==>
      match p.hostAt
      case 0 => if p.guestAt == 0 then p.toHost == []
        else Around(p.toHost, 0, Connect(Some(p.guest.name), Some(true), None), false)
      case 1 => if p.guestAt == 1 then UserOnly(p.toHost) else exists i: nat :: Preloading(p, i)
      case _ => Plain(p.toHost, p.guestAt == 3 && !Open(p.guest))
  }

  ghost predicate Finishing(p: Pair, i: nat) {
    Around(p.toGuest, i, PRELOADED, !Open(p.host))
  }

  ghost predicate ToGuest(p: Pair) {
    Open(p.guest) ==>
      match p.guestAt
      case 0 => |p.toGuest| == 1 && p.toGuest[0].Hello?
      case 1 => if p.rejected then p.toGuest == [Verdict(p, false)]
                else if p.hostAt == 0 then p.toGuest == []
                else Around(p.toGuest, 0, Verdict(p, true), false)
      case 2 => if p.rejected then p.toGuest == []
                else if p.hostAt == 1 then UserOnly(p.toGuest)
                else exists i: nat :: Finishing(p, i)
      case _ => Plain(p.toGuest, !Open(p.host))
  }

  ghost predicate EndsWith(q: seq<Message>, tail: seq<Message>) {
    |tail| <= |q| && q[|q| - |tail|..] == tail
  }

  /** Message `i` under way ends the preloading; right before it the host will have seen all of it. */
  ghost predicate Preloading(p: Pair, i: nat) {
    Around(p.toHost, i, FINISHED, false) && EndsWith(p.seen + p.toHost[..i], PreloadMessages(p.guest))
  }

  ghost predicate Preloaded(p: Pair, n: nat) {
    n < |p.seen| && p.seen[n] == FINISHED && EndsWith(p.seen[..n], PreloadMessages(p.guest))
  }

  ghost predicate Order(p: Pair) {
    && p.hostAt <= 2 && p.guestAt <= 3
    && (if p.rejected then p.hostAt == 0 && !Open(p.host) && 1 <= p.guestAt <= 2
        else if p.hostAt == 0 then p.guestAt <= 1
        else if p.hostAt == 1 then 1 <= p.guestAt <= 2
        else p.guestAt >= 2)
    && (p.guestAt >= 2 ==> p.guest.selfId == p.host.peerId)
    && (p.hostAt == 2 ==> exists n: nat :: Preloaded(p, n))
  }

  ghost predicate Inv(p: Pair) {
    HostEnd(p) && GuestEnd(p) && ToHost(p) && ToGuest(p) && Order(p)
  }

  lemma StartInv(id: nat, authenticationRequired: bool, name: string, secret: bool, publishes: seq<TypeName>,
                 subscribes: seq<TypeName>)
    ensures Inv(Start(id, authenticationRequired, name, secret, publishes, subscribes))
  {
  }

  lemma JoinsUserOnly(types: seq<TypeName>)
    ensures UserOnly(Joins(types))
  {
  }

  lemma PreloadUserOnly(e: End)
    ensures UserOnly(PreloadMessages(e))
  {
    JoinsUserOnly(e.subscribes);
  }

  lemma AroundRest(q: seq<Message>, i: nat, m: Message, left: bool)
    requires Around(q, i, m, left)
    ensures i == 0 ==> q[0] == m && Plain(q[1..], left)
    ensures i > 0 ==> q[0].Kind() == UserKind && Around(q[1..], i - 1, m, left)
  {
    if i > 0 {
      assert q[..i][0] == q[0];
      assert q[1..][..i - 1] == q[..i][1..];
      assert q[1..][i..] == q[i + 1..];
    }
  }

  lemma PlainRest(q: seq<Message>, left: bool)
    requires Plain(q, left) && q != []
    ensures q[0].Kind() == UserKind || (left && q[0].PeerError? && q[1..] == [])
    ensures Plain(q[1..], left)
  {
    if !UserOnly(q) && |q| > 1 {
      assert q[..|q| - 1][0] == q[0];
      assert q[1..][..|q| - 2] == q[..|q| - 1][1..];
    }
  }

  lemma PlainMore(q: seq<Message>, more: seq<Message>, left: bool)
    requires UserOnly(q) && Plain(more, left)
    ensures Plain(q + more, left)
  {
    if !UserOnly(more) {
      assert (q + more)[..|q + more| - 1] == q + more[..|more| - 1];
    }
  }

  lemma AroundMore(q: seq<Message>, i: nat, m: Message, more: seq<Message>, left: bool)
    requires Around(q, i, m, false) && Plain(more, left)
    ensures Around(q + more, i, m, left)
  {
    PlainMore(q[i + 1..], more, left);
    assert (q + more)[..i] == q[..i];
    assert (q + more)[i + 1..] == q[i + 1..] + more;
  }

  lemma PreloadedMore(p: Pair, q: Pair)
    requires p.hostAt == 2 ==> exists n: nat :: Preloaded(p, n)
    requires q.guest.publishes == p.guest.publishes && q.guest.subscribes == p.guest.subscribes && p.seen <= q.seen
    ensures p.hostAt == 2 ==> exists n: nat :: Preloaded(q, n)
  {
    if p.hostAt == 2 {
      var n: nat :| Preloaded(p, n);
      assert q.seen[..n] == p.seen[..n];
      assert Preloaded(q, n);
    }
  }

  lemma HostReceivesKeeps(p: Pair, verified: bool)
    requires Inv(p) && Enabled(p, HostReceives(verified))
    ensures Inv(Next(p, HostReceives(verified)))
  {
    var q := Next(p, HostReceives(verified));
    var m := p.toHost[0];
    assert p.toHost == [m] + p.toHost[1..];
    if !Open(p.host) {
      PreloadedMore(p, q);
      assert q.toGuest == p.toGuest;
      assert forall i: nat :: Finishing(p, i) <==> Finishing(q, i);
    } else if p.hostAt == 0 {
      AroundRest(p.toHost, 0, m, false);
      HostConnects(p, verified);
    } else if p.hostAt == 1 && p.guestAt == 1 {
      assert UserOnly(q.toHost);
    } else if p.hostAt == 1 {
      var i: nat :| Preloading(p, i);
      AroundRest(p.toHost, i, FINISHED, false);
      HostPreloads(p, i, verified);
    } else {
      PlainRest(p.toHost, p.guestAt == 3 && !Open(p.guest));
      PreloadedMore(p, q);
      HostStays(p, verified);
    }
  }

  lemma HostStays(p: Pair, verified: bool)
    requires Inv(p) && Enabled(p, HostReceives(verified)) && Open(p.host) && p.hostAt == 2
    ensures ToGuest(Next(p, HostReceives(verified)))
  {
    var q := Next(p, HostReceives(verified));
    PlainRest(p.toHost, p.guestAt == 3 && !Open(p.guest));
    if Open(p.guest) {
      assert p.toHost[0].Kind() == UserKind;
      assert q.toGuest == p.toGuest && q.host == p.host;
      assert forall i: nat :: Finishing(p, i) <==> Finishing(q, i);
    }
  }

  lemma HostConnects(p: Pair, verified: bool)
    requires Inv(p) && Enabled(p, HostReceives(verified)) && Open(p.host) && p.hostAt == 0
    ensures Inv(Next(p, HostReceives(verified)))
  {
    var q := Next(p, HostReceives(verified));
    AroundRest(p.toHost, 0, p.toHost[0], false);
    assert q.toGuest == p.toGuest + [Verdict(p, verified)];
    if Open(p.guest) {
      assert p.toGuest == [];
      assert q.toGuest == [Verdict(p, verified)];
    }
  }

  lemma HostPreloads(p: Pair, i: nat, verified: bool)
    requires Inv(p) && Enabled(p, HostReceives(verified)) && Open(p.host) && p.hostAt == 1 && p.guestAt == 2
    requires Preloading(p, i)
    ensures Inv(Next(p, HostReceives(verified)))
  {
    var q := Next(p, HostReceives(verified));
    AroundRest(p.toHost, i, FINISHED, false);
    if i == 0 {
      assert p.toHost[..0] == [] && p.seen + [] == p.seen;
      assert q.seen[..|p.seen|] == p.seen;
      assert Preloaded(q, |p.seen|);
      assert Plain(q.toHost, false) && UserOnly(q.toHost);
      if Open(p.guest) {
        assert q.toGuest == p.toGuest + [PRELOADED];
        assert q.toGuest[|p.toGuest| + 1..] == [];
        assert Finishing(q, |p.toGuest|);
      }
    } else {
      assert p.toHost[..i] == [p.toHost[0]] + p.toHost[1..][..i - 1];
      assert q.seen + q.toHost[..i - 1] == p.seen + p.toHost[..i];
      assert Preloading(q, i - 1);
    }
  }

  lemma GuestReceivesKeeps(p: Pair)
    requires Inv(p) && Enabled(p, GuestReceives)
    ensures Inv(Next(p, GuestReceives))
  {
    var q := Next(p, GuestReceives);
    var m := p.toGuest[0];
    if !Open(p.guest) {
      assert q.toHost == p.toHost + [] == p.toHost;
      assert forall i: nat :: Preloading(p, i) <==> Preloading(q, i);
      PreloadedMore(p, q);
    } else if p.guestAt == 0 {
      GuestConnects(p);
    } else if p.guestAt == 1 {
      GuestPreloads(p);
    } else if p.guestAt == 2 && p.hostAt == 1 {
      assert q.toHost == p.toHost;
      assert forall i: nat :: Preloading(p, i) <==> Preloading(q, i);
    } else if p.guestAt == 2 {
      var i: nat :| Finishing(p, i);
      AroundRest(p.toGuest, i, PRELOADED, !Open(p.host));
      assert i > 0 ==> Finishing(q, i - 1);
      assert q.toHost == p.toHost;
      PreloadedMore(p, q);
    } else {
      PlainRest(p.toGuest, !Open(p.host));
      PreloadedMore(p, q);
    }
  }

  lemma GuestConnects(p: Pair)
    requires Inv(p) && Enabled(p, GuestReceives) && Open(p.guest) && p.guestAt == 0
    ensures Inv(Next(p, GuestReceives))
  {
    var q := Next(p, GuestReceives);
    if Open(q.guest) && Open(p.host) {
      assert q.toHost == [Connect(Some(p.guest.name), Some(true), None)];
    }
  }

  lemma GuestPreloads(p: Pair)
    requires Inv(p) && Enabled(p, GuestReceives) && Open(p.guest) && p.guestAt == 1
    ensures Inv(Next(p, GuestReceives))
  {
    var q := Next(p, GuestReceives);
    var all := PreloadMessages(p.guest);
    PreloadUserOnly(p.guest);
    assert p.hostAt <= 1;
    assert q.toHost == p.toHost + (all + [FINISHED]);
    if Open(p.host) && !p.rejected {
      AroundRest(p.toGuest, 0, p.toGuest[0], false);
      var i := |p.toHost| + |all|;
      assert q.toHost[..i] == p.toHost + all;
      assert q.toHost[i + 1..] == [];
      assert q.seen + q.toHost[..i] == (p.seen + p.toHost) + all;
      assert Preloading(q, i);
    }
  }

  lemma HostSendsKeeps(p: Pair, m: Message)
    requires Inv(p) && Enabled(p, HostSends(m))
    ensures Inv(Next(p, HostSends(m)))
  {
    var q := Next(p, HostSends(m));
    PreloadedMore(p, q);
    assert forall i: nat :: Preloading(p, i) <==> Preloading(q, i);
    if Open(p.guest) && p.guestAt == 2 && p.hostAt == 2 {
      var i: nat :| Finishing(p, i);
      AroundMore(p.toGuest, i, PRELOADED, [m], false);
      assert Finishing(q, i);
    } else if Open(p.guest) && p.guestAt == 1 {
      AroundMore(p.toGuest, 0, Verdict(p, true), [m], false);
    }
  }

  lemma GuestSendsKeeps(p: Pair, m: Message)
    requires Inv(p) && Enabled(p, GuestSends(m))
    ensures Inv(Next(p, GuestSends(m)))
  {
    var q := Next(p, GuestSends(m));
    PreloadedMore(p, q);
    assert forall i: nat :: Finishing(p, i) <==> Finishing(q, i);
    if Open(p.host) {
      if p.hostAt == 1 && p.guestAt == 2 {
        var i: nat :| Preloading(p, i);
        AroundMore(p.toHost, i, FINISHED, [m], false);
        assert q.toHost[..i] == p.toHost[..i];
        assert Preloading(q, i);
      } else if p.hostAt == 0 {
        AroundMore(p.toHost, 0, p.toHost[0], [m], false);
      }
    }
  }

  lemma LeavesKeeps(p: Pair, step: Step)
    requires Inv(p) && Enabled(p, step) && (step.HostLeaves? || step.GuestLeaves?)
    ensures Inv(Next(p, step))
  {
    var q := Next(p, step);
    PreloadedMore(p, q);
    if step.HostLeaves? {
      var last := Parting(p.host, step.code);
      assert Plain(last, true) && (p.hostAt < 2 ==> last == []);
      if Open(p.guest) && p.hostAt == 2 && p.guestAt == 2 {
        var i: nat :| Finishing(p, i);
        AroundMore(p.toGuest, i, PRELOADED, last, true);
        assert Finishing(q, i);
      } else if Open(p.guest) && p.guestAt == 3 {
        PlainMore(p.toGuest, last, true);
      }
    } else {
      var last := Parting(p.guest, step.code);
      assert forall i: nat :: Finishing(p, i) <==> Finishing(q, i);
      assert Plain(last, true) && (p.guestAt < 3 ==> last == []);
      if Open(p.host) && p.guestAt == 3 {
        PlainMore(p.toHost, last, true);
      } else {
        assert p.toHost + [] == p.toHost;
        assert p.guestAt < 3 ==> forall i: nat :: Preloading(p, i) <==> Preloading(q, i);
      }
    }
  }

  lemma StepKeeps(p: Pair, step: Step)
    requires Inv(p) && Enabled(p, step)
    ensures Inv(Next(p, step))
  {
    match step
    case HostReceives(verified) => HostReceivesKeeps(p, verified);
    case GuestReceives => GuestReceivesKeeps(p);
    case HostSends(m) => HostSendsKeeps(p, m);
    case GuestSends(m) => GuestSendsKeeps(p, m);
    case HostLeaves(_) => LeavesKeeps(p, step);
    case GuestLeaves(_) => LeavesKeeps(p, step);
  }

  // ----- Whole runs -----

  ghost predicate Runs(p: Pair, steps: seq<Step>)
    decreases |steps|
  {
    steps == [] || (Enabled(p, steps[0]) && Runs(Next(p, steps[0]), steps[1..]))
  }

  ghost function After(p: Pair, steps: seq<Step>): Pair
    requires Runs(p, steps)
    decreases |steps|
  {
    if steps == [] then p else After(Next(p, steps[0]), steps[1..])
  }

  ghost predicate Fresh(p: Pair) {
    exists required ::
      p == Start(p.host.peerId, required, p.guest.name, p.guest.secret, p.guest.publishes, p.guest.subscribes)
  }

  ghost predicate Reachable(p: Pair) {
    exists s, steps :: Fresh(s) && Runs(s, steps) && After(s, steps) == p
  }

  lemma {:induction false} RunKeeps(p: Pair, steps: seq<Step>)
    requires Inv(p) && Runs(p, steps)
    ensures Inv(After(p, steps))
    ensures p.rejected ==> After(p, steps).rejected
    decreases |steps|
  {
    hide Inv, Enabled;
    if steps != [] {
      StepKeeps(p, steps[0]);
      RunKeeps(Next(p, steps[0]), steps[1..]);
    }
  }

  lemma ReachableInv(p: Pair)
    requires Reachable(p)
    ensures Inv(p)
  {
    hide Inv, Runs, After;
    var s, steps :| Fresh(s) && Runs(s, steps) && After(s, steps) == p;
    var required :| s == Start(s.host.peerId, required, s.guest.name, s.guest.secret, s.guest.publishes,
      s.guest.subscribes);
    StartInv(s.host.peerId, required, s.guest.name, s.guest.secret, s.guest.publishes, s.guest.subscribes);
    RunKeeps(s, steps);
  }

  lemma HostNoFault(p: Pair, verified: bool)
    requires Inv(p) && p.toHost != []
    ensures React(p.host, p.toHost[0], verified).fault == if Open(p.host) && p.hostAt == 0 && !verified
        then Some(InvalidAuthorization) else None
  {
    if Open(p.host) {
      if p.hostAt == 1 && p.guestAt != 1 {
        var i: nat :| Preloading(p, i);
        AroundRest(p.toHost, i, FINISHED, false);
      } else if p.hostAt == 2 {
        PlainRest(p.toHost, p.guestAt == 3 && !Open(p.guest));
      }
    }
  }

  lemma GuestNoFault(p: Pair)
    requires Inv(p) && p.toGuest != []
    ensures React(p.guest, p.toGuest[0], false).fault ==
              if Open(p.guest) && p.guestAt == 0 && p.toGuest[0] == Hello(true) && !p.guest.secret
                  then Some(NoSecret) else None
  {
    if Open(p.guest) {
      if p.guestAt == 2 && p.hostAt == 2 {
        var i: nat :| Finishing(p, i);
        AroundRest(p.toGuest, i, PRELOADED, !Open(p.host));
      } else if p.guestAt == 3 {
        PlainRest(p.toGuest, !Open(p.host));
      }
    }
  }

  /** Neither end ever raises a wrong-type, missing-property, not-connected or not-finished error. */
  lemma NoProtocolFault(p: Pair, verified: bool)
    requires Reachable(p)
    ensures p.toHost != [] ==>
              React(p.host, p.toHost[0], verified).fault == if Open(p.host) && p.hostAt == 0 && !verified
                then Some(InvalidAuthorization) else None
    ensures p.toGuest != [] ==>
              React(p.guest, p.toGuest[0], false).fault ==
                if Open(p.guest) && p.guestAt == 0 && p.toGuest[0] == Hello(true) && !p.guest.secret
                    then Some(NoSecret) else None
  {
    hide Inv, React;
    ReachableInv(p);
    if p.toHost != [] {
      HostNoFault(p, verified);
    }
    if p.toGuest != [] {
      GuestNoFault(p);
    }
  }

  /**
   What a host answers to a connect tells the guest its id, the verdict, and whether there is preloading as it
   asked for; unless it was rejected, both ends are then in the same state.
   */
  lemma AnswerAgrees(host: End, guest: End, connect: Message, verified: bool)
    requires host.state == Connecting && host.slot == EXPECT_CONNECT
    requires guest.state == Connecting && guest.slot == EXPECT_RESPONSE
    requires connect.Connect? && connect.clientName.Some? && connect.preloadCache.Some?
    ensures var r := React(host, connect, verified);
            && r.out != [] && r.out[0].Response? && r.out[0].accepted == Some(verified)
            && (r.fault == None <==> verified)
            && var g := React(guest, r.out[0], false);
            && g.fault == None && g.end.selfId == host.peerId
            && (g.end.state == if connect.preloadCache == Some(true) then EarlySubscribe else Connected)
            && (verified ==> r.out == [r.out[0]] && r.end.state == g.end.state)
            && (!verified ==> r.end.state == Closed)
  {
  }

  /** What a message has to carry: without it an open end that expects it fails, with it it does not fail for that. */
  lemma MissingIsFault(e: End, m: Message, verified: bool)
    requires Open(e)
    ensures var missing := React(e, m, verified).fault == Some(MissingProperty);
            && (e.slot == EXPECT_HELLO && m.Hello? ==> !missing)
            && (e.slot == EXPECT_CONNECT && m.Connect? ==>
                  (missing <==> m.clientName.None? || m.preloadCache.None?))
            && (e.slot == EXPECT_RESPONSE && m.Response? ==>
                  (missing <==> m.clientId.None? || m.accepted.None? || m.preload.None?))
            && (e.slot == EXPECT_CLIENT_FINISHED && m.Connect? ==> (missing <==> m.preloadClientFinished.None?))
            && (e.slot == EXPECT_PRELOAD_FINISHED && m.Response? ==> (missing <==> m.preloadFinished.None?))
    ensures !m.PeerError? && m.Kind() != UserKind && m.Kind() != e.slot.kind ==>
              React(e, m, verified).fault == Some(WrongType)
  {
  }

  /** A connected guest was accepted by a host that was connected itself; the ids agree from early subscribe on. */
  lemma ConnectedAgree(p: Pair)
    requires Reachable(p)
    ensures p.guest.state == Connected ==> !p.rejected && p.hostAt == 2
    ensures p.guest.state == Connected || p.guest.state == EarlySubscribe ==> p.guest.selfId == p.host.peerId
    ensures p.host.state == Connected ==> p.guestAt >= 2 && !p.rejected
  {
    ReachableInv(p);
  }

  lemma RejectedNeverConnects(p: Pair, steps: seq<Step>)
    requires Reachable(p) && p.rejected && Runs(p, steps)
    ensures After(p, steps).guest.state != Connected && After(p, steps).host.state != Connected
  {
    ReachableInv(p);
    RunKeeps(p, steps);
  }

  lemma {:induction false} RunsMore(p: Pair, steps: seq<Step>, more: seq<Step>)
    requires Runs(p, steps) && Runs(After(p, steps), more)
    ensures Runs(p, steps + more) && After(p, steps + more) == After(After(p, steps), more)
    decreases |steps|
  {
    hide Enabled, Next;
    if steps == [] {
      assert steps + more == more;
    } else {
      assert (steps + more)[1..] == steps[1..] + more;
      RunsMore(Next(p, steps[0]), steps[1..], more);
    }
  }

  lemma ReachableMore(p: Pair, more: seq<Step>)
    requires Reachable(p) && Runs(p, more)
    ensures Reachable(After(p, more))
  {
    hide Fresh, Runs, After;
    var s, steps :| Fresh(s) && Runs(s, steps) && After(s, steps) == p;
    RunsMore(s, steps, more);
  }

  lemma StartReachable(p: Pair)
    requires Fresh(p)
    ensures Reachable(p)
  {
    hide Fresh;
    assert Runs(p, []) && After(p, []) == p;
  }

  lemma ReachableStep(p: Pair, step: Step)
    requires Reachable(p) && Enabled(p, step)
    ensures Reachable(Next(p, step))
  {
    hide Reachable, Enabled, Next;
    assert [step][1..] == [] && Runs(Next(p, step), []);
    ReachableMore(p, [step]);
  }

  /**
   The guest does not look at `accepted`: an open rejected guest is in early subscribe, or about to
   enter it with the very message that rejects it. By `RejectedNeverConnects` it stays there for ever.
   */
  lemma RejectedPreloads(p: Pair)
    requires Reachable(p) && p.rejected && Open(p.guest)
    ensures p.guest.state == EarlySubscribe <==> p.toGuest == []
    ensures p.toGuest != [] ==>
              var q := Next(p, GuestReceives);
              q.guest.state == EarlySubscribe && q.toHost == p.toHost + PreloadMessages(p.guest) + [FINISHED]
  {
    ReachableInv(p);
  }

  /** There is such a guest. */
  lemma RejectedGuest()
    ensures exists p :: Reachable(p) && p.rejected && p.guest.state == EarlySubscribe && p.toHost != []
  {
    hide Reachable;
    var s0 := Start(2, false, "guest", false, [], []);
    StartReachable(s0);
    var s1 := Next(s0, GuestReceives);
    ReachableStep(s0, GuestReceives);
    assert s1.toHost == [Connect(Some("guest"), Some(true), None)];
    var s2 := Next(s1, HostReceives(false));
    ReachableStep(s1, HostReceives(false));
    assert s2.toGuest == [Verdict(s1, false)];
    ReachableStep(s2, GuestReceives);
    RejectedPreloads(s2);
  }

  // ----- Publishing before the hello arrived -----

  ghost predicate CanFault(p: Pair) {
    exists steps, verified :: Runs(p, steps) && Faults(After(p, steps), verified)
  }

  ghost predicate Faults(p: Pair, verified: bool) {
    Enabled(p, HostReceives(verified)) && React(p.host, p.toHost[0], verified).fault == Some(NotConnected)
  }

  /** A guest's publish can make the host fail exactly if it is sent before the guest got the hello. */
  lemma EarlyPublish(p: Pair, m: Message)
    requires Reachable(p) && Open(p.guest) && m.Kind() == UserKind
    ensures CanFault(p.(toHost := p.toHost + [m])) <==> p.guest.slot == EXPECT_HELLO && Open(p.host)
  {
    var q := p.(toHost := p.toHost + [m]);
    ReachableInv(p);
    if p.guest.slot == EXPECT_HELLO {
      if Open(p.host) {
        assert q.toHost == [m];
        assert Runs(q, []) && After(q, []) == q && Faults(q, true);
      } else if CanFault(q) {
        var steps, verified :| Runs(q, steps) && Faults(After(q, steps), verified);
        HostStaysClosed(q, steps);
      }
    } else if CanFault(q) {
      assert Next(p, GuestSends(m)) == q;
      var steps, verified :| Runs(q, steps) && Faults(After(q, steps), verified);
      assert ([GuestSends(m)] + steps)[1..] == steps;
      assert Runs(p, [GuestSends(m)] + steps);
      ReachableMore(p, [GuestSends(m)] + steps);
      NoProtocolFault(After(q, steps), verified);
    }
  }

  lemma {:induction false} HostStaysClosed(p: Pair, steps: seq<Step>)
    requires Runs(p, steps) && !Open(p.host)
    ensures !Open(After(p, steps).host)
    decreases |steps|
  {
    if steps != [] {
      HostStaysClosed(Next(p, steps[0]), steps[1..]);
    }
  }

  // ----- Order of the preloading -----

  ghost predicate Announced(q: seq<Message>, t: TypeName, i: nat) {
    i + 1 < |q| && q[i] == Descriptor(t) && q[i + 1] == Join(t)
  }

  lemma {:induction false} JoinsAnnounce(types: seq<TypeName>, n: nat)
    requires n < |types|
    ensures Announced(Joins(types), types[n], 2 * n)
  {
    if n > 0 {
      JoinsAnnounce(types[1..], n - 1);
    }
  }

  lemma {:induction false} JoinsPreload(types: seq<TypeName>)
    ensures forall m :: m in Joins(types) ==> m.Descriptor? || m.Join?
  {
    if types != [] {
      JoinsPreload(types[1..]);
    }
  }

  /** Descriptor and join of `t` at `i`, and after them nothing but descriptors and joins. */
  ghost predicate JoinedAt(q: seq<Message>, t: TypeName, i: nat) {
    Announced(q, t, i) && forall j :: i <= j < |q| ==> q[j].Descriptor? || q[j].Join?
  }

  /**
   Once the guest is connected, the host had seen, before the message that ended the preloading, the
   descriptor and then the join of every subscribed type, and the descriptor of every published one.
   Nothing but descriptors and joins came in between.
   */
  lemma PreloadOrder(p: Pair)
    requires Reachable(p) && p.guest.state == Connected
    ensures exists n: nat :: n < |p.seen| && p.seen[n] == FINISHED
              && (forall t :: t in p.guest.subscribes ==> exists i: nat :: JoinedAt(p.seen[..n], t, i))
              && (forall t :: t in p.guest.publishes ==> Descriptor(t) in p.seen[..n])
  {
    ReachableInv(p);
    var n: nat :| Preloaded(p, n);
    var all := PreloadMessages(p.guest);
    var q := p.seen[..n];
    var start: nat := |q| - |all|;
    JoinsPreload(p.guest.subscribes);
    forall t | t in p.guest.subscribes
      ensures exists i: nat :: JoinedAt(q, t, i)
    {
      var k :| 0 <= k < |p.guest.subscribes| && p.guest.subscribes[k] == t;
      JoinsAnnounce(p.guest.subscribes, k);
      var at: nat := |p.guest.publishes| + 2 * k;
      assert all[at] == Joins(p.guest.subscribes)[2 * k] && all[at + 1] == Joins(p.guest.subscribes)[2 * k + 1];
      assert q[start..][at] == q[start + at] && q[start..][at + 1] == q[start + at + 1];
      forall j | start + at <= j < |q|
        ensures q[j].Descriptor? || q[j].Join?
      {
        assert q[j] == q[start..][j - start] == all[j - start];
      }
      assert JoinedAt(q, t, start + at);
    }
    forall t | t in p.guest.publishes
      ensures Descriptor(t) in q
    {
      var k :| 0 <= k < |p.guest.publishes| && p.guest.publishes[k] == t;
      assert all[k] == Descriptor(t) && q[start..][k] == q[start + k];
    }
  }
}
