/**
 The host: it updates its pool, forwards to the members of a group, closes the guests whose
 channel refused, and removes what a closed guest updated last, which may close further guests.
 The order in which a group or a container is visited is left open, as in the hash maps of the code.
 */
module HostTransceivers {
  import opened Wrappers
  import opened Replica
  import opened HostState

  datatype PublishError = SubstructOnly | MissingKeys | UncachedRemoval

  const CLEAR_CACHE: TypeName := "DotsClearCache"

  /** The property set a publish includes: the given one plus the keys, or whatever is valid. */
  function Included(d: StructType, i: Instance, included: Option<set<nat>>): set<nat> {
    match included
    case None => i.Keys
    case Some(tags) => (tags + d.keys) * d.Properties()
  }

  function HostHeader(d: StructType, i: Instance, included: Option<set<nat>>, remove: bool, now: int): Header {
    Header(now, Included(d, i, included), HOST_ID, remove, None)
  }

  /**
   The header of a publish, without saying how it is put together: a tag is among the attributes
   exactly if it is a property that is a key or was asked for; if nothing was asked for, exactly if it is valid.
   */
  ghost predicate Heads(d: StructType, i: Instance, included: Option<set<nat>>, remove: bool, now: int, h: Header) {
    && h.sentTime == now && h.sender == HOST_ID && h.removeObj == remove && h.fromCache == None
    && forall p :: p in h.attributes <==>
         if included.None? then p in i else p in d.Properties() && (p in d.keys || p in included.value)
  }

  lemma HostHeads(d: StructType, i: Instance, included: Option<set<nat>>, remove: bool, now: int)
    ensures Heads(d, i, included, remove, now, HostHeader(d, i, included, remove, now))
  {
  }

  /** The container has taken an instance in: a known one was partly replaced, an unknown one is new. */
  ghost predicate Taken(d: StructType, was: View, now: View, h: Header, i: Instance) {
    var k := KeyOf(d, i);
    && k in now && now[k].lastUpdateFrom == h.sender && now[k].modified == h.sentTime
    && if k in was then PartlyReplaced(d, was[k].instance, now[k].instance, i, h.attributes) else now[k].instance == i
  }

  lemma ApplyTakes(d: StructType, v: View, h: Header, i: Instance)
    requires !h.removeObj
    ensures Taken(d, v, Apply(d, v, h, i), h, i)
  {
    if KeyOf(d, i) in v {
      UpdateReplaces(d, v[KeyOf(d, i)].instance, i, h.attributes);
    }
  }

  /** No cascade takes the entry away again, unless the sender itself was closed. */
  lemma StaysTaken(cfg: Config, s: Host, s': Host, t: TypeName, h: Header, i: Instance)
    requires cfg.Cached(t) && After(cfg, Published(cfg, s, t, h, i), s', {})
    requires h.sender !in s'.ClosedSet() - s.ClosedSet()
    ensures !h.removeObj ==> Taken(cfg.types[t], ContentOf(s.pool, t), ContentOf(s'.pool, t), h, i)
    ensures h.removeObj ==> KeyOf(cfg.types[t], i) !in ContentOf(s'.pool, t)
  {
    var d, k, mid := cfg.types[t], KeyOf(cfg.types[t], i), Published(cfg, s, t, h, i);
    assert mid.ClosedSet() == s.ClosedSet();
    if !h.removeObj {
      ApplyTakes(d, ContentOf(s.pool, t), h, i);
      assert (t, k) !in Owned(cfg, mid.pool, s'.ClosedSet() - mid.ClosedSet());
    }
    hide Apply, PartlyReplaced, KeyOf;
  }

  /** What every member gets of a known instance is enough. */
  lemma KnownIsFaithful(cfg: Config, s: Host, t: TypeName, h: Header, i: Instance)
    requires cfg.Cached(t) && cfg.types[t].keys <= h.attributes
    requires h.removeObj || KeyOf(cfg.types[t], i) in ContentOf(s.pool, t)
    ensures Published(cfg, s, t, h, i).astray == s.astray
  {
  }

  function Wire(t: TypeName, h: Header, i: Instance): Message {
    Data(t, h, Restrict(i, h.attributes))
  }

  function Listed(list: seq<(TypeName, Instance)>): Entries {
    set e | e in list
  }

  function Ids(list: seq<ConnId>): set<ConnId> {
    set c | c in list
  }

  lemma ListedOneMore(list: seq<(TypeName, Instance)>, n: nat)
    requires n < |list|
    ensures Listed(list[..n + 1]) == Listed(list[..n]) + {list[n]}
  {
    assert list[..n + 1] == list[..n] + [list[n]];
  }

  /** Every member whose channel refused its next message ended up closed. */
  ghost predicate Failed(cfg: Config, s: Host, s': Host, t: TypeName) {
    forall c :: c in s.Members(t) && c in s.guests && !Accepts(cfg, c, s.guests[c]) ==> !s'.Open(c)
  }

  /** Every member whose channel takes its next message got `m` as that, and every other one ended up closed. */
  ghost predicate Delivered(cfg: Config, s: Host, s': Host, t: TypeName, m: Message) {
    forall c :: c in s.Members(t) && c in s.guests && c in s'.guests ==>
      if Accepts(cfg, c, s.guests[c]) then s.guests[c].sent + [m] <= s'.guests[c].sent else !s'.guests[c].Open()
  }

  /** A member that still has to get the transmission holds the content from before the update. */
  ghost predicate Pending(cfg: Config, s: Host, dirty: set<ConnId>, t: TypeName, h: Header, i: Instance, was: View,
                          todo: set<ConnId>)
  {
    cfg.Cached(t) ==> forall c :: c in todo && c !in dirty && (c, t) !in s.astray ==>
      && c in s.guests && Fold(cfg.types[t], t, s.guests[c].sent) == was
      && Apply(cfg.types[t], was, h, Restrict(i, h.attributes)) == ContentOf(s.pool, t)
  }

  lemma NothingSkipped(cfg: Config, s: Host, dirty: set<ConnId>, closing: set<ConnId>, u: TypeName)
    ensures InvBut(cfg, s, dirty, closing, u, {}) <==> Inv(cfg, s, dirty, closing)
  {
    assert forall c, t :: Claimed(cfg, s, dirty, u, {}, c, t) <==> Claimed(cfg, s, dirty, "", {}, c, t);
  }

  /** Half way through the sending loop that began in `s0`: `todo` still wait, `failing` refused. */
  ghost predicate Serving(cfg: Config, s0: Host, s: Host, dirty: set<ConnId>, closing: set<ConnId>, t: TypeName,
                          h: Header, i: Instance,
                          was: View, todo: set<ConnId>, failing: seq<ConnId>) {
    && s.(guests := s0.guests) == s0
    && todo <= s.Members(t)
    && InvBut(cfg, s, dirty + Ids(failing), closing, t, todo)
    && Pending(cfg, s, dirty, t, h, i, was, todo)
    && After(cfg, s0, s, {}) && s.ClosedSet() == s0.ClosedSet()
    && Got(cfg, s0, s, s0.Members(t), Wire(t, h, i), todo, failing)
  }

  ghost predicate Got(cfg: Config, s0: Host, s: Host, members: set<ConnId>, m: Message, todo: set<ConnId>,
                      failing: seq<ConnId>)
  {
    && todo <= members
    && (forall c :: c in members ==> c in s.guests && c in s0.guests)
    && (forall c :: c in failing ==> c in members && c !in todo && !Accepts(cfg, c, s0.guests[c]))
    && (forall c :: c in todo ==> s.guests[c] == s0.guests[c])
    && (forall c ::
      c in members && c !in todo && c !in failing
      ==> Accepts(cfg, c, s0.guests[c]) && s0.guests[c].sent + [m] <= s.guests[c].sent)
  }

  lemma NotFailing(cfg: Config, s0: Host, s: Host, members: set<ConnId>, m: Message, todo: set<ConnId>,
                   failing: seq<ConnId>, c: ConnId)
    requires Got(cfg, s0, s, members, m, todo, failing) && c in todo
    ensures c !in failing
  {
  }

  lemma GotOne(cfg: Config, s0: Host, s: Host, members: set<ConnId>, m: Message, todo: set<ConnId>,
               failing: seq<ConnId>, c: ConnId)
    requires Got(cfg, s0, s, members, m, todo, failing) && c in todo && |s.past| > 0
    ensures Got(cfg, s0, SentTo(cfg, s, c, m), members, m, todo - {c}, if Accepts(cfg, c, s.guests[c]) then failing
        else failing + [c])
  {
  }

  lemma ServingStart(cfg: Config, s: Host, dirty: set<ConnId>, closing: set<ConnId>, t: TypeName, h: Header,
                     i: Instance, was: View)
    requires InvBut(cfg, s, dirty, closing, t, s.Members(t))
    requires Pending(cfg, s, dirty, t, h, i, was, s.Members(t))
    ensures Serving(cfg, s, s, dirty, closing, t, h, i, was, s.Members(t), [])
  {
    AfterItself(cfg, s);
    assert forall c :: c in s.Members(t) ==> s.Open(c);
    assert dirty + Ids([]) == dirty;
  }

  lemma ServeKeeps(cfg: Config, s: Host, dirty: set<ConnId>, marked: set<ConnId>, closing: set<ConnId>, t: TypeName,
                   h: Header, i: Instance,
                   was: View, todo: set<ConnId>, c: ConnId)
    requires InvBut(cfg, s, marked, closing, t, todo) && dirty <= marked && c in todo && todo <= s.Members(t)
    requires c in marked ==> h.removeObj
    requires Pending(cfg, s, dirty, t, h, i, was, todo)
    ensures s.Open(c)
    ensures InvBut(cfg, SentTo(cfg, s, c, Wire(t, h, i)), Marked(cfg, s, marked, c), closing, t, todo - {c})
    ensures Pending(cfg, SentTo(cfg, s, c, Wire(t, h, i)), dirty, t, h, i, was, todo - {c})
  {
    assert s.Open(c);
    LandsIf(cfg, s, marked, closing, t, todo, todo - {c}, c, Wire(t, h, i));
    SendKeeps(cfg, s, marked, closing, t, todo, todo - {c}, c, Wire(t, h, i));
  }

  lemma ServeOne(cfg: Config, s0: Host, s: Host, dirty: set<ConnId>, closing: set<ConnId>, t: TypeName, h: Header,
                 i: Instance,
                 was: View, todo: set<ConnId>, failing: seq<ConnId>, c: ConnId)
    requires Serving(cfg, s0, s, dirty, closing, t, h, i, was, todo, failing) && c in todo
    requires h.removeObj || dirty == {}
    ensures s.Open(c)
    ensures Serving(cfg, s0, SentTo(cfg, s, c, Wire(t, h, i)), dirty, closing, t, h, i, was, todo - {c},
                    if Accepts(cfg, c, s.guests[c]) then failing else failing + [c])
  {
    hide Shape, Mirrors, Clean, PastSeen, Ends, After, Pending, Got;
    InvFacts(cfg, s, dirty + Ids(failing), closing, t, todo);
    assert c in s.Members(t) && s.Open(c);
    var marked, s', failing' := dirty + Ids(failing), SentTo(cfg, s, c, Wire(t, h, i)),
      if Accepts(cfg, c, s.guests[c]) then failing else failing + [c];
    assert c in marked ==> h.removeObj by {
      assert c !in failing by { NotFailing(cfg, s0, s, s0.Members(t), Wire(t, h, i), todo, failing, c); }
    }
    ServeKeeps(cfg, s, dirty, marked, closing, t, h, i, was, todo, c);
    GotOne(cfg, s0, s, s0.Members(t), Wire(t, h, i), todo, failing, c);
    assert Ids(failing + [c]) == Ids(failing) + {c};
    assert Marked(cfg, s, marked, c) == dirty + Ids(failing');
    SendAfter(cfg, s, c, Wire(t, h, i));
    AfterTrans(cfg, s0, s, s', {}, {});
    var none: Entries := {};
    assert none + none == none;
    assert s'.ClosedSet() == s.ClosedSet();
  }

  function Pairs(members: set<ConnId>, t: TypeName): set<(ConnId, TypeName)> {
    set c | c in members :: (c, t)
  }

  /** Applying what is transmitted does to a member what applying the whole instance did to the host. */
  ghost predicate Faithful(cfg: Config, s: Host, t: TypeName, h: Header, i: Instance)
    requires t in cfg.types
  {
    cfg.types[t].keys <= h.attributes && CarriesEnough(cfg.types[t], ContentOf(s.pool, t), h, i)
  }

  /** The state between dispatching and transmitting; members go astray when too little is transmitted. */
  ghost function Published(cfg: Config, s: Host, t: TypeName, h: Header, i: Instance): Host
    requires t in cfg.types
  {
    if !cfg.Cached(t) then s
    else
      var strays := if Faithful(cfg, s, t, h, i) then {} else Pairs(s.Members(t), t);
      Dispatched(cfg, s, t, h, i).(astray := s.astray + strays)
  }

  lemma PublishPending(cfg: Config, s: Host, dirty: set<ConnId>, closing: set<ConnId>, t: TypeName, h: Header,
                       i: Instance)
    requires Inv(cfg, s, dirty, closing) && Fits(cfg, t, i)
    requires h.removeObj || h.sender !in s.ClosedSet()
    ensures InvBut(cfg, Published(cfg, s, t, h, i), dirty, closing, t, s.Members(t))
    ensures Pending(cfg, Published(cfg, s, t, h, i), dirty, t, h, i, ContentOf(s.pool, t), s.Members(t))
  {
    if cfg.Cached(t) {
      DispatchKeeps(cfg, s, dirty, closing, t, h, i);
      if cfg.types[t].keys <= h.attributes {
        WireFaithful(cfg.types[t], ContentOf(s.pool, t), h, i);
      }
      AstrayKeeps(cfg, Dispatched(cfg, s, t, h, i), dirty, closing, t, s.Members(t), Published(cfg, s, t, h, i).astray);
      assert s.astray + Published(cfg, s, t, h, i).astray == Published(cfg, s, t, h, i).astray;
    } else {
      forall c, u | Claimed(cfg, s, dirty, t, s.Members(t), c, u)
        ensures Mirrored(cfg, s, c, u)
      {
        assert Claimed(cfg, s, dirty, "", {}, c, u);
      }
    }
  }

  lemma RemovalPool(cfg: Config, s: Host, t: TypeName, h: Header, i: Instance, k: Instance)
    requires cfg.Cached(t) && t in s.pool && KeyOf(cfg.types[t], i) == k && h.removeObj
        && cfg.types[t].keys <= h.attributes
    ensures var s' := Dispatched(cfg, s, t, h, i);
            s'.pool == Minus(s.pool, {(t, k)}) && s'.groups == s.groups && s'.guests == s.guests && s.past <= s'.past
              && s'.astray == s.astray
    ensures Published(cfg, s, t, h, i) == Dispatched(cfg, s, t, h, i)
  {
    var less := Minus(s.pool, {(t, k)});
    assert less[t] == s.pool[t] - {k};
    forall u | u in s.pool && u != t
      ensures less[u] == s.pool[u]
    {
    }
    assert s.astray + {} == s.astray;
  }

  lemma RemovalAfter(cfg: Config, s: Host, t: TypeName, h: Header, i: Instance, k: Instance)
    requires cfg.Cached(t) && t in s.pool && KeyOf(cfg.types[t], i) == k && h.removeObj
        && cfg.types[t].keys <= h.attributes
    ensures After(cfg, s, Published(cfg, s, t, h, i), {(t, k)})
  {
    var s' := Published(cfg, s, t, h, i);
    RemovalPool(cfg, s, t, h, i, k);
    hide Apply, Minus, Dispatched;
    assert s'.astray == s.astray;
    AfterItself(cfg, s);
    var shut := s'.ClosedSet() - s.ClosedSet();
    assert shut == {} && Owned(cfg, s.pool, shut) == {};
    assert {(t, k)} + Owned(cfg, s.pool, shut) == {(t, k)};
    forall u
      ensures s'.Members(u) == s.Members(u) - shut
    {
    }
  }

  lemma NeutralSend(cfg: Config, s: Host, dirty: set<ConnId>, closing: set<ConnId>, c: ConnId, m: Message)
    requires Inv(cfg, s, dirty, closing) && s.Open(c)
    requires m.PeerError? || (m.PreloadFinished? && dirty == {})
    ensures Inv(cfg, SentTo(cfg, s, c, m), Marked(cfg, s, dirty, c), closing)
    ensures After(cfg, s, SentTo(cfg, s, c, m), {})
  {
    LandsIf(cfg, s, dirty, closing, "", {}, {}, c, m);
    SendKeeps(cfg, s, dirty, closing, "", {}, {}, c, m);
    SendAfter(cfg, s, c, m);
  }

  lemma NoneLeftIfClosed(cfg: Config, s: Host, c: ConnId, closing: set<ConnId>)
    requires Shape(cfg, s) && Clean(cfg, s, closing) && c in s.guests && c !in closing
    ensures s.Open(c) || Owned(cfg, s.pool, {c}) == {}
  {
    if !s.Open(c) && Owned(cfg, s.pool, {c}) != {} {
      var e :| e in Owned(cfg, s.pool, {c});
      assert CleanupEntry(cfg, s.pool, e.0, e.1, s.ClosedSet() - closing);
    }
  }

  lemma AppendDistinct<T>(list: seq<T>, x: T)
    requires Distinct(list) && x !in list
    ensures Distinct(list + [x])
  {
  }

  /** A collected instance stays in place until its turn: no other guest updated it last. */
  lemma StillThere(cfg: Config, s0: Host, s: Host, list: seq<(TypeName, Instance)>, n: nat, c: ConnId)
    requires c in s0.guests && !s0.Open(c)
    requires Listed(list) == Owned(cfg, s0.pool, {c}) && Distinct(list) && n < |list|
    requires After(cfg, s0, s, Listed(list[..n]))
    ensures var (t, k) := list[n]; t in s.pool && k in s.pool[t] && s.pool[t][k] == s0.pool[t][k]
  {
    var (t, k) := list[n];
    assert list[n] in Listed(list);
    assert list[n] !in Listed(list[..n]);
    assert list[n] !in Owned(cfg, s0.pool, s.ClosedSet() - s0.ClosedSet());
  }

  lemma ForwardEnd(cfg: Config, s0: Host, s: Host, dirty: set<ConnId>, closing: set<ConnId>, t: TypeName, h: Header,
                   i: Instance,
                   was: View, failing: seq<ConnId>)
    requires Serving(cfg, s0, s, dirty, closing, t, h, i, was, {}, failing)
    ensures Inv(cfg, s, dirty + Ids(failing), closing)
    ensures After(cfg, s0, s, {}) && s.OpenSet() == s0.OpenSet()
    ensures forall c :: c in failing ==> c in s.guests && c !in closing
  {
    NothingSkipped(cfg, s, dirty + Ids(failing), closing, t);
    InvFacts(cfg, s, dirty + Ids(failing), closing, t, {});
    assert s.OpenSet() == s.guests.Keys - s.ClosedSet();
    assert s0.OpenSet() == s0.guests.Keys - s0.ClosedSet();
    forall c | c in failing
      ensures c in s.guests && c !in closing
    {
      assert c in s.Members(t);
      assert s.Open(c);
    }
  }

  lemma DeliveredEnd(cfg: Config, s0: Host, s1: Host, s2: Host, dirty: set<ConnId>, closing: set<ConnId>,
                     t: TypeName, h: Header, i: Instance,
                     was: View, failing: seq<ConnId>)
    requires Serving(cfg, s0, s1, dirty, closing, t, h, i, was, {}, failing)
    requires After(cfg, s1, s2, {}) && forall j :: 0 <= j < |failing| ==> failing[j] !in s2.OpenSet()
    ensures Delivered(cfg, s0, s2, t, Wire(t, h, i))
  {
    hide Inv, InvBut, Pending;
    assert Got(cfg, s0, s1, s0.Members(t), Wire(t, h, i), {}, failing);
    forall c | c in s0.Members(t) && c in s0.guests && c in s2.guests
      ensures if Accepts(cfg, c, s0.guests[c]) then s0.guests[c].sent + [Wire(t, h, i)] <= s2.guests[c].sent
          else !s2.guests[c].Open()
    {
      if c in failing {
        assert c !in s2.OpenSet();
      } else {
        assert LaterGuest(s1.guests[c], s2.guests[c]);
      }
    }
  }

  lemma DeliveredSame(cfg: Config, s: Host, s1: Host, s': Host, t: TypeName, m: Message)
    requires Delivered(cfg, s1, s', t, m) && s1.guests == s.guests && s1.groups == s.groups
    ensures Delivered(cfg, s, s', t, m)
  {
  }

  lemma PublishedTaken(cfg: Config, s: Host, s1: Host, s': Host, t: TypeName, i: Instance, included: Option<set<nat>>,
                       remove: bool, now: int, h: Header)
    requires t in cfg.types && HOST_ID !in s.guests && cfg.types[t].keys <= i.Keys
    requires s1 == Published(cfg, s, t, h, i) && After(cfg, s1, s', {})
    requires Heads(cfg.types[t], i, included, remove, now, h)
    ensures cfg.Cached(t) && !remove ==> Taken(cfg.types[t], ContentOf(s.pool, t), ContentOf(s'.pool, t), h, i)
    ensures cfg.Cached(t) && remove ==> KeyOf(cfg.types[t], i) !in ContentOf(s'.pool, t)
    ensures cfg.Cached(t) && (remove || KeyOf(cfg.types[t], i) in ContentOf(s.pool, t)) ==> s'.astray == s.astray
  {
    hide Taken, KeyOf, ContentOf, LaterGuest, Minus, Owned, CarriesEnough;
    assert s'.guests.Keys == s.guests.Keys && HOST_ID !in s'.ClosedSet();
    if cfg.Cached(t) {
      StaysTaken(cfg, s, s', t, h, i);
      if remove || KeyOf(cfg.types[t], i) in ContentOf(s.pool, t) {
        KnownIsFaithful(cfg, s, t, h, i);
      }
    }
  }

  lemma ClosedSent(cfg: Config, s: Host, c: ConnId, s': Host)
    requires c in s.guests && After(cfg, Shut(s, c), s', Owned(cfg, s.pool, {c}))
    ensures c in s'.guests && s'.guests[c].sent == s.guests[c].sent
  {
    hide Owned, Minus;
    assert LaterGuest(Shut(s, c).guests[c], s'.guests[c]);
  }

  lemma DeliveredFails(cfg: Config, s: Host, s': Host, t: TypeName, m: Message)
    requires Delivered(cfg, s, s', t, m)
    ensures Failed(cfg, s, s', t)
  {
  }

  lemma TransitionDone(cfg: Config, s0: Host, c: ConnId, s: Host, dirty: set<ConnId>, closing: set<ConnId>)
    requires Inv(cfg, s, dirty, closing + {c}) && c !in closing
    requires After(cfg, s0, s, Owned(cfg, s0.pool, {c}))
    ensures Inv(cfg, s, dirty, closing)
  {
    CleanupDone(cfg, s0, c, s, closing);
  }

  // ----- Serving a join -----

  /** What a guest holds of `t` right after it was put into the group, `skip` telling a first join. */
  ghost predicate JoinCase(cfg: Config, s: Host, c: ConnId, t: TypeName, skip: set<ConnId>) {
    && c in s.guests && c in s.Members(t) && (skip == {} || skip == {c})
    && (cfg.Cached(t) && (c, t) !in s.astray ==>
          if skip == {} then Fold(cfg.types[t], t, s.guests[c].sent) == ContentOf(s.pool, t)
          else Fold(cfg.types[t], t, s.guests[c].sent) == map[] && !Ended(s.guests[c].sent, t))
  }

  function Counted(t: TypeName, v: View, order: seq<Instance>): seq<Message>
    requires forall k :: k in order ==> k in v
  {
    seq(|order|, n requires 0 <= n < |order| => SnapshotMessage(t, v[order[n]], if n < |v| then |v| - 1 - n else 0))
  }

  /** Part of a snapshot has been sent: the entries in `order`, each with the number still to come. */
  ghost predicate Snapshotting(cfg: Config, s0: Host, s: Host, c: ConnId, t: TypeName, skip: set<ConnId>,
                               order: seq<Instance>)
  {
    && cfg.Cached(t) && c in s0.guests && c in s.guests && s0.Open(c)
    && JoinCase(cfg, s0, c, t, skip)
    && s == s0.(guests := s0.guests[c := s.guests[c]]) && s.guests[c].state == s0.guests[c].state
    && InvBut(cfg, s, {}, {}, t, skip)
    && Distinct(order) && (forall k :: k in order ==> k in ContentOf(s.pool, t))
    && s.guests[c].sent == s0.guests[c].sent + Counted(t, ContentOf(s.pool, t), order)
    && Elements(order) <= ContentOf(s.pool, t).Keys
    && Fold(cfg.types[t], t, s.guests[c].sent)
      == Overlay(cfg.types[t], ContentOf(s.pool, t), Fold(cfg.types[t], t, s0.guests[c].sent), Elements(order))
  }

  lemma SnapshotStart(cfg: Config, s: Host, c: ConnId, t: TypeName, skip: set<ConnId>)
    requires cfg.Cached(t) && s.Open(c) && JoinCase(cfg, s, c, t, skip) && InvBut(cfg, s, {}, {}, t, skip)
    ensures Snapshotting(cfg, s, s, c, t, skip, [])
  {
    hide InvBut, JoinCase, Fold;
    var v, stale := ContentOf(s.pool, t), Fold(cfg.types[t], t, s.guests[c].sent);
    assert Counted(t, v, []) == [];
    assert Elements<Instance>([]) == {};
    assert Overlay(cfg.types[t], v, stale, {}) == stale;
  }

  lemma NoEndInSnapshot(t: TypeName, v: View, order: seq<Instance>, msgs: seq<Message>)
    requires (forall k :: k in order ==> k in v) && !Ended(msgs, t)
    ensures !Ended(msgs + Counted(t, v, order), t)
  {
  }

  lemma SnapshotFold(cfg: Config, s0: Host, s: Host, c: ConnId, t: TypeName, skip: set<ConnId>, order: seq<Instance>,
                     k: Instance, left: nat)
    requires Snapshotting(cfg, s0, s, c, t, skip, order) && k in ContentOf(s.pool, t) && k !in order
    ensures Elements(order + [k]) == Elements(order) + {k}
    ensures Consume(cfg.types[t], t, Fold(cfg.types[t], t, s.guests[c].sent),
        SnapshotMessage(t, ContentOf(s.pool, t)[k], left))
            == Overlay(cfg.types[t], ContentOf(s.pool, t), Fold(cfg.types[t], t, s0.guests[c].sent),
              Elements(order + [k]))
  {
    hide InvBut, JoinCase;
    OverlayOneMore(cfg.types[t], t, ContentOf(s.pool, t), Fold(cfg.types[t], t, s0.guests[c].sent), Elements(order),
      k, left) by {
      InvFacts(cfg, s, {}, {}, t, skip);
    }
  }

  lemma SnapshotLands(cfg: Config, s0: Host, s: Host, c: ConnId, t: TypeName, skip: set<ConnId>,
                      order: seq<Instance>, k: Instance, left: nat)
    requires Snapshotting(cfg, s0, s, c, t, skip, order) && k in ContentOf(s.pool, t) && k !in order
    ensures s.Open(c) && Lands(cfg, s, {}, t, skip, c, SnapshotMessage(t, ContentOf(s.pool, t)[k], left))
  {
    hide InvBut, Lands, Fold, Consume;
    var m, v := SnapshotMessage(t, ContentOf(s.pool, t)[k], left), ContentOf(s.pool, t);
    SnapshotFold(cfg, s0, s, c, t, skip, order, k, left);
    if (c, t) !in s.astray {
      if skip == {} {
        OverlaySelf(cfg.types[t], v, Elements(order + [k])) by {
          InvFacts(cfg, s, {}, {}, t, skip);
        }
      } else {
        NoEndInSnapshot(t, v, order, s0.guests[c].sent);
      }
    }
    LandsIf(cfg, s, {}, {}, t, skip, skip, c, m);
  }

  lemma SnapshotOneMore(cfg: Config, s0: Host, s: Host, c: ConnId, t: TypeName, skip: set<ConnId>,
                        order: seq<Instance>, k: Instance)
    requires Snapshotting(cfg, s0, s, c, t, skip, order) && k in ContentOf(s.pool, t) && k !in order
    requires |order| < |ContentOf(s.pool, t)| && |s.past| > 0
    ensures s.Open(c)
    ensures var m := SnapshotMessage(t, ContentOf(s.pool, t)[k], |ContentOf(s.pool, t)| - 1 - |order|);
            if Accepts(cfg, c, s.guests[c]) then Snapshotting(cfg, s0, SentTo(cfg, s, c, m), c, t, skip, order + [k])
            else Inv(cfg, SentTo(cfg, s, c, m), {c}, {})
  {
    hide InvBut, Inv, JoinCase, Fold, Consume, Overlay;
    var v := ContentOf(s.pool, t);
    var left := |v| - 1 - |order|;
    var m := SnapshotMessage(t, v[k], left);
    SnapshotLands(cfg, s0, s, c, t, skip, order, k, left);
    SendKeeps(cfg, s, {}, {}, t, skip, skip, c, m);
    var s' := SentTo(cfg, s, c, m);
    if Accepts(cfg, c, s.guests[c]) {
      SnapshotFold(cfg, s0, s, c, t, skip, order, k, left);
      FoldAppend(cfg.types[t], t, s.guests[c].sent, m);
      assert Counted(t, v, order + [k]) == Counted(t, v, order) + [m];
      assert s'.guests[c].sent == s0.guests[c].sent + Counted(t, v, order + [k]);
    } else {
      assert {} + {c} == {c};
      AllMarked(cfg, s', {c}, {}, t, skip) by {
        assert skip == {} || skip == {c} by { SkipIs(cfg, s0, c, t, skip); }
      }
    }
  }

  lemma SkipIs(cfg: Config, s: Host, c: ConnId, t: TypeName, skip: set<ConnId>)
    requires JoinCase(cfg, s, c, t, skip)
    ensures c in s.Members(t) && (skip == {} || skip == {c})
  {
  }

  lemma AllMarked(cfg: Config, s: Host, dirty: set<ConnId>, closing: set<ConnId>, t: TypeName, skip: set<ConnId>)
    requires InvBut(cfg, s, dirty, closing, t, skip) && skip <= dirty
    ensures Inv(cfg, s, dirty, closing)
  {
    forall c, u | Claimed(cfg, s, dirty, "", {}, c, u)
      ensures Mirrored(cfg, s, c, u)
    {
      assert Claimed(cfg, s, dirty, t, skip, c, u);
    }
  }

  lemma CountedAll(t: TypeName, v: View, order: seq<Instance>)
    requires Enumerates(order, v) && |order| == |v|
    ensures Counted(t, v, order) == Snapshot(t, v, order) && Elements(order) == v.Keys
  {
  }

  // What the guest of a join had before is covered by the snapshot.
  lemma JoinCovers(cfg: Config, s0: Host, s: Host, c: ConnId, t: TypeName, skip: set<ConnId>, order: seq<Instance>)
    requires Snapshotting(cfg, s0, s, c, t, skip, order) && (c, t) !in s.astray
    ensures Covers(ContentOf(s.pool, t), Fold(cfg.types[t], t, s0.guests[c].sent))
  {
    hide InvBut, Fold, Overlay, Counted;
  }

  /** After the last entry the guest holds the host's content, and the end marker may follow. */
  lemma SnapshotEnd(cfg: Config, s0: Host, s: Host, c: ConnId, t: TypeName, skip: set<ConnId>, order: seq<Instance>)
    requires Snapshotting(cfg, s0, s, c, t, skip, order)
    requires Enumerates(order, ContentOf(s.pool, t)) && |order| == |ContentOf(s.pool, t)|
    ensures Counted(t, ContentOf(s.pool, t), order) == Snapshot(t, ContentOf(s.pool, t), order)
    ensures Lands(cfg, s, {}, t, {}, c, CacheEnd(t))
  {
    hide InvBut, Lands, Fold, Consume, Overlay, Covers, Counted, Snapshot, Elements, Enumerates, Described, Distinct,
      JoinCase;
    var d, v, stale := cfg.types[t], ContentOf(s.pool, t), Fold(cfg.types[t], t, s0.guests[c].sent);
    CountedAll(t, v, order);
    SkipIs(cfg, s0, c, t, skip);
    InvFacts(cfg, s, {}, {}, t, skip);
    if (c, t) !in s.astray {
      JoinCovers(cfg, s0, s, c, t, skip, order);
      StaleDescribed(cfg, s, s0, c, t, skip);
      OverlayAllExact(d, v, stale);
    }
    EndIsNeutral(d, t, Fold(d, t, s.guests[c].sent));
    LandsIf(cfg, s, {}, {}, t, skip, {}, c, CacheEnd(t));
  }

  lemma StaleDescribed(cfg: Config, s: Host, s0: Host, c: ConnId, t: TypeName, skip: set<ConnId>)
    requires JoinCase(cfg, s0, c, t, skip) && cfg.Cached(t) && (c, t) !in s0.astray && s.pool == s0.pool
    requires t in s.pool ==> Described(cfg.types[t], s.pool[t])
    ensures Described(cfg.types[t], ContentOf(s.pool, t))
        && Described(cfg.types[t], Fold(cfg.types[t], t, s0.guests[c].sent))
  {
    hide Fold;
  }

  lemma JoinEnd(cfg: Config, s0: Host, s: Host, c: ConnId, t: TypeName, skip: set<ConnId>, order: seq<Instance>)
    requires Snapshotting(cfg, s0, s, c, t, skip, order) && |s.past| > 0
    requires Lands(cfg, s, {}, t, {}, c, CacheEnd(t))
    ensures s.Open(c) && c in s0.guests && s == s0.(guests := s0.guests[c := s.guests[c]])
        && s.guests[c].state == s0.guests[c].state
    ensures forall k :: k in order ==> k in ContentOf(s.pool, t)
    ensures s.guests[c].sent == s0.guests[c].sent + Counted(t, ContentOf(s.pool, t), order)
    ensures Inv(cfg, SentTo(cfg, s, c, CacheEnd(t)), if Accepts(cfg, c, s.guests[c]) then {} else {c}, {})
  {
    hide InvBut, Inv, Lands, Fold;
    SkipIs(cfg, s0, c, t, skip);
    SendKeeps(cfg, s, {}, {}, t, skip, {}, c, CacheEnd(t));
    assert {} + {c} == {c};
    NothingSkipped(cfg, SentTo(cfg, s, c, CacheEnd(t)), if Accepts(cfg, c, s.guests[c]) then {} else {c}, {}, t);
  }

  lemma NotCached(cfg: Config, s: Host, t: TypeName, skip: set<ConnId>)
    requires InvBut(cfg, s, {}, {}, t, skip) && !cfg.Cached(t)
    ensures Inv(cfg, s, {}, {})
  {
    forall c, u | Claimed(cfg, s, {}, "", {}, c, u)
      ensures Mirrored(cfg, s, c, u)
    {
      assert Claimed(cfg, s, {}, t, skip, c, u);
    }
  }

  lemma Joined(cfg: Config, s: Host, c: ConnId, t: TypeName)
    requires Inv(cfg, s, {}, {}) && s.Open(c)
    ensures JoinCase(cfg, Regrouped(s, t, s.Members(t) + {c}), c, t, if c in s.Members(t) then {} else {c})
  {
    JoinKeeps(cfg, s, c, t);
  }

  lemma SnapshotFacts(cfg: Config, s0: Host, s: Host, c: ConnId, t: TypeName, skip: set<ConnId>, order: seq<Instance>)
    requires Snapshotting(cfg, s0, s, c, t, skip, order)
    ensures |s.past| > 0 && c in s.guests && s.pool == s0.pool && s.groups == s0.groups && s.past == s0.past
        && s.astray == s0.astray
    ensures Distinct(order) && forall k :: k in order ==> k in ContentOf(s.pool, t)
  {
    InvFacts(cfg, s, {}, {}, t, skip);
  }

  lemma AfterFacts(cfg: Config, s: Host, s': Host, removed: Entries)
    requires After(cfg, s, s', removed)
    ensures s'.astray == s.astray && s'.guests.Keys == s.guests.Keys
  {
  }

  // ----- Clearing containers -----

  function Everything(pool: Pool, names: set<TypeName>): Entries {
    set t, k | t in pool && t in names && k in pool[t] :: (t, k)
  }

  /**
   From `s0` to `s` the entries `done` have been dealt with: those removed in turn, and those that
   went with a guest closed on the way. An entry is missing in its turn (`gone`) only if such a guest owned it.
   */
  ghost predicate Clearing(cfg: Config, s0: Host, s: Host, names: set<TypeName>, done: Entries, gone: bool) {
    var shut := s.ClosedSet() - s0.ClosedSet();
    exists removed: Entries ::
      && After(cfg, s0, s, removed) && removed <= Everything(s0.pool, names)
      && done <= removed + Owned(cfg, s0.pool, shut) && removed <= done
      && (gone ==> Everything(s0.pool, names) * Owned(cfg, s0.pool, shut) != {})
  }

  lemma ClearingStart(cfg: Config, s: Host, names: set<TypeName>)
    ensures Clearing(cfg, s, s, names, {}, false)
  {
    AfterItself(cfg, s);
  }

  lemma ClearingPlace(cfg: Config, s0: Host, s: Host, names: set<TypeName>, done: Entries, gone: bool, t: TypeName,
                      k: Instance)
    requires Clearing(cfg, s0, s, names, done, gone) && (t, k) in Everything(s0.pool, names) && (t, k) !in done
    ensures t in s.pool
    ensures k !in s.pool[t] ==> Clearing(cfg, s0, s, names, done + {(t, k)}, true)
    ensures k in s.pool[t] ==> forall c :: c in s.ClosedSet() - s0.ClosedSet() ==> (t, k) !in Owned(cfg, s0.pool, {c})
  {
    var shut := s.ClosedSet() - s0.ClosedSet();
    var removed: Entries :| After(cfg, s0, s, removed) && removed <= Everything(s0.pool, names)
      && done <= removed + Owned(cfg, s0.pool, shut) && removed <= done
      && (gone ==> Everything(s0.pool, names) * Owned(cfg, s0.pool, shut) != {});
    if k !in s.pool[t] {
      assert (t, k) in Owned(cfg, s0.pool, shut);
      assert (t, k) in Everything(s0.pool, names) * Owned(cfg, s0.pool, shut);
    } else {
      assert (t, k) !in Owned(cfg, s0.pool, shut);
    }
  }

  lemma ClearingOne(cfg: Config, s0: Host, s: Host, s': Host, names: set<TypeName>, done: Entries, gone: bool,
                    t: TypeName, k: Instance)
    requires Clearing(cfg, s0, s, names, done, gone) && (t, k) in Everything(s0.pool, names)
    requires After(cfg, s, s', {(t, k)})
    ensures Clearing(cfg, s0, s', names, done + {(t, k)}, gone)
  {
    hide After;
    var shut, shut' := s.ClosedSet() - s0.ClosedSet(), s'.ClosedSet() - s0.ClosedSet();
    var removed: Entries :| After(cfg, s0, s, removed) && removed <= Everything(s0.pool, names)
      && done <= removed + Owned(cfg, s0.pool, shut) && removed <= done
      && (gone ==> Everything(s0.pool, names) * Owned(cfg, s0.pool, shut) != {});
    AfterTrans(cfg, s0, s, s', removed, {(t, k)});
    OpenShrinks(cfg, s, s', {(t, k)});
    assert shut <= shut';
    assert Owned(cfg, s0.pool, shut) <= Owned(cfg, s0.pool, shut');
    assert removed + {(t, k)} <= done + {(t, k)};
    if gone {
      var e :| e in Everything(s0.pool, names) * Owned(cfg, s0.pool, shut);
      assert e in Everything(s0.pool, names) * Owned(cfg, s0.pool, shut');
    }
  }

  lemma ClearingEnd(cfg: Config, s0: Host, s: Host, names: set<TypeName>, gone: bool)
    requires Clearing(cfg, s0, s, names, Everything(s0.pool, names), gone)
    ensures After(cfg, s0, s, Everything(s0.pool, names))
    ensures gone ==> Everything(s0.pool, names) * Owned(cfg, s0.pool, s0.OpenSet()) != {}
  {
    var shut := s.ClosedSet() - s0.ClosedSet();
    var removed: Entries :| After(cfg, s0, s, removed) && removed <= Everything(s0.pool, names)
      && Everything(s0.pool, names) <= removed + Owned(cfg, s0.pool, shut)
      && (gone ==> Everything(s0.pool, names) * Owned(cfg, s0.pool, shut) != {});
    assert removed + Owned(cfg, s0.pool, shut) == Everything(s0.pool, names) + Owned(cfg, s0.pool, shut);
    assert shut <= s0.OpenSet();
    if gone {
      var e :| e in Everything(s0.pool, names) * Owned(cfg, s0.pool, shut);
      assert e in Everything(s0.pool, names) * Owned(cfg, s0.pool, s0.OpenSet());
    }
  }

  /** A channel that has broken down. */
  ghost predicate Broken(cfg: Config, s: Host, c: ConnId) {
    s.Open(c) && forall n :: n >= s.guests[c].attempts ==> cfg.refuses(c, n)
  }

  /**
   Of the entries in the order they were collected, one is removed before another of the same type,
   and a guest with a broken channel is to be told and updated the later one last.
   */
  ghost predicate Orphaned(cfg: Config, s: Host, order: seq<(TypeName, Instance)>) {
    exists c, i, j :: 0 <= i < j < |order| && Orphan(cfg, s, order[i], order[j], c)
  }

  ghost predicate Orphan(cfg: Config, s: Host, first: (TypeName, Instance), later: (TypeName, Instance), c: ConnId) {
    first.0 == later.0 && c in s.Members(first.0) && Broken(cfg, s, c) && later in Owned(cfg, s.pool, {c})
  }

  /** Within type `t`, of which something was removed since, no guest with a broken channel is open any more. */
  ghost predicate Told(cfg: Config, s0: Host, s: Host, t: TypeName) {
    forall c :: c in s0.Members(t) && Broken(cfg, s0, c) ==> c in s.ClosedSet() - s0.ClosedSet()
  }

  lemma ToldAfter(cfg: Config, s0: Host, s: Host, s': Host, names: set<TypeName>, done: Entries, gone: bool,
                  t: TypeName, k: Instance)
    requires Clearing(cfg, s0, s, names, done, gone) && After(cfg, s, s', {(t, k)}) && Failed(cfg, s, s', t)
    ensures Told(cfg, s0, s', t)
  {
    hide Owned, Minus, Everything;
    var removed: Entries :| After(cfg, s0, s, removed);
    forall c | c in s0.Members(t) && Broken(cfg, s0, c)
      ensures c in s'.ClosedSet() - s0.ClosedSet()
    {
      assert LaterGuest(s0.guests[c], s.guests[c]) && LaterGuest(s.guests[c], s'.guests[c]);
      assert s.Members(t) == s0.Members(t) - (s.ClosedSet() - s0.ClosedSet());
      assert !Accepts(cfg, c, s.guests[c]);
    }
  }

  lemma NotOrphaned(cfg: Config, s0: Host, s: Host, t: TypeName, k: Instance, order: seq<(TypeName, Instance)>)
    requires !Orphaned(cfg, s0, order)
    requires Touches(order, t) ==> Told(cfg, s0, s, t)
    requires forall c :: c in s.ClosedSet() - s0.ClosedSet() ==> (t, k) !in Owned(cfg, s0.pool, {c})
    ensures !Orphaned(cfg, s0, order + [(t, k)])
  {
    hide Owned, Broken;
  }

  ghost predicate Touches(order: seq<(TypeName, Instance)>, t: TypeName) {
    exists e :: e in order && e.0 == t
  }

  /** Clearing on the way from `s0` to `s`. */
  ghost predicate ClearedSoFar(cfg: Config, s0: Host, s: Host, names: set<TypeName>, done: Entries,
                               order: seq<(TypeName, Instance)>, gone: bool)
  {
    && Clearing(cfg, s0, s, names, done, gone) && Listed(order) <= done
    && (Orphaned(cfg, s0, order) ==> gone)
  }

  lemma ListedMore(order: seq<(TypeName, Instance)>, e: (TypeName, Instance))
    ensures Listed(order + [e]) == Listed(order) + {e}
    ensures Touches(order + [e], e.0) && forall t :: t != e.0 ==> (Touches(order + [e], t) <==> Touches(order, t))
  {
    assert e in order + [e];
    forall t | t != e.0
      ensures Touches(order + [e], t) <==> Touches(order, t)
    {
      assert forall x :: x in order ==> x in order + [e];
    }
  }

  // The entry is in place and has been removed, or it is not there any more.
  lemma ClearOne(cfg: Config, s0: Host, s: Host, s': Host, names: set<TypeName>, done: Entries,
                 order: seq<(TypeName, Instance)>, gone: bool,
                 t: TypeName, k: Instance)
    requires ClearedSoFar(cfg, s0, s, names, done, order, gone)
    requires (t, k) in Everything(s0.pool, names) && (t, k) !in done && t in s.pool
    requires Touches(order, t) && !gone ==> Told(cfg, s0, s, t)
    requires if k in s.pool[t] then After(cfg, s, s', {(t, k)}) && Failed(cfg, s, s', t) else s' == s
    ensures ClearedSoFar(cfg, s0, s', names, done + {(t, k)}, order + [(t, k)], gone || k !in s.pool[t])
    ensures k in s.pool[t] ==> Told(cfg, s0, s', t)
  {
    hide Clearing, After, Orphaned, Told, Failed, Owned, Everything, Touches;
    ClearingPlace(cfg, s0, s, names, done, gone, t, k);
    ListedMore(order, (t, k));
    if k in s.pool[t] {
      if !gone {
        NotOrphaned(cfg, s0, s, t, k, order);
      }
      ClearingOne(cfg, s0, s, s', names, done, gone, t, k);
      ToldAfter(cfg, s0, s, s', names, done, gone, t, k);
    }
  }

  lemma ClearStart(cfg: Config, s: Host, names: set<TypeName>)
    ensures ClearedSoFar(cfg, s, s, names, {}, [], false)
  {
    ClearingStart(cfg, s, names);
  }

  function OfType(t: TypeName, keys: set<Instance>): Entries {
    set k | k in keys :: (t, k)
  }

  lemma OfTypeMore(t: TypeName, keys: set<Instance>, k: Instance)
    ensures OfType(t, keys + {k}) == OfType(t, keys) + {(t, k)} && OfType(t, {}) == {}
  {
  }

  lemma ClearingPool(cfg: Config, s0: Host, s: Host, names: set<TypeName>, done: Entries,
                     order: seq<(TypeName, Instance)>, gone: bool, t: TypeName)
    requires ClearedSoFar(cfg, s0, s, names, done, order, gone) && t in s0.pool
    ensures t in s.pool
  {
  }

  // If there is just one container, all of it is collected.
  lemma WholeContainer(pool: Pool, names: set<TypeName>, named: set<TypeName>, t: TypeName,
                       before: seq<(TypeName, Instance)>,
                       order: seq<(TypeName, Instance)>, all: set<Instance>, whole: bool)
    requires named == pool.Keys * names && t in named && Listed(order) == Listed(before) + OfType(t, all)
    requires whole ==> before == [] && all == pool[t].Keys
    ensures whole ==> forall u :: named == {u} ==> Listed(order) == Everything(pool, names)
  {
    forall u | whole && named == {u}
      ensures Listed(order) == Everything(pool, names)
    {
      assert u == t;
      assert forall x :: x in pool && x in names ==> x in named;
      assert Listed(before) == {};
    }
  }

  lemma ClearEnd(cfg: Config, s0: Host, s: Host, names: set<TypeName>, order: seq<(TypeName, Instance)>, gone: bool)
    requires ClearedSoFar(cfg, s0, s, names, Everything(s0.pool, names), order, gone)
    ensures After(cfg, s0, s, Everything(s0.pool, names)) && Listed(order) <= Everything(s0.pool, names)
    ensures gone ==> Everything(s0.pool, names) * Owned(cfg, s0.pool, s0.OpenSet()) != {}
    ensures Orphaned(cfg, s0, order) ==> gone
  {
    hide Clearing;
    ClearingEnd(cfg, s0, s, names, gone);
  }

  // A container is collected when its turn comes; what went before then counts as dealt with.
  lemma ClearContainer(cfg: Config, s0: Host, s: Host, names: set<TypeName>, types: set<TypeName>, done: Entries,
                       order: seq<(TypeName, Instance)>, gone: bool,
                       t: TypeName)
    requires ClearedSoFar(cfg, s0, s, names, done, order, gone)
    requires t in s0.pool && t in names && t !in types && done == Others(s0.pool, names, types + {t})
    ensures t in s.pool && s.pool[t].Keys <= s0.pool[t].Keys && !Touches(order, t)
    ensures ClearedSoFar(cfg, s0, s, names, Cleared(s0.pool, names, types, t, s.pool[t].Keys), order, gone)
  {
    hide Clearing, Orphaned, Everything;
    ClearingKeys(cfg, s0, s, names, done, gone, t);
    forall e | e in order
      ensures e.0 != t && e in Cleared(s0.pool, names, types, t, s.pool[t].Keys)
    {
      assert e in Listed(order) && e in done;
    }
  }

  /** A guest moving on within the open states changes nothing the invariant is about. */
  lemma AdvanceKeeps(cfg: Config, s: Host, c: ConnId)
    requires Inv(cfg, s, {}, {}) && s.Open(c)
    ensures Inv(cfg, s.(guests := s.guests[c := s.guests[c].(state := Connected)]), {}, {})
  {
    var s' := s.(guests := s.guests[c := s.guests[c].(state := Connected)]);
    assert s'.ClosedSet() == s.ClosedSet();
    forall x | x in s'.guests
      ensures GuestShape(cfg, |s.past|, x, s'.guests[x]) && GuestPast(cfg, s.past, s.astray, x, s'.guests[x])
    {
      assert GuestShape(cfg, |s.past|, x, s.guests[x]) && GuestPast(cfg, s.past, s.astray, x, s.guests[x]);
      SameSentSamePast(cfg, s.past, s.astray, x, s.guests[x], s'.guests[x]);
    }
    forall t, x | x in s'.Members(t)
      ensures s'.Open(x)
    {
      assert x in s.Members(t) && s.Open(x);
    }
    forall x, t | Claimed(cfg, s', {}, "", {}, x, t)
      ensures Mirrored(cfg, s', x, t)
    {
      assert Claimed(cfg, s, {}, "", {}, x, t);
      assert Mirrored(cfg, s, x, t);
    }
    forall x, t | s'.Open(x) && (x, t) !in s'.astray && Ended(s'.guests[x].sent, t)
      ensures x in s'.Members(t)
    {
      assert s.Open(x) && Ended(s.guests[x].sent, t);
    }
  }

  lemma AcceptKeeps(cfg: Config, s: Host, c: ConnId)
    requires Inv(cfg, s, {}, {}) && c !in s.guests && c != HOST_ID
    requires forall t, k :: !CleanupEntry(cfg, s.pool, t, k, {c})
    ensures Inv(cfg, s.(guests := s.guests[c := Guest(EarlySubscribe, [], 0, [])]), {}, {})
  {
    var s' := s.(guests := s.guests[c := Guest(EarlySubscribe, [], 0, [])]);
    assert s'.ClosedSet() == s.ClosedSet();
    forall x | x in s'.guests
      ensures GuestShape(cfg, |s.past|, x, s'.guests[x]) && GuestPast(cfg, s.past, s.astray, x, s'.guests[x])
    {
      assert x != c ==> GuestShape(cfg, |s.past|, x, s.guests[x]) && GuestPast(cfg, s.past, s.astray, x, s.guests[x]);
    }
    forall t, x | x in s'.Members(t)
      ensures s'.Open(x)
    {
      assert x in s.Members(t) && s.Open(x);
    }
    forall x, t | Claimed(cfg, s', {}, "", {}, x, t)
      ensures Mirrored(cfg, s', x, t)
    {
      if x != c {
        assert Claimed(cfg, s, {}, "", {}, x, t);
        assert Mirrored(cfg, s, x, t);
      } else {
        assert c in s.Members(t) ==> s.Open(c);
      }
    }
    forall x, t | s'.Open(x) && (x, t) !in s'.astray && Ended(s'.guests[x].sent, t)
      ensures x in s'.Members(t)
    {
      assert x != c;
      assert s.Open(x) && Ended(s.guests[x].sent, t);
    }
  }

  lemma MembersHold(cfg: Config, s: Host, dirty: set<ConnId>, closing: set<ConnId>, c: ConnId)
    requires Inv(cfg, s, dirty, closing) && s.Open(c) && c !in dirty
    ensures forall t ::
        cfg.Cached(t) && (c, t) !in s.astray && c in s.Members(t)
        ==> Fold(cfg.types[t], t, s.guests[c].sent) == ContentOf(s.pool, t)
  {
    forall t | cfg.Cached(t) && (c, t) !in s.astray && c in s.Members(t)
      ensures Fold(cfg.types[t], t, s.guests[c].sent) == ContentOf(s.pool, t)
    {
      assert Claimed(cfg, s, dirty, "", {}, c, t);
      assert Mirrored(cfg, s, c, t);
    }
  }

  /** The entries dealt with while type `t` is being cleared: later types and the keys left wait. */
  function Cleared(pool: Pool, names: set<TypeName>, types: set<TypeName>, t: TypeName, keys: set<Instance>): Entries {
    set e | e in Everything(pool, names) && e.0 !in types && (e.0 != t || e.1 !in keys)
  }

  // The entries of all other types.
  function Others(pool: Pool, names: set<TypeName>, types: set<TypeName>): Entries {
    set e | e in Everything(pool, names) && e.0 !in types
  }

  lemma ClearedWhole(pool: Pool, names: set<TypeName>, types: set<TypeName>, t: TypeName)
    ensures Cleared(pool, names, types, t, {}) == Others(pool, names, types)
    ensures Others(pool, names, pool.Keys * names) == {} && Others(pool, names, {}) == Everything(pool, names)
  {
  }

  lemma ClearedOneMore(pool: Pool, names: set<TypeName>, types: set<TypeName>, t: TypeName, keys: set<Instance>,
                       k: Instance)
    requires t in pool && t in names && t !in types && k in keys && keys <= pool[t].Keys
    ensures (t, k) in Everything(pool, names) && (t, k) !in Cleared(pool, names, types, t, keys)
    ensures Cleared(pool, names, types, t, keys - {k}) == Cleared(pool, names, types, t, keys) + {(t, k)}
  {
  }

  lemma ClearingKeys(cfg: Config, s0: Host, s: Host, names: set<TypeName>, done: Entries, gone: bool, t: TypeName)
    requires Clearing(cfg, s0, s, names, done, gone) && t in s0.pool && t in names
    ensures t in s.pool && s.pool[t].Keys <= s0.pool[t].Keys
    ensures forall types :: t !in types && done == Others(s0.pool, names, types + {t})
              ==> Clearing(cfg, s0, s, names, Cleared(s0.pool, names, types, t, s.pool[t].Keys), gone)
  {
  }

  lemma NothingPending(cfg: Config, s: Host, t: TypeName)
    requires Inv(cfg, s, {}, {}) && !cfg.Cached(t)
    ensures InvBut(cfg, s, {}, {}, t, s.Members(t))
  {
    forall c, u | Claimed(cfg, s, {}, t, s.Members(t), c, u)
      ensures Mirrored(cfg, s, c, u)
    {
      assert Claimed(cfg, s, {}, "", {}, c, u);
    }
  }

  lemma EndIsNeutral(d: StructType, t: TypeName, v: View)
    ensures Consume(d, t, v, CacheEnd(t)) == v
  {
  }

  lemma InvFactsPlain(cfg: Config, s: Host, dirty: set<ConnId>, closing: set<ConnId>)
    requires Inv(cfg, s, dirty, closing)
    ensures |s.past| > 0 && cfg.Valid() && HOST_ID !in s.guests
    ensures closing <= s.ClosedSet()
    ensures forall t, c :: c in s.Members(t) ==> s.Open(c)
    ensures forall t ::
        t in s.pool ==> cfg.Cached(t) && !cfg.types[t].substructOnly && Described(cfg.types[t], s.pool[t])
  {
  }

  /** What a join adds to a channel: every entry of the container once, then the end marker. */
  ghost predicate Served(before: seq<Message>, after: seq<Message>, t: TypeName, v: View) {
    exists order :: Enumerates(order, v) && after == before + Snapshot(t, v, order) + [CacheEnd(t)]
  }

  lemma MembersAreGuests(cfg: Config, s: Host)
    requires Inv(cfg, s, {}, {})
    ensures forall t, c :: c in s.Members(t) ==> c in s.guests
  {
    InvFacts(cfg, s, {}, {}, "", {});
    forall t, c | c in s.Members(t)
      ensures c in s.guests
    {
      assert s.Open(c);
    }
  }

  lemma NoneLeft()
    ensures var none: set<(ConnId, TypeName)> := {}; none + none == none
  {
  }

  // A guest was put into a group and sent something.
  lemma GrownRemains(s: Host, s': Host, c: ConnId, t: TypeName)
    requires c in s.guests && s.Open(c) && c in s'.guests && s'.guests == s.guests[c := s'.guests[c]]
        && LaterGuest(s.guests[c], s'.guests[c])
    requires s'.groups == s.groups[t := s.Members(t) + {c}]
    ensures Remains(s, s', {})
  {
  }

  lemma AdvancedRemains(s: Host, s': Host, c: ConnId)
    requires c in s.guests && s.Open(c) && c in s'.guests && s'.guests == s.guests[c := s'.guests[c]]
        && s.guests[c].sent <= s'.guests[c].sent
    requires s'.groups == s.groups
    ensures Remains(s, s', {})
  {
  }

  lemma SameRemains(s: Host, s': Host)
    requires s'.guests == s.guests && s'.groups == s.groups
    ensures Remains(s, s', {})
  {
  }

  lemma LeftRemains(s: Host, s': Host, c: ConnId, t: TypeName)
    requires s'.guests == s.guests && s'.groups == s.groups[t := s.Members(t) - {c}]
    ensures Remains(s, s', {(c, t)})
  {
  }

  // What a guest in early subscribe or connected state asks of its host.
  datatype Request =
    | Join(group: TypeName)
    | Leave(group: TypeName)
    | Kill(group: TypeName)
    | Clear(names: set<TypeName>, header: Header, instance: Instance)
    | Publish(typeName: TypeName, header: Header, instance: Instance)
    | PreloadClientFinished
  {
    ghost predicate Valid(cfg: Config) {
      && (Clear? ==> !cfg.Cached(CLEAR_CACHE))
      && (Publish? ==> typeName in cfg.types && !cfg.types[typeName].substructOnly
                       && instance.Keys <= cfg.types[typeName].Properties())
    }
  }

  ghost predicate Emptied(s: Host, t: TypeName) {
    t in s.pool && s.pool[t] == map[]
  }

  /** Every member that is still there was sent `m` in between. */
  ghost predicate Announced(s: Host, s': Host, t: TypeName, m: Message) {
    forall c :: c in s.Members(t) && c in s.guests && s'.Open(c) ==>
      |s.guests[c].sent| <= |s'.guests[c].sent| && m in s'.guests[c].sent[|s.guests[c].sent|..]
  }

  lemma EverythingGone(cfg: Config, s: Host, s': Host, names: set<TypeName>)
    requires After(cfg, s, s', Everything(s.pool, names))
    ensures forall t :: t in names && t in s.pool ==> Emptied(s', t)
  {
  }

  lemma DeliveredAnnounces(cfg: Config, s: Host, mid: Host, s': Host, removed: Entries, t: TypeName, m: Message)
    requires After(cfg, s, mid, removed) && Delivered(cfg, mid, s', t, m) && After(cfg, mid, s', {})
    ensures Announced(s, s', t, m)
  {
    forall c | c in s.Members(t) && c in s.guests && s'.Open(c)
      ensures |s.guests[c].sent| <= |s'.guests[c].sent| && m in s'.guests[c].sent[|s.guests[c].sent|..]
    {
      assert LaterGuest(s.guests[c], mid.guests[c]) && LaterGuest(mid.guests[c], s'.guests[c]);
      assert mid.Members(t) == s.Members(t) - (mid.ClosedSet() - s.ClosedSet());
      var was, sent, now := s.guests[c].sent, mid.guests[c].sent, s'.guests[c].sent;
      assert sent + [m] <= now && was <= sent;
      assert now[|sent|] == (sent + [m])[|sent|] == m;
      assert now[|was|..][|sent| - |was|] == m;
    }
  }

  /** What a request has done if the guest that sent it is still there. */
  ghost predicate Answered(cfg: Config, s: Host, s': Host, c: ConnId, r: Request)
    requires c in s.guests && c in s'.guests && r.Valid(cfg)
  {
    match r
    case Join(t) =>
      && s'.pool == s.pool && s'.groups == s.groups[t := s.Members(t) + {c}]
      && (cfg.Cached(t) ==> Served(s.guests[c].sent, s'.guests[c].sent, t, ContentOf(s.pool, t)))
    case Leave(t) => s' == s.(groups := s.groups[t := s.Members(t) - {c}], astray := s.astray + {(c, t)})
    case Kill(_) => s' == s
    case Clear(names, h, i) =>
      && After(cfg, s, s', Everything(s.pool, names)) && (forall t :: t in names && t in s.pool ==> Emptied(s', t))
      && Announced(s, s', CLEAR_CACHE, Wire(CLEAR_CACHE, h.(sender := c), i))
    case Publish(t, h, i) =>
      && After(cfg, Published(cfg, s, t, h.(sender := c), i), s', {})
      && Delivered(cfg, s, s', t, Wire(t, h.(sender := c), i))
    case PreloadClientFinished =>
      && s.guests[c].state == EarlySubscribe && s'.guests[c].state == Connected && s'.pool == s.pool
        && s'.groups == s.groups
      && s'.guests[c].sent == s.guests[c].sent + [PreloadFinished]
  }

  function Leaving(c: ConnId, r: Request): set<(ConnId, TypeName)> {
    if r.Leave? then {(c, r.group)} else {}
  }

  /** The pairs that go astray with a request. */
  ghost function Straying(cfg: Config, s: Host, c: ConnId, r: Request): set<(ConnId, TypeName)>
    requires r.Valid(cfg)
  {
    match r
    case Leave(t) => {(c, t)}
    case Publish(t, h, i) =>
      if cfg.Cached(t) && cfg.types[t].keys <= i.Keys && !Faithful(cfg, s, t, h.(sender := c), i)
          then Pairs(s.Members(t), t) else {}
    case _ => {}
  }

  class HostTransceiver {
    const cfg: Config
    var pool: Pool
    var groups: map<TypeName, set<ConnId>>
    var guests: map<ConnId, Guest>
    // history only: no method reads it to decide anything
    var past: seq<Pool>
    ghost var astray: set<(ConnId, TypeName)>

    ghost function S(): Host
      reads this
    {
      Host(pool, groups, guests, past, astray)
    }

    constructor (cfg: Config)
      requires cfg.Valid()
      ensures this.cfg == cfg && Inv(cfg, S(), {}, {}) && guests == map[] && pool == map[] && astray == {}
    {
      this.cfg := cfg;
      pool, groups, guests, past, astray := map[], map[], map[], [map[]], {};
    }

    method Send(c: ConnId, m: Message) returns (ok: bool)
      requires c in guests && |past| > 0
      modifies this`guests
      ensures S() == SentTo(cfg, old(S()), c, m)
      ensures ok <==> Accepts(cfg, c, old(guests)[c])
    {
      var g := guests[c];
      ok := !cfg.refuses(c, g.attempts);
      if ok {
        guests := guests[c := g.(sent := g.sent + [m], attempts := g.attempts + 1, at := g.at + [|past| - 1])];
      } else {
        guests := guests[c := g.(attempts := g.attempts + 1)];
      }
    }
  
    // The sending loop of a transmit: everyone is served before any failure is handled.
    method Forward(t: TypeName, h: Header, i: Instance, ghost dirty: set<ConnId>, ghost closing: set<ConnId>,
                   ghost was: View)
      returns (failing: seq<ConnId>)
      requires InvBut(cfg, S(), dirty, closing, t, S().Members(t))
      requires Pending(cfg, S(), dirty, t, h, i, was, S().Members(t))
      requires h.removeObj || dirty == {}
      modifies this`guests
      ensures Serving(cfg, old(S()), S(), dirty, closing, t, h, i, was, {}, failing)
    {
      failing := [];
      var todo := if t in groups then groups[t] else {};
      ServingStart(cfg, S(), dirty, closing, t, h, i, was);
      while todo != {}
        invariant Serving(cfg, old(S()), S(), dirty, closing, t, h, i, was, todo, failing)
        decreases todo
      {
        var c :| c in todo;
        ghost var s := S();
        ServeOne(cfg, old(S()), s, dirty, closing, t, h, i, was, todo, failing, c);
        todo := todo - {c};
        if guests[c].state != Closed {
          var ok := Send(c, Wire(t, h, i));
          if !ok {
            failing := failing + [c];
          }
        }
      }
    }
  
    method Transmit(t: TypeName, h: Header, i: Instance, ghost dirty: set<ConnId>, ghost closing: set<ConnId>,
                    ghost was: View)
      requires InvBut(cfg, S(), dirty, closing, t, S().Members(t))
      requires Pending(cfg, S(), dirty, t, h, i, was, S().Members(t))
      requires h.removeObj || dirty == {}
      modifies this
      ensures Inv(cfg, S(), dirty, closing)
      ensures After(cfg, old(S()), S(), {})
      ensures Delivered(cfg, old(S()), S(), t, Wire(t, h, i))
      decreases S().OpenSet(), 2
    {
      hide After, Inv, InvBut, Pending;
      ghost var s0 := S();
      var failing := Forward(t, h, i, dirty, closing, was);
      ghost var s1 := S();
      ForwardEnd(cfg, s0, s1, dirty, closing, t, h, i, was, failing);
      AfterItself(cfg, s1);
      var n := 0;
      while n < |failing|
        invariant n <= |failing|
        invariant Inv(cfg, S(), dirty + Ids(failing[n..]), closing)
        invariant After(cfg, s1, S(), {})
        invariant forall j :: 0 <= j < n ==> failing[j] !in S().OpenSet()
      {
        ghost var s2 := S();
        var c := failing[n];
        assert Ids(failing[n..]) == {c} + Ids(failing[n + 1..]) by {
          assert failing[n..] == [c] + failing[n + 1..];
        }
        OpenShrinks(cfg, s1, s2, {});
        HandleError(c, dirty + Ids(failing[n..]), closing);
        DropClosed(cfg, S(), dirty + Ids(failing[n..]), dirty + Ids(failing[n + 1..]), closing);
        AfterCascade(cfg, s1, s2, S());
        OpenShrinks(cfg, s2, S(), {});
        n := n + 1;
      }
      assert dirty + Ids(failing[n..]) == dirty;
      DeliveredEnd(cfg, s0, s1, S(), dirty, closing, t, h, i, was, failing);
      AfterCascade(cfg, s0, s1, S());
    }

    // The reason of the error only shows in the message to the peer.
    method HandleError(c: ConnId, ghost dirty: set<ConnId>, ghost closing: set<ConnId>)
      requires Inv(cfg, S(), dirty, closing)
      requires c in guests && c !in closing
      modifies this
      ensures Inv(cfg, S(), dirty, closing)
      ensures After(cfg, old(S()), S(), {})
      ensures !S().Open(c) && c in guests
      ensures guests[c].sent == old(guests)[c].sent +
                if old(guests)[c].state == Connected && Accepts(cfg, c, old(guests)[c]) then [PeerError(1)] else []
      decreases S().OpenSet(), 1
    {
      hide After, Inv, InvBut;
      ghost var s0, dirty' := S(), dirty;
      InvFactsPlain(cfg, s0, dirty, closing);
      AfterItself(cfg, s0);
      if guests[c].state == Connected {
        NeutralSend(cfg, s0, dirty, closing, c, PeerError(1));
        dirty' := Marked(cfg, s0, dirty, c);
        var _ := Send(c, PeerError(1));
      }
      ghost var s1 := S();
      OpenShrinks(cfg, s0, s1, {});
      HandleClose(c, dirty', closing);
      DropClosed(cfg, S(), dirty', dirty, closing);
      AfterCascade(cfg, s0, s1, S());
    }

    // The connection is closed first; then the transceiver reacts to the transition.
    method HandleClose(c: ConnId, ghost dirty: set<ConnId>, ghost closing: set<ConnId>)
      requires Inv(cfg, S(), dirty, closing)
      requires c in guests && c !in closing
      modifies this
      ensures Inv(cfg, S(), dirty, closing)
      ensures After(cfg, old(S()), S(), {})
      ensures !S().Open(c) && c in guests && guests[c].sent == old(guests)[c].sent
      decreases S().OpenSet(), 1, 0
    {
      ghost var s0 := S();
      NoneLeftIfClosed(cfg, s0, c, closing);
      guests := guests[c := guests[c].(state := Closed)];
      ghost var mid := S();
      assert mid.OpenSet() == s0.OpenSet() - {c};
      HandleTransition(c, s0, dirty, closing);
      ClosedSent(cfg, s0, c, S());
      CloseAfter(cfg, s0, c, S());
    }

    method HandleTransition(c: ConnId, ghost before: Host, ghost dirty: set<ConnId>, ghost closing: set<ConnId>)
      requires c in before.guests && S() == before.(guests := before.guests[c := before.guests[c].(state := Closed)])
      requires Inv(cfg, before, dirty, closing) && c !in closing
      modifies this
      ensures Inv(cfg, S(), dirty, closing)
      ensures After(cfg, Shut(before, c), S(), Owned(cfg, before.pool, {c}))
      decreases S().OpenSet(), if Owned(cfg, pool, {c}) == {} then 0 else 4
    {
      hide After, Inv, InvBut;
      groups := map t | t in groups :: groups[t] - {c};
      ghost var s0 := S();
      assert s0 == Shut(before, c) && !s0.Open(c);
      ShutKeeps(cfg, before, dirty, closing, c);
      AfterItself(cfg, s0);
      InvFactsPlain(cfg, s0, dirty, closing + {c});
      assert Listed([]) == {};
      var list := CollectCleanup(c);
      var n := 0;
      while n < |list|
        invariant n <= |list|
        invariant Inv(cfg, S(), dirty, closing + {c})
        invariant After(cfg, s0, S(), Listed(list[..n]))
      {
        ghost var s1 := S();
        var (t, k) := list[n];
        StillThere(cfg, s0, s1, list, n, c);
        assert list[n] in Listed(list) && list[n] in Owned(cfg, s0.pool, {c});
        OpenShrinks(cfg, s0, s1, Listed(list[..n]));
        Remove(t, k, dirty, closing + {c});
        ListedOneMore(list, n);
        AfterTrans(cfg, s0, s1, S(), Listed(list[..n]), {list[n]});
        n := n + 1;
      }
      assert list[..n] == list;
      TransitionDone(cfg, s0, c, S(), dirty, closing);
    }

    // Copies what the container holds under `k` into a removal; the entry has to be in place.
    method Remove(t: TypeName, k: Instance, ghost dirty: set<ConnId>, ghost closing: set<ConnId>)
      requires Inv(cfg, S(), dirty, closing)
      requires t in pool && k in pool[t]
      modifies this
      ensures Inv(cfg, S(), dirty, closing)
      ensures After(cfg, old(S()), S(), {(t, k)})
      ensures Failed(cfg, old(S()), S(), t)
      decreases S().OpenSet(), 3, 1
    {
      hide After, Inv, InvBut;
      ghost var s0 := S();
      InvFactsPlain(cfg, s0, dirty, closing);
      var i := pool[t][k].instance;
      assert KeyOf(cfg.types[t], i) == k;
      var r, h := Publish(t, i, Some(cfg.types[t].keys), true, 0, dirty, closing);
      RemovalAfter(cfg, s0, t, h, i, k);
      AfterTrans(cfg, s0, Published(cfg, s0, t, h, i), S(), {(t, k)}, {});
      assert {(t, k)} + {} == {(t, k)};
      DeliveredFails(cfg, s0, S(), t, Wire(t, h, i));
    }

    // The cleanup instances the closed guest updated last, in any order.
    method CollectCleanup(c: ConnId) returns (list: seq<(TypeName, Instance)>)
      requires forall t :: t in pool ==> t in cfg.types
      ensures Listed(list) == Owned(cfg, pool, {c}) && Distinct(list)
    {
      list := [];
      var types := pool.Keys;
      ghost var visited: set<TypeName> := {};
      while types != {}
        invariant types !! visited && types + visited == pool.Keys
        invariant Distinct(list) && Listed(list) == set e | e in Owned(cfg, pool, {c}) && e.0 in visited
        decreases types
      {
        var t :| t in types;
        types := types - {t};
        if cfg.types[t].cleanup {
          var keys := pool[t].Keys;
          while keys != {}
            invariant keys <= pool[t].Keys
            invariant Distinct(list)
            invariant Listed(list) == set e | e in Owned(cfg, pool, {c})
                && (e.0 in visited || (e.0 == t && e.1 !in keys))
            decreases keys
          {
            var k :| k in keys;
            keys := keys - {k};
            assert (t, k) in Owned(cfg, pool, {c}) <==> pool[t][k].lastUpdateFrom == c;
            if pool[t][k].lastUpdateFrom == c {
              assert (t, k) !in Listed(list);
              AppendDistinct(list, (t, k));
              assert Listed(list + [(t, k)]) == Listed(list) + {(t, k)};
              list := list + [(t, k)];
            }
          }
        }
        visited := visited + {t};
      }
    }

    method Publish(t: TypeName, i: Instance, included: Option<set<nat>>, remove: bool, now: int,
                   ghost dirty: set<ConnId>, ghost closing: set<ConnId>)
      returns (r: Outcome<PublishError>, ghost h: Header)
      requires Inv(cfg, S(), dirty, closing)
      requires t in cfg.types && i.Keys <= cfg.types[t].Properties()
      requires remove || dirty == {}
      modifies this
      ensures Inv(cfg, S(), dirty, closing)
      ensures r == if cfg.types[t].substructOnly then Fail(SubstructOnly) else if !(cfg.types[t].keys <= i.Keys)
          then Fail(MissingKeys)
                   else if !cfg.Cached(t) && remove then Fail(UncachedRemoval) else Pass
      ensures r.Fail? ==> S() == old(S())
      ensures r.Pass? ==>
                && Heads(cfg.types[t], i, included, remove, now, h)
                && After(cfg, Published(cfg, old(S()), t, h, i), S(), {})
                && Delivered(cfg, old(S()), S(), t, Wire(t, h, i))
      ensures r.Pass? && cfg.Cached(t) && !remove ==>
                Taken(cfg.types[t], ContentOf(old(pool), t), ContentOf(pool, t), h, i)
      ensures r.Pass? && cfg.Cached(t) && remove ==> KeyOf(cfg.types[t], i) !in ContentOf(pool, t)
      ensures r.Pass? && cfg.Cached(t) && (remove || KeyOf(cfg.types[t], i) in ContentOf(old(pool), t)) ==>
                astray == old(astray)
      decreases S().OpenSet(), 3, 0
    {
      if cfg.types[t].substructOnly {
        return Fail(SubstructOnly), Header(0, {}, 0, false, None);
      }
      if !(cfg.types[t].keys <= i.Keys) {
        return Fail(MissingKeys), Header(0, {}, 0, false, None);
      }
      var header := HostHeader(cfg.types[t], i, included, remove, now);
      h := header;
      HostHeads(cfg.types[t], i, included, remove, now);
      ghost var s0 := S();
      InvFactsPlain(cfg, s0, dirty, closing);
      hide After, Inv, InvBut, Faithful, Dispatched, Pairs, Wire, Delivered;
      var ok := Dispatch(t, header, i);
      if !ok {
        return Fail(UncachedRemoval), h;
      }
      ghost var was := ContentOf(s0.pool, t);
      if cfg.Cached(t) && !Faithful(cfg, s0, t, h, i) {
        astray := astray + Pairs(s0.Members(t), t);
      }
      PublishPending(cfg, s0, dirty, closing, t, h, i);
      assert S() == Published(cfg, s0, t, h, i);
      ghost var s1 := S();
      assert s1.guests == s0.guests && s1.groups == s0.groups && s1.OpenSet() == s0.OpenSet();
      hide Published, HostHeader, Fits, ContentOf, Taken, KeyOf, Heads;
      Transmit(t, header, i, dirty, closing, was);
      DeliveredSame(cfg, s0, s1, S(), t, Wire(t, h, i));
      PublishedTaken(cfg, s0, s1, S(), t, i, included, remove, now, h);
      return Pass, h;
    }

    // The container part of a dispatch; removing an uncached instance throws.
    method Dispatch(t: TypeName, h: Header, i: Instance) returns (ok: bool)
      requires t in cfg.types
      modifies this`pool, this`past
      ensures ok <==> cfg.Cached(t) || !h.removeObj
      ensures S() == if cfg.Cached(t) then Dispatched(cfg, old(S()), t, h, i) else old(S())
    {
      if cfg.types[t].cached {
        var content := if t in pool then pool[t] else map[];
        pool := pool[t := Apply(cfg.types[t], content, h, i)];
        past := past + [pool];
        return true;
      }
      return !h.removeObj;
    }
  
    // Fails when the channel refuses an entry; entries before it have been sent.
    method TransmitContainer(c: ConnId, t: TypeName, ghost skip: set<ConnId>)
      returns (ok: bool, ghost order: seq<Instance>)
      requires cfg.Cached(t) && S().Open(c) && t in pool
      requires JoinCase(cfg, S(), c, t, skip) && InvBut(cfg, S(), {}, {}, t, skip)
      modifies this`guests
      ensures ok ==>
                && Snapshotting(cfg, old(S()), S(), c, t, skip, order)
                && Enumerates(order, pool[t]) && |order| == |pool[t]|
      ensures !ok ==> Inv(cfg, S(), {c}, {})
      ensures c in guests && guests == old(guests)[c := guests[c]] && LaterGuest(old(guests)[c], guests[c])
          && guests[c].Open()
    {
      hide InvBut, Inv, JoinCase, Snapshotting, Fold, Snapshot, Counted;
      ghost var s0 := S();
      SnapshotStart(cfg, s0, c, t, skip);
      order := [];
      var rest, left := pool[t].Keys, |pool[t]|;
      while rest != {}
        invariant pool == old(pool)
        invariant c in guests && guests == old(guests)[c := guests[c]] && LaterGuest(old(guests)[c], guests[c])
            && guests[c].Open()
        invariant Snapshotting(cfg, s0, S(), c, t, skip, order)
        invariant forall k :: k in pool[t] <==> k in rest || k in order
        invariant forall k :: k in rest ==> k !in order
        invariant left == |rest| && left + |order| == |pool[t]|
        decreases rest
      {
        var k :| k in rest;
        rest, left := rest - {k}, left - 1;
        ghost var s := S();
        SnapshotFacts(cfg, s0, s, c, t, skip, order);
        SnapshotOneMore(cfg, s0, s, c, t, skip, order, k);
        var accepted := Send(c, SnapshotMessage(t, pool[t][k], left));
        if !accepted {
          return false, order;
        }
        order := order + [k];
      }
      SnapshotFacts(cfg, s0, S(), c, t, skip, order);
      return true, order;
    }

    // Container content, if there is a container, and the end marker.
    method Serve(c: ConnId, t: TypeName, ghost skip: set<ConnId>) returns (ok: bool)
      requires cfg.Cached(t) && S().Open(c)
      requires JoinCase(cfg, S(), c, t, skip) && InvBut(cfg, S(), {}, {}, t, skip)
      modifies this`guests
      ensures c in guests && guests == old(guests)[c := guests[c]] && LaterGuest(old(guests)[c], guests[c])
          && guests[c].Open()
      ensures Inv(cfg, S(), if ok then {} else {c}, {})
      ensures ok ==> guests == old(guests)[c := guests[c]] && guests[c].state == old(guests)[c].state
      ensures ok ==> Served(old(guests)[c].sent, guests[c].sent, t, ContentOf(pool, t))
    {
      hide InvBut, Inv, JoinCase, Snapshotting, Fold, Counted, Snapshot, Lands;
      ghost var s0, order := S(), [];
      ok := true;
      if t in pool {
        ok, order := TransmitContainer(c, t, skip);
      } else {
        SnapshotStart(cfg, s0, c, t, skip);
      }
      if ok {
        ghost var s := S();
        SnapshotFacts(cfg, s0, s, c, t, skip, order);
        SnapshotEnd(cfg, s0, s, c, t, skip, order);
        JoinEnd(cfg, s0, s, c, t, skip, order);
        ok := Send(c, CacheEnd(t));
      }
    }

    method HandleJoin(c: ConnId, t: TypeName) returns (ok: bool)
      requires Inv(cfg, S(), {}, {}) && S().Open(c)
      modifies this
      ensures Inv(cfg, S(), {}, {}) && astray == old(astray) && c in guests
      ensures !ok ==> !S().Open(c)
      ensures Remains(old(S()), S(), {})
      ensures ok ==> pool == old(pool) && groups == old(groups)[t := old(S()).Members(t) + {c}] && past == old(past)
      ensures ok ==> guests == old(guests)[c := guests[c]] && guests[c].state == old(guests)[c].state
      ensures ok && !cfg.Cached(t) ==> guests == old(guests)
      ensures ok && cfg.Cached(t) ==> Served(old(guests)[c].sent, guests[c].sent, t, ContentOf(pool, t))
    {
      hide InvBut, Inv, JoinCase, Served, After, Remains;
      MembersAreGuests(cfg, S());
      ghost var before, skip := S(), if c in S().Members(t) then {} else {c};
      JoinKeeps(cfg, before, c, t);
      Joined(cfg, before, c, t);
      var members := if t in groups then groups[t] else {};
      groups := groups[t := members + {c}];
      assert S() == Regrouped(before, t, before.Members(t) + {c});
      if t in cfg.types && cfg.types[t].cached {
        ok := Serve(c, t, skip);
        if !ok {
          ghost var s := S();
          GrownRemains(before, s, c, t);
          HandleError(c, {c}, {});
          AfterFacts(cfg, s, S(), {});
          AfterRemains(cfg, s, S(), {});
          RemainsTrans(before, s, S(), {}, {});
          NoneLeft();
          DropClosed(cfg, S(), {c}, {}, {});
        } else {
          GrownRemains(before, S(), c, t);
        }
      } else {
        GrownRemains(before, S(), c, t);
        NotCached(cfg, S(), t, skip);
        ok := true;
      }
    }
  
    /**
     Clears container after container. `order` lists the entries as they were collected; `gone` says
     that a nested cleanup removed one of them before its turn, so that its pointer dangled.
     */
    method HandleClearCache(names: set<TypeName>) returns (gone: bool, ghost order: seq<(TypeName, Instance)>)
      requires Inv(cfg, S(), {}, {})
      modifies this
      ensures Inv(cfg, S(), {}, {})
      ensures After(cfg, old(S()), S(), Everything(old(pool), names))
      ensures forall t :: t in names && t in old(pool) ==> Emptied(S(), t)
      ensures Listed(order) <= Everything(old(pool), names)
      ensures forall t :: old(pool).Keys * names == {t} ==> Listed(order) == Everything(old(pool), names)
      ensures gone ==> Everything(old(pool), names) * Owned(cfg, old(pool), old(S()).OpenSet()) != {}
      ensures Orphaned(cfg, old(S()), order) ==> gone
    {
      hide After, Inv, InvBut, ClearedSoFar, Orphaned, Told, Failed, Touches, Owned, Everything, Cleared, Others,
        Listed, OfType;
      ghost var s0 := S();
      ClearedWhole(pool, names, {}, "");
      ClearStart(cfg, s0, names);
      gone, order := false, [];
      ghost var done: Entries := {};
      var types := pool.Keys * names;
      ghost var named := types;
      while types != {}
        invariant types <= named
        invariant done == Others(s0.pool, names, types)
        invariant Inv(cfg, S(), {}, {}) && ClearedSoFar(cfg, s0, S(), names, done, order, gone)
        invariant types == named ==> S() == s0 && order == []
        invariant types == {} ==> forall t :: named == {t} ==> Listed(order) == Everything(s0.pool, names)
        decreases types
      {
        var t :| t in types;
        ghost var whole := types == named;
        assert types == types - {t} + {t};
        types := types - {t};
        ClearContainer(cfg, s0, S(), names, types, done, order, gone, t);
        var keys := pool[t].Keys;
        done := Cleared(s0.pool, names, types, t, keys);
        ghost var all, before := keys, order;
        OfTypeMore(t, {}, map[]);
        assert all - keys == {} && Listed(before) + {} == Listed(before);
        while keys != {}
          invariant keys <= all <= s0.pool[t].Keys
          invariant done == Cleared(s0.pool, names, types, t, keys)
          invariant Inv(cfg, S(), {}, {}) && ClearedSoFar(cfg, s0, S(), names, done, order, gone)
          invariant Listed(order) == Listed(before) + OfType(t, all - keys)
          invariant Touches(order, t) && !gone ==> Told(cfg, s0, S(), t)
          decreases keys
        {
          var k :| k in keys;
          ClearedOneMore(s0.pool, names, types, t, keys, k);
          ghost var s, was := S(), gone;
          ClearingPool(cfg, s0, s, names, done, order, gone, t);
          if k in pool[t] {
            Remove(t, k, {}, {});
          } else {
            gone := true;
          }
          ClearOne(cfg, s0, s, S(), names, done, order, was, t, k);
          ListedMore(order, (t, k));
          OfTypeMore(t, all - keys, k);
          assert all - (keys - {k}) == all - keys + {k};
          assert Listed(before) + (OfType(t, all - keys) + {(t, k)}) == Listed(before) + OfType(t, all - keys)
            + {(t, k)};
          order := order + [(t, k)];
          keys := keys - {k};
          done := done + {(t, k)};
        }
        ClearedWhole(s0.pool, names, types, t);
        assert all - keys == all;
        WholeContainer(s0.pool, names, named, t, before, order, all, whole);
      }
      ClearEnd(cfg, s0, S(), names, order, gone);
      EverythingGone(cfg, s0, S(), names);
    }

    method HandleLeave(c: ConnId, t: TypeName)
      requires Inv(cfg, S(), {}, {}) && S().Open(c)
      modifies this`groups, this`astray
      ensures Inv(cfg, S(), {}, {})
      ensures groups == old(groups)[t := old(S()).Members(t) - {c}] && astray == old(astray) + {(c, t)}
    {
      LeaveKeeps(cfg, S(), c, t);
      var members := if t in groups then groups[t] else {};
      groups := groups[t := members - {c}];
      astray := astray + {(c, t)};
    }

    // What a guest sends may lack a key, or carry properties outside its attributes.
    method HandleData(c: ConnId, t: TypeName, header: Header, i: Instance) returns (accepted: bool)
      requires Inv(cfg, S(), {}, {}) && S().Open(c)
      requires t in cfg.types && !cfg.types[t].substructOnly && i.Keys <= cfg.types[t].Properties()
      modifies this
      ensures Inv(cfg, S(), {}, {}) && c in guests
      ensures astray == if accepted then Published(cfg, old(S()), t, header.(sender := c), i).astray else old(astray)
      ensures accepted <==> cfg.types[t].keys <= i.Keys && (cfg.Cached(t) || !header.removeObj)
      ensures accepted ==>
                var h := header.(sender := c);
                && After(cfg, Published(cfg, old(S()), t, h, i), S(), {})
                && Delivered(cfg, old(S()), S(), t, Wire(t, h, i))
      ensures accepted && cfg.Cached(t) && S().Open(c) ==>
                if header.removeObj then KeyOf(cfg.types[t], i) !in ContentOf(pool, t)
                else Taken(cfg.types[t], ContentOf(old(pool), t), ContentOf(pool, t), header.(sender := c), i)
      ensures !accepted ==> After(cfg, old(S()), S(), {}) && !S().Open(c)
    {
      hide After, Inv, InvBut, Faithful, Dispatched, Pairs, Wire, Delivered;
      ghost var s0 := S();
      if !(cfg.types[t].keys <= i.Keys) {
        HandleError(c, {}, {});
        AfterFacts(cfg, s0, S(), {});
        return false;
      }
      var h := header.(sender := c);
      var ok := Dispatch(t, h, i);
      if !ok {
        HandleError(c, {}, {});
        AfterFacts(cfg, s0, S(), {});
        return false;
      }
      if cfg.Cached(t) && !Faithful(cfg, s0, t, h, i) {
        astray := astray + Pairs(s0.Members(t), t);
      }
      ghost var s1 := S();
      PublishPending(cfg, s0, {}, {}, t, h, i);
      assert Published(cfg, s0, t, h, i) == s1;
      hide Published, Fits, ContentOf, Taken, KeyOf;
      Transmit(t, h, i, {}, {}, ContentOf(s0.pool, t));
      DeliveredSame(cfg, s0, s1, S(), t, Wire(t, h, i));
      AfterFacts(cfg, s1, S(), {});
      if cfg.Cached(t) && S().Open(c) {
        StaysTaken(cfg, s0, S(), t, h, i);
      }
      return true;
    }

    // The end of preloading: from here on the guest counts as connected.
    method HandlePreloadClientFinished(c: ConnId) returns (ok: bool)
      requires Inv(cfg, S(), {}, {}) && S().Open(c)
      modifies this
      ensures Inv(cfg, S(), {}, {}) && astray == old(astray) && c in guests
      ensures ok <==> old(guests)[c].state == EarlySubscribe && Accepts(cfg, c, old(guests)[c])
      ensures !ok ==> !S().Open(c)
      ensures Remains(old(S()), S(), {})
      ensures ok ==> guests[c].state == Connected && guests[c].sent == old(guests)[c].sent + [PreloadFinished]
      ensures ok ==> pool == old(pool) && groups == old(groups)
      ensures ok ==> forall t ::
          cfg.Cached(t) && (c, t) !in astray && c in S().Members(t)
          ==> Fold(cfg.types[t], t, guests[c].sent) == ContentOf(pool, t)
    {
      hide After, Inv, InvBut, Fold, Remains;
      ghost var s0 := S();
      InvFactsPlain(cfg, s0, {}, {});
      if guests[c].state != EarlySubscribe {
        HandleError(c, {}, {});
        AfterFacts(cfg, s0, S(), {});
        AfterRemains(cfg, s0, S(), {});
        return false;
      }
      MembersAreGuests(cfg, s0);
      AdvanceKeeps(cfg, s0, c);
      guests := guests[c := guests[c].(state := Connected)];
      ghost var s1 := S();
      NeutralSend(cfg, s1, {}, {}, c, PreloadFinished);
      ok := Send(c, PreloadFinished);
      ghost var s2 := S();
      AdvancedRemains(s0, s2, c);
      if ok {
        MembersHold(cfg, s2, {}, {}, c);
      } else {
        assert Marked(cfg, s1, {}, c) == {c};
        HandleError(c, {c}, {});
        AfterFacts(cfg, s2, S(), {});
        AfterRemains(cfg, s2, S(), {});
        RemainsTrans(s0, s2, S(), {}, {});
        NoneLeft();
        DropClosed(cfg, S(), {c}, {}, {});
      }
    }

    // Peer ids are handed out once: no instance names a guest that was never there.
    method Accept(c: ConnId)
      requires Inv(cfg, S(), {}, {}) && c !in guests && c != HOST_ID
      requires forall t, k :: !CleanupEntry(cfg, pool, t, k, {c})
      modifies this`guests
      ensures Inv(cfg, S(), {}, {}) && guests == old(guests)[c := Guest(EarlySubscribe, [], 0, [])]
    {
      AcceptKeeps(cfg, S(), c);
      guests := guests[c := Guest(EarlySubscribe, [], 0, [])];
    }

    method HandleRequest(c: ConnId, r: Request) returns (keep: bool)
      requires Inv(cfg, S(), {}, {}) && c in guests && r.Valid(cfg)
      modifies this
      ensures Inv(cfg, S(), {}, {}) && c in guests
      ensures keep <==> S().Open(c)
      ensures !old(S()).Open(c) ==> S() == old(S())
      ensures astray == if old(S()).Open(c) then old(astray) + Straying(cfg, old(S()), c, r) else old(astray)
      ensures Remains(old(S()), S(), Leaving(c, r))
      ensures keep ==> Answered(cfg, old(S()), S(), c, r)
    {
      hide Inv, InvBut, Remains, Served, Delivered, After, Announced, Emptied, Wire;
      ghost var s0 := S();
      if guests[c].state == Closed {
        SameRemains(s0, s0);
        FewerLeft(s0, s0, c, r);
        return false;
      }
      match r {
        case Join(t) =>
          var _ := HandleJoin(c, t);
        case Leave(t) =>
          HandleLeave(c, t);
          LeftRemains(s0, S(), c, t);
        case Kill(_) =>
          SameRemains(s0, s0);
        case Clear(names, h, i) =>
          var _, _ := HandleClearCache(names);
          AfterFacts(cfg, s0, S(), Everything(s0.pool, names));
          AnnounceCleared(c, h, i, s0, Everything(s0.pool, names));
          EverythingGone(cfg, s0, S(), names);
        case Publish(t, h, i) =>
          var accepted := HandleData(c, t, h, i);
          DataRemains(cfg, s0, S(), c, t, h, i, accepted);
        case PreloadClientFinished =>
          var _ := HandlePreloadClientFinished(c);
      }
      keep := guests[c].state != Closed;
    }

    // The request itself goes to those who subscribed to its type, which is not cached.
    method AnnounceCleared(c: ConnId, header: Header, i: Instance, ghost s0: Host, ghost removed: Entries)
      requires Inv(cfg, S(), {}, {}) && !cfg.Cached(CLEAR_CACHE) && After(cfg, s0, S(), removed) && c in guests
      modifies this
      ensures Inv(cfg, S(), {}, {}) && After(cfg, s0, S(), removed) && S().astray == s0.astray
      ensures Remains(s0, S(), {}) && guests.Keys == s0.guests.Keys
      ensures if header.removeObj then !S().Open(c)
          else Announced(s0, S(), CLEAR_CACHE, Wire(CLEAR_CACHE, header.(sender := c), i))
    {
      hide Inv, InvBut, Remains, After, Delivered, Announced, Wire;
      ghost var s1 := S();
      if header.removeObj {
        HandleError(c, {}, {});
      } else {
        NothingPending(cfg, s1, CLEAR_CACHE);
        Transmit(CLEAR_CACHE, header.(sender := c), i, {}, {}, map[]);
        DeliveredAnnounces(cfg, s0, s1, S(), removed, CLEAR_CACHE, Wire(CLEAR_CACHE, header.(sender := c), i));
      }
      AfterTrans(cfg, s0, s1, S(), removed, {});
      assert removed + {} == removed;
      AfterFacts(cfg, s0, S(), removed);
      AfterRemains(cfg, s0, S(), removed);
    }
  }

  lemma FewerLeft(s: Host, s': Host, c: ConnId, r: Request)
    requires Remains(s, s', {})
    ensures Remains(s, s', Leaving(c, r))
  {
  }

  lemma DataRemains(cfg: Config, s: Host, s': Host, c: ConnId, t: TypeName, h: Header, i: Instance, accepted: bool)
    requires t in cfg.types
    requires After(cfg, if accepted then Published(cfg, s, t, h.(sender := c), i) else s, s', {})
    ensures Remains(s, s', {})
  {
    hide After;
    AfterRemains(cfg, if accepted then Published(cfg, s, t, h.(sender := c), i) else s, s', {});
  }
}
