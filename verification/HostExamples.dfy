/** States of a host that show what its guarantees leave open. */
module HostExamples {
  import opened Wrappers
  import opened Replica
  import opened HostState
  import opened HostTransceivers
  import opened Convergence

  const THINGS := StructType({1}, [], true, true, false)
  const GONE: Instance := map[1 := 1]
  const KEPT: Instance := map[1 := 2]
  const MISSED: Instance := map[1 := 3]

  function Created(i: Instance, sender: ConnId): Message {
    Data("thing", Header(0, {1}, sender, false, None), i)
  }

  function Entry(i: Instance, sender: ConnId): Seen {
    Seen(i, sender, 0)
  }

  // A guest that joined an empty container and saw two instances being created.
  function Creations(a: ConnId, b: ConnId): seq<Message> {
    [CacheEnd("thing"), Created(GONE, a), Created(KEPT, b)]
  }

  function One(a: ConnId): View {
    map[GONE := Seen(GONE, a, 0)]
  }

  function Two(a: ConnId, b: ConnId): View {
    map[GONE := Seen(GONE, a, 0), KEPT := Seen(KEPT, b, 0)]
  }

  lemma FoldsCreated(a: ConnId, b: ConnId)
    ensures Fold(THINGS, "thing", []) == map[] && Fold(THINGS, "thing", Creations(a, b)[..1]) == map[]
    ensures Fold(THINGS, "thing", Creations(a, b)[..2]) == One(a) && Fold(THINGS, "thing", Creations(a, b)) == Two(a, b)
  {
    var q := Creations(a, b);
    assert q[..1] == [] + [q[0]] && q[..2] == q[..1] + [q[1]] && q == q[..2] + [q[2]];
    FoldAppend(THINGS, "thing", [], q[0]);
    FoldAppend(THINGS, "thing", q[..1], q[1]);
    FoldAppend(THINGS, "thing", q[..2], q[2]);
    assert Restrict(GONE, {1}) == GONE && Restrict(KEPT, {1}) == KEPT;
    assert One(a)[KEPT := Seen(KEPT, b, 0)] == Two(a, b);
  }

  // ----- A guest that is served after a refusal -----

  const ONE := One(3)
  const TWO := Two(3, 1)
  const THREE: View := TWO[MISSED := Seen(MISSED, 1, 0)]
  const LEFT: View := THREE - {GONE}

  const UNTIL_REFUSAL := Creations(3, 1)
  const REMOVAL := Data("thing", Header(0, {1}, 1, true, None), GONE)

  // Both guests refuse their fourth message.
  function Refusing(): Config {
    Config(map["thing" := THINGS], (c, n) => n == 3)
  }

  /**
   Guest 3 creates `GONE`, the host creates `KEPT`, and then both guests refuse `MISSED`. Guest 3 is
   closed first, and guest 2, which is not closed yet, is sent the removal of `GONE`.
   */
  function AfterRefusals(): Host {
    Host(map["thing" := LEFT], map["thing" := {}],
         map[2 := Guest(Closed, UNTIL_REFUSAL + [REMOVAL], 5, [0, 1, 2, 4]), 3 := Guest(Closed, UNTIL_REFUSAL, 4,
           [0, 1, 2])],
         [map[], map["thing" := ONE], map["thing" := TWO], map["thing" := THREE], map["thing" := LEFT]], {})
  }

  lemma FoldsUntilRefusal()
    ensures Fold(THINGS, "thing", []) == map[] && Fold(THINGS, "thing", UNTIL_REFUSAL[..1]) == map[]
    ensures Fold(THINGS, "thing", UNTIL_REFUSAL[..2]) == ONE && Fold(THINGS, "thing", UNTIL_REFUSAL) == TWO
    ensures Fold(THINGS, "thing", UNTIL_REFUSAL + [REMOVAL]) == TWO - {GONE}
  {
    FoldsCreated(3, 1);
    FoldAppend(THINGS, "thing", UNTIL_REFUSAL, REMOVAL);
    assert Restrict(GONE, {1}) == GONE;
  }

  lemma RefusalShape(c: ConnId)
    requires c in AfterRefusals().guests
    ensures GuestShape(Refusing(), 5, c, AfterRefusals().guests[c])
  {
    var g := AfterRefusals().guests[c];
    assert Refusing().refuses(c, 3);
    assert g.sent[..3] == UNTIL_REFUSAL;
    forall n | 0 <= n < |g.sent| && !Refusing().NeverRefused(c, n + 1)
      ensures Parting(g.sent[n])
    {
      assert n == 3;
    }
  }

  lemma RefusalPast(c: ConnId)
    requires c in AfterRefusals().guests
    ensures GuestPast(Refusing(), AfterRefusals().past, {}, c, AfterRefusals().guests[c])
  {
    hide Fold;
    var cfg, s := Refusing(), AfterRefusals();
    var g := s.guests[c];
    FoldsUntilRefusal();
    assert cfg.refuses(c, 3);
    forall t, n: nat | cfg.Cached(t) && n < |g.sent| && cfg.NeverRefused(c, n + 1)
      ensures SeenAt(cfg, s.past, g, t, n)
    {
      assert n < 3 && g.sent[..n + 1] == UNTIL_REFUSAL[..n + 1];
      assert UNTIL_REFUSAL[..3] == UNTIL_REFUSAL;
    }
  }

  lemma RefusalPool()
    ensures var cfg, s := Refusing(), AfterRefusals();
            && cfg.Valid() && |s.past| == 5 && s.past[4] == s.pool
            && forall t ::
              t in s.pool ==> cfg.Cached(t) && !cfg.types[t].substructOnly && Described(cfg.types[t], s.pool[t])
  {
    hide Described;
    LeftDescribed();
  }

  lemma RefusalShapes()
    ensures Shape(Refusing(), AfterRefusals())
  {
    hide GuestShape, Described, Refusing;
    var cfg, s := Refusing(), AfterRefusals();
    RefusalPool();
    forall c | c in s.guests
      ensures GuestShape(cfg, |s.past|, c, s.guests[c])
    {
      RefusalShape(c);
    }
    assert forall t :: s.Members(t) == {};
  }

  lemma LeftEntries()
    ensures forall k :: k in LEFT ==> (k == KEPT || k == MISSED) && LEFT[k] == Seen(k, 1, 0)
  {
  }

  lemma OneKey(i: Instance)
    requires i.Keys == {1}
    ensures KeyOf(THINGS, i) == i && THINGS.keys <= i.Keys <= THINGS.Properties()
  {
  }

  lemma LeftDescribed()
    ensures Described(THINGS, LEFT) && forall k :: k in LEFT ==> LEFT[k].lastUpdateFrom == 1
  {
    hide KeyOf;
    LeftEntries();
    forall k | k in LEFT
      ensures KeyOf(THINGS, LEFT[k].instance) == k && THINGS.keys <= LEFT[k].instance.Keys <= THINGS.Properties()
    {
      OneKey(k);
    }
  }

  lemma RefusalClean()
    ensures Clean(Refusing(), AfterRefusals(), {})
  {
    hide Described, Refusing;
    LeftDescribed();
    var s := AfterRefusals();
    forall t, k
      ensures !CleanupEntry(Refusing(), s.pool, t, k, s.ClosedSet() - {})
    {
    }
  }

  lemma RefusalInv()
    ensures Inv(Refusing(), AfterRefusals(), {}, {})
  {
    hide Fold, Shape, Clean, GuestPast;
    var cfg, s := Refusing(), AfterRefusals();
    RefusalShapes();
    RefusalClean();
    forall c | c in s.guests
      ensures GuestPast(cfg, s.past, s.astray, c, s.guests[c])
    {
      RefusalPast(c);
    }
    assert forall c :: !s.Open(c);
  }

  lemma RestOff()
    ensures NeverHad(AfterRefusals(), "thing", TWO - {GONE})
  {
    assert GONE != KEPT && KEPT != MISSED && GONE != MISSED by {
      assert GONE[1] == 1 && KEPT[1] == 2 && MISSED[1] == 3;
    }
    assert KEPT in TWO - {GONE} && GONE in ONE && GONE in TWO && MISSED in THREE && MISSED in LEFT;
  }

  /**
   That instances may be missing after a refusal is not avoidable: in this state, which keeps the
   invariant, a guest holds, past an end marker, what the host never had.
   */
  lemma RefusedThenServed()
    ensures exists cfg, s, c, t, n :: Inv(cfg, s, {}, {}) && OffPast(cfg, s, c, t, n)
  {
    hide Fold, Inv, NeverHad;
    var cfg, s, c: ConnId := Refusing(), AfterRefusals(), 2;
    RefusalInv();
    FoldsUntilRefusal();
    RestOff();
    var sent := s.guests[c].sent;
    assert sent[..3 + 1] == UNTIL_REFUSAL + [REMOVAL];
    assert Ended(sent[..3], "thing") by {
      assert sent[..3][0] == CacheEnd("thing");
    }
    assert OffPast(cfg, s, c, "thing", 3);
  }

  // ----- Clearing what a guest with a broken channel updated last -----

  function Breaking(): Config {
    Config(map["thing" := THINGS], (c, n) => n >= 3)
  }

  /** Guest 2 created both instances; from now on its channel refuses. */
  function BeforeClearing(): Host {
    Host(map["thing" := Two(2, 2)], map["thing" := {2}], map[2 := Guest(Connected, Creations(2, 2), 3, [0, 1, 2])],
         [map[], map["thing" := One(2)], map["thing" := Two(2, 2)]], {})
  }

  lemma TwoDescribed(a: ConnId, b: ConnId)
    ensures Described(THINGS, Two(a, b))
  {
    hide KeyOf;
    forall k | k in Two(a, b)
      ensures KeyOf(THINGS, Two(a, b)[k].instance) == k && THINGS.keys <= Two(a, b)[k].instance.Keys
          <= THINGS.Properties()
    {
      OneKey(k);
    }
  }

  lemma BreakingGuest()
    ensures GuestShape(Breaking(), 3, 2, BeforeClearing().guests[2])
  {
  }

  lemma BreakingShape()
    ensures Shape(Breaking(), BeforeClearing())
  {
    hide Described, GuestShape;
    var cfg, s := Breaking(), BeforeClearing();
    BreakingGuest();
    TwoDescribed(2, 2);
    assert cfg.Valid() && s.past[2] == s.pool;
    assert forall t :: s.Members(t) == if t == "thing" then {2} else {};
  }

  lemma BreakingPast()
    ensures PastSeen(Breaking(), BeforeClearing())
  {
    hide Fold;
    var cfg, s := Breaking(), BeforeClearing();
    var g := s.guests[2];
    FoldsCreated(2, 2);
    assert g.sent[..3] == Creations(2, 2);
    forall t, n: nat | cfg.Cached(t) && n < |g.sent|
      ensures SeenAt(cfg, s.past, g, t, n)
    {
    }
  }

  lemma BreakingInv()
    ensures Inv(Breaking(), BeforeClearing(), {}, {})
  {
    hide Fold, Shape, PastSeen;
    var cfg, s := Breaking(), BeforeClearing();
    BreakingShape();
    BreakingPast();
    FoldsCreated(2, 2);
    assert s.ClosedSet() == {};
  }

  /**
   If the only container to be cleared holds two instances of a guest that is to be told and whose
   channel refuses, a removed instance is used, in whatever order they are visited.
   */
  method ClearOwned(host: HostTransceiver, names: set<TypeName>, t: TypeName, c: ConnId, x: Instance, y: Instance)
    returns (gone: bool)
    requires Inv(host.cfg, host.S(), {}, {})
    requires host.pool.Keys * names == {t} && c in host.S().Members(t) && Broken(host.cfg, host.S(), c)
    requires x != y && {(t, x), (t, y)} <= Owned(host.cfg, host.pool, {c})
    modifies host
    ensures gone
  {
    hide Inv, Broken, After;
    ghost var s := host.S();
    ghost var order;
    gone, order := host.HandleClearCache(names);
    OwnedTwice(host.cfg, s, names, t, c, x, y, order);
  }

  lemma OwnedTwice(cfg: Config, s: Host, names: set<TypeName>, t: TypeName, c: ConnId, x: Instance, y: Instance,
                   order: seq<(TypeName, Instance)>)
    requires s.pool.Keys * names == {t} && c in s.Members(t) && Broken(cfg, s, c)
    requires x != y && {(t, x), (t, y)} <= Owned(cfg, s.pool, {c})
    requires Listed(order) == Everything(s.pool, names)
    ensures Orphaned(cfg, s, order)
  {
    hide Broken;
    assert t in s.pool.Keys * names;
    assert (t, x) in Owned(cfg, s.pool, {c}) && (t, y) in Owned(cfg, s.pool, {c});
    assert (t, x) in Listed(order) && (t, y) in Listed(order);
    var i :| 0 <= i < |order| && order[i] == (t, x);
    var j :| 0 <= j < |order| && order[j] == (t, y);
    if i < j {
      assert Orphan(cfg, s, order[i], order[j], c);
    } else {
      assert Orphan(cfg, s, order[j], order[i], c);
    }
  }

  /** There is such a state. */
  lemma OwnedTwiceBefore()
    ensures exists cfg, s, c, x, y ::
              && Inv(cfg, s, {}, {}) && s.pool.Keys * {"thing"} == {"thing"} && c in s.Members("thing")
                && Broken(cfg, s, c)
              && x != y && {("thing", x), ("thing", y)} <= Owned(cfg, s.pool, {c})
  {
    hide Inv, Fold, Described;
    var cfg, s, c: ConnId := Breaking(), BeforeClearing(), 2;
    BreakingInv();
    assert GONE != KEPT by {
      assert GONE[1] == 1 && KEPT[1] == 2;
    }
    assert {("thing", GONE), ("thing", KEPT)} <= Owned(cfg, s.pool, {c});
  }
}
