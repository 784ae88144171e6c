/**
 The state of a host as a value, the small steps its methods are made of, and what each step
 keeps. `past` is every content the pool ever had; `astray` are the pairs of guest and type that
 left a group or were members when the host published an instance with a narrowed property set.
 */
module HostState {
  import opened Replica

  datatype ConnState = EarlySubscribe | Connected | Closed

  type Pool = map<TypeName, View>

  // `refuses(c, n)` says whether the n-th transmit on the channel of `c` throws.
  datatype Config = Config(types: map<TypeName, StructType>, refuses: (ConnId, nat) -> bool)
  {
    ghost predicate Valid() {
      forall t :: t in types ==> types[t].Valid()
    }

    predicate Cached(t: TypeName) {
      t in types && types[t].cached
    }

    ghost predicate NeverRefused(c: ConnId, n: nat) {
      forall j :: 0 <= j < n ==> !refuses(c, j)
    }
  }

  /**
   A guest connection at the host. `sent` are the messages its channel took, in order; `at` names,
   for each of them, the point of the host's past at which it was handed over.
   */
  datatype Guest = Guest(state: ConnState, sent: seq<Message>, attempts: nat, at: seq<nat>)
  {
    predicate Open() {
      state != Closed
    }

    predicate EverRefused() {
      |sent| < attempts
    }
  }

  datatype Host = Host(pool: Pool, groups: map<TypeName, set<ConnId>>, guests: map<ConnId, Guest>,
                       past: seq<Pool>, astray: set<(ConnId, TypeName)>)
  {
    predicate Open(c: ConnId) {
      c in guests && guests[c].Open()
    }

    function OpenSet(): set<ConnId> {
      set c | c in guests && guests[c].Open()
    }

    function ClosedSet(): set<ConnId> {
      set c | c in guests && !guests[c].Open()
    }

    function Members(t: TypeName): set<ConnId> {
      if t in groups then groups[t] else {}
    }
  }

  // The id a host uses as a sender; guests get greater ids.
  const HOST_ID: nat := 1

  function ContentOf(pool: Pool, t: TypeName): View {
    if t in pool then pool[t] else map[]
  }

  // ----- Invariant -----

  ghost predicate Rising(points: seq<nat>, bound: nat) {
    && (forall n :: 0 <= n < |points| ==> points[n] < bound)
    && (forall m, n :: 0 <= m <= n < |points| ==> points[m] <= points[n])
  }

  // What a guest may still be sent between its first refusal and its end.
  predicate Parting(m: Message) {
    m.PeerError? || (m.Data? && m.header.removeObj)
  }

  /** After the first message its channel refused a guest gets nothing but removals and an error. */
  ghost predicate Late(cfg: Config, c: ConnId, g: Guest) {
    && (!g.EverRefused() ==> cfg.NeverRefused(c, g.attempts))
    && forall n :: 0 <= n < |g.sent| && !cfg.NeverRefused(c, n + 1) ==> Parting(g.sent[n])
  }

  ghost predicate GuestShape(cfg: Config, bound: nat, c: ConnId, g: Guest) {
    && |g.at| == |g.sent| <= g.attempts
    && Rising(g.at, bound)
    && (g.EverRefused() ==> !cfg.NeverRefused(c, |g.sent| + 1))
    && Late(cfg, c, g)
  }

  ghost predicate Shape(cfg: Config, s: Host) {
    && cfg.Valid()
    && HOST_ID !in s.guests
    && |s.past| > 0 && s.past[|s.past| - 1] == s.pool
    && (forall c :: c in s.guests ==> GuestShape(cfg, |s.past|, c, s.guests[c]))
    && (forall t, c :: c in s.Members(t) ==> s.Open(c))
    && (forall t :: t in s.pool ==> cfg.Cached(t) && !cfg.types[t].substructOnly && Described(cfg.types[t], s.pool[t]))
  }

  predicate CleanupEntry(cfg: Config, pool: Pool, t: TypeName, k: Instance, gone: set<ConnId>) {
    t in pool && t in cfg.types && cfg.types[t].cleanup && k in pool[t] && pool[t][k].lastUpdateFrom in gone
  }

  /**
   No cleanup container holds an instance last updated by a closed guest, except guests whose cleanup is
   under way.
   */
  ghost predicate Clean(cfg: Config, s: Host, closing: set<ConnId>) {
    && closing <= s.ClosedSet()
    && forall t, k :: !CleanupEntry(cfg, s.pool, t, k, s.ClosedSet() - closing)
  }

  /** What a guest has to hold of type `t`: the host's content once it is a member, nothing before. */
  function Target(s: Host, c: ConnId, t: TypeName): View {
    if c in s.Members(t) then ContentOf(s.pool, t) else map[]
  }

  ghost predicate Mirrored(cfg: Config, s: Host, c: ConnId, t: TypeName)
    requires c in s.guests && t in cfg.types
  {
    Fold(cfg.types[t], t, s.guests[c].sent) == Target(s, c, t)
  }

  /** The pairs the mirror claim is about: open, never refused, never astray, and not still being served. */
  ghost predicate Claimed(cfg: Config, s: Host, dirty: set<ConnId>, u: TypeName, skip: set<ConnId>, c: ConnId,
                          t: TypeName)
  {
    s.Open(c) && c !in dirty && cfg.Cached(t) && (c, t) !in s.astray && !(t == u && c in skip)
  }

  ghost predicate Mirrors(cfg: Config, s: Host, dirty: set<ConnId>, u: TypeName, skip: set<ConnId>) {
    && (forall c :: c in dirty ==> c in s.guests && s.guests[c].EverRefused())
    && (forall c :: s.Open(c) && s.guests[c].EverRefused() ==> c in dirty)
    && (forall c, t :: Claimed(cfg, s, dirty, u, skip, c, t) ==> Mirrored(cfg, s, c, t))
  }

  ghost predicate Ended(msgs: seq<Message>, t: TypeName) {
    CacheEnd(t) in msgs
  }

  ghost predicate Ends(cfg: Config, s: Host) {
    forall c, t :: s.Open(c) && (c, t) !in s.astray && Ended(s.guests[c].sent, t) ==> c in s.Members(t)
  }

  ghost predicate SeenAt(cfg: Config, past: seq<Pool>, g: Guest, t: TypeName, n: nat)
    requires n < |g.sent| && t in cfg.types
  {
    && n < |g.at| && g.at[n] < |past|
    && Fold(cfg.types[t], t, g.sent[..n + 1]) == ContentOf(past[g.at[n]], t)
  }

  ghost predicate GuestPast(cfg: Config, past: seq<Pool>, astray: set<(ConnId, TypeName)>, c: ConnId, g: Guest) {
    forall t, n: nat ::
      (cfg.Cached(t) && (c, t) !in astray && n < |g.sent| && Ended(g.sent[..n + 1], t) && cfg.NeverRefused(c, n + 1))
      ==> SeenAt(cfg, past, g, t, n)
  }

  /**
   A guest that consumed message `n`, at or after an end marker for `t`, holds exactly the content
   that was current at the host when that message was sent; the points it passes only move forward.
   */
  ghost predicate PastSeen(cfg: Config, s: Host) {
    forall c :: c in s.guests ==> GuestPast(cfg, s.past, s.astray, c, s.guests[c])
  }

  /** The invariant; the members `skip` of type `u` still have to be served. */
  ghost predicate InvBut(cfg: Config, s: Host, dirty: set<ConnId>, closing: set<ConnId>, u: TypeName,
                         skip: set<ConnId>)
  {
    && Shape(cfg, s)
    && Clean(cfg, s, closing)
    && Mirrors(cfg, s, dirty, u, skip)
    && Ends(cfg, s)
    && PastSeen(cfg, s)
  }

  ghost predicate Inv(cfg: Config, s: Host, dirty: set<ConnId>, closing: set<ConnId>) {
    InvBut(cfg, s, dirty, closing, "", {})
  }

  // ----- Handing a message to a channel -----

  predicate Accepts(cfg: Config, c: ConnId, g: Guest) {
    !cfg.refuses(c, g.attempts)
  }

  function Took(cfg: Config, now: nat, c: ConnId, g: Guest, m: Message): Guest {
    if Accepts(cfg, c, g) then g.(sent := g.sent + [m], attempts := g.attempts + 1, at := g.at + [now])
    else g.(attempts := g.attempts + 1)
  }

  function SentTo(cfg: Config, s: Host, c: ConnId, m: Message): Host
    requires c in s.guests && |s.past| > 0
  {
    s.(guests := s.guests[c := Took(cfg, |s.past| - 1, c, s.guests[c], m)])
  }

  function Marked(cfg: Config, s: Host, dirty: set<ConnId>, c: ConnId): set<ConnId>
    requires c in s.guests
  {
    if Accepts(cfg, c, s.guests[c]) then dirty else dirty + {c}
  }

  /**
   `m` may go to `c` now: it brings every type that is claimed afterwards, or that has ended for
   `c`, to where the host is, and it ends no type that `c` is not a member of.
   */
  ghost predicate Lands(cfg: Config, s: Host, dirty: set<ConnId>, u: TypeName, left: set<ConnId>, c: ConnId, m: Message)
    requires c in s.guests
  {
    && (m.CacheEnd? && (c, m.endOf) !in s.astray ==> c in s.Members(m.endOf))
    && forall t ::
         (c, t) !in s.astray && c !in dirty && cfg.Cached(t)
         && (!(t == u && c in left) || Ended(s.guests[c].sent + [m], t))
         ==> Consume(cfg.types[t], t, Fold(cfg.types[t], t, s.guests[c].sent), m) == Target(s, c, t)
  }

  lemma TookLate(cfg: Config, now: nat, c: ConnId, g: Guest, m: Message)
    requires Late(cfg, c, g) && |g.sent| <= g.attempts && (g.EverRefused() ==> Parting(m))
    ensures Late(cfg, c, Took(cfg, now, c, g, m))
  {
  }

  lemma TookShape(cfg: Config, now: nat, c: ConnId, g: Guest, m: Message)
    requires GuestShape(cfg, now + 1, c, g) && (g.EverRefused() ==> Parting(m))
    ensures GuestShape(cfg, now + 1, c, Took(cfg, now, c, g, m))
  {
    TookLate(cfg, now, c, g, m);
    hide Late;
    if Accepts(cfg, c, g) {
      assert g.EverRefused() ==> !cfg.NeverRefused(c, |g.sent| + 2);
    } else if |g.sent| == g.attempts {
      assert cfg.refuses(c, |g.sent|);
    }
  }

  lemma SendShape(cfg: Config, s: Host, c: ConnId, m: Message)
    requires Shape(cfg, s) && s.Open(c) && (s.guests[c].EverRefused() ==> Parting(m))
    ensures Shape(cfg, SentTo(cfg, s, c, m))
  {
    var s' := SentTo(cfg, s, c, m);
    TookShape(cfg, |s.past| - 1, c, s.guests[c], m);
    forall t, x | x in s'.Members(t)
      ensures s'.Open(x)
    {
      assert s'.Members(t) == s.Members(t) && x in s.Members(t);
      assert s.Open(x);
    }
  }

  lemma SendMirrors(cfg: Config, s: Host, dirty: set<ConnId>, u: TypeName, skip: set<ConnId>, left: set<ConnId>,
                    c: ConnId, m: Message)
    requires Shape(cfg, s) && Mirrors(cfg, s, dirty, u, skip) && s.Open(c)
    requires skip - {c} <= left <= skip
    requires Lands(cfg, s, dirty, u, left, c, m)
    ensures Mirrors(cfg, SentTo(cfg, s, c, m), Marked(cfg, s, dirty, c), u, left)
  {
    var s', dirty' := SentTo(cfg, s, c, m), Marked(cfg, s, dirty, c);
    forall x, t | Claimed(cfg, s', dirty', u, left, x, t)
      ensures Mirrored(cfg, s', x, t)
    {
      assert Target(s', x, t) == Target(s, x, t);
      if x == c {
        FoldAppend(cfg.types[t], t, s.guests[c].sent, m);
      } else {
        assert Claimed(cfg, s, dirty, u, skip, x, t);
        assert Mirrored(cfg, s, x, t);
      }
    }
  }

  lemma SendEnds(cfg: Config, s: Host, dirty: set<ConnId>, u: TypeName, left: set<ConnId>, c: ConnId, m: Message)
    requires Shape(cfg, s) && Ends(cfg, s) && s.Open(c) && Lands(cfg, s, dirty, u, left, c, m)
    ensures Ends(cfg, SentTo(cfg, s, c, m))
  {
    var s' := SentTo(cfg, s, c, m);
    forall x, t | s'.Open(x) && (x, t) !in s'.astray && Ended(s'.guests[x].sent, t)
      ensures x in s'.Members(t)
    {
      assert Ended(s.guests[x].sent, t) || (x == c && m == CacheEnd(t));
    }
  }

  lemma SendPast(cfg: Config, s: Host, dirty: set<ConnId>, u: TypeName, skip: set<ConnId>, left: set<ConnId>,
                 c: ConnId, m: Message)
    requires Shape(cfg, s) && Mirrors(cfg, s, dirty, u, skip) && Ends(cfg, s) && PastSeen(cfg, s) && s.Open(c)
    requires Lands(cfg, s, dirty, u, left, c, m)
    ensures PastSeen(cfg, SentTo(cfg, s, c, m))
  {
    hide Mirrors, Consume, Fold, GuestPast;
    SendPastOf(cfg, s, dirty, u, skip, left, c, m);
  }

  lemma SendPastOf(cfg: Config, s: Host, dirty: set<ConnId>, u: TypeName, skip: set<ConnId>, left: set<ConnId>,
                   c: ConnId, m: Message)
    requires Shape(cfg, s) && Mirrors(cfg, s, dirty, u, skip) && Ends(cfg, s) && PastSeen(cfg, s) && s.Open(c)
    requires Lands(cfg, s, dirty, u, left, c, m)
    ensures GuestPast(cfg, s.past, s.astray, c, Took(cfg, |s.past| - 1, c, s.guests[c], m))
  {
    hide Fold, Consume, Described;
    var g, g' := s.guests[c], Took(cfg, |s.past| - 1, c, s.guests[c], m);
    assert GuestPast(cfg, s.past, s.astray, c, g);
    forall t, n: nat | cfg.Cached(t) && (c, t) !in s.astray && n < |g'.sent| && Ended(g'.sent[..n + 1], t)
        && cfg.NeverRefused(c, n + 1)
      ensures SeenAt(cfg, s.past, g', t, n)
    {
      if n < |g.sent| {
        assert g'.sent[..n + 1] == g.sent[..n + 1];
        assert SeenAt(cfg, s.past, g, t, n);
      } else {
        assert g'.sent[..n + 1] == g.sent + [m];
        assert c !in dirty;
        assert Ended(g.sent, t) || m == CacheEnd(t);
        assert c in s.Members(t);
        FoldAppend(cfg.types[t], t, g.sent, m);
      }
    }
  }

  /** Handing one message to one open guest keeps the invariant, whether or not the channel takes it. */
  lemma SendKeeps(cfg: Config, s: Host, dirty: set<ConnId>, closing: set<ConnId>, u: TypeName, skip: set<ConnId>,
                  left: set<ConnId>, c: ConnId, m: Message)
    requires InvBut(cfg, s, dirty, closing, u, skip) && s.Open(c) && (c in dirty ==> Parting(m))
    requires skip - {c} <= left <= skip
    requires Lands(cfg, s, dirty, u, left, c, m)
    ensures InvBut(cfg, SentTo(cfg, s, c, m), Marked(cfg, s, dirty, c), closing, u, left)
  {
    SendShape(cfg, s, c, m);
    SendMirrors(cfg, s, dirty, u, skip, left, c, m);
    SendEnds(cfg, s, dirty, u, left, c, m);
    SendPast(cfg, s, dirty, u, skip, left, c, m);
    assert SentTo(cfg, s, c, m).ClosedSet() == s.ClosedSet();
  }

  /** Only the type a message is about, or the one still being served, needs an argument of its own. */
  lemma LandsIf(cfg: Config, s: Host, dirty: set<ConnId>, closing: set<ConnId>, u: TypeName, skip: set<ConnId>,
                left: set<ConnId>, c: ConnId, m: Message)
    requires InvBut(cfg, s, dirty, closing, u, skip) && s.Open(c)
    requires skip - {c} <= left <= skip
    requires m.CacheEnd? && (c, m.endOf) !in s.astray ==> c in s.Members(m.endOf)
    requires forall t :: ((m.Data? && m.typeName == t) || (t == u && c in skip))
               && cfg.Cached(t) && (c, t) !in s.astray && c !in dirty
                 && (!(t == u && c in left) || Ended(s.guests[c].sent + [m], t))
               ==> Consume(cfg.types[t], t, Fold(cfg.types[t], t, s.guests[c].sent), m) == Target(s, c, t)
    ensures Lands(cfg, s, dirty, u, left, c, m)
  {
    forall t | (c, t) !in s.astray && c !in dirty && cfg.Cached(t)
        && (!(t == u && c in left) || Ended(s.guests[c].sent + [m], t))
      ensures Consume(cfg.types[t], t, Fold(cfg.types[t], t, s.guests[c].sent), m) == Target(s, c, t)
    {
      if !((m.Data? && m.typeName == t) || (t == u && c in skip)) {
        assert Claimed(cfg, s, dirty, u, skip, c, t);
        assert Mirrored(cfg, s, c, t);
      }
    }
  }

  // ----- Updating the pool -----

  function Dispatched(cfg: Config, s: Host, t: TypeName, h: Header, i: Instance): Host
    requires t in cfg.types
  {
    var pool := s.pool[t := Apply(cfg.types[t], ContentOf(s.pool, t), h, i)];
    s.(pool := pool, past := s.past + [pool])
  }

  lemma PastGrows(cfg: Config, past: seq<Pool>, astray: set<(ConnId, TypeName)>, c: ConnId, g: Guest, next: Pool)
    requires GuestPast(cfg, past, astray, c, g)
    ensures GuestPast(cfg, past + [next], astray, c, g)
  {
    forall t, n: nat | cfg.Cached(t) && (c, t) !in astray && n < |g.sent| && Ended(g.sent[..n + 1], t)
        && cfg.NeverRefused(c, n + 1)
      ensures SeenAt(cfg, past + [next], g, t, n)
    {
      assert SeenAt(cfg, past, g, t, n);
      assert (past + [next])[g.at[n]] == past[g.at[n]];
    }
  }

  ghost predicate Fits(cfg: Config, t: TypeName, i: Instance) {
    && t in cfg.types && !cfg.types[t].substructOnly
    && cfg.types[t].keys <= i.Keys <= cfg.types[t].Properties()
  }

  lemma DispatchShape(cfg: Config, s: Host, t: TypeName, h: Header, i: Instance)
    requires Shape(cfg, s) && cfg.Cached(t) && Fits(cfg, t, i)
    ensures Shape(cfg, Dispatched(cfg, s, t, h, i))
  {
    ApplyKeepsDescribed(cfg.types[t], ContentOf(s.pool, t), h, i);
    var s' := Dispatched(cfg, s, t, h, i);
    forall u, c | c in s'.Members(u)
      ensures s'.Open(c)
    {
      assert c in s.Members(u) && s.Open(c);
    }
    forall c | c in s'.guests
      ensures GuestShape(cfg, |s'.past|, c, s'.guests[c])
    {
      assert GuestShape(cfg, |s.past|, c, s.guests[c]);
    }
  }

  lemma DispatchClean(cfg: Config, s: Host, closing: set<ConnId>, t: TypeName, h: Header, i: Instance)
    requires Clean(cfg, s, closing) && cfg.Cached(t)
    requires h.removeObj || h.sender !in s.ClosedSet()
    ensures Clean(cfg, Dispatched(cfg, s, t, h, i), closing)
  {
    var s' := Dispatched(cfg, s, t, h, i);
    assert s'.ClosedSet() == s.ClosedSet();
    var gone := s.ClosedSet() - closing;
    forall u, k
      ensures !CleanupEntry(cfg, s'.pool, u, k, gone)
    {
      assert !CleanupEntry(cfg, s.pool, u, k, gone);
    }
  }

  /** Updating the pool leaves exactly the members of the type behind, each of them at the old content. */
  lemma DispatchKeeps(cfg: Config, s: Host, dirty: set<ConnId>, closing: set<ConnId>, t: TypeName, h: Header,
                      i: Instance)
    requires Inv(cfg, s, dirty, closing) && cfg.Cached(t) && Fits(cfg, t, i)
    requires h.removeObj || h.sender !in s.ClosedSet()
    ensures InvBut(cfg, Dispatched(cfg, s, t, h, i), dirty, closing, t, s.Members(t))
    ensures forall c ::
        c in s.Members(t) && c !in dirty && (c, t) !in s.astray
        ==> c in s.guests && Fold(cfg.types[t], t, s.guests[c].sent) == ContentOf(s.pool, t)
  {
    var s' := Dispatched(cfg, s, t, h, i);
    DispatchShape(cfg, s, t, h, i);
    DispatchClean(cfg, s, closing, t, h, i);
    forall c | c in s.guests
      ensures GuestPast(cfg, s'.past, s.astray, c, s.guests[c])
    {
      assert GuestPast(cfg, s.past, s.astray, c, s.guests[c]);
      PastGrows(cfg, s.past, s.astray, c, s.guests[c], s'.pool);
    }
    forall c, u | Claimed(cfg, s', dirty, t, s.Members(t), c, u)
      ensures Mirrored(cfg, s', c, u)
    {
      assert Claimed(cfg, s, dirty, "", {}, c, u);
      assert Mirrored(cfg, s, c, u);
      assert s'.Members(u) == s.Members(u);
    }
    forall c | c in s.Members(t) && c !in dirty && (c, t) !in s.astray
      ensures c in s.guests && Fold(cfg.types[t], t, s.guests[c].sent) == ContentOf(s.pool, t)
    {
      assert s.Open(c);
      assert Claimed(cfg, s, dirty, "", {}, c, t);
      assert Mirrored(cfg, s, c, t);
    }
    forall c, u | s'.Open(c) && (c, u) !in s'.astray && Ended(s'.guests[c].sent, u)
      ensures c in s'.Members(u)
    {
      assert s.Open(c) && Ended(s.guests[c].sent, u);
      assert s'.Members(u) == s.Members(u);
    }
  }

  // ----- Closing a guest -----

  function Shut(s: Host, c: ConnId): Host
    requires c in s.guests
  {
    s.(guests := s.guests[c := s.guests[c].(state := Closed)], groups := map t | t in s.groups :: s.groups[t] - {c})
  }

  lemma ShutKeeps(cfg: Config, s: Host, dirty: set<ConnId>, closing: set<ConnId>, c: ConnId)
    requires Inv(cfg, s, dirty, closing) && c in s.guests
    ensures Inv(cfg, Shut(s, c), dirty, closing + {c})
    ensures forall t :: Shut(s, c).Members(t) == s.Members(t) - {c}
  {
    var s' := Shut(s, c);
    assert forall t :: s'.Members(t) == s.Members(t) - {c};
    assert s'.ClosedSet() == s.ClosedSet() + {c};
    assert s'.ClosedSet() - (closing + {c}) <= s.ClosedSet() - closing;
    forall x | x in s'.guests
      ensures GuestShape(cfg, |s.past|, x, s'.guests[x]) && GuestPast(cfg, s.past, s.astray, x, s'.guests[x])
    {
      assert GuestShape(cfg, |s.past|, x, s.guests[x]) && GuestPast(cfg, s.past, s.astray, x, s.guests[x]);
      SameSentSamePast(cfg, s.past, s.astray, x, s.guests[x], s'.guests[x]);
    }
    forall t, k
      ensures !CleanupEntry(cfg, s'.pool, t, k, s'.ClosedSet() - (closing + {c}))
    {
      assert !CleanupEntry(cfg, s.pool, t, k, s.ClosedSet() - closing);
    }
    forall x, t | Claimed(cfg, s', dirty, "", {}, x, t)
      ensures Mirrored(cfg, s', x, t)
    {
      assert Claimed(cfg, s, dirty, "", {}, x, t);
      assert Mirrored(cfg, s, x, t);
    }
    forall x, t | x in s'.Members(t)
      ensures s'.Open(x)
    {
      assert x in s.Members(t) && s.Open(x);
    }
    forall x, t | s'.Open(x) && (x, t) !in s'.astray && Ended(s'.guests[x].sent, t)
      ensures x in s'.Members(t)
    {
      assert s.Open(x) && Ended(s.guests[x].sent, t);
    }
  }

  /** A closed guest is no longer claimed, so it need not be listed as refused. */
  lemma DropClosed(cfg: Config, s: Host, dirty: set<ConnId>, less: set<ConnId>, closing: set<ConnId>)
    requires Inv(cfg, s, dirty, closing) && less <= dirty
    requires forall c :: c in dirty - less ==> !s.Open(c)
    ensures Inv(cfg, s, less, closing)
  {
    forall c, t | Claimed(cfg, s, less, "", {}, c, t)
      ensures Mirrored(cfg, s, c, t)
    {
      assert Claimed(cfg, s, dirty, "", {}, c, t);
    }
  }

  lemma SameSentSamePast(cfg: Config, past: seq<Pool>, astray: set<(ConnId, TypeName)>, c: ConnId, g: Guest, g': Guest)
    requires GuestPast(cfg, past, astray, c, g) && g'.sent == g.sent && g'.at == g.at
    ensures GuestPast(cfg, past, astray, c, g')
  {
    forall t, n: nat | cfg.Cached(t) && (c, t) !in astray && n < |g'.sent| && Ended(g'.sent[..n + 1], t)
        && cfg.NeverRefused(c, n + 1)
      ensures SeenAt(cfg, past, g', t, n)
    {
      assert SeenAt(cfg, past, g, t, n);
    }
  }

  // ----- What a cascade of closes does to a pool -----

  type Entries = set<(TypeName, Instance)>

  /** The cleanup instances last updated by a guest in `gone`. */
  function Owned(cfg: Config, pool: Pool, gone: set<ConnId>): Entries {
    set t, k | t in pool && k in pool[t] && CleanupEntry(cfg, pool, t, k, gone) :: (t, k)
  }

  function Minus(pool: Pool, gone: Entries): Pool {
    map t | t in pool :: map k | k in pool[t] && (t, k) !in gone :: pool[t][k]
  }

  lemma MinusTwice(pool: Pool, a: Entries, b: Entries)
    ensures Minus(Minus(pool, a), b) == Minus(pool, a + b)
  {
    forall t | t in pool
      ensures Minus(Minus(pool, a), b)[t] == Minus(pool, a + b)[t]
    {
      assert Minus(pool, a)[t].Keys <= pool[t].Keys;
    }
  }

  lemma MinusNothing(pool: Pool)
    ensures Minus(pool, {}) == pool
  {
    assert forall t :: t in pool ==> Minus(pool, {})[t] == pool[t];
  }

  lemma OwnedMinus(cfg: Config, pool: Pool, a: Entries, gone: set<ConnId>)
    ensures Owned(cfg, Minus(pool, a), gone) == Owned(cfg, pool, gone) - a
  {
  }

  lemma OwnedUnion(cfg: Config, pool: Pool, m: set<ConnId>, n: set<ConnId>)
    ensures Owned(cfg, pool, m + n) == Owned(cfg, pool, m) + Owned(cfg, pool, n)
  {
  }

  ghost predicate LaterGuest(g: Guest, g': Guest) {
    && g.sent <= g'.sent
    && g.attempts <= g'.attempts
    && (g'.state == g.state || g'.state == Closed)
    && (g.state == Closed ==> g' == g)
  }

  /**
   `s'` follows from `s` by removing the entries `removed`, closing some guests, and for each guest
   closed on the way: it left every group, and the cleanup instances it updated last are gone.
   */
  ghost predicate After(cfg: Config, s: Host, s': Host, removed: Entries) {
    var shut := s'.ClosedSet() - s.ClosedSet();
    && s'.guests.Keys == s.guests.Keys
    && (forall c :: c in s.guests ==> LaterGuest(s.guests[c], s'.guests[c]))
    && (forall t :: s'.Members(t) == s.Members(t) - shut)
    && s'.pool == Minus(s.pool, removed + Owned(cfg, s.pool, shut))
    && s'.astray == s.astray
    && s.past <= s'.past
  }

  /**
   Guests keep what they were sent, closed ones stay as they are, and open ones stay in their groups but
   for `left`.
   */
  ghost predicate Remains(s: Host, s': Host, left: set<(ConnId, TypeName)>) {
    && (forall c :: c in s.guests ==>
          && c in s'.guests && s.guests[c].sent <= s'.guests[c].sent
          && (!s.guests[c].Open() ==> s'.guests[c] == s.guests[c]))
    && forall t, c :: c in s.Members(t) && s'.Open(c) && (c, t) !in left ==> c in s'.Members(t)
  }

  /**
   A cascade takes away just the entries that were to be removed and, of cleanup types, those last
   updated by a guest that was closed on the way.
   */
  lemma AfterExact(cfg: Config, s: Host, s': Host, removed: Entries, t: TypeName, k: Instance)
    requires After(cfg, s, s', removed) && t in s.pool && k in s.pool[t]
    ensures t in s'.pool && (k in s'.pool[t] ==> s'.pool[t][k] == s.pool[t][k])
    ensures var last := s.pool[t][k].lastUpdateFrom;
            k !in s'.pool[t] <==>
              (t, k) in removed || (t in cfg.types && cfg.types[t].cleanup && s.Open(last) && !s'.Open(last))
    ensures forall u :: u in s'.pool ==> u in s.pool && s'.pool[u].Keys <= s.pool[u].Keys
  {
    var last := s.pool[t][k].lastUpdateFrom;
    if last in s.guests {
      assert LaterGuest(s.guests[last], s'.guests[last]);
    }
    assert (t, k) in Owned(cfg, s.pool, s'.ClosedSet() - s.ClosedSet()) <==>
      t in cfg.types && cfg.types[t].cleanup && s.Open(last) && !s'.Open(last);
  }

  lemma AfterRemains(cfg: Config, s: Host, s': Host, removed: Entries)
    requires After(cfg, s, s', removed)
    ensures Remains(s, s', {})
  {
    hide Owned, Minus;
    forall c | c in s.guests
      ensures c in s'.guests && s.guests[c].sent <= s'.guests[c].sent && (!s.guests[c].Open()
          ==> s'.guests[c] == s.guests[c])
    {
      assert LaterGuest(s.guests[c], s'.guests[c]);
    }
    forall t, c | c in s.Members(t) && s'.Open(c)
      ensures c in s'.Members(t)
    {
      assert s'.Members(t) == s.Members(t) - (s'.ClosedSet() - s.ClosedSet());
    }
  }

  lemma RemainsTrans(s: Host, s1: Host, s2: Host, a: set<(ConnId, TypeName)>, b: set<(ConnId, TypeName)>)
    requires Remains(s, s1, a) && Remains(s1, s2, b)
    requires forall t, c :: c in s.Members(t) ==> c in s.guests
    ensures Remains(s, s2, a + b)
  {
    forall t, c | c in s.Members(t) && s2.Open(c) && (c, t) !in a + b
      ensures c in s2.Members(t)
    {
      if !s1.Open(c) {
        assert s2.guests[c] == s1.guests[c];
      }
    }
  }

  lemma AfterItself(cfg: Config, s: Host)
    ensures After(cfg, s, s, {})
  {
    var shut := s.ClosedSet() - s.ClosedSet();
    assert shut == {};
    assert {} + Owned(cfg, s.pool, shut) == {};
    MinusNothing(s.pool);
  }

  lemma AfterPool(cfg: Config, pool: Pool, a: Entries, m: set<ConnId>, b: Entries, n: set<ConnId>)
    ensures var mid := Minus(pool, a + Owned(cfg, pool, m));
            Minus(mid, b + Owned(cfg, mid, n)) == Minus(pool, a + b + Owned(cfg, pool, m + n))
  {
    var gone := a + Owned(cfg, pool, m);
    OwnedMinus(cfg, pool, gone, n);
    OwnedUnion(cfg, pool, m, n);
    MinusTwice(pool, gone, b + (Owned(cfg, pool, n) - gone));
    assert gone + (b + (Owned(cfg, pool, n) - gone)) == a + b + Owned(cfg, pool, m + n);
  }

  lemma AfterTrans(cfg: Config, s: Host, s1: Host, s2: Host, a: Entries, b: Entries)
    requires After(cfg, s, s1, a) && After(cfg, s1, s2, b)
    ensures After(cfg, s, s2, a + b)
  {
    var m, n := s1.ClosedSet() - s.ClosedSet(), s2.ClosedSet() - s1.ClosedSet();
    assert forall c :: c in s.ClosedSet() ==> c in s1.ClosedSet() by {
      forall c | c in s.ClosedSet() ensures c in s1.ClosedSet() {
        assert LaterGuest(s.guests[c], s1.guests[c]);
      }
    }
    assert forall c :: c in s1.ClosedSet() ==> c in s2.ClosedSet() by {
      forall c | c in s1.ClosedSet() ensures c in s2.ClosedSet() {
        assert LaterGuest(s1.guests[c], s2.guests[c]);
      }
    }
    assert s2.ClosedSet() - s.ClosedSet() == m + n;
    forall c | c in s.guests
      ensures LaterGuest(s.guests[c], s2.guests[c])
    {
      assert LaterGuest(s.guests[c], s1.guests[c]) && LaterGuest(s1.guests[c], s2.guests[c]);
    }
    forall t
      ensures s2.Members(t) == s.Members(t) - (m + n)
    {
      assert s1.Members(t) == s.Members(t) - m && s2.Members(t) == s1.Members(t) - n;
    }
    AfterPool(cfg, s.pool, a, m, b, n);
  }

  lemma AfterCascade(cfg: Config, s: Host, s1: Host, s2: Host)
    requires After(cfg, s, s1, {}) && After(cfg, s1, s2, {})
    ensures After(cfg, s, s2, {})
  {
    hide After;
    AfterTrans(cfg, s, s1, s2, {}, {});
    var nothing: Entries := {};
    assert nothing + nothing == nothing;
  }

  /** What a method needs to know of the invariant to go on. */
  lemma InvFacts(cfg: Config, s: Host, dirty: set<ConnId>, closing: set<ConnId>, u: TypeName, skip: set<ConnId>)
    requires InvBut(cfg, s, dirty, closing, u, skip)
    ensures |s.past| > 0 && cfg.Valid() && HOST_ID !in s.guests
    ensures closing <= s.ClosedSet()
    ensures forall t, c :: c in s.Members(t) ==> s.Open(c)
    ensures forall t :: t in s.pool ==> t in cfg.types && Described(cfg.types[t], s.pool[t])
  {
  }

  lemma OpenShrinks(cfg: Config, s: Host, s': Host, removed: Entries)
    requires After(cfg, s, s', removed)
    ensures s'.OpenSet() <= s.OpenSet() && s.ClosedSet() <= s'.ClosedSet() && s'.guests.Keys == s.guests.Keys
  {
    forall c | c in s.guests
      ensures s'.Open(c) ==> s.Open(c)
    {
      assert LaterGuest(s.guests[c], s'.guests[c]);
    }
  }

  lemma SendAfter(cfg: Config, s: Host, c: ConnId, m: Message)
    requires Shape(cfg, s) && s.Open(c)
    ensures After(cfg, s, SentTo(cfg, s, c, m), {})
    ensures SentTo(cfg, s, c, m).ClosedSet() == s.ClosedSet()
  {
    AfterItself(cfg, s);
    var s' := SentTo(cfg, s, c, m);
    assert s'.ClosedSet() == s.ClosedSet();
    forall t
      ensures s'.Members(t) == s.Members(t) - (s'.ClosedSet() - s.ClosedSet())
    {
    }
  }

  /** Closing `c` and then removing what it updated last, in whatever cascade, is one step of `After`. */
  lemma CloseAfter(cfg: Config, s: Host, c: ConnId, s': Host)
    requires Shape(cfg, s) && c in s.guests
    requires s.Open(c) || Owned(cfg, s.pool, {c}) == {}
    requires After(cfg, Shut(s, c), s', Owned(cfg, s.pool, {c}))
    ensures After(cfg, s, s', {})
  {
    hide LaterGuest, Owned, Minus, GuestShape, Described;
    var mid := Shut(s, c);
    ShutClosed(s, c);
    OpenShrinks(cfg, mid, s', Owned(cfg, s.pool, {c}));
    var n, shut := s'.ClosedSet() - mid.ClosedSet(), s'.ClosedSet() - s.ClosedSet();
    assert shut == if s.Open(c) then n + {c} else n;
    OwnedUnion(cfg, s.pool, n, {c});
    assert {} + Owned(cfg, s.pool, shut) == Owned(cfg, s.pool, {c}) + Owned(cfg, s.pool, n);
    CloseGuests(cfg, s, c, s');
    CloseMembers(cfg, s, c, s');
  }

  lemma ShutClosed(s: Host, c: ConnId)
    requires c in s.guests
    ensures Shut(s, c).ClosedSet() == s.ClosedSet() + {c} && (s.Open(c) <==> c !in s.ClosedSet())
    ensures Shut(s, c).pool == s.pool && Shut(s, c).guests.Keys == s.guests.Keys && Shut(s, c).astray == s.astray
        && Shut(s, c).past == s.past
  {
  }

  lemma CloseGuests(cfg: Config, s: Host, c: ConnId, s': Host)
    requires c in s.guests && After(cfg, Shut(s, c), s', Owned(cfg, s.pool, {c}))
    ensures forall x :: x in s.guests ==> LaterGuest(s.guests[x], s'.guests[x])
  {
    hide Owned, Minus;
    var mid := Shut(s, c);
    forall x | x in s.guests
      ensures LaterGuest(s.guests[x], s'.guests[x])
    {
      assert LaterGuest(mid.guests[x], s'.guests[x]);
    }
  }

  lemma CloseMembers(cfg: Config, s: Host, c: ConnId, s': Host)
    requires Shape(cfg, s) && c in s.guests && After(cfg, Shut(s, c), s', Owned(cfg, s.pool, {c}))
    ensures forall t :: s'.Members(t) == s.Members(t) - (s'.ClosedSet() - s.ClosedSet())
  {
    hide Owned, Minus, LaterGuest, GuestShape, Described;
    var mid := Shut(s, c);
    ShutClosed(s, c);
    OpenShrinks(cfg, mid, s', Owned(cfg, s.pool, {c}));
    assert s'.ClosedSet() - s.ClosedSet() == (s'.ClosedSet() - mid.ClosedSet()) + ({c} - s.ClosedSet());
    forall t
      ensures s'.Members(t) == s.Members(t) - (s'.ClosedSet() - s.ClosedSet())
    {
      assert s'.Members(t) == mid.Members(t) - (s'.ClosedSet() - mid.ClosedSet());
      assert mid.Members(t) == s.Members(t) - {c};
      assert c in s.Members(t) ==> s.Open(c);
    }
  }

  /** Once what `c` updated last is removed, its cleanup is over. */
  lemma CleanupDone(cfg: Config, s: Host, c: ConnId, s': Host, closing: set<ConnId>)
    requires Clean(cfg, s', closing + {c}) && c !in closing
    requires After(cfg, s, s', Owned(cfg, s.pool, {c}))
    ensures Clean(cfg, s', closing)
  {
    forall t, k
      ensures !CleanupEntry(cfg, s'.pool, t, k, s'.ClosedSet() - closing)
    {
      assert !CleanupEntry(cfg, s'.pool, t, k, s'.ClosedSet() - (closing + {c}));
      assert CleanupEntry(cfg, s.pool, t, k, {c}) ==> (t, k) in Owned(cfg, s.pool, {c});
    }
  }

  lemma AstrayKeeps(cfg: Config, s: Host, dirty: set<ConnId>, closing: set<ConnId>, u: TypeName, skip: set<ConnId>,
                    more: set<(ConnId, TypeName)>)
    requires InvBut(cfg, s, dirty, closing, u, skip)
    ensures InvBut(cfg, s.(astray := s.astray + more), dirty, closing, u, skip)
  {
    var s' := s.(astray := s.astray + more);
    assert s'.ClosedSet() == s.ClosedSet();
    forall t, c | c in s'.Members(t)
      ensures s'.Open(c)
    {
      assert c in s.Members(t) && s.Open(c);
    }
    forall c | c in s.guests
      ensures GuestPast(cfg, s.past, s'.astray, c, s.guests[c])
    {
      assert GuestPast(cfg, s.past, s.astray, c, s.guests[c]);
    }
    forall c, t | Claimed(cfg, s', dirty, u, skip, c, t)
      ensures Mirrored(cfg, s', c, t)
    {
      assert Claimed(cfg, s, dirty, u, skip, c, t);
      assert Mirrored(cfg, s, c, t);
    }
    forall c, t | s'.Open(c) && (c, t) !in s'.astray && Ended(s'.guests[c].sent, t)
      ensures c in s'.Members(t)
    {
      assert s.Open(c) && Ended(s.guests[c].sent, t);
    }
  }

  function Regrouped(s: Host, t: TypeName, members: set<ConnId>): Host {
    s.(groups := s.groups[t := members])
  }

  /** Joining a group: only the pair itself still has to be served, and only if it is a first join. */
  lemma JoinKeeps(cfg: Config, s: Host, c: ConnId, t: TypeName)
    requires Inv(cfg, s, {}, {}) && s.Open(c)
    ensures InvBut(cfg, Regrouped(s, t, s.Members(t) + {c}), {}, {}, t, if c in s.Members(t) then {} else {c})
    ensures cfg.Cached(t) && (c, t) !in s.astray ==>
              if c in s.Members(t) then Fold(cfg.types[t], t, s.guests[c].sent) == ContentOf(s.pool, t)
              else Fold(cfg.types[t], t, s.guests[c].sent) == map[] && !Ended(s.guests[c].sent, t)
  {
    var s', skip := Regrouped(s, t, s.Members(t) + {c}), if c in s.Members(t) then {} else {c};
    assert s'.ClosedSet() == s.ClosedSet();
    assert forall u :: s'.Members(u) == if u == t then s.Members(t) + {c} else s.Members(u);
    forall u, x | x in s'.Members(u)
      ensures s'.Open(x)
    {
      assert x == c || (x in s.Members(u) && s.Open(x));
    }
    forall x, u | Claimed(cfg, s', {}, t, skip, x, u)
      ensures Mirrored(cfg, s', x, u)
    {
      assert Claimed(cfg, s, {}, "", {}, x, u);
      assert Mirrored(cfg, s, x, u);
    }
    if cfg.Cached(t) && (c, t) !in s.astray {
      assert Claimed(cfg, s, {}, "", {}, c, t);
      assert Mirrored(cfg, s, c, t);
    }
    forall x, u | s'.Open(x) && (x, u) !in s'.astray && Ended(s'.guests[x].sent, u)
      ensures x in s'.Members(u)
    {
      assert s.Open(x) && Ended(s.guests[x].sent, u);
    }
  }

  lemma LeaveKeeps(cfg: Config, s: Host, c: ConnId, t: TypeName)
    requires Inv(cfg, s, {}, {})
    ensures Inv(cfg, Regrouped(s, t, s.Members(t) - {c}).(astray := s.astray + {(c, t)}), {}, {})
  {
    var s' := Regrouped(s, t, s.Members(t) - {c}).(astray := s.astray + {(c, t)});
    assert s'.ClosedSet() == s.ClosedSet();
    assert forall u :: s'.Members(u) == if u == t then s.Members(t) - {c} else s.Members(u);
    forall u, x | x in s'.Members(u)
      ensures s'.Open(x)
    {
      assert x in s.Members(u) && s.Open(x);
    }
    forall x | x in s.guests
      ensures GuestPast(cfg, s.past, s'.astray, x, s.guests[x])
    {
      assert GuestPast(cfg, s.past, s.astray, x, s.guests[x]);
    }
    forall x, u | Claimed(cfg, s', {}, "", {}, x, u)
      ensures Mirrored(cfg, s', x, u)
    {
      assert Claimed(cfg, s, {}, "", {}, x, u);
      assert Mirrored(cfg, s, x, u);
    }
    forall x, u | s'.Open(x) && (x, u) !in s'.astray && Ended(s'.guests[x].sent, u)
      ensures x in s'.Members(u)
    {
      assert s.Open(x) && Ended(s.guests[x].sent, u);
    }
  }
}
