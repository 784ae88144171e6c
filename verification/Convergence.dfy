/**
 What the host's invariant means for its guests. A guest's container of type `t` after it consumed
 the first `n` messages sent to it is `Fold(d, t, sent[..n])`; the rest is what is still under way.
 */
module Convergence {
  import opened Replica
  import opened HostState
  import opened HostTransceivers

  function Held(cfg: Config, s: Host, c: ConnId, t: TypeName, n: nat): View
    requires c in s.guests && n <= |s.guests[c].sent| && t in cfg.types
  {
    Fold(cfg.types[t], t, s.guests[c].sent[..n])
  }

  /** However far a member has read, folding what is under way into its container gives the host's content. */
  lemma Converges(cfg: Config, s: Host, c: ConnId, t: TypeName, n: nat)
    requires Inv(cfg, s, {}, {})
    requires c in s.Members(t) && cfg.Cached(t) && (c, t) !in s.astray
    requires c in s.guests && n <= |s.guests[c].sent|
    ensures ConsumeAll(cfg.types[t], t, Held(cfg, s, c, t, n), s.guests[c].sent[n..]) == ContentOf(s.pool, t)
  {
    var sent := s.guests[c].sent;
    assert s.Open(c);
    assert Claimed(cfg, s, {}, "", {}, c, t);
    assert Mirrored(cfg, s, c, t);
    assert sent[..n] + sent[n..] == sent;
    FoldConsumeAll(cfg.types[t], t, sent[..n], sent[n..]);
  }

  /** Instances may be missing; those that are there are the same. */
  ghost predicate Within(v: View, w: View) {
    forall k :: k in v ==> k in w && v[k] == w[k]
  }

  lemma PartingShrinks(d: StructType, t: TypeName, v: View, m: Message)
    requires Parting(m)
    ensures Within(Consume(d, t, v, m), v)
  {
  }

  // The last message up to `n` that went out before the channel refused one; an end marker is such a message.
  lemma {:induction false} BeforeRefusal(cfg: Config, s: Host, c: ConnId, t: TypeName, e: nat, n: nat) returns (p: nat)
    requires c in s.guests && Late(cfg, c, s.guests[c]) && t in cfg.types
    requires e <= n < |s.guests[c].sent| && s.guests[c].sent[e] == CacheEnd(t)
    ensures e <= p <= n && cfg.NeverRefused(c, p + 1) && (p < n ==> !cfg.NeverRefused(c, p + 2))
    ensures Within(Held(cfg, s, c, t, n + 1), Held(cfg, s, c, t, p + 1))
    decreases n
  {
    hide Consume, Fold;
    if cfg.NeverRefused(c, n + 1) {
      p := n;
    } else {
      var sent := s.guests[c].sent;
      assert Parting(sent[n]) && n > e;
      p := BeforeRefusal(cfg, s, c, t, e, n - 1);
      assert sent[..n + 1] == sent[..n] + [sent[n]];
      FoldAppend(cfg.types[t], t, sent[..n], sent[n]);
      PartingShrinks(cfg.types[t], t, Fold(cfg.types[t], t, sent[..n]), sent[n]);
    }
  }

  /**
   What a guest holds after message `n` is the host's content at point `p`; from a refusal on instances
   may be missing.
   */
  ghost predicate Past(cfg: Config, s: Host, c: ConnId, t: TypeName, n: nat, p: nat)
    requires c in s.guests && n < |s.guests[c].sent| && t in cfg.types && p < |s.past|
  {
    && Within(Held(cfg, s, c, t, n + 1), ContentOf(s.past[p], t))
    && (cfg.NeverRefused(c, n + 1) ==> Held(cfg, s, c, t, n + 1) == ContentOf(s.past[p], t))
  }

  lemma HeldPast(cfg: Config, s: Host, c: ConnId, t: TypeName, e: nat, n: nat) returns (p: nat)
    requires Inv(cfg, s, {}, {})
    requires c in s.guests && cfg.Cached(t) && (c, t) !in s.astray
    requires e <= n < |s.guests[c].sent| && s.guests[c].sent[e] == CacheEnd(t)
    ensures e <= p <= n && cfg.NeverRefused(c, p + 1) && (p < n ==> !cfg.NeverRefused(c, p + 2))
    ensures p < |s.guests[c].at| && s.guests[c].at[p] < |s.past| && Past(cfg, s, c, t, n, s.guests[c].at[p])
  {
    hide Fold;
    var g := s.guests[c];
    assert GuestShape(cfg, |s.past|, c, g) && GuestPast(cfg, s.past, s.astray, c, g);
    p := BeforeRefusal(cfg, s, c, t, e, n);
    assert g.sent[..p + 1][e] == CacheEnd(t);
    assert SeenAt(cfg, s.past, g, t, p);
  }

  /**
   Once a guest has consumed an end marker for `t` it holds, after every further message, a content
   the host had at some point, and the points only move forward. This holds for closed guests as
   well. From the first message its channel refused until it is closed, a guest holds a content the
   host had less some instances.
   */
  lemma PrefixConsistent(cfg: Config, s: Host, c: ConnId, t: TypeName, e: nat, m: nat, n: nat)
    requires Inv(cfg, s, {}, {})
    requires c in s.guests && cfg.Cached(t) && (c, t) !in s.astray
    requires e <= m <= n < |s.guests[c].sent| && s.guests[c].sent[e] == CacheEnd(t)
    ensures exists p, q :: 0 <= p <= q < |s.past| && Past(cfg, s, c, t, m, p) && Past(cfg, s, c, t, n, q)
    ensures s.guests[c].EverRefused() ==> !s.Open(c)
  {
    hide Past, Held;
    var g := s.guests[c];
    assert GuestShape(cfg, |s.past|, c, g);
    var i := HeldPast(cfg, s, c, t, e, m);
    var j := HeldPast(cfg, s, c, t, e, n);
    assert i <= j && g.at[i] <= g.at[j];
  }

  /** A closed guest is in no group and no cleanup container holds an instance it updated last. */
  lemma ClosedIsForgotten(cfg: Config, s: Host, c: ConnId, t: TypeName, k: Instance)
    requires Inv(cfg, s, {}, {})
    requires c in s.guests && !s.Open(c)
    ensures c !in s.Members(t)
    ensures t in s.pool && cfg.types[t].cleanup && k in s.pool[t] ==> s.pool[t][k].lastUpdateFrom != c
  {
    assert c in s.Members(t) ==> s.Open(c);
    assert !CleanupEntry(cfg, s.pool, t, k, s.ClosedSet() - {});
  }

  /** A content of type `t` that the host never had. */
  ghost predicate NeverHad(s: Host, t: TypeName, v: View) {
    forall p :: 0 <= p < |s.past| ==> v != ContentOf(s.past[p], t)
  }

  ghost predicate OffPast(cfg: Config, s: Host, c: ConnId, t: TypeName, n: nat) {
    && c in s.guests && cfg.Cached(t) && (c, t) !in s.astray
    && n < |s.guests[c].sent| && Ended(s.guests[c].sent[..n], t) && NeverHad(s, t, Held(cfg, s, c, t, n + 1))
  }

  // ----- Runs of a host -----

  // A request of a guest, or anything else: a publish of the host itself, a new guest.
  datatype Event = Asked(c: ConnId, r: Request) | Other

  ghost predicate Moves(cfg: Config, s: Host, e: Event, s': Host) {
    && Inv(cfg, s', {}, {})
    && match e
       case Asked(c, r) =>
         && c in s.guests && c in s'.guests && r.Valid(cfg) && Remains(s, s', Leaving(c, r))
         && (s'.Open(c) ==> Answered(cfg, s, s', c, r))
       case Other => Remains(s, s', {})
  }

  ghost predicate Trace(cfg: Config, states: seq<Host>, events: seq<Event>) {
    && |states| == |events| + 1 && Inv(cfg, states[0], {}, {})
    && forall k :: 0 <= k < |events| ==> Moves(cfg, states[k], events[k], states[k + 1])
  }

  /** A publish of the host, the arrival of a guest, and a guest that fails or leaves by itself are such events. */
  lemma OtherMoves(cfg: Config, s: Host, s': Host, t: TypeName, h: Header, i: Instance, c: ConnId)
    requires Inv(cfg, s', {}, {})
    requires
      || (t in cfg.types && After(cfg, Published(cfg, s, t, h, i), s', {}))
      || After(cfg, s, s', {})
      || (c !in s.guests && s' == s.(guests := s.guests[c := Guest(EarlySubscribe, [], 0, [])]))
    ensures Moves(cfg, s, Other, s')
  {
    hide Inv, After;
    if t in cfg.types && After(cfg, Published(cfg, s, t, h, i), s', {}) {
      AfterRemains(cfg, Published(cfg, s, t, h, i), s', {});
    } else if After(cfg, s, s', {}) {
      AfterRemains(cfg, s, s', {});
    }
  }

  lemma {:induction false} StaysMember(cfg: Config, states: seq<Host>, events: seq<Event>, c: ConnId, t: TypeName,
                                       j: nat, k: nat)
    requires Trace(cfg, states, events) && j <= k <= |events|
    requires c in states[j].Members(t) && states[k].Open(c) && c in states[j].guests
    requires forall i :: j <= i < k ==> events[i] != Asked(c, Leave(t))
    ensures c in states[k].Members(t) && states[j].Open(c)
    decreases k
  {
    hide Inv, Answered;
    if j < k {
      SentGrows(cfg, states, events, c, j, k - 1);
      assert Moves(cfg, states[k - 1], events[k - 1], states[k]);
      StaysMember(cfg, states, events, c, t, j, k - 1);
    }
  }

  lemma {:induction false} SentGrows(cfg: Config, states: seq<Host>, events: seq<Event>, c: ConnId, j: nat, k: nat)
    requires Trace(cfg, states, events) && j <= k <= |events| && c in states[j].guests
    ensures c in states[k].guests && states[j].guests[c].sent <= states[k].guests[c].sent
    decreases k
  {
    hide Inv, Answered;
    if j < k {
      SentGrows(cfg, states, events, c, j, k - 1);
      assert Moves(cfg, states[k - 1], events[k - 1], states[k]);
    }
  }

  /**
   Preloading: a guest that joined `t` before its preloading was finished holds, when it has consumed
   the end of the preloading, exactly what the host held when it sent that. This is for any run of
   requests by this and other guests in between and afterwards.
   */
  lemma PreloadCompleteness(cfg: Config, states: seq<Host>, events: seq<Event>, c: ConnId, t: TypeName, j: nat,
                            f: nat, last: nat)
    requires Trace(cfg, states, events) && j < f < last <= |events|
    requires events[j] == Asked(c, Join(t)) && events[f] == Asked(c, PreloadClientFinished)
    requires forall i :: j < i < f ==> events[i] != Asked(c, Leave(t))
    requires cfg.Cached(t) && states[f + 1].Open(c) && (c, t) !in states[f + 1].astray
    ensures c in states[last].guests
    ensures exists n: nat ::
              && n < |states[last].guests[c].sent| && states[last].guests[c].sent[n] == PreloadFinished
              && Held(cfg, states[last], c, t, n + 1) == ContentOf(states[f].pool, t)
  {
    hide Inv, Fold, Served;
    assert Moves(cfg, states[j], events[j], states[j + 1]) && Moves(cfg, states[f], events[f], states[f + 1]);
    SentGrows(cfg, states, events, c, j + 1, f);
    assert states[f].Open(c);
    OpenBefore(cfg, states, events, c, j + 1, f);
    assert c in states[j + 1].Members(t);
    StaysMember(cfg, states, events, c, t, j + 1, f + 1);
    SentGrows(cfg, states, events, c, f + 1, last);
    var sent, later := states[f + 1].guests[c].sent, states[last].guests[c].sent;
    Converges(cfg, states[f + 1], c, t, |sent|);
    assert sent[..|sent|] == sent && sent[|sent|..] == [];
    assert later[..|sent|] == sent;
    var n: nat := |sent| - 1;
    assert later[n] == sent[n] == PreloadFinished;
    assert Held(cfg, states[last], c, t, n + 1) == Fold(cfg.types[t], t, sent);
  }

  lemma {:induction false} OpenBefore(cfg: Config, states: seq<Host>, events: seq<Event>, c: ConnId, j: nat, k: nat)
    requires Trace(cfg, states, events) && j <= k <= |events| && c in states[j].guests && states[k].Open(c)
    ensures states[j].Open(c)
    decreases k
  {
    hide Inv, Answered;
    if j < k {
      SentGrows(cfg, states, events, c, j, k - 1);
      assert Moves(cfg, states[k - 1], events[k - 1], states[k]);
      OpenBefore(cfg, states, events, c, j, k - 1);
    }
  }
}
