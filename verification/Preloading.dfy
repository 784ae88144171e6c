/**
 The handshake and the host's containers together: what the messages of a connecting guest ask of
 the host, and what the guest therefore holds once it is connected.
 */
module Preloading {
  import opened Replica
  import opened HostState
  import opened HostTransceivers
  import opened Convergence
  import H = Handshake

  /** What a message consumed by the host is to its transceiver. `Data` stands for any request but these two. */
  ghost predicate Means(m: H.Message, c: ConnId, e: Event) {
    match m
    case Join(t) => e == Asked(c, Request.Join(t))
    case Data(_) => e.Asked? && e.c == c && !e.r.Join? && !e.r.PreloadClientFinished?
    case _ => e == if m == H.FINISHED then Asked(c, Request.PreloadClientFinished) else Other
  }

  /** The messages of `c` are events of the trace, `at[i]` the event of message `i`, and `c` asks nothing else. */
  ghost predicate Heard(seen: seq<H.Message>, events: seq<Event>, c: ConnId, at: seq<nat>) {
    && |at| == |seen|
    && (forall i :: 0 <= i < |at| ==> at[i] < |events| && Means(seen[i], c, events[at[i]]))
    && (forall i, j :: 0 <= i < j < |at| ==> at[i] < at[j])
    && forall k :: 0 <= k < |events| && events[k].Asked? && events[k].c == c ==> k in at
  }

  lemma NoLeaveBetween(seen: seq<H.Message>, events: seq<Event>, c: ConnId, at: seq<nat>, t: TypeName, i: nat, n: nat)
    requires Heard(seen, events, c, at) && i < n < |seen|
    requires forall j :: i <= j < n ==> seen[j].Descriptor? || seen[j].Join?
    ensures forall k :: at[i] < k < at[n] ==> events[k] != Asked(c, Leave(t))
  {
    forall k | at[i] < k < at[n]
      ensures events[k] != Asked(c, Leave(t))
    {
      if events[k].Asked? && events[k].c == c {
        var j :| 0 <= j < |at| && at[j] == k;
        assert i < j < n;
        assert Means(seen[j], c, events[k]);
      }
    }
  }

  /** At event `f` the host ended the preloading of `c`; from there on `c` can rely on its container of `t`. */
  ghost predicate Complete(cfg: Config, states: seq<Host>, c: ConnId, t: TypeName, f: nat, last: nat)
    requires f < last < |states| && t in cfg.types
  {
    && c in states[last].guests
    && exists n: nat ::
         && n < |states[last].guests[c].sent| && states[last].guests[c].sent[n] == PreloadFinished
         && Held(cfg, states[last], c, t, n + 1) == ContentOf(states[f].pool, t)
  }

  /**
   A connected guest joined every type it subscribes to before it ended the preloading, and left none
   in between. So, if its channel had not failed by then, at the end of the preloading it holds of
   each of these types exactly what the host held, whatever other guests asked meanwhile.
   */
  lemma ConnectedComplete(p: H.Pair, cfg: Config, states: seq<Host>, events: seq<Event>, c: ConnId, at: seq<nat>)
    requires H.Reachable(p) && p.guest.state == H.Connected
    requires Trace(cfg, states, events) && Heard(p.seen, events, c, at)
    ensures exists f: nat ::
              && f < |events| && events[f] == Asked(c, PreloadClientFinished)
              && forall t, last: nat ::
                   t in p.guest.subscribes && cfg.Cached(t) && f < last <= |events| && states[f + 1].Open(c)
                     && (c, t) !in states[f + 1].astray
                   ==> Complete(cfg, states, c, t, f, last)
  {
    hide Trace, Heard, H.Reachable, H.JoinedAt, Complete;
    H.PreloadOrder(p);
    var n: nat :| n < |p.seen| && p.seen[n] == H.FINISHED
      && forall t :: t in p.guest.subscribes ==> exists i: nat :: H.JoinedAt(p.seen[..n], t, i);
    FinishedEvent(cfg, states, p.seen, events, c, at, n);
    var f := at[n];
    forall t, last: nat |
      t in p.guest.subscribes && cfg.Cached(t) && f < last <= |events| && states[f + 1].Open(c)
        && (c, t) !in states[f + 1].astray
      ensures Complete(cfg, states, c, t, f, last)
    {
      var i: nat :| H.JoinedAt(p.seen[..n], t, i);
      JoinedComplete(p.seen, n, i, cfg, states, events, c, at, t, last);
    }
  }

  lemma FinishedEvent(cfg: Config, states: seq<Host>, seen: seq<H.Message>, events: seq<Event>, c: ConnId,
                      at: seq<nat>, n: nat)
    requires Trace(cfg, states, events) && Heard(seen, events, c, at) && n < |seen| && seen[n] == H.FINISHED
    ensures |states| == |events| + 1 && |at| == |seen| && at[n] < |events|
        && events[at[n]] == Asked(c, PreloadClientFinished)
  {
    hide Moves, Inv;
    assert Means(seen[n], c, events[at[n]]);
  }

  lemma JoinedComplete(seen: seq<H.Message>, n: nat, i: nat, cfg: Config, states: seq<Host>, events: seq<Event>,
                       c: ConnId, at: seq<nat>,
                       t: TypeName, last: nat)
    requires Trace(cfg, states, events) && Heard(seen, events, c, at)
    requires n < |seen| && seen[n] == H.FINISHED && H.JoinedAt(seen[..n], t, i)
    requires at[n] < last <= |events| && cfg.Cached(t) && states[at[n] + 1].Open(c)
        && (c, t) !in states[at[n] + 1].astray
    ensures Complete(cfg, states, c, t, at[n], last)
  {
    hide Trace, Held, ContentOf;
    var q := seen[..n];
    assert q[i + 1] == seen[i + 1] == H.Message.Join(t);
    assert Means(seen[i + 1], c, events[at[i + 1]]) && Means(seen[n], c, events[at[n]]);
    assert forall j :: i + 1 <= j < n ==> seen[j] == q[j];
    NoLeaveBetween(seen, events, c, at, t, i + 1, n);
    PreloadCompleteness(cfg, states, events, c, t, at[i + 1], at[n], last);
  }
}
