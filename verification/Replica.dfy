/**
 The replicated container as a value: what one transmission does to the instances of a type,
 what a guest holds after consuming a list of messages, and when a snapshot or a narrowed
 transmission reproduces the host's content.
 */
module Replica {
  import opened Wrappers

  type TypeName = string
  type ConnId = nat

  // The valid properties of an instance, by tag. Values are only ever compared and copied.
  type Instance = map<nat, int>

  // `keys` and `plain` (in declaration order) are the tags of a struct descriptor.
  datatype StructType = StructType(keys: set<nat>, plain: seq<nat>, cached: bool, cleanup: bool, substructOnly: bool)
  {
    function Plain(): set<nat> {
      set p | p in plain
    }

    function Properties(): set<nat> {
      keys + Plain()
    }

    predicate Valid() {
      && keys !! Plain()
      && forall i, j :: 0 <= i < j < |plain| ==> plain[i] != plain[j]
    }
  }

  datatype Header = Header(sentTime: int, attributes: set<nat>, sender: nat, removeObj: bool, fromCache: Option<nat>)

  // What a container entry shows to every replica: the instance, who updated it last, and when.
  datatype Seen = Seen(instance: Instance, lastUpdateFrom: nat, modified: int)

  type View = map<Instance, Seen>

  datatype Message =
    | Data(typeName: TypeName, header: Header, instance: Instance)
    | CacheEnd(endOf: TypeName)
    | PreloadFinished
    | PeerError(code: int)

  function Restrict(i: Instance, tags: set<nat>): Instance {
    map p | p in i && p in tags :: i[p]
  }

  function KeyOf(d: StructType, i: Instance): Instance {
    Restrict(i, d.keys)
  }

  function Follow(lhs: Instance, rhs: Instance, tags: set<nat>): Instance {
    map p | p in lhs.Keys + rhs.Keys && (if p in tags then p in rhs else p in lhs) :: if p in tags then rhs[p]
      else lhs[p]
  }

  /** The effect of a partial update: included plain properties follow `rhs`, all others stay. */
  function Update(d: StructType, lhs: Instance, rhs: Instance, included: set<nat>): Instance {
    Follow(lhs, rhs, d.Plain() * included)
  }

  /**
   From `was` to `now` the plain properties among `tags` became what `i` has, valid or not, and
   every other property, keys included, stayed as it was.
   */
  ghost predicate PartlyReplaced(d: StructType, was: Instance, now: Instance, i: Instance, tags: set<nat>) {
    forall p :: if p in d.Plain() && p in tags then SameAt(now, i, p) else SameAt(now, was, p)
  }

  predicate SameAt(a: Instance, b: Instance, p: nat) {
    (p in a <==> p in b) && (p in a && p in b ==> a[p] == b[p])
  }

  lemma UpdateReplaces(d: StructType, lhs: Instance, rhs: Instance, included: set<nat>)
    ensures PartlyReplaced(d, lhs, Update(d, lhs, rhs, included), rhs, included)
  {
  }

  lemma FollowOneMore(lhs: Instance, rhs: Instance, tags: set<nat>, p: nat)
    requires p !in tags
    ensures p in Follow(lhs, rhs, tags) <==> p in lhs
    ensures p in rhs ==> Follow(lhs, rhs, tags + {p}) == Follow(lhs, rhs, tags)[p := rhs[p]]
    ensures p !in rhs ==> Follow(lhs, rhs, tags + {p}) == Follow(lhs, rhs, tags) - {p}
  {
  }

  function Insert(d: StructType, v: View, h: Header, i: Instance): View {
    var k := KeyOf(d, i);
    var instance := if k in v then Update(d, v[k].instance, i, h.attributes) else i;
    v[k := Seen(instance, h.sender, h.sentTime)]
  }

  function Apply(d: StructType, v: View, h: Header, i: Instance): View {
    if h.removeObj then v - {KeyOf(d, i)} else Insert(d, v, h, i)
  }

  function Consume(d: StructType, t: TypeName, v: View, m: Message): View {
    if m.Data? && m.typeName == t then Apply(d, v, m.header, m.instance) else v
  }

  /** The container of type `t` held by a guest that started empty and consumed `msgs`. */
  function Fold(d: StructType, t: TypeName, msgs: seq<Message>): View {
    if msgs == [] then map[] else Consume(d, t, Fold(d, t, msgs[..|msgs| - 1]), msgs[|msgs| - 1])
  }

  lemma FoldAppend(d: StructType, t: TypeName, msgs: seq<Message>, m: Message)
    ensures Fold(d, t, msgs + [m]) == Consume(d, t, Fold(d, t, msgs), m)
  {
    assert (msgs + [m])[..|msgs|] == msgs;
  }

  /** A view is keyed when every entry sits under its own key properties. */
  ghost predicate Keyed(d: StructType, v: View) {
    forall k :: k in v ==> KeyOf(d, v[k].instance) == k
  }

  lemma UpdateKeepsKey(d: StructType, lhs: Instance, rhs: Instance, included: set<nat>)
    requires d.Valid()
    ensures KeyOf(d, Update(d, lhs, rhs, included)) == KeyOf(d, lhs)
  {
  }

  lemma ApplyKeepsKeyed(d: StructType, v: View, h: Header, i: Instance)
    requires d.Valid() && Keyed(d, v)
    ensures Keyed(d, Apply(d, v, h, i))
  {
    var k := KeyOf(d, i);
    if !h.removeObj && k in v {
      UpdateKeepsKey(d, v[k].instance, i, h.attributes);
    }
  }

  // ----- Update composition -----

  datatype Delta = Delta(values: Instance, included: set<nat>)

  function UpdateAll(d: StructType, lhs: Instance, deltas: seq<Delta>): Instance {
    if deltas == [] then lhs
    else
      var last := deltas[|deltas| - 1];
      Update(d, UpdateAll(d, lhs, deltas[..|deltas| - 1]), last.values, last.included)
  }

  /** One delta with the effect of a whole sequence: later included properties win, the included sets unite. */
  function Combine(deltas: seq<Delta>): Delta {
    if deltas == [] then Delta(map[], {})
    else
      var first, last := Combine(deltas[..|deltas| - 1]), deltas[|deltas| - 1];
      Delta(Restrict(first.values, first.included - last.included) + Restrict(last.values, last.included),
            first.included + last.included)
  }

  lemma {:induction false} CombineIncludes(deltas: seq<Delta>, p: nat)
    ensures p in Combine(deltas).included <==> exists i :: 0 <= i < |deltas| && p in deltas[i].included
  {
    if deltas != [] {
      var init := deltas[..|deltas| - 1];
      CombineIncludes(init, p);
      if p in Combine(init).included {
        var i :| 0 <= i < |init| && p in init[i].included;
        assert deltas[i] == init[i];
      }
      if i :| 0 <= i < |deltas| && p in deltas[i].included {
        if i < |init| {
          assert init[i] == deltas[i];
        }
      }
    }
  }

  lemma UpdateTwice(d: StructType, lhs: Instance, first: Delta, second: Delta)
    ensures var both := Restrict(first.values, first.included - second.included)
        + Restrict(second.values, second.included);
            Update(d, Update(d, lhs, first.values, first.included), second.values, second.included)
            == Update(d, lhs, both, first.included + second.included)
  {
    var both := Restrict(first.values, first.included - second.included) + Restrict(second.values, second.included);
    var mid := Update(d, lhs, first.values, first.included);
    var x := Update(d, mid, second.values, second.included);
    var y := Update(d, lhs, both, first.included + second.included);
    forall p: nat
      ensures p in x <==> p in y
      ensures p in x ==> x[p] == y[p]
    {
      assert p in d.Plain() && p in second.included ==>
          (p in x <==> p in second.values) && (p in y <==> p in second.values);
    }
    assert x.Keys == y.Keys;
  }

  /** Any sequence of partial updates to one instance equals the one combined update. */
  lemma {:induction false} UpdateComposition(d: StructType, lhs: Instance, deltas: seq<Delta>)
    ensures UpdateAll(d, lhs, deltas) == Update(d, lhs, Combine(deltas).values, Combine(deltas).included)
  {
    if deltas == [] {
      assert Update(d, lhs, map[], {}) == lhs;
    } else {
      var init, last := deltas[..|deltas| - 1], deltas[|deltas| - 1];
      UpdateComposition(d, lhs, init);
      UpdateTwice(d, lhs, Combine(init), last);
    }
  }

  // ----- Narrowed transmissions -----

  /**
   A transmission carries the instance cut down to its attributes. A replica that applies the
   cut-down instance ends up where the sender ended up with the whole instance exactly when the
   transmission removes, or updates a known instance, or carries every valid property.
   */
  ghost predicate CarriesEnough(d: StructType, v: View, h: Header, i: Instance) {
    h.removeObj || KeyOf(d, i) in v || i.Keys <= h.attributes
  }

  lemma RestrictKeepsKey(d: StructType, i: Instance, tags: set<nat>)
    requires KeyOf(d, i).Keys <= tags
    ensures KeyOf(d, Restrict(i, tags)) == KeyOf(d, i)
  {
  }

  lemma WireFaithful(d: StructType, v: View, h: Header, i: Instance)
    requires KeyOf(d, i).Keys <= h.attributes
    ensures Apply(d, v, h, Restrict(i, h.attributes)) == Apply(d, v, h, i) <==> CarriesEnough(d, v, h, i)
  {
    var k := KeyOf(d, i);
    var cut := Restrict(i, h.attributes);
    RestrictKeepsKey(d, i, h.attributes);
    if h.removeObj {
    } else if k in v {
      assert Update(d, v[k].instance, cut, h.attributes) == Update(d, v[k].instance, i, h.attributes);
    } else {
      assert Apply(d, v, h, cut)[k].instance == cut;
      assert Apply(d, v, h, i)[k].instance == i;
      if i.Keys <= h.attributes {
        assert cut == i;
      } else {
        var p :| p in i.Keys && p !in h.attributes;
        assert p !in cut && p in i;
      }
    }
  }

  // ----- Snapshots -----

  function SnapshotMessage(t: TypeName, s: Seen, left: nat): Message {
    Data(t, Header(s.modified, s.instance.Keys, s.lastUpdateFrom, false, Some(left)), s.instance)
  }

  /** The entries `order` of `v`, each as one message that counts down the entries still to come. */
  function Snapshot(t: TypeName, v: View, order: seq<Instance>): seq<Message>
    requires forall k :: k in order ==> k in v
  {
    seq(|order|, n requires 0 <= n < |order| => SnapshotMessage(t, v[order[n]], |order| - 1 - n))
  }

  ghost predicate Enumerates(order: seq<Instance>, v: View) {
    && (forall k :: k in order <==> k in v)
    && forall i, j :: 0 <= i < j < |order| ==> order[i] != order[j]
  }

  /** Nothing in `stale` survives a snapshot of `v`: it knows no other key and no other property. */
  ghost predicate Covers(v: View, stale: View) {
    && stale.Keys <= v.Keys
    && forall k :: k in stale ==> stale[k].instance.Keys <= v[k].instance.Keys
  }

  function ConsumeAll(d: StructType, t: TypeName, v: View, msgs: seq<Message>): View {
    if msgs == [] then v else Consume(d, t, ConsumeAll(d, t, v, msgs[..|msgs| - 1]), msgs[|msgs| - 1])
  }

  lemma {:induction false} FoldConsumeAll(d: StructType, t: TypeName, before: seq<Message>, msgs: seq<Message>)
    ensures Fold(d, t, before + msgs) == ConsumeAll(d, t, Fold(d, t, before), msgs)
  {
    if msgs == [] {
      assert before + msgs == before;
    } else {
      var init := msgs[..|msgs| - 1];
      FoldConsumeAll(d, t, before, init);
      assert before + msgs == before + init + [msgs[|msgs| - 1]];
      FoldAppend(d, t, before + init, msgs[|msgs| - 1]);
    }
  }

  function Overlaid(d: StructType, s: Seen, stale: View, k: Instance): Seen {
    s.(instance := if k in stale then Update(d, stale[k].instance, s.instance, s.instance.Keys) else s.instance)
  }

  /** What a replica holding `stale` holds after the snapshot entries in `done`. */
  function Overlay(d: StructType, v: View, stale: View, done: set<Instance>): View
    requires done <= v.Keys
  {
    map k | k in stale.Keys + done :: if k in done then Overlaid(d, v[k], stale, k) else stale[k]
  }

  lemma OverlayOneMore(d: StructType, t: TypeName, v: View, stale: View, done: set<Instance>, k: Instance, left: nat)
    requires d.Valid() && Keyed(d, v)
    requires done <= v.Keys && k in v && k !in done
    ensures Consume(d, t, Overlay(d, v, stale, done), SnapshotMessage(t, v[k], left))
        == Overlay(d, v, stale, done + {k})
  {
    var held := Overlay(d, v, stale, done);
    assert KeyOf(d, v[k].instance) == k;
    assert k in held <==> k in stale;
    var next := Consume(d, t, held, SnapshotMessage(t, v[k], left));
    assert next == held[k := Overlaid(d, v[k], stale, k)];
  }

  lemma {:induction false} SnapshotOverlays(d: StructType, t: TypeName, v: View, stale: View, order: seq<Instance>,
                                            n: nat)
    requires d.Valid() && Keyed(d, v)
    requires forall k :: k in order ==> k in v
    requires forall i, j :: 0 <= i < j < |order| ==> order[i] != order[j]
    requires n <= |order|
    ensures Elements(order[..n]) <= v.Keys
    ensures ConsumeAll(d, t, stale, Snapshot(t, v, order)[..n]) == Overlay(d, v, stale, Elements(order[..n]))
  {
    hide Consume, ConsumeAll, Snapshot, SnapshotMessage, Keyed, Overlay, Elements;
    if n == 0 {
      OverlayNothing(d, t, v, stale);
      assert order[..n] == [] && Snapshot(t, v, order)[..n] == [];
    } else {
      var k := order[n - 1];
      SnapshotOverlays(d, t, v, stale, order, n - 1);
      SnapshotNext(t, v, order, n);
      assert order[..n] == order[..n - 1] + [k];
      ElementsMore(order[..n - 1], k);
      ConsumeNext(d, t, stale, Snapshot(t, v, order), n);
      OverlayOneMore(d, t, v, stale, Elements(order[..n - 1]), k, |order| - n);
    }
  }

  lemma OverlayNothing(d: StructType, t: TypeName, v: View, stale: View)
    ensures Elements<Instance>([]) == {} && ConsumeAll(d, t, stale, []) == stale && Overlay(d, v, stale, {}) == stale
  {
  }

  lemma SnapshotNext(t: TypeName, v: View, order: seq<Instance>, n: nat)
    requires (forall k :: k in order ==> k in v) && 0 < n <= |order|
    requires forall i, j :: 0 <= i < j < |order| ==> order[i] != order[j]
    ensures Snapshot(t, v, order)[n - 1] == SnapshotMessage(t, v[order[n - 1]], |order| - n)
    ensures order[n - 1] in v && order[n - 1] !in Elements(order[..n - 1]) && |Snapshot(t, v, order)| == |order|
  {
  }

  /** Each snapshot message is a whole entry as it was last updated, and counts the messages still to come. */
  lemma SnapshotCounts(t: TypeName, v: View, order: seq<Instance>, n: nat)
    requires (forall k :: k in order ==> k in v) && n < |order|
    ensures |Snapshot(t, v, order)| == |order|
    ensures var m, entry := Snapshot(t, v, order)[n], v[order[n]];
            && m.Data? && m.typeName == t && m.instance == entry.instance
            && m.header.fromCache == Some(|order| - 1 - n) && !m.header.removeObj
            && m.header.attributes == entry.instance.Keys
            && m.header.sender == entry.lastUpdateFrom && m.header.sentTime == entry.modified
  {
  }

  lemma ConsumeNext(d: StructType, t: TypeName, v: View, msgs: seq<Message>, n: nat)
    requires 0 < n <= |msgs|
    ensures ConsumeAll(d, t, v, msgs[..n]) == Consume(d, t, ConsumeAll(d, t, v, msgs[..n - 1]), msgs[n - 1])
  {
    assert msgs[..n][..n - 1] == msgs[..n - 1];
  }

  lemma UpdateByAllValid(d: StructType, lhs: Instance, rhs: Instance)
    requires d.Valid() && KeyOf(d, lhs) == KeyOf(d, rhs)
    requires lhs.Keys + rhs.Keys <= d.Properties()
    ensures Update(d, lhs, rhs, rhs.Keys) == rhs <==> lhs.Keys <= rhs.Keys
  {
    var u := Update(d, lhs, rhs, rhs.Keys);
    forall p | p in rhs && p in d.keys
      ensures p in lhs && lhs[p] == rhs[p]
    {
      assert p in KeyOf(d, rhs) && KeyOf(d, rhs)[p] == rhs[p];
      assert p in KeyOf(d, lhs);
    }
    if lhs.Keys <= rhs.Keys {
      assert u.Keys == rhs.Keys;
    } else {
      var p :| p in lhs && p !in rhs;
      assert p in u;
    }
  }

  ghost predicate Described(d: StructType, v: View) {
    Keyed(d, v) && forall k :: k in v ==> d.keys <= v[k].instance.Keys <= d.Properties()
  }

  lemma ApplyKeepsDescribed(d: StructType, v: View, h: Header, i: Instance)
    requires d.Valid() && Described(d, v)
    requires d.keys <= i.Keys <= d.Properties()
    ensures Described(d, Apply(d, v, h, i))
  {
    ApplyKeepsKeyed(d, v, h, i);
  }

  /** A replica that mirrors `v` already is left alone by every snapshot entry. */
  lemma OverlaySelf(d: StructType, v: View, done: set<Instance>)
    requires d.Valid() && Described(d, v) && done <= v.Keys
    ensures Overlay(d, v, v, done) == v
  {
    forall k | k in done
      ensures Overlaid(d, v[k], v, k) == v[k]
    {
      UpdateByAllValid(d, v[k].instance, v[k].instance);
    }
  }

  lemma OverlayAllExact(d: StructType, v: View, stale: View)
    requires d.Valid() && Described(d, v) && Described(d, stale)
    ensures Overlay(d, v, stale, v.Keys) == v <==> Covers(v, stale)
  {
    var result := Overlay(d, v, stale, v.Keys);
    assert result.Keys == stale.Keys + v.Keys;
    forall k | k in v
      ensures result[k] == v[k] <==> (k in stale ==> stale[k].instance.Keys <= v[k].instance.Keys)
    {
      assert result[k] == Overlaid(d, v[k], stale, k);
      if k in stale {
        UpdateByAllValid(d, stale[k].instance, v[k].instance);
      }
    }
    if result == v {
      assert stale.Keys <= v.Keys;
    }
  }

  /**
   A replica holding `stale` that consumes a complete snapshot of `v` holds exactly `v` if and
   only if `v` covers `stale`. An empty replica and one that already mirrors `v` are covered.
   */
  lemma SnapshotExact(d: StructType, t: TypeName, v: View, stale: View, order: seq<Instance>)
    requires d.Valid() && Described(d, v) && Described(d, stale)
    requires Enumerates(order, v)
    ensures ConsumeAll(d, t, stale, Snapshot(t, v, order)) == v <==> Covers(v, stale)
    ensures Covers(v, map[]) && Covers(v, v)
  {
    assert Snapshot(t, v, order)[..|order|] == Snapshot(t, v, order);
    assert order[..|order|] == order;
    SnapshotOverlays(d, t, v, stale, order, |order|);
    assert Elements(order) == v.Keys;
    OverlayAllExact(d, v, stale);
  }

  /** Leaving and joining again: an instance removed in between stays with the guest for good. */
  lemma RejoinKeepsRemoved()
    ensures exists d: StructType, v: View, stale: View ::
              && d.Valid() && Described(d, v) && Described(d, stale)
              && ConsumeAll(d, "T", stale, Snapshot("T", v, [])) != v
              && Enumerates([], v)
  {
    var d := StructType({1}, [2], true, false, false);
    var stale: View := map[map[1 := 7] := Seen(map[1 := 7, 2 := 8], 2, 0)];
    var v: View := map[];
    assert KeyOf(d, map[1 := 7, 2 := 8]) == map[1 := 7];
    assert map[1 := 7] in stale;
    assert ConsumeAll(d, "T", stale, Snapshot("T", v, [])) == stale != v;
    assert d.Valid() && Described(d, v) && Described(d, stale) && Enumerates([], v);
  }
}
