/**
 What a dispatcher does to its handlers, as values: the events one subscriber sees and what they
 add up to, and which handlers get their turn while handlers are being added and removed.
 */
module Dispatch {
  import opened Wrappers
  import opened Replica
  import opened Containers

  type Id = nat

  // ----- Events -----

  datatype Event = Event(op: Operation, transmitted: Instance, attributes: set<nat>, updated: Instance,
                         info: CloneInfo, fromCache: Option<nat>)

  function EventKey(d: StructType, e: Event): Instance {
    KeyOf(d, e.updated)
  }

  function MirrorStep(d: StructType, m: Clones, e: Event): Clones {
    if e.op == Removal then m - {EventKey(d, e)} else m[EventKey(d, e) := Clone(e.updated, e.info)]
  }

  /** What a subscriber knows that keeps every created or updated instance until it is removed. */
  function Mirror(d: StructType, events: seq<Event>): Clones {
    if events == [] then map[] else MirrorStep(d, Mirror(d, events[..|events| - 1]), events[|events| - 1])
  }

  predicate LegalStep(d: StructType, m: Clones, e: Event) {
    EventKey(d, e) in m <==> e.op != Create
  }

  predicate Legal(d: StructType, events: seq<Event>) {
    events == [] ||
    (Legal(d, events[..|events| - 1]) && LegalStep(d, Mirror(d, events[..|events| - 1]), events[|events| - 1]))
  }

  predicate Follows(d: StructType, events: seq<Event>, clones: Clones) {
    Legal(d, events) && Mirror(d, events) == clones
  }

  lemma FollowsOneMore(d: StructType, events: seq<Event>, clones: Clones, e: Event)
    requires Follows(d, events, clones) && LegalStep(d, clones, e)
    ensures Follows(d, events + [e], MirrorStep(d, clones, e))
  {
    assert (events + [e])[..|events|] == events;
  }

  function Operations(d: StructType, events: seq<Event>, k: Instance): seq<Operation> {
    if events == [] then []
    else
      var e := events[|events| - 1];
      Operations(d, events[..|events| - 1], k) + if EventKey(d, e) == k then [e.op] else []
  }

  /** Create, any number of updates, remove, and so on; `alive` tells how it ends. */
  predicate Lifecycle(ops: seq<Operation>, alive: bool) {
    if ops == [] then !alive
    else
      var last := ops[|ops| - 1];
      alive == (last != Removal) && Lifecycle(ops[..|ops| - 1], last != Create)
  }

  lemma {:induction false} LegalLifecycle(d: StructType, events: seq<Event>, k: Instance)
    requires Legal(d, events)
    ensures Lifecycle(Operations(d, events, k), k in Mirror(d, events))
  {
    if events != [] {
      var init, e := events[..|events| - 1], events[|events| - 1];
      LegalLifecycle(d, init, k);
      var ops := Operations(d, init, k);
      if EventKey(d, e) == k {
        assert (ops + [e.op])[..|ops|] == ops;
      } else {
        assert ops + [] == ops;
      }
    }
  }

  // ----- Replay -----

  function ReplayEvent(c: Clone, left: nat): Event {
    Event(Create, c.instance, c.instance.Keys, c.instance, c.info, Some(left))
  }

  /** One create event per clone in `order`, counting down the clones still to come. */
  function Replay(clones: Clones, order: seq<Instance>): seq<Event>
    requires |order| <= |clones| && forall k :: k in order ==> k in clones
  {
    seq(|order|, n requires 0 <= n < |order| => ReplayEvent(clones[order[n]], |clones| - 1 - n))
  }

  ghost predicate Lists(order: seq<Instance>, clones: Clones) {
    && (forall k :: k in order ==> k in clones)
    && forall i, j :: 0 <= i < j < |order| ==> order[i] != order[j]
  }

  /** `events` replay all of `clones`, in some order. */
  ghost predicate Replays(events: seq<Event>, clones: Clones) {
    exists order :: Lists(order, clones) && |order| == |clones| && events == Replay(clones, order)
  }

  function Replayed(clones: Clones, order: seq<Instance>): Clones {
    map k | k in clones && k in order :: clones[k]
  }

  lemma ReplayLonger(clones: Clones, order: seq<Instance>, k: Instance)
    requires k in clones && |order| < |clones| && forall o :: o in order ==> o in clones
    ensures Replay(clones, order + [k]) == Replay(clones, order) + [ReplayEvent(clones[k], |clones| - 1 - |order|)]
    ensures Replay(clones, []) == []
  {
  }

  lemma ReplayOneMore(d: StructType, clones: Clones, order: seq<Instance>, k: Instance, left: nat)
    requires KeyedClones(d, clones) && k in clones && k !in order
    ensures LegalStep(d, Replayed(clones, order), ReplayEvent(clones[k], left))
    ensures MirrorStep(d, Replayed(clones, order), ReplayEvent(clones[k], left)) == Replayed(clones, order + [k])
  {
    assert EventKey(d, ReplayEvent(clones[k], left)) == k;
  }

  lemma {:induction false} ReplayFollows(d: StructType, clones: Clones, order: seq<Instance>)
    requires KeyedClones(d, clones) && Lists(order, clones) && |order| <= |clones|
    ensures Follows(d, Replay(clones, order), Replayed(clones, order))
  {
    hide LegalStep, MirrorStep, ReplayEvent, KeyedClones, EventKey;
    if order == [] {
      assert Replayed(clones, order) == map[];
    } else {
      var init, k := order[..|order| - 1], order[|order| - 1];
      assert order == init + [k];
      ReplayFollows(d, clones, init);
      var e := ReplayEvent(clones[k], |clones| - |order|);
      assert Replay(clones, order) == Replay(clones, init) + [e];
      ReplayOneMore(d, clones, init, k, |clones| - |order|);
      FollowsOneMore(d, Replay(clones, init), Replayed(clones, init), e);
    }
  }

  lemma ListLength(order: seq<Instance>, clones: Clones)
    requires Lists(order, clones) && |order| == |clones|
    ensures Elements(order) == clones.Keys
  {
    DistinctLength(order);
    SubsetOfSize(Elements(order), clones.Keys);
  }

  lemma {:induction false} DistinctLength<T>(list: seq<T>)
    requires forall i, j :: 0 <= i < j < |list| ==> list[i] != list[j]
    ensures |Elements(list)| == |list|
  {
    if list != [] {
      var init, last := list[..|list| - 1], list[|list| - 1];
      DistinctLength(init);
      assert Elements(list) == Elements(init) + {last} && last !in Elements(init);
    }
  }

  lemma SubsetOfSize<T>(a: set<T>, b: set<T>)
    requires a <= b && |a| == |b|
    ensures a == b
  {
    assert b == a + (b - a) && |b - a| == |b| - |a|;
  }

  /** A replay tells a new subscriber exactly what the container holds. */
  lemma ReplaysFollow(d: StructType, events: seq<Event>, clones: Clones)
    requires KeyedClones(d, clones) && Replays(events, clones)
    ensures Follows(d, events, clones)
    ensures forall n :: 0 <= n < |events| ==> events[n].fromCache == Some(|events| - 1 - n)
  {
    hide KeyedClones, Follows, ReplayEvent;
    var order :| Lists(order, clones) && |order| == |clones| && events == Replay(clones, order);
    ReplayFollows(d, clones, order);
    ReplayedAll(clones, order);
    CountsDown(clones, order);
  }

  lemma ReplayedAll(clones: Clones, order: seq<Instance>)
    requires Lists(order, clones) && |order| == |clones|
    ensures Replayed(clones, order) == clones
  {
    ListLength(order, clones);
    assert forall k :: k in clones ==> k in Elements(order);
  }

  lemma CountsDown(clones: Clones, order: seq<Instance>)
    requires |order| == |clones| && forall k :: k in order ==> k in clones
    ensures |Replay(clones, order)| == |order|
    ensures forall n :: 0 <= n < |order| ==> Replay(clones, order)[n].fromCache == Some(|order| - 1 - n)
  {
  }

  /** Each replayed event is a creation that shows a clone as it is, all its valid properties being transmitted. */
  lemma ReplaysShow(events: seq<Event>, clones: Clones, n: nat)
    requires Replays(events, clones) && n < |events|
    ensures var e := events[n];
            && e.op == Create && e.transmitted == e.updated && e.attributes == e.updated.Keys
            && e.fromCache == Some(|events| - 1 - n)
            && exists k :: k in clones && clones[k] == Clone(e.updated, e.info)
  {
    var order :| Lists(order, clones) && |order| == |clones| && events == Replay(clones, order);
    assert order[n] in clones && events[n] == ReplayEvent(clones[order[n]], |clones| - 1 - n);
  }

  // ----- Handlers coming and going -----

  datatype Key = Transmissions(typeName: TypeName) | Events(typeName: TypeName)

  datatype Action = Add(key: Key) | Drop(key: Key, id: Id)

  // What a handler does when it is called: adds and removals, and at the end it may throw.
  datatype Script = Script(actions: seq<Action>, throws: bool)

  // What happened, in order: a handler had its turn, was added, or was asked to be removed and known.
  datatype Step = Called(caller: Id) | Added(to: Key, id: Id) | Dropped(from: Key, gone: Id)

  type Tables = map<Key, set<Id>>

  function Table(tables: Tables, key: Key): set<Id> {
    if key in tables then tables[key] else {}
  }

  function AddedIn(trace: seq<Step>, key: Key): set<Id> {
    set s | s in trace && s.Added? && s.to == key :: s.id
  }

  function DroppedIn(trace: seq<Step>, key: Key): set<Id> {
    set s | s in trace && s.Dropped? && s.from == key :: s.gone
  }

  function CalledIn(trace: seq<Step>): set<Id> {
    set s | s in trace && s.Called? :: s.caller
  }

  /**
   The turns of the handlers in `start` with ids from `last` on: a handler is called once, unless
   it was removed before; higher ids come first; nobody else is called.
   */
  ghost predicate TurnsFrom(trace: seq<Step>, key: Key, start: set<Id>, last: Id) {
    && (forall i :: 0 <= i < |trace| && trace[i].Called? ==> Turn(trace, key, start, last, i))
    && (forall i, j ::
      0 <= i < j < |trace| && trace[i].Called? && trace[j].Called? ==> trace[i].caller > trace[j].caller)
    && (forall id :: id in start && id >= last ==> id in CalledIn(trace) || id in DroppedIn(trace, key))
  }

  ghost predicate Turn(trace: seq<Step>, key: Key, start: set<Id>, last: Id, i: nat)
    requires i < |trace| && trace[i].Called?
  {
    var id := trace[i].caller;
    && id in start && id >= last && id !in DroppedIn(trace[..i], key)
    && forall other ::
      other in start && other > id ==> other in CalledIn(trace[..i]) || other in DroppedIn(trace[..i], key)
  }

  ghost predicate Turns(trace: seq<Step>, key: Key, start: set<Id>) {
    TurnsFrom(trace, key, start, 0)
  }

  lemma TraceSets(before: seq<Step>, more: seq<Step>, key: Key)
    ensures AddedIn(before + more, key) == AddedIn(before, key) + AddedIn(more, key)
    ensures DroppedIn(before + more, key) == DroppedIn(before, key) + DroppedIn(more, key)
    ensures CalledIn(before + more) == CalledIn(before) + CalledIn(more)
  {
  }

  ghost predicate Quiet(trace: seq<Step>) {
    forall s :: s in trace ==> !s.Called?
  }

  lemma NextTurn(trace: seq<Step>, more: seq<Step>, key: Key, start: set<Id>, last: Id, id: Id)
    requires TurnsFrom(trace, key, start, last) && Quiet(more)
    requires id < last && id in start && id !in DroppedIn(trace, key)
    requires forall other :: other in start && id < other < last ==> other in DroppedIn(trace, key)
    ensures TurnsFrom(trace + [Called(id)] + more, key, start, id)
  {
    hide AddedIn, CalledIn, DroppedIn;
    var all := trace + [Called(id)] + more;
    TraceSets(trace, [Called(id)], key);
    TraceSets(trace + [Called(id)], more, key);
    assert id in CalledIn([Called(id)]) by {
      OneCall(id);
    }
    QuietAfter(trace, more, id);
    forall i | 0 <= i < |all| && all[i].Called?
      ensures i <= |trace| && Turn(all, key, start, id, i)
    {
      if i < |trace| {
        assert all[..i] == trace[..i];
        assert Turn(trace, key, start, last, i);
      } else {
        assert all[..i] == trace;
      }
    }
    forall i, j | 0 <= i < j < |all| && all[i].Called? && all[j].Called?
      ensures all[i].caller > all[j].caller
    {
      assert i < |trace| && Turn(trace, key, start, last, i);
    }
  }

  lemma OneCall(id: Id)
    ensures id in CalledIn([Called(id)])
  {
    assert [Called(id)][0] in [Called(id)];
  }

  lemma QuietAfter(trace: seq<Step>, more: seq<Step>, id: Id)
    requires Quiet(more)
    ensures var all := trace + [Called(id)] + more; forall i :: |trace| < i < |all| ==> !all[i].Called?
  {
    var all := trace + [Called(id)] + more;
    assert forall i :: |trace| < i < |all| ==> all[i] in more;
  }

  lemma LastTurn(trace: seq<Step>, key: Key, start: set<Id>, last: Id)
    requires TurnsFrom(trace, key, start, last)
    requires forall id :: id in start && id < last ==> id in DroppedIn(trace, key)
    ensures Turns(trace, key, start)
  {
    forall i | 0 <= i < |trace| && trace[i].Called?
      ensures Turn(trace, key, start, 0, i)
    {
      assert Turn(trace, key, start, last, i);
    }
  }

  // ----- What handlers do in their turns -----

  // Whose turn it is at the end of a trace.
  function Caller(trace: seq<Step>): Option<Id> {
    if trace == [] then None
    else
      var last := trace[|trace| - 1];
      if last.Called? then Some(last.caller) else Caller(trace[..|trace| - 1])
  }

  /** The table of `key` after a trace: a handler that removes itself in its turn stays for the time being. */
  function Held(start: Tables, trace: seq<Step>, key: Key): set<Id> {
    if trace == [] then Table(start, key)
    else
      var init, last := trace[..|trace| - 1], trace[|trace| - 1];
      HeldStep(Held(start, init, key), Caller(init), last, key)
  }

  function HeldStep(held: set<Id>, caller: Option<Id>, step: Step, key: Key): set<Id> {
    match step
    case Called(_) => held
    case Added(to, id) => if to == key then held + {id} else held
    case Dropped(from, gone) => if from == key && caller != Some(gone) then held - {gone} else held
  }

  predicate Does(a: Action, s: Step) {
    match a
    case Add(key) => s.Added? && s.to == key
    case Drop(key, gone) => s == Dropped(key, gone)
  }

  /**
   `steps` are `actions` in order. They end early only where a handler is to be removed that is not in
   that table, `trace` being all that happened until then.
   */
  ghost predicate Plays(actions: seq<Action>, steps: seq<Step>, start: Tables, trace: seq<Step>) {
    && |steps| <= |actions| && (forall n :: 0 <= n < |steps| ==> Does(actions[n], steps[n]))
    && (|steps| < |actions| ==> var next := actions[|steps|]; next.Drop? && next.id !in Held(start, trace, next.key))
  }

  // Where the turn that `i` belongs to ends.
  function TurnEnd(trace: seq<Step>, i: nat): (j: nat)
    requires i < |trace|
    ensures i < j <= |trace| && (j < |trace| ==> trace[j].Called?) && forall k :: i < k < j ==> !trace[k].Called?
    decreases |trace| - i
  {
    if i + 1 == |trace| || trace[i + 1].Called? then i + 1 else TurnEnd(trace, i + 1)
  }

  function CallCount(trace: seq<Step>): nat {
    if trace == [] then 0 else CallCount(trace[..|trace| - 1]) + if trace[|trace| - 1].Called? then 1 else 0
  }

  /** In each turn the handler did what its script says: the script of its id and of the number of the call. */
  ghost predicate Scripted(start: Tables, trace: seq<Step>, behaviour: (Id, nat) -> Script, calls: nat) {
    forall i :: 0 <= i < |trace| && trace[i].Called? ==> PlayedAt(start, trace, behaviour, calls, i)
  }

  ghost predicate PlayedAt(start: Tables, trace: seq<Step>, behaviour: (Id, nat) -> Script, calls: nat, i: nat)
    requires i < |trace| && trace[i].Called?
  {
    var j := TurnEnd(trace, i);
    Plays(behaviour(trace[i].caller, calls + CallCount(trace[..i]) + 1).actions, trace[i + 1..j],
          start, trace[..j])
  }

  lemma HeldOneMore(start: Tables, trace: seq<Step>, step: Step, key: Key)
    ensures Held(start, trace + [step], key) == HeldStep(Held(start, trace, key), Caller(trace), step, key)
    ensures Caller(trace + [step]) == if step.Called? then Some(step.caller) else Caller(trace)
    ensures CallCount(trace + [step]) == CallCount(trace) + if step.Called? then 1 else 0
  {
    assert (trace + [step])[..|trace|] == trace;
  }

  // A turn starts from the tables that the turns before it left.
  lemma {:induction false} HeldOn(start: Tables, trace: seq<Step>, mid: Tables, id: Id, more: seq<Step>, key: Key)
    requires Held(start, trace, key) == Table(mid, key) && Quiet(more)
    ensures Held(start, trace + ([Called(id)] + more), key) == Held(mid, [Called(id)] + more, key)
    ensures Caller(trace + ([Called(id)] + more)) == Caller([Called(id)] + more) == Some(id)
    ensures CallCount(trace + ([Called(id)] + more)) == CallCount(trace) + 1
    decreases |more|
  {
    if more == [] {
      HeldOneMore(start, trace, Called(id), key);
      HeldOneMore(mid, [], Called(id), key);
      assert [] + [Called(id)] == [Called(id)] == [Called(id)] + more;
    } else {
      var init, last := more[..|more| - 1], more[|more| - 1];
      assert last in more && Quiet(init);
      HeldOn(start, trace, mid, id, init, key);
      HeldOneMore(start, trace + ([Called(id)] + init), last, key);
      HeldOneMore(mid, [Called(id)] + init, last, key);
      assert [Called(id)] + init + [last] == [Called(id)] + more;
      assert trace + ([Called(id)] + init) + [last] == trace + ([Called(id)] + more);
    }
  }

  lemma {:induction false} TurnEndKept(trace: seq<Step>, more: seq<Step>, i: nat)
    requires i < |trace| && more != [] && more[0].Called?
    ensures TurnEnd(trace + more, i) == TurnEnd(trace, i)
  {
    var j, all := TurnEnd(trace, i), trace + more;
    assert all[j].Called?;
    assert forall k :: i < k < j ==> all[k] == trace[k];
  }

  lemma PlayedBefore(start: Tables, trace: seq<Step>, behaviour: (Id, nat) -> Script, calls: nat, i: nat,
                     turn: seq<Step>)
    requires i < |trace| && trace[i].Called? && PlayedAt(start, trace, behaviour, calls, i)
    requires turn != [] && turn[0].Called?
    ensures PlayedAt(start, trace + turn, behaviour, calls, i)
  {
    hide Held, CallCount, Plays;
    var all, j := trace + turn, TurnEnd(trace, i);
    TurnEndKept(trace, turn, i);
    assert all[..i] == trace[..i] && all[i + 1..j] == trace[i + 1..j] && all[..j] == trace[..j];
  }

  lemma PlayedLast(start: Tables, trace: seq<Step>, behaviour: (Id, nat) -> Script, calls: nat,
                   mid: Tables, id: Id, more: seq<Step>)
    requires Quiet(more) && forall key :: Held(start, trace, key) == Table(mid, key)
    requires Plays(behaviour(id, calls + CallCount(trace) + 1).actions, more, mid, [Called(id)] + more)
    ensures PlayedAt(start, trace + ([Called(id)] + more), behaviour, calls, |trace|)
  {
    hide Held, CallCount, Quiet, Table, Does;
    var turn := [Called(id)] + more;
    var all := trace + turn;
    assert all == trace + [Called(id)] + more;
    OnlyTurn(trace, id, more, |trace|);
    assert all[..|trace|] == trace && all[|trace| + 1..|all|] == more && all[..|all|] == all;
    forall key
      ensures Held(start, all, key) == Held(mid, turn, key)
    {
      HeldOn(start, trace, mid, id, more, key);
    }
  }

  /** One more turn: the handler `id` did what its script says, from the tables `mid` on. */
  lemma ScriptedNext(start: Tables, trace: seq<Step>, behaviour: (Id, nat) -> Script, calls: nat,
                     mid: Tables, id: Id, more: seq<Step>)
    requires Scripted(start, trace, behaviour, calls) && Quiet(more)
    requires forall key :: Held(start, trace, key) == Table(mid, key)
    requires Plays(behaviour(id, calls + CallCount(trace) + 1).actions, more, mid, [Called(id)] + more)
    ensures Scripted(start, trace + [Called(id)] + more, behaviour, calls)
  {
    hide Held, CallCount, Quiet, Plays, PlayedAt, Table;
    var turn := [Called(id)] + more;
    var all := trace + turn;
    assert all == trace + [Called(id)] + more;
    forall i | 0 <= i < |all| && all[i].Called?
      ensures PlayedAt(start, all, behaviour, calls, i)
    {
      if i < |trace| {
        PlayedBefore(start, trace, behaviour, calls, i, turn);
      } else {
        OnlyTurn(trace, id, more, i);
        PlayedLast(start, trace, behaviour, calls, mid, id, more);
      }
    }
  }

  lemma OnlyTurn(trace: seq<Step>, id: Id, more: seq<Step>, i: nat)
    requires Quiet(more)
    requires var all := trace + [Called(id)] + more; |trace| <= i < |all| && all[i].Called?
    ensures i == |trace| && TurnEnd(trace + [Called(id)] + more, i) == |trace + [Called(id)] + more|
  {
    QuietAfter(trace, more, id);
  }

  /** Who gets a turn: exactly the handlers that were there at the start and were not removed first. */
  lemma CalledExactlyOnce(trace: seq<Step>, key: Key, start: set<Id>, i: nat, j: nat)
    requires Turns(trace, key, start)
    requires i < |trace| && j < |trace| && trace[i].Called? && trace[j].Called?
    ensures trace[i].caller in start && (trace[i].caller == trace[j].caller <==> i == j)
    ensures i < j <==> trace[i].caller > trace[j].caller
  {
    assert Turn(trace, key, start, 0, i);
    if i < j {
    } else if j < i {
    }
  }
}
