/**
 The dispatcher: handler tables that change while their handlers are being called. Module
 `Dispatch` says what the calls, the tables and the events of a subscriber amount to.
 */
module Dispatchers {
  import opened Wrappers
  import opened Replica
  import opened Containers
  import opened Dispatch

  /** Ids are handed out once, over all tables. */
  ghost predicate DistinctIds(tables: Tables, nextId: Id) {
    && (forall key, id :: id in Table(tables, key) ==> id < nextId)
    && forall key, other, id :: id in Table(tables, key) && id in Table(tables, other) ==> key == other
  }

  lemma DistinctAdd(tables: Tables, nextId: Id, key: Key)
    requires DistinctIds(tables, nextId)
    ensures DistinctIds(tables[key := Table(tables, key) + {nextId}], nextId + 1)
  {
    var more := tables[key := Table(tables, key) + {nextId}];
    forall other, id | id in Table(more, other)
      ensures id in Table(tables, other) || (id == nextId && other == key)
    {
    }
  }

  lemma DistinctFewer(tables: Tables, nextId: Id, key: Key, gone: set<Id>)
    requires DistinctIds(tables, nextId)
    ensures DistinctIds(tables[key := Table(tables, key) - gone], nextId)
  {
    var fewer := tables[key := Table(tables, key) - gone];
    assert forall other :: Table(fewer, other) <= Table(tables, other);
  }

  type Log = map<Id, seq<Event>>
  type Pool = map<TypeName, Clones>

  /** Every subscriber of a cached type knows its container; those still to be called know what it was before. */
  ghost predicate Mirrors(types: map<TypeName, StructType>, tables: Tables, log: Log, pool: Pool, t: TypeName,
                          waiting: set<Id>, before: Clones)
  {
    forall s, id :: s in types && s in pool && id in Table(tables, Events(s)) ==>
      id in log && (types[s].cached ==> Follows(types[s], log[id], if s == t && id in waiting then before else pool[s]))
  }

  /** The handlers after `trace` are those at the start, plus the added, minus the removed. */
  ghost predicate Accounted(start: Tables, tables: Tables, trace: seq<Step>, deferred: set<Id>) {
    forall key :: Table(tables, key) - deferred == Table(start, key) + AddedIn(trace, key) - DroppedIn(trace, key)
  }

  // All ids in a trace were handed out, the added ones since `first`.
  ghost predicate Issued(trace: seq<Step>, first: Id, next: Id) {
    forall s :: s in trace ==>
      match s
      case Called(id) => id < next
      case Added(_, id) => first <= id < next
      case Dropped(_, id) => id < next
  }

  lemma MirrorsAdd(types: map<TypeName, StructType>, tables: Tables, log: Log, pool: Pool, t: TypeName,
                   waiting: set<Id>, before: Clones,
                   key: Key, id: Id, events: seq<Event>)
    requires Mirrors(types, tables, log, pool, t, waiting, before) && id !in waiting && id !in log
    requires key.typeName in types && key.typeName in pool && KeyedClones(types[key.typeName], pool[key.typeName])
    requires key.Events? ==> Replays(events, pool[key.typeName])
    ensures Mirrors(types, tables[key := Table(tables, key) + {id}], log[id := events], pool, t, waiting, before)
  {
    hide Replays, Follows, KeyedClones;
    var more := tables[key := Table(tables, key) + {id}];
    if key.Events? {
      ReplaysFollow(types[key.typeName], events, pool[key.typeName]);
    }
    forall s, other | s in types && s in pool && other in Table(more, Events(s))
      ensures other in log || (other == id && key == Events(s))
    {
      assert Events(s) != key ==> Table(more, Events(s)) == Table(tables, Events(s));
    }
  }

  lemma MirrorsFewer(types: map<TypeName, StructType>, tables: Tables, fewer: Tables, log: Log, pool: Pool,
                     t: TypeName, waiting: set<Id>, before: Clones)
    requires Mirrors(types, tables, log, pool, t, waiting, before)
    requires forall key :: Table(fewer, key) <= Table(tables, key)
    ensures Mirrors(types, fewer, log, pool, t, waiting, before)
  {
    hide Follows;
  }

  lemma IssuedSets(trace: seq<Step>, first: Id, next: Id, key: Key)
    requires Issued(trace, first, next)
    ensures forall id :: id in AddedIn(trace, key) ==> first <= id < next
    ensures forall id :: id in DroppedIn(trace, key) ==> id < next
  {
  }

  lemma CallSets(trace: seq<Step>, id: Id, more: seq<Step>, key: Key)
    ensures AddedIn(trace + [Called(id)] + more, key) == AddedIn(trace, key) + AddedIn(more, key)
    ensures DroppedIn(trace + [Called(id)] + more, key) == DroppedIn(trace, key) + DroppedIn(more, key)
    ensures CalledIn(trace + [Called(id)] + more) == CalledIn(trace) + {id} + CalledIn(more)
  {
    TraceSets(trace + [Called(id)], more, key);
    OneMore(trace, Called(id), key);
  }

  // ----- What one handler does to the tables -----

  /** Added ids are new; removals take effect at once, except for the handler `id` that is being called. */
  predicate Known(types: map<TypeName, StructType>, script: Script) {
    forall a :: a in script.actions ==> a.key.typeName in types
  }

  lemma OneTable(tables: Tables, nextId: Id, key: Key, id: Id)
    requires DistinctIds(tables, nextId) && id in Table(tables, key)
    ensures id < nextId && forall other :: id in Table(tables, other) ==> other == key
  {
  }

  lemma KnownBelow(tables: Tables, nextId: Id, key: Key, id: Id)
    requires DistinctIds(tables, nextId) && id in Table(tables, key)
    ensures id < nextId
  {
  }

  ghost predicate Performed(from: Tables, to: Tables, more: seq<Step>, id: Id, first: Id, next: Id, was: set<Id>,
                            deferred: set<Id>)
  {
    && id < first <= next && Quiet(more) && Issued(more, first, next)
    && (forall key :: id in DroppedIn(more, key) ==> id in Table(from, key))
    && (forall key :: Table(to, key) == Table(from, key) + AddedIn(more, key) - (DroppedIn(more, key) - {id}))
    && deferred == was + if exists key :: id in DroppedIn(more, key) then {id} else {}
  }

  lemma PerformedNothing(tables: Tables, id: Id, next: Id, was: set<Id>)
    requires id < next
    ensures Performed(tables, tables, [], id, next, next, was, was)
  {
    assert forall key :: AddedIn([], key) == {} && DroppedIn([], key) == {};
  }

  lemma OneMore(more: seq<Step>, step: Step, key: Key)
    ensures AddedIn(more + [step], key) == AddedIn(more, key) + if step.Added? && step.to == key then {step.id} else {}
    ensures DroppedIn(more + [step], key) == DroppedIn(more, key) + if step.Dropped? && step.from == key
        then {step.gone} else {}
    ensures CalledIn(more + [step]) == CalledIn(more) + if step.Called? then {step.caller} else {}
  {
    assert forall s :: s in more + [step] <==> s in more || s == step;
  }

  lemma PerformedAdd(from: Tables, to: Tables, more: seq<Step>, id: Id, first: Id, next: Id, was: set<Id>,
                     deferred: set<Id>, key: Key)
    requires Performed(from, to, more, id, first, next, was, deferred)
    ensures Performed(from, to[key := Table(to, key) + {next}], more + [Added(key, next)], id, first,
        next + 1, was, deferred)
  {
    hide AddedIn;
    var all, added := more + [Added(key, next)], to[key := Table(to, key) + {next}];
    forall other
      ensures Table(added, other) == Table(from, other) + AddedIn(all, other) - (DroppedIn(all, other) - {id})
      ensures DroppedIn(all, other) == DroppedIn(more, other)
    {
      OneMore(more, Added(key, next), other);
      assert next !in DroppedIn(more, other);
      assert other != key ==> Table(added, other) == Table(to, other);
    }
  }

  lemma PerformedDrop(from: Tables, to: Tables, more: seq<Step>, id: Id, first: Id, next: Id, was: set<Id>,
                      deferred: set<Id>, key: Key, gone: Id)
    requires Performed(from, to, more, id, first, next, was, deferred) && gone < next && gone in Table(to, key)
    ensures var gones := to[key := Table(to, key) - {gone}];
            gone != id ==> Performed(from, gones, more + [Dropped(key, gone)], id, first, next, was, deferred)
    ensures gone == id ==> Performed(from, to, more + [Dropped(key, gone)], id, first, next, was, deferred + {id})
  {
    hide AddedIn, DroppedIn;
    IssuedSets(more, first, next, key);
    var all, gones := more + [Dropped(key, gone)], to[key := Table(to, key) - {gone}];
    forall other
      ensures AddedIn(all, other) == AddedIn(more, other)
      ensures DroppedIn(all, other) == DroppedIn(more, other) + if other == key then {gone} else {}
      ensures Table(gones, other) == Table(to, other) - if other == key then {gone} else {}
    {
      OneMore(more, Dropped(key, gone), other);
    }
  }

  // ----- One pass over the handlers of a key -----

  /** The pass has reached `last`: erasing `deferred` is all that is missing from the tables. */
  ghost predicate Turning(start: Tables, key: Key, tables: Tables, trace: seq<Step>, deferred: set<Id>, first: Id,
                          next: Id, last: Id)
  {
    && last <= first <= next
    && DistinctIds(start, first) && Issued(trace, first, next)
    && Accounted(start, tables, trace, deferred)
    && (forall id :: id in deferred ==> id in DroppedIn(trace, key) && id in Table(start, key) && id >= last)
    && (forall other, id :: id in Table(tables, other) && id < first ==> id in Table(start, other))
    && TurnsFrom(trace, key, Table(start, key), last)
  }

  lemma TurningStarts(start: Tables, key: Key, first: Id)
    requires DistinctIds(start, first)
    ensures Turning(start, key, start, [], {}, first, first, first)
  {
    assert forall other :: AddedIn([], other) == {} && DroppedIn([], other) == {};
  }

  lemma Rearranged(held: set<Id>, live: set<Id>, added: set<Id>, gone: set<Id>, deferred: set<Id>, after: set<Id>,
                   id: Id)
    requires held - deferred == live && added !! deferred && id !in added && id !in deferred
    requires if after == deferred then id !in gone else after == deferred + {id} && (id in held ==> id in gone)
    ensures held + added - (gone - {id}) - after == live + added - gone
  {
  }

  lemma TurningTables(start: Tables, key: Key, tables: Tables, to: Tables, trace: seq<Step>, more: seq<Step>,
                      deferred: set<Id>, after: set<Id>,
                      first: Id, next: Id, upTo: Id, last: Id, id: Id, other: Key)
    requires Turning(start, key, tables, trace, deferred, first, next, last) && id < last && id in Table(tables, key)
    requires Performed(tables, to, more, id, next, upTo, deferred, after)
    ensures id in DroppedIn(more, other) ==> other == key
    ensures var all := trace + [Called(id)] + more;
            Table(to, other) - after == Table(start, other) + AddedIn(all, other) - DroppedIn(all, other)
  {
    hide AddedIn, DroppedIn, Turn, TurnsFrom, Quiet;
    IssuedSets(trace, first, next, other);
    IssuedSets(more, next, upTo, other);
    IssuedSets(trace, first, next, key);
    CallSets(trace, id, more, other);
    assert id in DroppedIn(more, other) ==> id in Table(start, other) && id in Table(start, key);
    if id in Table(tables, other) {
      assert id in Table(start, other) && id in Table(start, key);
    }
    if k :| id in DroppedIn(more, k) {
      assert id in Table(start, k) && id in Table(start, key);
    }
    var s, a, b, m, g := Table(start, other), AddedIn(trace, other), DroppedIn(trace, other), AddedIn(more, other),
      DroppedIn(more, other);
    assert Table(tables, other) - deferred == s + a - b;
    assert Table(to, other) == Table(tables, other) + m - (g - {id});
    assert m !! deferred && m !! b && id !in m;
    assert id !in deferred && (after == deferred || after == deferred + {id});
    if after == deferred {
      assert id !in g;
    } else {
      assert id in Table(tables, other) ==> id in g;
    }
    Rearranged(Table(tables, other), s + a - b, m, g, deferred, after, id);
    assert s + (a + m) - (b + g) == (s + a - b) + m - g;
  }

  /** The greatest handler below `last` gets its turn, and does `more` to the tables. */
  lemma TurningNext(start: Tables, key: Key, tables: Tables, to: Tables, trace: seq<Step>, more: seq<Step>,
                    deferred: set<Id>, after: set<Id>,
                    first: Id, next: Id, upTo: Id, last: Id, id: Id)
    requires Turning(start, key, tables, trace, deferred, first, next, last)
    requires id < last && id in Table(tables, key) && forall other ::
        other in Table(tables, key) && other < last ==> other <= id
    requires Performed(tables, to, more, id, next, upTo, deferred, after)
    ensures Turning(start, key, to, trace + [Called(id)] + more, after, first, upTo, id)
  {
    hide AddedIn, DroppedIn, Turn, TurnsFrom, Quiet;
    var all := trace + [Called(id)] + more;
    forall other
      ensures Table(to, other) - after == Table(start, other) + AddedIn(all, other) - DroppedIn(all, other)
      ensures id in DroppedIn(more, other) ==> other == key
    {
      TurningTables(start, key, tables, to, trace, more, deferred, after, first, next, upTo, last, id, other);
    }
    forall other
      ensures forall x :: x in AddedIn(more, other) ==> x >= next
      ensures forall x :: x in AddedIn(trace, other) ==> x >= first
    {
      IssuedSets(more, next, upTo, other);
      IssuedSets(trace, first, next, other);
    }
    CallSets(trace, id, more, key);
    assert id in Table(tables, key) - deferred;
    forall other | other in Table(start, key) && id < other < last
      ensures other in DroppedIn(trace, key)
    {
      assert other !in Table(tables, key) && other !in Table(tables, key) - deferred;
    }
    NextTurn(trace, more, key, Table(start, key), last, id);
  }

  ghost predicate Erased(tables: Tables, erased: Tables, key: Key, gone: set<Id>) {
    forall other :: Table(erased, other) == Table(tables, other) - if other == key then gone else {}
  }

  /** What a whole pass over the handlers of `key` amounts to. */
  ghost predicate Passed(start: Tables, tables: Tables, trace: seq<Step>, key: Key) {
    Turns(trace, key, Table(start, key)) && Accounted(start, tables, trace, {})
  }

  lemma TurningEnds(start: Tables, key: Key, tables: Tables, erased: Tables, trace: seq<Step>, deferred: set<Id>,
                    first: Id, next: Id, last: Id)
    requires Turning(start, key, tables, trace, deferred, first, next, last)
    requires forall id :: id in Table(tables, key) ==> id >= last
    requires Erased(tables, erased, key, deferred)
    ensures Passed(start, erased, trace, key)
  {
    hide AddedIn, DroppedIn, Turn, TurnsFrom;
    assert forall other :: Table(erased, other) - {} == Table(tables, other) - deferred;
    forall id | id in Table(start, key) && id < last
      ensures id in DroppedIn(trace, key)
    {
      assert id !in Table(tables, key) - deferred;
    }
    LastTurn(trace, key, Table(start, key), last);
  }

  lemma PerformedOld(from: Tables, to: Tables, more: seq<Step>, id: Id, first: Id, next: Id, was: set<Id>,
                     deferred: set<Id>, key: Key)
    requires Performed(from, to, more, id, first, next, was, deferred)
    ensures forall x :: x in Table(to, key) && x < first ==> x in Table(from, key)
    ensures Quiet(more)
  {
    IssuedSets(more, first, next, key);
  }

  lemma TurningCalled(start: Tables, key: Key, tables: Tables, trace: seq<Step>, deferred: set<Id>, first: Id,
                      next: Id, last: Id)
    requires Turning(start, key, tables, trace, deferred, first, next, last)
    ensures forall id :: id in CalledIn(trace) ==> id >= last
    ensures forall id :: id in Table(tables, key) && id < last ==> id in Table(start, key) && id < first
    ensures last <= first <= next && forall id :: id in Table(start, key) ==> id < first
  {
    forall id | id in CalledIn(trace)
      ensures id >= last
    {
      var i :| 0 <= i < |trace| && trace[i] == Called(id);
      assert Turn(trace, key, Table(start, key), last, i);
    }
  }

  // Who is still to be told the event.
  ghost function Waiting(start: Tables, key: Key, last: Id, e: Option<Event>): set<Id> {
    if e.None? then {} else set id | id in Table(start, key) && id < last
  }

  /** The event went to everyone who had a turn; without an event nothing happened. */
  ghost predicate Spread(e: Option<Event>, key: Key, start: Tables, tables: Tables, trace: seq<Step>, was: Log,
                         log: Log)
  {
    if e.Some? then Passed(start, tables, trace, key) && Told(was, log, trace, e)
        else trace == [] && tables == start && log == was
  }

  // Every handler that was called saw the event, and nothing else.
  ghost predicate Told(was: Log, log: Log, trace: seq<Step>, e: Option<Event>) {
    forall id :: id in was ==> id in log && log[id] == was[id] + if e.Some? && id in CalledIn(trace) then [e.value]
        else []
  }

  lemma ToldOneMore(was: Log, mid: Log, log: Log, trace: seq<Step>, id: Id, more: seq<Step>, e: Option<Event>)
    requires Told(was, mid, trace, e) && id !in CalledIn(trace) && Quiet(more)
    requires forall other ::
        other in mid ==> other in log && log[other] == mid[other] + if e.Some? && other == id then [e.value] else []
    ensures Told(was, log, trace + [Called(id)] + more, e)
  {
    CallSets(trace, id, more, Transmissions(""));
    assert CalledIn(more) == {};
  }

  // ----- What the subscribers know during the pass -----

  ghost predicate Tells(d: StructType, before: Clones, e: Event, after: Clones) {
    d.cached ==> LegalStep(d, before, e) && MirrorStep(d, before, e) == after
  }

  lemma MirrorsCall(types: map<TypeName, StructType>, tables: Tables, log: Log, pool: Pool, t: TypeName,
                    waiting: set<Id>, before: Clones, id: Id, e: Event)
    requires Mirrors(types, tables, log, pool, t, waiting, before) && id in Table(tables, Events(t)) && id in waiting
    requires t in types && t in pool && Tells(types[t], before, e, pool[t])
    requires forall key :: id in Table(tables, key) ==> key == Events(t)
    ensures id in log
    ensures Mirrors(types, tables, log[id := log[id] + [e]], pool, t, waiting - {id}, before)
  {
    hide Follows, LegalStep, MirrorStep;
    assert id in log;
    if types[t].cached {
      FollowsOneMore(types[t], log[id], before, e);
    }
    forall s, other | s in types && s in pool && other in Table(tables, Events(s))
      ensures other in log && (other == id ==> s == t)
    {
    }
  }

  lemma MirrorsWaiting(types: map<TypeName, StructType>, tables: Tables, log: Log, pool: Pool, t: TypeName,
                       waiting: set<Id>, fewer: set<Id>, before: Clones)
    requires Mirrors(types, tables, log, pool, t, waiting, before)
    requires forall id :: id in Table(tables, Events(t)) ==> (id in waiting <==> id in fewer)
    ensures Mirrors(types, tables, log, pool, t, fewer, before)
    ensures fewer == {} ==> Mirrors(types, tables, log, pool, "", {}, map[])
  {
    hide Follows;
  }

  lemma ErasedFewer(tables: Tables, erased: Tables, key: Key, gone: set<Id>)
    requires Erased(tables, erased, key, gone)
    ensures forall other :: Table(erased, other) <= Table(tables, other)
  {
  }

  // ----- The pass as a whole -----

  datatype Snap = Snap(nextId: Id, tables: Tables, deferred: set<Id>, log: Log, trace: seq<Step>, calls: nat)

  /** So far every handler did in its turn what its script says, and the tables are what came of it. */
  ghost predicate Playing(behaviour: (Id, nat) -> Script, s0: Snap, s: Snap) {
    && s0.trace <= s.trace
    && Scripted(s0.tables, s.trace[|s0.trace|..], behaviour, s0.calls)
    && s.calls == s0.calls + CallCount(s.trace[|s0.trace|..])
    && forall key :: Held(s0.tables, s.trace[|s0.trace|..], key) == Table(s.tables, key)
  }

  lemma PlayingStarts(behaviour: (Id, nat) -> Script, s: Snap)
    ensures Playing(behaviour, s, s)
  {
    assert s.trace[|s.trace|..] == [];
  }

  /** What one handler did, beginning with its call: `actions` up to a removal that is refused. */
  ghost predicate Acted(actions: seq<Action>, from: Tables, to: Tables, id: Id, more: seq<Step>) {
    && Plays(actions, more, from, [Called(id)] + more)
    && forall key :: Held(from, [Called(id)] + more, key) == Table(to, key)
  }

  lemma PlayingNext(behaviour: (Id, nat) -> Script, s0: Snap, s: Snap, s': Snap, id: Id, more: seq<Step>)
    requires Playing(behaviour, s0, s) && Quiet(more)
    requires s'.trace == s.trace + [Called(id)] + more && s'.calls == s.calls + 1
    requires Acted(behaviour(id, s'.calls).actions, s.tables, s'.tables, id, more)
    ensures Playing(behaviour, s0, s')
  {
    hide Held, CallCount, Quiet, Plays, Scripted, Table;
    var trace := s.trace[|s0.trace|..];
    assert s'.trace[|s0.trace|..] == trace + [Called(id)] + more == trace + ([Called(id)] + more);
    ScriptedNext(s0.tables, trace, behaviour, s0.calls, s.tables, id, more);
    forall key
      ensures Held(s0.tables, trace + ([Called(id)] + more), key) == Held(s.tables, [Called(id)] + more, key)
    {
      HeldOn(s0.tables, trace, s.tables, id, more, key);
    }
    HeldOn(s0.tables, trace, s.tables, id, more, Transmissions(""));
  }

  /** In the turn of `id`, the tables follow the steps one by one. */
  ghost predicate Following(from: Tables, tables: Tables, id: Id, more: seq<Step>) {
    && Caller([Called(id)] + more) == Some(id)
    && forall key :: Held(from, [Called(id)] + more, key) == Table(tables, key)
  }

  /** One step in the turn of `id`: an added handler gets the next id, and a removal of `id` itself is put off. */
  ghost predicate Stepped(tables: Tables, to: Tables, id: Id, step: Step, next: Id, upTo: Id, was: set<Id>,
                          deferred: set<Id>)
  {
    match step
    case Called(_) => false
    case Added(key, new_) =>
      new_ == next && upTo == next + 1 && deferred == was && to == tables[key := Table(tables, key) + {next}]
    case Dropped(key, gone) =>
      && upTo == next && gone < next && gone in Table(tables, key)
      && if gone == id then to == tables && deferred == was + {gone}
         else to == tables[key := Table(tables, key) - {gone}] && deferred == was
  }

  lemma SteppedOn(from: Tables, tables: Tables, to: Tables, id: Id, more: seq<Step>, step: Step, first: Id, next: Id,
                  upTo: Id, was: set<Id>, noted: set<Id>, deferred: set<Id>)
    requires Performed(from, tables, more, id, first, next, was, noted) && Following(from, tables, id, more)
    requires Stepped(tables, to, id, step, next, upTo, noted, deferred)
    ensures Performed(from, to, more + [step], id, first, upTo, was, deferred)
    ensures Following(from, to, id, more + [step])
  {
    hide Performed, Following;
    match step {
      case Added(key, _) => PerformedAdd(from, tables, more, id, first, next, was, noted, key);
      case Dropped(key, gone) => PerformedDrop(from, tables, more, id, first, next, was, noted, key, gone);
    }
    FollowingNext(from, tables, to, id, more, step);
  }

  lemma EndsEarly(actions: seq<Action>, from: Tables, tables: Tables, id: Id, more: seq<Step>)
    requires Following(from, tables, id, more) && |more| <= |actions|
    requires forall k :: 0 <= k < |more| ==> Does(actions[k], more[k])
    requires |more| < |actions| ==> var next := actions[|more|]; next.Drop? && next.id !in Table(tables, next.key)
    ensures Acted(actions, from, tables, id, more)
  {
  }

  lemma FollowingStarts(tables: Tables, id: Id)
    ensures Following(tables, tables, id, [])
  {
    assert [Called(id)] + [] == [] + [Called(id)];
    forall key
      ensures Held(tables, [Called(id)], key) == Table(tables, key)
    {
      HeldOneMore(tables, [], Called(id), key);
    }
    HeldOneMore(tables, [], Called(id), Transmissions(""));
  }

  lemma FollowingNext(from: Tables, tables: Tables, to: Tables, id: Id, more: seq<Step>, step: Step)
    requires Following(from, tables, id, more) && !step.Called?
    requires forall key :: Table(to, key) == HeldStep(Table(tables, key), Some(id), step, key)
    ensures Following(from, to, id, more + [step])
  {
    hide Held, Caller, Table, HeldStep;
    var trace := [Called(id)] + more;
    assert [Called(id)] + (more + [step]) == trace + [step];
    HeldOneMore(from, trace, step, Transmissions(""));
    forall key
      ensures Held(from, trace + [step], key) == Table(to, key)
    {
      HeldOneMore(from, trace, step, key);
    }
  }

  ghost predicate Highest(tables: Tables, key: Key, last: Id, id: Id) {
    id < last && id in Table(tables, key) && forall other :: other in Table(tables, key) && other < last ==> other <= id
  }

  /** A pass that began in `s0`, with `e` for the subscribers, has reached `last`. */
  ghost predicate Passing(types: map<TypeName, StructType>, pool: Pool, key: Key, e: Option<Event>, before: Clones,
                          s0: Snap, s: Snap, last: Id)
  {
    && s0.trace <= s.trace
    && Turning(s0.tables, key, s.tables, s.trace[|s0.trace|..], s.deferred, s0.nextId, s.nextId, last)
    && Mirrors(types, s.tables, s.log, pool, key.typeName, Waiting(s0.tables, key, last, e), before)
    && Told(s0.log, s.log, s.trace[|s0.trace|..], e)
  }

  lemma PassingStarts(types: map<TypeName, StructType>, pool: Pool, key: Key, e: Option<Event>, before: Clones, s: Snap)
    requires DistinctIds(s.tables, s.nextId) && s.deferred == {}
    requires Mirrors(types, s.tables, s.log, pool, key.typeName, if e.Some? then Table(s.tables, key) else {}, before)
    ensures Passing(types, pool, key, e, before, s, s, s.nextId)
  {
    hide DistinctIds, Mirrors, Turning, Told, Waiting;
    assert s.trace[|s.trace|..] == [];
    TurningStarts(s.tables, key, s.nextId);
    ToldNothing(s.log, e);
    AllWaiting(s.tables, key, s.nextId, e);
  }

  lemma PassingFacts(types: map<TypeName, StructType>, pool: Pool, key: Key, e: Option<Event>, before: Clones,
                     s0: Snap, s: Snap, last: Id, id: Id)
    requires Passing(types, pool, key, e, before, s0, s, last) && Highest(s.tables, key, last, id)
    ensures id < last && id in Table(s.tables, key)
    ensures var waiting := Waiting(s0.tables, key, last, e);
            && Mirrors(types, s.tables, s.log, pool, key.typeName, waiting, before)
            && (forall w :: w in waiting ==> w < s.nextId)
            && (e.Some? ==> id in waiting)
  {
    hide Mirrors, Turning, Told;
    TurningCalled(s0.tables, key, s.tables, s.trace[|s0.trace|..], s.deferred, s0.nextId, s.nextId, last);
  }

  lemma PassingNext(types: map<TypeName, StructType>, pool: Pool, key: Key, e: Option<Event>, before: Clones,
                    s0: Snap, s: Snap, s': Snap, last: Id, id: Id, more: seq<Step>)
    requires Passing(types, pool, key, e, before, s0, s, last) && Highest(s.tables, key, last, id)
        && (key.Events? <==> e.Some?)
    requires Performed(s.tables, s'.tables, more, id, s.nextId, s'.nextId, s.deferred, s'.deferred)
        && s'.trace == s.trace + [Called(id)] + more
    requires var waiting := Waiting(s0.tables, key, last, e);
             Mirrors(types, s'.tables, s'.log, pool, key.typeName, if e.Some? then waiting - {id} else waiting, before)
    requires forall other ::
        other in s.log ==>
          other in s'.log && s'.log[other] == s.log[other] + if e.Some? && other == id then [e.value] else []
    ensures Passing(types, pool, key, e, before, s0, s', id)
  {
    hide Mirrors, Turning, Told, Performed;
    var trace, waiting := s.trace[|s0.trace|..], Waiting(s0.tables, key, last, e);
    assert s'.trace[|s0.trace|..] == trace + [Called(id)] + more;
    TurningNext(s0.tables, key, s.tables, s'.tables, trace, more, s.deferred, s'.deferred, s0.nextId, s.nextId,
      s'.nextId, last, id);
    TurningCalled(s0.tables, key, s.tables, trace, s.deferred, s0.nextId, s.nextId, last);
    PerformedOld(s.tables, s'.tables, more, id, s.nextId, s'.nextId, s.deferred, s'.deferred, key);
    ToldOneMore(s0.log, s.log, s'.log, trace, id, more, e);
    WaitingNext(s0.tables, key, s.tables, s'.tables, s.nextId, s0.nextId, last, id, e);
    MirrorsWaiting(types, s'.tables, s'.log, pool, key.typeName, if e.Some? then waiting - {id} else waiting,
      Waiting(s0.tables, key, id, e), before);
  }

  lemma WaitingNext(start: Tables, key: Key, tables: Tables, to: Tables, next: Id, first: Id, last: Id, id: Id,
                    e: Option<Event>)
    requires Highest(tables, key, last, id) && (key.Events? <==> e.Some?) && first <= next
    requires forall x :: x in Table(to, key) && x < next ==> x in Table(tables, key)
    requires last <= first
    ensures var waiting := Waiting(start, key, last, e);
            forall x :: x in Table(to, Events(key.typeName)) ==>
              (x in (if e.Some? then waiting - {id} else waiting) <==> x in Waiting(start, key, id, e))
  {
  }

  lemma PassingEnds(types: map<TypeName, StructType>, pool: Pool, key: Key, e: Option<Event>, before: Clones,
                    s0: Snap, s: Snap, erased: Tables, last: Id)
    requires Passing(types, pool, key, e, before, s0, s, last) && (key.Events? <==> e.Some?)
    requires forall other :: other in Table(s.tables, key) ==> other >= last
    requires Erased(s.tables, erased, key, s.deferred)
    ensures s0.trace <= s.trace && Passed(s0.tables, erased, s.trace[|s0.trace|..], key)
    ensures Told(s0.log, s.log, s.trace[|s0.trace|..], e)
    ensures Mirrors(types, erased, s.log, pool, "", {}, map[])
  {
    hide Mirrors, Turning, Told, Passed, Erased;
    MirrorsWaiting(types, s.tables, s.log, pool, key.typeName, Waiting(s0.tables, key, last, e), {}, before);
    TurningEnds(s0.tables, key, s.tables, erased, s.trace[|s0.trace|..], s.deferred, s0.nextId, s.nextId, last);
    ErasedFewer(s.tables, erased, key, s.deferred);
    MirrorsFewer(types, s.tables, erased, s.log, pool, "", {}, map[]);
  }

  // ----- What one transmission does -----

  function ContentAfter(d: StructType, clones: Clones, h: Header, i: Instance): Clones {
    if !d.cached then clones else if h.removeObj then clones - {KeyOf(d, i)} else Inserted(d, clones, h, i)
  }

  /** The event subscribers are called with; removing something unknown calls nobody. */
  function EventOf(d: StructType, clones: Clones, h: Header, i: Instance): Option<Event> {
    var k := KeyOf(d, i);
    if !d.cached then
      if h.removeObj then None
          else Some(Event(Create, i, h.attributes, i, CloneInfo(Create, 0, h.sentTime, h.sender, 0), h.fromCache))
    else if !h.removeObj then
      var c := Inserted(d, clones, h, i)[k];
      Some(Event(if k in clones then Updating else Create, i, h.attributes, c.instance, c.info, h.fromCache))
    else if k in clones then
      var c := Touched(d, clones[k], h, i, Removal);
      Some(Event(Removal, i, h.attributes, c.instance, c.info, h.fromCache))
    else None
  }

  /**
   What an event says: the transmission as it came, and what became of the instance. It tells a creation,
   an update or a removal just as the container had it; nobody is called for the removal of something unknown.
   */
  lemma EventSays(d: StructType, clones: Clones, h: Header, i: Instance)
    ensures EventOf(d, clones, h, i).None? <==> h.removeObj && (!d.cached || KeyOf(d, i) !in clones)
    ensures EventOf(d, clones, h, i).Some? ==>
              var e, k := EventOf(d, clones, h, i).value, KeyOf(d, i);
              && e.transmitted == i && e.attributes == h.attributes && e.fromCache == h.fromCache
              && e.op == (if h.removeObj then Removal else if d.cached && k in clones then Updating else Create)
              && (d.cached && k in clones ==> Revised(d, clones[k], Clone(e.updated, e.info), h, i, e.op))
              && (d.cached && k !in clones ==> Fresh(Clone(e.updated, e.info), h, i))
              && (!d.cached ==> e.updated == i && e.info.created == h.sentTime && e.info.createdFrom == h.sender)
  {
    if KeyOf(d, i) in clones {
      TouchedRevises(d, clones[KeyOf(d, i)], h, i, if h.removeObj then Removal else Updating);
    }
  }

  lemma EventTells(d: StructType, clones: Clones, h: Header, i: Instance)
    requires d.Valid() && KeyedClones(d, clones)
    ensures match EventOf(d, clones, h, i)
            case Some(e) => Tells(d, clones, e, ContentAfter(d, clones, h, i))
            case None => ContentAfter(d, clones, h, i) == clones
  {
    var k := KeyOf(d, i);
    if k in clones {
      UpdateKeepsKey(d, clones[k].instance, i, h.attributes);
    }
  }

  /** The container a guest's dispatcher ends up with after the messages it received. */
  function Received(d: StructType, t: TypeName, msgs: seq<Message>): Clones {
    if msgs == [] then map[]
    else
      var before, m := Received(d, t, msgs[..|msgs| - 1]), msgs[|msgs| - 1];
      if m.Data? && m.typeName == t then ContentAfter(d, before, m.header, m.instance) else before
  }

  /** That container shows exactly the fold of the messages, which the convergence laws are about. */
  lemma {:induction false} ReceivedShows(d: StructType, t: TypeName, msgs: seq<Message>)
    requires d.Valid() && d.cached
    ensures KeyedClones(d, Received(d, t, msgs))
    ensures Containers.Shown(Received(d, t, msgs)) == Fold(d, t, msgs)
  {
    if msgs != [] {
      var init, m := msgs[..|msgs| - 1], msgs[|msgs| - 1];
      ReceivedShows(d, t, init);
      if m.Data? {
        InsertedShows(d, Received(d, t, init), m.header, m.instance);
      }
    }
  }

  lemma MirrorsChanged(types: map<TypeName, StructType>, tables: Tables, log: Log, pool: Pool, t: TypeName,
                       after: Clones)
    requires Mirrors(types, tables, log, pool, "", {}, map[]) && t in pool
    ensures Mirrors(types, tables, log, pool[t := after], t, Table(tables, Events(t)), pool[t])
  {
    hide Follows;
  }

  lemma MirrorsWithout(types: map<TypeName, StructType>, tables: Tables, log: Log, pool: Pool, t: TypeName,
                       before: Clones)
    requires Mirrors(types, tables, log, pool, "", {}, map[])
    ensures Mirrors(types, tables, log, pool, t, {}, before)
  {
    hide Follows;
  }

  lemma ToldNothing(log: Log, e: Option<Event>)
    ensures Told(log, log, [], e)
  {
  }

  lemma AllWaiting(tables: Tables, key: Key, nextId: Id, e: Option<Event>)
    requires DistinctIds(tables, nextId)
    ensures Waiting(tables, key, nextId, e) == if e.Some? then Table(tables, key) else {}
  {
  }

  lemma MaxExists(ids: set<Id>)
    requires ids != {}
    ensures exists id :: id in ids && forall other :: other in ids ==> other <= id
  {
    var id :| id in ids;
    var rest := ids - {id};
    if rest != {} {
      MaxExists(rest);
      var best :| best in rest && forall other :: other in rest ==> other <= best;
      var top := if best < id then id else best;
      assert top in ids && forall other :: other in ids ==> other == id || other in rest;
    } else {
      assert ids == {id};
    }
  }

  ghost predicate Stored(container: Container, d: StructType)
    reads container
  {
    container.descriptor == d && container.Valid() && (!d.cached ==> container.instances == map[])
  }

  class Dispatcher {
    const types: map<TypeName, StructType>
    const containers: map<TypeName, Container>
    // What a handler does when it is called, as a function of its id and of how many calls there were.
    const behaviour: (Id, nat) -> Script
    var calls: nat
    var nextId: Id
    var tables: Tables
    var current: Option<Id>
    var removeIds: seq<Id>
    // The events each handler saw, and everything that happened to the tables.
    ghost var log: Log
    ghost var trace: seq<Step>

    ghost predicate Shape()
      reads this
    {
      DistinctIds(tables, nextId) && forall id :: id in log ==> id < nextId
    }

    ghost predicate Stores()
      reads containers.Values
    {
      && types.Keys == containers.Keys
      && (forall t :: t in types ==> Stored(containers[t], types[t]))
      && (forall t, s :: t in types && s in types && t != s ==> containers[t] != containers[s])
      && (forall id, n :: Known(types, behaviour(id, n)))
    }

    constructor (types: map<TypeName, StructType>, containers: map<TypeName, Container>, behaviour: (Id, nat) -> Script)
      requires types.Keys == containers.Keys && forall t :: t in types ==> Stored(containers[t], types[t])
      requires forall t, s :: t in types && s in types && t != s ==> containers[t] != containers[s]
      requires forall id, n :: Known(types, behaviour(id, n))
      ensures Inv() && tables == map[] && trace == []
      ensures this.types == types && this.containers == containers && this.behaviour == behaviour
    {
      this.types, this.containers, this.behaviour := types, containers, behaviour;
      calls, nextId, tables, current, removeIds, log, trace := 0, 0, map[], None, [], map[], [];
    }

    lemma StoredContent(t: TypeName)
      requires Stores() && t in types
      ensures t in Contents() && Contents()[t] == containers[t].instances && types[t].Valid()
          && KeyedClones(types[t], containers[t].instances)
    {
    }

    lemma KeyedStores(t: TypeName)
      requires Stores() && t in types
      ensures t in containers && KeyedClones(types[t], containers[t].instances)
    {
    }

    lemma KnownScripts()
      requires Stores()
      ensures forall id, n :: Known(types, behaviour(id, n))
    {
    }

    lemma TypesStored()
      requires Stores()
      ensures types.Keys == containers.Keys
    {
    }

    ghost function Contents(): Pool
      reads containers.Values
    {
      map t | t in containers :: containers[t].instances
    }

    /** Between two calls from outside. */
    ghost predicate Inv()
      reads this, containers.Values
    {
      Stores() && Shape() && current == None && removeIds == []
        && Mirrors(types, tables, log, Contents(), "", {}, map[])
    }

    // The new handler is called for every clone of the container.
    method ReplayTo(id: Id, clones: Clones)
      requires id in log && log[id] == []
      modifies this`log
      ensures log.Keys == old(log.Keys) && log == old(log)[id := log[id]] && Replays(log[id], clones)
    {
      ghost var order: seq<Instance> := [];
      assert Replay(clones, order) == [];
      var left := clones.Keys;
      while left != {}
        invariant left <= clones.Keys && |order| == |clones| - |left| && |clones.Keys| == |clones|
        invariant forall k :: k in order ==> k in clones && k !in left
        invariant Lists(order, clones) && log == old(log)[id := Replay(clones, order)]
      {
        var k :| k in left;
        left := left - {k};
        ReplayLonger(clones, order, k);
        log := log[id := log[id] + [ReplayEvent(clones[k], |left|)]];
        order := order + [k];
      }
    }

    method AddHandler(key: Key) returns (id: Id)
      requires Stores() && Shape() && key.typeName in types
      modifies this`nextId, this`tables, this`log, this`trace
      ensures Shape()
      ensures id == old(nextId) && nextId == id + 1 && tables == old(tables)[key := Table(old(tables), key) + {id}]
      ensures trace == old(trace) + [Added(key, id)]
      ensures id in log && log == old(log)[id := log[id]] && id !in old(log)
      ensures if key.Events? then Replays(log[id], containers[key.typeName].instances) else log[id] == []
    {
      hide DistinctIds, Replays, Stores;
      assert types.Keys == containers.Keys by {
        TypesStored();
      }
      DistinctAdd(tables, nextId, key);
      id := nextId;
      nextId := nextId + 1;
      tables := tables[key := (if key in tables then tables[key] else {}) + {id}];
      trace := trace + [Added(key, id)];
      log := log[id := []];
      if key.Events? {
        ReplayTo(id, containers[key.typeName].instances);
      }
    }

    method RemoveHandler(key: Key, id: Id) returns (known: bool)
      requires Shape()
      modifies this`tables, this`removeIds, this`trace
      ensures Shape()
      ensures known <==> id in Table(old(tables), key)
      ensures !known ==> tables == old(tables) && removeIds == old(removeIds) && trace == old(trace)
      ensures known ==> trace == old(trace) + [Dropped(key, id)]
      ensures known && current == Some(id) ==> tables == old(tables) && removeIds == old(removeIds) + [id]
      ensures known && current != Some(id) ==> removeIds == old(removeIds) && tables == old(tables)[key :=
          Table(old(tables), key) - {id}]
    {
      hide DistinctIds;
      DistinctFewer(tables, nextId, key, {id});
      if key in tables && id in tables[key] {
        if current == Some(id) {
          removeIds := removeIds + [id];
        } else {
          tables := tables[key := tables[key] - {id}];
        }
        trace := trace + [Dropped(key, id)];
        return true;
      }
      return false;
    }

    // One action of a handler; removing an unknown handler throws.
    method Act(id: Id, a: Action, ghost t: TypeName, ghost waiting: set<Id>, ghost before: Clones)
      returns (done: bool, ghost step: Step)
      requires Stores() && Shape() && current == Some(id) && a.key.typeName in types
      requires Mirrors(types, tables, log, Contents(), t, waiting, before) && forall w :: w in waiting ==> w < nextId
      modifies this`nextId, this`tables, this`removeIds, this`log, this`trace
      ensures Shape() && Mirrors(types, tables, log, Contents(), t, waiting, before) && old(nextId) <= nextId
      ensures done ==> trace == old(trace) + [step] && Does(a, step)
      ensures done ==> Stepped(old(tables), tables, id, step, old(nextId), nextId, Elements(old(removeIds)),
                               Elements(removeIds))
      ensures !done ==> a.Drop? && a.id !in Table(tables, a.key)
      ensures !done ==> trace == old(trace) && tables == old(tables)
      ensures !done ==> removeIds == old(removeIds) && nextId == old(nextId)
      ensures forall other :: other in old(log) ==> other in log && log[other] == old(log)[other]
    {
      hide DistinctIds, Stores, Mirrors, Elements, Replays;
      ghost var held, heard, next := tables, log, nextId;
      match a {
        case Add(key) =>
          KeyedStores(key.typeName);
          var added := AddHandler(key);
          MirrorsAdd(types, held, heard, Contents(), t, waiting, before, key, added, log[added]);
          return true, Added(key, next);
        case Drop(key, gone) =>
          ElementsMore(removeIds, gone);
          done := RemoveHandler(key, gone);
          step := Dropped(key, gone);
          if done {
            KnownBelow(held, nextId, key, gone);
            MirrorsFewer(types, held, tables, log, Contents(), t, waiting, before);
          }
      }
    }

    // The body of a handler: a removal that throws ends it early.
    method Perform(id: Id, script: Script, ghost t: TypeName, ghost waiting: set<Id>, ghost before: Clones)
      returns (thrown: bool)
      requires Stores() && Shape() && current == Some(id) && id < nextId && Known(types, script)
      requires Mirrors(types, tables, log, Contents(), t, waiting, before) && forall w :: w in waiting ==> w < nextId
      modifies this`nextId, this`tables, this`removeIds, this`log, this`trace
      ensures Shape() && Mirrors(types, tables, log, Contents(), t, waiting, before)
      ensures old(trace) <= trace
      ensures Performed(old(tables), tables, trace[|old(trace)|..], id, old(nextId), nextId,
          Elements(old(removeIds)), Elements(removeIds))
      ensures Acted(script.actions, old(tables), tables, id, trace[|old(trace)|..])
      ensures thrown <==> |trace| - |old(trace)| < |script.actions| || script.throws
      ensures forall other :: other in old(log) ==> other in log && log[other] == old(log)[other]
    {
      hide DistinctIds, Stores, Mirrors, Performed, Elements, Replays, Held, Caller, Stepped, Following, Table;
      ghost var from, first, was, start := tables, nextId, Elements(removeIds), trace;
      PerformedNothing(from, id, first, was);
      FollowingStarts(from, id);
      assert trace[|trace|..] == [];
      var n := 0;
      while n < |script.actions|
        modifies this`nextId, this`tables, this`removeIds, this`log, this`trace
        invariant n <= |script.actions|
        invariant Shape() && Mirrors(types, tables, log, Contents(), t, waiting, before)
        invariant start <= trace && first <= nextId
        invariant |trace| - |start| == n && Following(from, tables, id, trace[|start|..])
        invariant forall k :: 0 <= k < n ==> Does(script.actions[k], trace[|start|..][k])
        invariant Performed(from, tables, trace[|start|..], id, first, nextId, was, Elements(removeIds))
        invariant forall other :: other in old(log) ==> other in log && log[other] == old(log)[other]
      {
        ghost var more, held, noted, next := trace[|start|..], tables, Elements(removeIds), nextId;
        var done, step := Act(id, script.actions[n], t, waiting, before);
        if !done {
          EndsEarly(script.actions, from, tables, id, more);
          return true;
        }
        assert trace[|start|..] == more + [step];
        SteppedOn(from, held, tables, id, more, step, first, next, nextId, was, noted, Elements(removeIds));
        n := n + 1;
      }
      EndsEarly(script.actions, from, tables, id, trace[|start|..]);
      return script.throws;
    }

    method NextBelow(key: Key, last: Id) returns (id: Option<Id>)
      ensures id.Some? ==> Highest(tables, key, last, id.value)
      ensures id.None? ==> forall other :: other in Table(tables, key) ==> other >= last
    {
      var rest := set other | other in Table(tables, key) && other < last;
      if rest == {} {
        assert forall other :: other in Table(tables, key) && other < last ==> other in rest;
        return None;
      }
      MaxExists(rest);
      var top :| top in rest && forall other :: other in rest ==> other <= top;
      assert forall other :: other in Table(tables, key) && other < last ==> other in rest;
      return Some(top);
    }

    // One handler's turn: it is told the event, and does to the tables what it likes.
    method Call(key: Key, id: Id, e: Option<Event>, ghost waiting: set<Id>, ghost before: Clones)
      returns (ghost more: seq<Step>)
      requires Stores() && Shape() && key.typeName in types && id in Table(tables, key)
      requires key.Events? <==> e.Some?
      requires e.Some? ==> id in waiting && Tells(types[key.typeName], before, e.value,
          containers[key.typeName].instances)
      requires Mirrors(types, tables, log, Contents(), key.typeName, waiting, before) && forall w ::
          w in waiting ==> w < nextId
      modifies this`nextId, this`tables, this`removeIds, this`current, this`calls, this`log, this`trace
      ensures Shape() && current == None
      ensures Mirrors(types, tables, log, Contents(), key.typeName, if e.Some? then waiting - {id} else waiting, before)
      ensures old(trace) <= trace
      ensures trace == old(trace) + [Called(id)] + more
      ensures Performed(old(tables), tables, more, id, old(nextId), nextId, Elements(old(removeIds)),
          Elements(removeIds))
      ensures calls == old(calls) + 1 && Acted(behaviour(id, calls).actions, old(tables), tables, id, more)
      ensures forall other ::
          other in old(log) ==>
            other in log && log[other] == old(log)[other] + if e.Some? && other == id then [e.value] else []
    {
      hide DistinctIds, Stores, Mirrors, Performed, Elements, Tells, Acted;
      OneTable(tables, nextId, key, id);
      assert types.Keys == containers.Keys by {
        TypesStored();
      }
      current := Some(id);
      trace := trace + [Called(id)];
      if e.Some? {
        MirrorsCall(types, tables, log, Contents(), key.typeName, waiting, before, id, e.value);
        log := log[id := log[id] + [e.value]];
      }
      calls := calls + 1;
      KnownScripts();
      ghost var called := trace;
      var thrown := Perform(id, behaviour(id, calls), key.typeName, if e.Some? then waiting - {id} else waiting,
        before);
      more := trace[|called|..];
      current := None;
    }

    ghost function Now(): Snap
      reads this
    {
      Snap(nextId, tables, Elements(removeIds), log, trace, calls)
    }

    // One round of the loop over the handlers: the highest one below `last` is called.
    method Round(key: Key, id: Id, e: Option<Event>, ghost before: Clones, ghost pool: Pool, ghost s0: Snap,
                 ghost last: Id)
      requires Stores() && Shape() && key.typeName in types && Contents() == pool && key.typeName in pool
      requires key.Events? <==> e.Some?
      requires e.Some? ==> Tells(types[key.typeName], before, e.value, pool[key.typeName])
      requires Passing(types, pool, key, e, before, s0, Now(), last) && Highest(tables, key, last, id)
      requires Playing(behaviour, s0, Now())
      modifies this`nextId, this`tables, this`removeIds, this`current, this`calls, this`log, this`trace
      ensures Shape() && current == None && Passing(types, pool, key, e, before, s0, Now(), id)
      ensures Playing(behaviour, s0, Now())
    {
      hide Stores, DistinctIds, Mirrors, Passing, Performed, Tells, Waiting, Table, Playing, Acted;
      ghost var s := Now();
      PassingFacts(types, pool, key, e, before, s0, s, last, id);
      ghost var more := Call(key, id, e, Waiting(s0.tables, key, last, e), before);
      PassingNext(types, pool, key, e, before, s0, s, Now(), last, id, more);
      PerformedOld(s.tables, tables, more, id, s.nextId, nextId, s.deferred, Elements(removeIds), key);
      PlayingNext(behaviour, s0, s, Now(), id, more);
    }

    method CallHandlers(key: Key, e: Option<Event>, ghost before: Clones, ghost pool: Pool) returns (ghost last: Id)
      requires Stores() && Shape() && current == None && removeIds == [] && key.typeName in types
          && Contents() == pool && key.typeName in pool
      requires key.Events? <==> e.Some?
      requires e.Some? ==> Tells(types[key.typeName], before, e.value, pool[key.typeName])
      requires Mirrors(types, tables, log, pool, key.typeName, if e.Some? then Table(tables, key) else {}, before)
      modifies this`nextId, this`tables, this`removeIds, this`current, this`calls, this`log, this`trace
      ensures Shape() && current == None
      ensures Passing(types, pool, key, e, before, old(Now()), Now(), last)
      ensures Playing(behaviour, old(Now()), Now())
      ensures forall other :: other in Table(tables, key) ==> other >= last
    {
      hide Stores, DistinctIds, Mirrors, Passing, Tells, Table, Playing;
      ghost var s0 := Now();
      var reached := nextId;
      PassingStarts(types, pool, key, e, before, s0);
      PlayingStarts(behaviour, s0);
      var next := NextBelow(key, reached);
      while next.Some?
        modifies this`nextId, this`tables, this`removeIds, this`current, this`calls, this`log, this`trace
        invariant Shape() && current == None && Passing(types, pool, key, e, before, s0, Now(), reached)
        invariant Playing(behaviour, s0, Now())
        invariant next.Some? ==> Highest(tables, key, reached, next.value)
        invariant next.None? ==> forall other :: other in Table(tables, key) ==> other >= reached
        decreases reached
      {
        Round(key, next.value, e, before, pool, s0, reached);
        reached := next.value;
        next := NextBelow(key, reached);
      }
      last := reached;
    }

    method DispatchToHandlers(key: Key, e: Option<Event>, ghost before: Clones)
      requires Stores() && Shape() && current == None && removeIds == [] && key.typeName in types
      requires key.Events? <==> e.Some?
      requires e.Some? ==> Tells(types[key.typeName], before, e.value, containers[key.typeName].instances)
      requires Mirrors(types, tables, log, Contents(), key.typeName, if e.Some? then Table(tables, key) else {}, before)
      modifies this`nextId, this`tables, this`removeIds, this`current, this`calls, this`log, this`trace
      ensures Inv() && old(trace) <= trace
      ensures Passed(old(tables), tables, trace[|old(trace)|..], key)
      ensures Told(old(log), log, trace[|old(trace)|..], e)
      ensures Scripted(old(tables), trace[|old(trace)|..], behaviour, old(calls))
      ensures calls == old(calls) + CallCount(trace[|old(trace)|..])
    {
      ghost var s0 := Now();
      hide Stores, DistinctIds, Mirrors, Passing, Passed, Told, Tells, Table, Scripted, CallCount, Held;
      TypesStored();
      ghost var last := CallHandlers(key, e, before, Contents());
      ghost var s := Now();
      EraseRemoved(key);
      PassingEnds(types, Contents(), key, e, before, s0, s, tables, last);
    }

    method EraseRemoved(key: Key)
      requires Shape()
      modifies this`tables, this`removeIds
      ensures Shape() && removeIds == [] && Erased(old(tables), tables, key, Elements(old(removeIds)))
    {
      hide DistinctIds;
      ghost var held := tables;
      var n := 0;
      assert Elements(removeIds[..0]) == {};
      while n < |removeIds|
        modifies this`tables
        invariant n <= |removeIds| && Shape() && Erased(held, tables, key, Elements(removeIds[..n]))
      {
        assert removeIds[..n + 1] == removeIds[..n] + [removeIds[n]];
        ElementsMore(removeIds[..n], removeIds[n]);
        DistinctFewer(tables, nextId, key, {removeIds[n]});
        tables := tables[key := (if key in tables then tables[key] else {}) - {removeIds[n]}];
        n := n + 1;
      }
      assert removeIds[..n] == removeIds;
      removeIds := [];
    }

    method DispatchTransmission(t: TypeName)
      requires Inv() && t in types
      modifies this`nextId, this`tables, this`removeIds, this`current, this`calls, this`log, this`trace
      ensures Inv() && old(trace) <= trace
      ensures Passed(old(tables), tables, trace[|old(trace)|..], Transmissions(t))
          && Told(old(log), log, trace[|old(trace)|..], None)
      ensures Scripted(old(tables), trace[|old(trace)|..], behaviour, old(calls))
      ensures calls == old(calls) + CallCount(trace[|old(trace)|..])
    {
      hide Mirrors, Passed, Told, Scripted, CallCount;
      MirrorsWaiting(types, tables, log, Contents(), "", {}, {}, map[]);
      MirrorsWithout(types, tables, log, Contents(), t, containers[t].instances);
      DispatchToHandlers(Transmissions(t), None, containers[t].instances);
    }

    // One container changes, all others stay.
    method UpdateContainer(t: TypeName, h: Header, i: Instance) returns (event: Option<Event>)
      requires Stores() && t in types
      modifies containers[t]
      ensures Stores() && Contents() == old(Contents())[t := ContentAfter(types[t], old(containers[t].instances), h, i)]
      ensures event == EventOf(types[t], old(containers[t].instances), h, i)
    {
      event := UpdateStored(containers[t], types[t], h, i);
      hide Stored, EventOf, ContentAfter;
      assert forall s :: s in types && s != t ==> containers[s].instances == old(containers[s].instances);
    }

    method DispatchEvent(t: TypeName, h: Header, i: Instance) returns (ok: bool)
      requires Inv() && t in types
      modifies this`nextId, this`tables, this`removeIds, this`current, this`calls, this`log, this`trace, containers[t]
      ensures Inv() && old(trace) <= trace
      ensures ok <==> types[t].cached || !h.removeObj
      ensures Contents() == old(Contents())[t := ContentAfter(types[t], old(containers[t].instances), h, i)]
      ensures Spread(EventOf(types[t], old(containers[t].instances), h, i), Events(t), old(tables), tables,
          trace[|old(trace)|..], old(log), log)
      ensures Scripted(old(tables), trace[|old(trace)|..], behaviour, old(calls))
    {
      hide Stores, DistinctIds, Mirrors, Passed, Told, EventOf, ContentAfter, Tells, KeyedClones, Scripted;
      ScriptedNothing(tables, trace, behaviour, calls);
      StoredContent(t);
      ghost var before, pool := containers[t].instances, Contents();
      EventTells(types[t], before, h, i);
      var event := UpdateContainer(t, h, i);
      if !types[t].cached && h.removeObj {
        UncachedRemoval(types[t], before, h, i);
        assert Contents() == pool;
        return false;
      }
      if event.Some? {
        MirrorsChanged(types, tables, log, pool, t, ContentAfter(types[t], before, h, i));
        DispatchToHandlers(Events(t), event, before);
      } else {
        assert Contents() == pool;
      }
      return true;
    }

    /**
     Transmission handlers run before the container changes, subscribers after it. Subscribers that
     the transmission handlers added or removed are taken into account.
     */
    method Dispatch(t: TypeName, h: Header, i: Instance)
      returns (ok: bool, ghost first: seq<Step>, ghost between: Tables, ghost second: seq<Step>)
      requires Inv() && t in types
      modifies this`nextId, this`tables, this`removeIds, this`current, this`calls, this`log, this`trace, containers[t]
      ensures Inv() && trace == old(trace) + first + second
      ensures ok <==> types[t].cached || !h.removeObj
      ensures Contents() == old(Contents())[t := ContentAfter(types[t], old(containers[t].instances), h, i)]
      ensures Turns(first, Transmissions(t), Table(old(tables), Transmissions(t)))
      ensures EventOf(types[t], old(containers[t].instances), h, i).Some? ==>
                Turns(second, Events(t),
                      Table(old(tables), Events(t)) + AddedIn(first, Events(t)) - DroppedIn(first, Events(t)))
      ensures EventOf(types[t], old(containers[t].instances), h, i).None? ==> second == []
      ensures Scripted(old(tables), first, behaviour, old(calls))
      ensures forall key :: Table(between, key) == Table(old(tables), key) + AddedIn(first, key) - DroppedIn(first, key)
      ensures Scripted(between, second, behaviour, old(calls) + CallCount(first))
    {
      hide Told, Turns, EventOf, ContentAfter, Stores, Shape, Mirrors, AddedIn, DroppedIn, Scripted, CallCount, Table;
      TypesStored();
      ghost var begun, start, event := trace, tables, EventOf(types[t], containers[t].instances, h, i);
      DispatchTransmission(t);
      first := trace[|begun|..];
      ghost var middle := trace;
      assert Table(tables, Events(t)) - {} == Table(start, Events(t))
        + AddedIn(first, Events(t)) - DroppedIn(first, Events(t));
      between := tables;
      forall key
        ensures Table(between, key) == Table(start, key) + AddedIn(first, key) - DroppedIn(first, key)
      {
        assert Table(between, key) - {} == Table(start, key) + AddedIn(first, key) - DroppedIn(first, key);
        assert Table(between, key) == Table(between, key) - {};
      }
      assert event == EventOf(types[t], containers[t].instances, h, i);
      ok := DispatchEvent(t, h, i);
      second := trace[|middle|..];
    }

    method AddEventHandler(t: TypeName) returns (id: Id)
      requires Inv() && t in types
      modifies this`nextId, this`tables, this`log, this`trace
      ensures Inv() && id == old(nextId) && tables == old(tables)[Events(t) := Table(old(tables), Events(t)) + {id}]
      ensures id in log && Replays(log[id], containers[t].instances) && forall other ::
          other in old(log) ==> other in log && log[other] == old(log)[other]
    {
      hide DistinctIds, Stores, Mirrors, Replays, KeyedClones;
      ghost var held, heard := tables, log;
      StoredContent(t);
      id := AddHandler(Events(t));
      MirrorsAdd(types, held, heard, Contents(), "", {}, map[], Events(t), id, log[id]);
    }

    // An unknown id is an error.
    method RemoveEventHandler(t: TypeName, id: Id) returns (known: bool)
      requires Inv() && t in types
      modifies this`tables, this`removeIds, this`trace
      ensures Inv() && (known <==> id in Table(old(tables), Events(t)))
      ensures tables == if known then old(tables)[Events(t) := Table(old(tables), Events(t)) - {id}] else old(tables)
    {
      ghost var held := tables;
      known := RemoveHandler(Events(t), id);
      MirrorsFewer(types, held, tables, log, Contents(), "", {}, map[]);
    }

    /**
     Between calls, what a subscriber of a cached type was told adds up to the container, and per key
     it saw create, updates, remove, create, and so on.
     */
    lemma SubscriberMirrors(t: TypeName, id: Id, k: Instance)
      requires Inv() && t in types && types[t].cached && id in Table(tables, Events(t))
      ensures id in log && Mirror(types[t], log[id]) == containers[t].instances
      ensures Lifecycle(Operations(types[t], log[id], k), k in containers[t].instances)
    {
      assert Contents()[t] == containers[t].instances;
      LegalLifecycle(types[t], log[id], k);
    }
  }

  lemma ScriptedNothing(tables: Tables, trace: seq<Step>, behaviour: (Id, nat) -> Script, calls: nat)
    ensures Scripted(tables, trace[|trace|..], behaviour, calls)
  {
  }

  lemma UncachedRemoval(d: StructType, clones: Clones, h: Header, i: Instance)
    requires !d.cached && h.removeObj
    ensures EventOf(d, clones, h, i) == None && ContentAfter(d, clones, h, i) == clones
  {
  }

  // The container changes first; `None` when there is nobody to tell.
  method UpdateStored(container: Container, d: StructType, h: Header, i: Instance) returns (event: Option<Event>)
    requires Stored(container, d)
    modifies container
    ensures Stored(container, d) && container.instances == ContentAfter(d, old(container.instances), h, i)
    ensures event == EventOf(d, old(container.instances), h, i)
  {
    hide KeyedClones, Replica.Insert, KeyOf, Update, StructType.Valid;
    if !d.cached {
      event := if h.removeObj then None
        else Some(Event(Create, i, h.attributes, i, CloneInfo(Create, 0, h.sentTime, h.sender, 0), h.fromCache));
    } else if h.removeObj {
      var node := container.Remove(h, i);
      event := if node.None? then None
        else Some(Event(Removal, i, h.attributes, node.value.instance, node.value.info, h.fromCache));
    } else {
      var clone := container.Insert(h, i);
      event := Some(Event(clone.info.lastOperation, i, h.attributes, clone.instance, clone.info, h.fromCache));
    }
  }
}
