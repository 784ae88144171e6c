/**
 The container of one cached type: instances under their key properties, updated in place.
 The abstract value of a container is its `View`, and every operation is tied to the function
 of `Replica` that says what the transmission means.
 */
module Containers {
  import opened Wrappers
  import opened Replica

  datatype Operation = Create | Updating | Removal

  datatype CloneInfo = CloneInfo(lastOperation: Operation, lastUpdateFrom: nat, created: int, createdFrom: nat,
                                 modified: int)

  datatype Clone = Clone(instance: Instance, info: CloneInfo)

  type Clones = map<Instance, Clone>

  // What the clones of a container show to every replica.
  function Shown(clones: Clones): View {
    map k | k in clones :: Seen(clones[k].instance, clones[k].info.lastUpdateFrom, clones[k].info.modified)
  }

  function Touched(d: StructType, was: Clone, h: Header, i: Instance, op: Operation): Clone {
    Clone(Update(d, was.instance, i, h.attributes), was.info.(lastOperation := op, lastUpdateFrom := h.sender,
      modified := h.sentTime))
  }

  function Inserted(d: StructType, clones: Clones, h: Header, i: Instance): Clones {
    var k := KeyOf(d, i);
    clones[k := if k in clones then Touched(d, clones[k], h, i, Updating)
      else Clone(i, CloneInfo(Create, h.sender, h.sentTime, h.sender, h.sentTime))]
  }

  ghost predicate KeyedClones(d: StructType, clones: Clones) {
    forall k :: k in clones ==> KeyOf(d, clones[k].instance) == k
  }

  /** An insertion or removal shows as the transmission's meaning, and keeps every clone under its key. */
  lemma InsertedShows(d: StructType, clones: Clones, h: Header, i: Instance)
    requires d.Valid() && KeyedClones(d, clones)
    ensures Shown(Inserted(d, clones, h, i)) == Replica.Insert(d, Shown(clones), h, i)
    ensures Shown(clones - {KeyOf(d, i)}) == Shown(clones) - {KeyOf(d, i)}
    ensures KeyedClones(d, Inserted(d, clones, h, i))
  {
    var k := KeyOf(d, i);
    if k in clones {
      UpdateKeepsKey(d, clones[k].instance, i, h.attributes);
    }
  }

  /** `now` is `was` after a partial update: when and by whom it was created is kept. */
  ghost predicate Revised(d: StructType, was: Clone, now: Clone, h: Header, i: Instance, op: Operation) {
    && PartlyReplaced(d, was.instance, now.instance, i, h.attributes)
    && now.info.created == was.info.created && now.info.createdFrom == was.info.createdFrom
    && now.info.lastOperation == op && now.info.lastUpdateFrom == h.sender && now.info.modified == h.sentTime
  }

  /** `now` is a new clone. */
  ghost predicate Fresh(now: Clone, h: Header, i: Instance) {
    && now.instance == i && now.info.lastOperation == Create
    && now.info.created == h.sentTime && now.info.createdFrom == h.sender
    && now.info.modified == h.sentTime && now.info.lastUpdateFrom == h.sender
  }

  lemma TouchedRevises(d: StructType, was: Clone, h: Header, i: Instance, op: Operation)
    ensures Revised(d, was, Touched(d, was, h, i, op), h, i, op)
  {
    UpdateReplaces(d, was.instance, i, h.attributes);
  }

  /**
   The property slots of one instance. `valid` is the mask the instance carries; `live` are the
   slots that hold a constructed value. Constructing needs a dead slot, destroying a live one.
   */
  class PropertyArea {
    var storage: map<nat, int>
    var valid: set<nat>
    ghost var live: set<nat>

    ghost predicate Valid()
      reads this
    {
      valid == live <= storage.Keys
    }

    function Value(): (i: Instance)
      requires valid <= storage.Keys
      reads this
    {
      map p | p in valid :: storage[p]
    }

    constructor (i: Instance)
      ensures Valid() && Value() == i
    {
      storage, valid, live := i, i.Keys, i.Keys;
    }

    method Assign(p: nat, x: int)
      requires live <= storage.Keys && p in live
      modifies this`storage
      ensures storage == old(storage)[p := x]
    {
      storage := storage[p := x];
    }

    method ConstructInPlace(p: nat, x: int)
      requires live <= storage.Keys && p !in live
      modifies this`storage, this`live
      ensures storage == old(storage)[p := x] && live == old(live) + {p}
    {
      storage, live := storage[p := x], live + {p};
    }

    ghost method Destruct(p: nat)
      requires p in live
      modifies this`live
      ensures live == old(live) - {p}
    {
      live := live - {p};
    }
  }

  /** The descriptor with only its first `n` plain properties. */
  function FirstPlain(d: StructType, n: nat): StructType
    requires n <= |d.plain|
  {
    d.(plain := d.plain[..n])
  }

  lemma UpdateByNothing(d: StructType, lhs: Instance, rhs: Instance, included: set<nat>)
    ensures Update(FirstPlain(d, 0), lhs, rhs, included) == lhs
  {
    assert FirstPlain(d, 0).Plain() == {};
  }

  lemma UpdateNextPlain(d: StructType, lhs: Instance, rhs: Instance, included: set<nat>, n: nat)
    requires d.Valid() && n < |d.plain|
    ensures var p, was, next := d.plain[n], Update(FirstPlain(d, n), lhs, rhs, included),
        Update(FirstPlain(d, n + 1), lhs, rhs, included);
            && (p in was <==> p in lhs)
            && next == if p in included then (if p in rhs then was[p := rhs[p]] else was - {p}) else was
  {
    var p, first := d.plain[n], FirstPlain(d, n).Plain();
    assert FirstPlain(d, n + 1).plain == FirstPlain(d, n).plain + [p];
    assert FirstPlain(d, n + 1).Plain() == first + {p};
    assert p !in first;
    if p in included {
      assert (first + {p}) * included == first * included + {p};
      FollowOneMore(lhs, rhs, first * included, p);
    } else {
      assert (first + {p}) * included == first * included;
    }
  }

  class Container {
    const descriptor: StructType
    var instances: map<Instance, Clone>

    ghost predicate Valid()
      reads this
    {
      descriptor.Valid() && KeyedClones(descriptor, instances)
    }

    ghost function Content(): View
      reads this
    {
      Shown(instances)
    }

    constructor (descriptor: StructType)
      requires descriptor.Valid()
      ensures Valid() && this.descriptor == descriptor && instances == map[]
    {
      this.descriptor := descriptor;
      instances := map[];
    }

    // One round of the update loop: `p` is in the update set.
    method UpdateProperty(lhs: PropertyArea, rhs: Instance, p: nat)
      requires lhs.Valid() && (p in rhs || p in lhs.valid)
      modifies lhs
      ensures lhs.Valid()
      ensures lhs.Value() == if p in rhs then old(lhs.Value())[p := rhs[p]] else old(lhs.Value()) - {p}
    {
      if p in rhs {
        if p in lhs.valid {
          lhs.Assign(p, rhs[p]);
        } else {
          lhs.ConstructInPlace(p, rhs[p]);
          lhs.valid := lhs.valid + {p};
        }
      } else {
        lhs.Destruct(p);
        lhs.valid := lhs.valid - {p};
      }
    }

    method UpdateWithoutKeys(lhs: PropertyArea, rhs: Instance, included: set<nat>)
      requires descriptor.Valid() && lhs.Valid()
      modifies lhs
      ensures lhs.Valid()
      ensures lhs.Value() == Update(descriptor, old(lhs.Value()), rhs, included)
    {
      ghost var was := lhs.Value();
      var updateSet := (lhs.valid + rhs.Keys) * included;
      UpdateByNothing(descriptor, was, rhs, included);
      var n := 0;
      while n < |descriptor.plain|
        invariant n <= |descriptor.plain|
        invariant lhs.Valid() && was == old(lhs.Value())
        invariant lhs.Value() == Update(FirstPlain(descriptor, n), was, rhs, included)
      {
        UpdateNextPlain(descriptor, was, rhs, included, n);
        ghost var before := lhs.Value();
        var p := descriptor.plain[n];
        assert p in lhs.valid <==> p in before;
        assert p in was <==> p in old(lhs.valid);
        if p in updateSet {
          UpdateProperty(lhs, rhs, p);
        } else {
          assert p in included ==> before - {p} == before;
        }
        n := n + 1;
      }
      assert FirstPlain(descriptor, n) == descriptor;
    }

    method Insert(h: Header, i: Instance) returns (result: Clone)
      requires Valid()
      modifies this
      ensures Valid()
      ensures Content() == Replica.Insert(descriptor, old(Content()), h, i)
      ensures instances == Inserted(descriptor, old(instances), h, i)
      ensures var k := KeyOf(descriptor, i);
              && instances == old(instances)[k := result]
              && if k in old(instances) then Revised(descriptor, old(instances)[k], result, h, i, Updating)
                 else Fresh(result, h, i)
    {
      InsertedShows(descriptor, instances, h, i);
      if KeyOf(descriptor, i) in instances {
        TouchedRevises(descriptor, instances[KeyOf(descriptor, i)], h, i, Updating);
      }
      var k := KeyOf(descriptor, i);
      if k !in instances {
        result := Clone(i, CloneInfo(Create, h.sender, h.sentTime, h.sender, h.sentTime));
      } else {
        var existing := new PropertyArea(instances[k].instance);
        UpdateWithoutKeys(existing, i, h.attributes);
        var info := instances[k].info.(lastOperation := Updating, lastUpdateFrom := h.sender, modified := h.sentTime);
        result := Clone(existing.Value(), info);
      }
      instances := instances[k := result];
    }

    method Remove(h: Header, i: Instance) returns (node: Option<Clone>)
      requires Valid()
      modifies this
      ensures Valid()
      ensures Content() == old(Content()) - {KeyOf(descriptor, i)}
      ensures instances == old(instances) - {KeyOf(descriptor, i)}
      ensures node == if KeyOf(descriptor, i) in old(instances)
          then Some(Touched(descriptor, old(instances)[KeyOf(descriptor, i)], h, i, Removal)) else None
      ensures node.Some? ==> Revised(descriptor, old(instances)[KeyOf(descriptor, i)], node.value, h, i, Removal)
    {
      InsertedShows(descriptor, instances, h, i);
      if KeyOf(descriptor, i) in instances {
        TouchedRevises(descriptor, instances[KeyOf(descriptor, i)], h, i, Removal);
      }
      var k := KeyOf(descriptor, i);
      node := None;
      if k in instances {
        var removed := new PropertyArea(instances[k].instance);
        UpdateWithoutKeys(removed, i, h.attributes);
        var info := instances[k].info.(lastOperation := Removal, lastUpdateFrom := h.sender, modified := h.sentTime);
        node := Some(Clone(removed.Value(), info));
        instances := instances - {k};
      }
    }
  }
}
