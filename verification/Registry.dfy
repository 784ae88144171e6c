/** Registering a type registers what it is made of, and tells the new-type handler about each new type. */
module Registries {
  import opened Wrappers
  import opened Types

  datatype Known = Known(types: Registry, notified: seq<Type>)

  function Register(k: Known, t: Type): Known
    decreases Size(t), 0
  {
    if NameOf(t) in k.types then k
    else
      var entered := k.(types := k.types[NameOf(t) := t]);
      var parts :=
        match t
        case List(e) => Register(entered, e)
        case Record(_, _, props) => RegisterProps(entered, props)
        case Enumeration(_, _) => Register(entered, INT32)
        case Fundamental(_) => entered;
      parts.(notified := parts.notified + [t])
  }

  function RegisterProps(k: Known, props: seq<Property>): Known
    decreases SizeAll(props), |props| + 1
  {
    if props == [] then k
    else
      assert SizeOne(props[0]) == Size(props[0].of);
      RegisterProps(Register(k, props[0].of), props[1..])
  }

  function Names(ts: seq<Type>): set<Name> {
    set t | t in ts :: NameOf(t)
  }

  /** Nothing is announced before what it is made of; `known` was there already. */
  ghost predicate PartsFirst(known: set<Name>, ts: seq<Type>) {
    forall i, e :: 0 <= i < |ts| && e in Parts(ts[i]) ==> NameOf(e) in known + Names(ts[..i])
  }

  ghost predicate OnceEach(ts: seq<Type>) {
    forall i, j :: 0 <= i < j < |ts| ==> NameOf(ts[i]) != NameOf(ts[j])
  }

  // A set of types that contains all parts of its members, with one type per name.
  ghost predicate Universe(universe: set<Type>) {
    && (forall t, e :: t in universe && e in Parts(t) ==> e in universe)
    && forall t, u :: t in universe && u in universe && NameOf(t) == NameOf(u) ==> t == u
  }

  function New(k: Known, k': Known): seq<Type>
    requires |k.notified| <= |k'.notified|
  {
    k'.notified[|k.notified|..]
  }

  /** From `k` to `k'` exactly the new names were announced, once each, parts first, none larger than `bound`. */
  ghost predicate Grown(universe: set<Type>, k: Known, k': Known, bound: nat) {
    && (forall n :: n in k.types ==> n in k'.types && k'.types[n] == k.types[n])
    && k.notified <= k'.notified
    && var new_ := New(k, k');
    && (forall t ::
      t in new_ ==> t in universe && Size(t) <= bound && NameOf(t) in k'.types && k'.types[NameOf(t)] == t)
    && k'.types.Keys == k.types.Keys + Names(new_) && k.types.Keys !! Names(new_)
    && OnceEach(new_) && PartsFirst(k.types.Keys, new_)
  }

  lemma GrownNothing(universe: set<Type>, k: Known, bound: nat)
    ensures Grown(universe, k, k, bound)
  {
    assert New(k, k) == [];
  }

  lemma NamesMore(a: seq<Type>, b: seq<Type>)
    ensures Names(a + b) == Names(a) + Names(b)
  {
  }

  lemma GrownTwice(universe: set<Type>, k0: Known, k1: Known, k2: Known, bound: nat)
    requires Grown(universe, k0, k1, bound) && Grown(universe, k1, k2, bound)
    ensures Grown(universe, k0, k2, bound)
  {
    hide Names, PartsFirst, OnceEach;
    var a, b := New(k0, k1), New(k1, k2);
    assert New(k0, k2) == a + b;
    NamesMore(a, b);
    OnceAppend(a, b, k0.types.Keys, k1.types.Keys);
    PartsAppend(a, b, k0.types.Keys);
  }

  lemma OnceAppend(a: seq<Type>, b: seq<Type>, before: set<Name>, between: set<Name>)
    requires OnceEach(a) && OnceEach(b) && between == before + Names(a) && between !! Names(b)
    ensures OnceEach(a + b)
  {
    forall i, j | 0 <= i < j < |a + b|
      ensures NameOf((a + b)[i]) != NameOf((a + b)[j])
    {
      if i < |a| <= j {
        assert a[i] in a && b[j - |a|] in b;
        assert NameOf(a[i]) in Names(a) && NameOf(b[j - |a|]) in Names(b);
      }
    }
  }

  lemma PartsAppend(a: seq<Type>, b: seq<Type>, known: set<Name>)
    requires PartsFirst(known, a) && PartsFirst(known + Names(a), b)
    ensures PartsFirst(known, a + b)
  {
    hide Names, Parts;
    forall i, e | 0 <= i < |a + b| && e in Parts((a + b)[i])
      ensures NameOf(e) in known + Names((a + b)[..i])
    {
      if i < |a| {
        assert (a + b)[..i] == a[..i];
      } else {
        assert (a + b)[..i] == a + b[..i - |a|];
        NamesMore(a, b[..i - |a|]);
      }
    }
  }

  // Inside a type that is being registered nothing is made of that type.
  lemma InnerParts(universe: set<Type>, known: set<Name>, inner: seq<Type>, t: Type, bound: nat)
    requires Universe(universe) && t in universe && bound < Size(t)
    requires forall u :: u in inner ==> u in universe && Size(u) <= bound
    requires PartsFirst(known + {NameOf(t)}, inner)
    requires forall e :: e in Parts(t) ==> NameOf(e) in known + {NameOf(t)} + Names(inner)
    ensures PartsFirst(known, inner + [t])
  {
    hide Names;
    forall i, e | 0 <= i < |inner + [t]| && e in Parts((inner + [t])[i])
      ensures NameOf(e) in known + Names((inner + [t])[..i])
    {
      PartsSmaller((inner + [t])[i], e);
      assert i < |inner| ==> inner[i] in inner;
      assert e in universe && e != t;
      assert (inner + [t])[..i] == inner[..i];
    }
  }

  lemma OnceMore(ts: seq<Type>, t: Type)
    requires OnceEach(ts) && NameOf(t) !in Names(ts)
    ensures OnceEach(ts + [t]) && Names(ts + [t]) == Names(ts) + {NameOf(t)}
  {
    forall i | 0 <= i < |ts|
      ensures NameOf(ts[i]) != NameOf(t)
    {
      assert ts[i] in ts && NameOf(ts[i]) in Names(ts);
    }
    NamesMore(ts, [t]);
    assert [t][0] in [t] && Names([t]) == {NameOf(t)};
  }

  /** Entering a type, then its parts, then announcing it. */
  lemma GrownEnter(universe: set<Type>, k: Known, parts: Known, t: Type, bound: nat)
    requires Universe(universe) && t in universe && NameOf(t) !in k.types && bound < Size(t)
    requires Grown(universe, k.(types := k.types[NameOf(t) := t]), parts, bound)
    requires forall e :: e in Parts(t) ==> NameOf(e) in parts.types
    ensures Grown(universe, k, parts.(notified := parts.notified + [t]), Size(t)) && NameOf(t) in parts.types
  {
    hide Names, Universe, PartsFirst, OnceEach;
    var entered, k' := k.(types := k.types[NameOf(t) := t]), parts.(notified := parts.notified + [t]);
    var inner := New(entered, parts);
    assert New(k, k') == inner + [t];
    assert entered.types.Keys == k.types.Keys + {NameOf(t)};
    InnerParts(universe, k.types.Keys, inner, t, bound);
    OnceMore(inner, t);
  }

  lemma GrownBound(universe: set<Type>, k: Known, k': Known, bound: nat, more: nat)
    requires Grown(universe, k, k', bound) && bound <= more
    ensures Grown(universe, k, k', more)
  {
  }

  /** Registering announces exactly the types that were not there, once each, dependencies first. */
  lemma {:induction false} RegisterGrows(universe: set<Type>, k: Known, t: Type)
    requires Universe(universe) && t in universe
    ensures Grown(universe, k, Register(k, t), Size(t)) && NameOf(t) in Register(k, t).types
    decreases Size(t), 0
  {
    hide Grown;
    if NameOf(t) in k.types {
      GrownNothing(universe, k, Size(t));
    } else {
      var entered := k.(types := k.types[NameOf(t) := t]);
      match t
      case List(e) =>
        assert e in Parts(t);
        RegisterGrows(universe, entered, e);
        GrownEnter(universe, k, Register(entered, e), t, Size(e));
      case Record(_, _, props) =>
        forall i | 0 <= i < |props|
          ensures props[i].of in universe
        {
          assert props[i] in props && props[i].of in Parts(t);
        }
        RegisterPropsGrow(universe, entered, props);
        GrownEnter(universe, k, RegisterProps(entered, props), t, SizeAll(props));
      case Enumeration(_, _) =>
        assert INT32 in Parts(t);
        RegisterGrows(universe, entered, INT32);
        GrownEnter(universe, k, Register(entered, INT32), t, 1);
      case Fundamental(_) =>
        GrownNothing(universe, entered, 0);
        GrownEnter(universe, k, entered, t, 0);
    }
  }

  lemma {:induction false} RegisterPropsGrow(universe: set<Type>, k: Known, props: seq<Property>)
    requires Universe(universe) && forall i :: 0 <= i < |props| ==> props[i].of in universe
    ensures Grown(universe, k, RegisterProps(k, props), SizeAll(props))
    ensures forall i :: 0 <= i < |props| ==> NameOf(props[i].of) in RegisterProps(k, props).types
    decreases SizeAll(props), |props| + 1
  {
    hide Universe;
    if props == [] {
      GrownNothing(universe, k, 0);
    } else {
      var first, rest := Register(k, props[0].of), props[1..];
      assert SizeOne(props[0]) == Size(props[0].of);
      RegisterGrows(universe, k, props[0].of);
      GrownBound(universe, k, first, Size(props[0].of), SizeAll(props));
      RegisterPropsGrow(universe, first, rest);
      GrownBound(universe, first, RegisterProps(first, rest), SizeAll(rest), SizeAll(props));
      GrownTwice(universe, k, first, RegisterProps(first, rest), SizeAll(props));
      forall i | 0 <= i < |props|
        ensures NameOf(props[i].of) in RegisterProps(k, props).types
      {
        if i > 0 {
          assert props[i] == rest[i - 1];
        }
      }
    }
  }

  // ----- Sequences of registrations -----

  function RegisterAll(k: Known, ts: seq<Type>): Known {
    if ts == [] then k else Register(RegisterAll(k, ts[..|ts| - 1]), ts[|ts| - 1])
  }

  ghost predicate Closed(types: Registry) {
    forall n, e :: n in types && e in Parts(types[n]) ==> NameOf(e) in types
  }

  lemma {:induction false} RegisterAllGrows(universe: set<Type>, k: Known, ts: seq<Type>, bound: nat)
    requires Universe(universe) && forall t :: t in ts ==> t in universe && Size(t) <= bound
    ensures Grown(universe, k, RegisterAll(k, ts), bound)
    ensures forall t :: t in ts ==> NameOf(t) in RegisterAll(k, ts).types
  {
    hide Universe;
    if ts == [] {
      GrownNothing(universe, k, bound);
    } else {
      var init, t := ts[..|ts| - 1], ts[|ts| - 1];
      RegisterAllGrows(universe, k, init, bound);
      RegisterGrows(universe, RegisterAll(k, init), t);
      GrownBound(universe, RegisterAll(k, init), RegisterAll(k, ts), Size(t), bound);
      GrownTwice(universe, k, RegisterAll(k, init), RegisterAll(k, ts), bound);
      assert ts == init + [t];
    }
  }

  /** After any registrations every part of a registered type is registered under its name. */
  lemma GrownCloses(universe: set<Type>, k: Known, k': Known, bound: nat)
    requires Closed(k.types) && Grown(universe, k, k', bound)
    ensures Closed(k'.types)
  {
    var new_ := New(k, k');
    forall n, e | n in k'.types && e in Parts(k'.types[n])
      ensures NameOf(e) in k'.types
    {
      if n !in k.types {
        var t :| t in new_ && NameOf(t) == n;
        var i :| 0 <= i < |new_| && new_[i] == t;
        assert NameOf(e) in k.types.Keys + Names(new_[..i]);
        assert Names(new_[..i]) <= Names(new_);
      }
    }
  }

  class TypeRegistry {
    var types: Registry
    // The calls of the new-type handler.
    var notified: seq<Type>

    ghost function Now(): Known
      reads this
    {
      Known(types, notified)
    }

    constructor (static_: Registry)
      ensures types == static_ && notified == []
    {
      types, notified := static_, [];
    }

    /** A known name is an error if the type has to be new, and otherwise left alone. */
    method RegisterType(t: Type, assertNewType: bool) returns (registered: Option<Type>)
      modifies this
      ensures registered.None? <==> assertNewType && NameOf(t) in old(types)
      ensures registered.None? ==> Now() == old(Now())
      ensures registered.Some? ==> Now() == Register(old(Now()), t) && NameOf(t) in types
      ensures registered.Some? ==> registered.value == if NameOf(t) in old(types) then old(types)[NameOf(t)] else t
      ensures forall n :: n in old(types) ==> n in types
      decreases Size(t), 0
    {
      if NameOf(t) in types {
        return if assertNewType then None else Some(types[NameOf(t)]);
      }
      types := types[NameOf(t) := t];
      match t {
        case List(e) =>
          var _ := RegisterType(e, false);
        case Enumeration(_, _) =>
          var _ := RegisterType(INT32, false);
        case Record(_, _, props) =>
          ghost var entered := Now();
          var n := 0;
          assert props[0..] == props;
          while n < |props|
            invariant n <= |props| && RegisterProps(entered, props) == RegisterProps(Now(), props[n..])
            invariant forall m :: m in entered.types ==> m in types
          {
            PartSmaller(props, n);
            assert props[n..][0] == props[n] && props[n..][1..] == props[n + 1..];
            var _ := RegisterType(props[n].of, false);
            n := n + 1;
          }
        case Fundamental(_) =>
      }
      notified := notified + [t];
      return Some(t);
    }
  }
}
