/**
 Types on a connection: before an instance goes out, what its type is made of is described to the
 peer, each type once and parts first; the peer turns descriptions back into types.
 */
module TypeExport {
  import opened Wrappers
  import opened Types
  import opened Registries

  datatype Item = Description(data: Data) | Instance(of: Type)

  const INTERNAL := Flags(false, true, false, false, false, true)

  // The types of descriptions are internal; what they are made of does not matter here.
  const ENUM_DATA := Record("EnumDescriptorData", INTERNAL, [])
  const STRUCT_DATA := Record("StructDescriptorData", INTERNAL, [])

  // ----- What exporting one type does -----

  datatype Exported = Exported(shared: set<Type>, sent: seq<Type>)

  function Export(shared: set<Type>, t: Type): Exported
    decreases Size(t), 0
  {
    if t in shared then Exported(shared, [])
    else
      var entered := shared + {t};
      match t
      case Fundamental(_) => Exported(entered, [])
      case List(e) => Export(entered, e)
      case Enumeration(_, _) =>
        var r := Export(entered, INT32);
        Exported(r.shared + {ENUM_DATA}, r.sent + [t])
      case Record(_, flags, props) =>
        if flags.internal_ then Exported(entered, [])
        else
          var r := ExportProps(entered, props);
          Exported(r.shared + {STRUCT_DATA}, r.sent + [t])
  }

  function ExportProps(shared: set<Type>, props: seq<Property>): Exported
    decreases SizeAll(props), |props| + 1
  {
    if props == [] then Exported(shared, [])
    else
      assert SizeOne(props[0]) == Size(props[0].of);
      var first := Export(shared, props[0].of);
      var rest := ExportProps(first.shared, props[1..]);
      Exported(rest.shared, first.sent + rest.sent)
  }

  /** All dependencies that have to be described are known or come earlier. */
  ghost predicate DependenciesFirst(known: set<Name>, ts: seq<Type>) {
    forall i, e :: 0 <= i < |ts| && e in Dependencies(ts[i]) && User(e) ==> NameOf(e) in known + Names(ts[..i])
  }

  /** Of the shared types the peer knows those to be described; `open` are the ones still being exported. */
  ghost predicate Covered(shared: set<Type>, known: set<Name>, open: set<Type>) {
    forall u :: u in shared && u !in open ==> (User(u) ==> NameOf(u) in known) && (u.List? ==> u.of in shared)
  }

  ghost predicate Shipped(universe: set<Type>, known: set<Name>, open: set<Type>, shared: set<Type>, r: Exported,
                          bound: nat)
  {
    && shared <= r.shared
    && Covered(r.shared, known + Names(r.sent), open)
    && (forall u :: u in r.sent ==> User(u) && u !in shared && u in r.shared && u in universe && Size(u) <= bound)
    && Distinct(r.sent) && DependenciesFirst(known, r.sent)
  }

  lemma ShippedNothing(universe: set<Type>, known: set<Name>, open: set<Type>, shared: set<Type>, bound: nat)
    requires Covered(shared, known, open)
    ensures Shipped(universe, known, open, shared, Exported(shared, []), bound)
  {
    assert known + Names([]) == known;
  }

  lemma DependenciesAppend(known: set<Name>, a: seq<Type>, b: seq<Type>)
    requires DependenciesFirst(known, a) && DependenciesFirst(known + Names(a), b)
    ensures DependenciesFirst(known, a + b)
  {
    forall i, e | 0 <= i < |a + b| && e in Dependencies((a + b)[i]) && User(e)
      ensures NameOf(e) in known + Names((a + b)[..i])
    {
      if i < |a| {
        assert (a + b)[..i] == a[..i];
      } else {
        assert (a + b)[..i] == a + b[..i - |a|];
        NamesMore(a, b[..i - |a|]);
      }
    }
  }

  lemma ShippedTwice(universe: set<Type>, known: set<Name>, open: set<Type>, shared: set<Type>, r: Exported,
                     s: Exported, bound: nat)
    requires Shipped(universe, known, open, shared, r, bound)
    requires Shipped(universe, known + Names(r.sent), open, r.shared, s, bound)
    ensures Shipped(universe, known, open, shared, Exported(s.shared, r.sent + s.sent), bound)
  {
    hide Dependencies, Names, Covered;
    NamesMore(r.sent, s.sent);
    assert known + Names(r.sent) + Names(s.sent) == known + (Names(r.sent) + Names(s.sent));
    DependenciesAppend(known, r.sent, s.sent);
    forall i, j | 0 <= i < j < |r.sent + s.sent|
      ensures (r.sent + s.sent)[i] != (r.sent + s.sent)[j]
    {
      if i < |r.sent| <= j {
        assert r.sent[i] in r.sent && s.sent[j - |r.sent|] in s.sent;
      }
    }
  }

  lemma ShippedBound(universe: set<Type>, known: set<Name>, open: set<Type>, shared: set<Type>, r: Exported,
                     bound: nat, more: nat)
    requires Shipped(universe, known, open, shared, r, bound) && bound <= more
    ensures Shipped(universe, known, open, shared, r, more)
  {
  }

  // The last step: the type itself is described, after its parts; `extra` is internal.
  lemma ShippedLast(universe: set<Type>, known: set<Name>, open: set<Type>, shared: set<Type>, r: Exported, t: Type,
                    extra: set<Type>, bound: nat)
    requires t !in shared && t !in open && t in universe && User(t) && bound < Size(t)
    requires Shipped(universe, known, open + {t}, shared + {t}, r, bound)
    requires forall e :: e in extra ==> !User(e) && !e.List?
    requires forall e :: e in Dependencies(t) && User(e) ==> NameOf(e) in known + Names(r.sent)
    ensures Shipped(universe, known, open, shared, Exported(r.shared + extra, r.sent + [t]), Size(t))
  {
    hide Dependencies;
    NamesMore(r.sent, [t]);
    assert [t][0] in [t] && Names([t]) == {NameOf(t)};
    assert DependenciesFirst(known + Names(r.sent), [t]) by {
      assert [t][..0] == [];
    }
    DependenciesAppend(known, r.sent, [t]);
    forall i | 0 <= i < |r.sent|
      ensures r.sent[i] != t
    {
      assert r.sent[i] in r.sent;
    }
  }

  /** Exporting a type: every dependency is described before it is needed, nothing twice, nothing shared again. */
  lemma {:induction false} ExportShips(universe: set<Type>, known: set<Name>, open: set<Type>, shared: set<Type>,
                                       t: Type)
    requires Universe(universe) && t in universe && Covered(shared, known, open)
    requires forall o :: o in open ==> Size(o) > Size(t)
    ensures Shipped(universe, known, open, shared, Export(shared, t), Size(t)) && t in Export(shared, t).shared
    decreases Size(t), 0
  {
    hide Names, Dependencies;
    if t in shared {
      ShippedNothing(universe, known, open, shared, Size(t));
    } else {
      var entered, within := shared + {t}, open + {t};
      match t
      case Fundamental(_) =>
        ShippedNothing(universe, known, open, entered, Size(t));
      case List(e) =>
        assert e in Parts(t);
        ExportShips(universe, known, within, entered, e);
        ShippedOpened(universe, known, open, shared, Export(entered, e), t, Size(e));
      case Enumeration(_, _) =>
        assert INT32 in Parts(t);
        ExportShips(universe, known, within, entered, INT32);
        NoDependencies(t);
        ShippedLast(universe, known, open, shared, Export(entered, INT32), t, {ENUM_DATA}, 1);
      case Record(_, flags, props) =>
        if flags.internal_ {
          ShippedNothing(universe, known, open, entered, Size(t));
        } else {
          forall i | 0 <= i < |props|
            ensures props[i].of in universe
          {
            assert props[i] in props && props[i].of in Parts(t);
          }
          ExportPropsShip(universe, known, within, entered, props);
          RecordDependencies(t, known + Names(ExportProps(entered, props).sent),
                             ExportProps(entered, props).shared, within);
          ShippedLast(universe, known, open, shared, ExportProps(entered, props), t, {STRUCT_DATA}, SizeAll(props));
        }
    }
  }

  lemma NoDependencies(t: Type)
    requires t.Enumeration?
    ensures Dependencies(t) == {}
  {
  }

  // A vector is nothing to describe; it is done once its element is.
  lemma ShippedOpened(universe: set<Type>, known: set<Name>, open: set<Type>, shared: set<Type>, r: Exported,
                      t: Type, bound: nat)
    requires t.List? && t !in shared && t.of in r.shared && bound < Size(t)
    requires Shipped(universe, known, open + {t}, shared + {t}, r, bound)
    ensures Shipped(universe, known, open, shared, r, Size(t)) && t in r.shared
  {
    hide Names, Dependencies;
  }

  // Once the types of all properties are shared, the dependencies are known.
  lemma RecordDependencies(t: Type, known: set<Name>, shared: set<Type>, open: set<Type>)
    requires t.Record? && Covered(shared, known, open)
    requires forall i :: 0 <= i < |t.props| ==> t.props[i].of in shared
    requires forall o :: o in open ==> Size(o) >= Size(t)
    ensures forall e :: e in Dependencies(t) && User(e) ==> NameOf(e) in known
  {
    forall e | e in Dependencies(t) && User(e)
      ensures NameOf(e) in known
    {
      var p :| p in t.props && Needed(p.of) == e;
      var i :| 0 <= i < |t.props| && t.props[i] == p;
      PartSmaller(t.props, i);
      assert p.of !in open && p.of in shared;
    }
  }

  lemma {:induction false} ExportPropsShip(universe: set<Type>, known: set<Name>, open: set<Type>, shared: set<Type>,
                                           props: seq<Property>)
    requires Universe(universe) && Covered(shared, known, open)
    requires forall i :: 0 <= i < |props| ==> props[i].of in universe
    requires forall o :: o in open ==> Size(o) > SizeAll(props)
    ensures Shipped(universe, known, open, shared, ExportProps(shared, props), SizeAll(props))
    ensures forall i :: 0 <= i < |props| ==> props[i].of in ExportProps(shared, props).shared
    decreases SizeAll(props), |props| + 1
  {
    hide Names, Dependencies, Universe, Covered, Distinct, DependenciesFirst;
    if props == [] {
      ShippedNothing(universe, known, open, shared, 0);
    } else {
      var first, tail := Export(shared, props[0].of), props[1..];
      assert SizeOne(props[0]) == Size(props[0].of);
      ExportShips(universe, known, open, shared, props[0].of);
      ShippedBound(universe, known, open, shared, first, Size(props[0].of), SizeAll(props));
      var rest := ExportProps(first.shared, tail);
      ExportPropsShip(universe, known + Names(first.sent), open, first.shared, tail);
      ShippedBound(universe, known + Names(first.sent), open, first.shared, rest, SizeAll(tail), SizeAll(props));
      ShippedTwice(universe, known, open, shared, first, rest, SizeAll(props));
      forall i | 0 <= i < |props|
        ensures props[i].of in ExportProps(shared, props).shared
      {
        if i > 0 {
          assert props[i] == tail[i - 1];
        }
      }
    }
  }
}
