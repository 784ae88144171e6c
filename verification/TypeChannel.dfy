/** The two ends of a connection exchanging instances and the descriptions of their types. */
module TypeChannels {
  import opened Wrappers
  import opened Types
  import opened Registries
  import opened TypeExport

  function Descriptions(ts: seq<Type>): seq<Item>
    requires forall t :: t in ts ==> User(t)
  {
    seq(|ts|, n requires 0 <= n < |ts| => Description(Describe(ts[n])))
  }

  lemma {:induction false} ExportSendsUsers(shared: set<Type>, t: Type)
    ensures forall u :: u in Export(shared, t).sent ==> User(u)
    decreases Size(t), 0
  {
    if t !in shared {
      match t
      case List(e) => ExportSendsUsers(shared + {t}, e);
      case Enumeration(_, _) => ExportSendsUsers(shared + {t}, INT32);
      case Record(_, _, props) => ExportPropsSendsUsers(shared + {t}, props);
      case Fundamental(_) =>
    }
  }

  lemma {:induction false} ExportPropsSendsUsers(shared: set<Type>, props: seq<Property>)
    ensures forall u :: u in ExportProps(shared, props).sent ==> User(u)
    decreases SizeAll(props), |props| + 1
  {
    if props != [] {
      assert SizeOne(props[0]) == Size(props[0].of);
      ExportSendsUsers(shared, props[0].of);
      ExportPropsSendsUsers(Export(shared, props[0].of).shared, props[1..]);
    }
  }

  function Shipment(shared: set<Type>, t: Type): seq<Item> {
    ExportSendsUsers(shared, t);
    Descriptions(Export(shared, t).sent)
  }

  predicate SameKind(data: Data, t: Type) {
    (data.StructData? && t.Record?) || (data.EnumData? && t.Enumeration?)
  }

  // The registered type that a description is about.
  function Embedded(registry: Registry, item: Item): Option<Type> {
    if item.Instance? || item.data.name !in registry || !SameKind(item.data, registry[item.data.name]) then None
    else Some(registry[item.data.name])
  }

  // ----- One end -----

  // Internal types are exported without looking inside, so describing a type comes to an end.
  function Effort(t: Type): nat {
    if t.Record? && t.flags.internal_ then 0 else Size(t)
  }

  class Channel {
    const registry: TypeRegistry
    var sharedTypeDescriptors: set<Type>
    var sharedTypeNames: set<Name>
    var out: seq<Item>

    constructor (registry: TypeRegistry)
      ensures this.registry == registry && sharedTypeDescriptors == {} && sharedTypeNames == {} && out == []
    {
      this.registry, sharedTypeDescriptors, sharedTypeNames, out := registry, {}, {}, [];
    }

    method ExportDependencies(t: Type)
      modifies this`sharedTypeDescriptors, this`out
      ensures sharedTypeDescriptors == Export(old(sharedTypeDescriptors), t).shared
      ensures out == old(out) + Shipment(old(sharedTypeDescriptors), t)
      decreases Effort(t), 0
    {
      if t in sharedTypeDescriptors {
        assert out + [] == out;
        return;
      }
      sharedTypeDescriptors := sharedTypeDescriptors + {t};
      ghost var entered := sharedTypeDescriptors;
      match t {
        case List(e) =>
          ExportDependencies(e);
        case Enumeration(_, _) =>
          ExportDependencies(INT32);
          TransmitDescription(t);
          Longer(Export(entered, INT32).sent, t);
        case Record(_, flags, props) =>
          if !flags.internal_ {
            ExportProperties(props);
            TransmitDescription(t);
            ExportPropsSendsUsers(entered, props);
            Longer(ExportProps(entered, props).sent, t);
          }
        case Fundamental(_) =>
      }
    }

    method ExportProperties(props: seq<Property>)
      modifies this`sharedTypeDescriptors, this`out
      ensures sharedTypeDescriptors == ExportProps(old(sharedTypeDescriptors), props).shared
      ensures forall u :: u in ExportProps(old(sharedTypeDescriptors), props).sent ==> User(u)
      ensures out == old(out) + Descriptions(ExportProps(old(sharedTypeDescriptors), props).sent)
      decreases SizeAll(props), |props| + 1
    {
      hide Export, ExportProps, Descriptions;
      ghost var shared := sharedTypeDescriptors;
      ExportPropsSendsUsers(shared, props);
      var n := 0;
      ghost var sent: seq<Type> := [];
      assert props[0..] == props && out + [] == out;
      DescriptionsAppend(sent, sent);
      while n < |props|
        invariant n <= |props| && forall u :: u in sent ==> User(u)
        invariant ExportProps(shared, props) == Exported(ExportProps(sharedTypeDescriptors, props[n..]).shared,
            sent + ExportProps(sharedTypeDescriptors, props[n..]).sent)
        invariant out == old(out) + Descriptions(sent)
      {
        PartSmaller(props, n);
        ghost var more := Export(sharedTypeDescriptors, props[n].of).sent;
        ExportPropsNext(sharedTypeDescriptors, props, n);
        ExportSendsUsers(sharedTypeDescriptors, props[n].of);
        ExportDependencies(props[n].of);
        DescriptionsAppend(sent, more);
        Grouped(old(out), Descriptions(sent), Descriptions(more));
        Grouped(sent, more, ExportProps(sharedTypeDescriptors, props[n + 1..]).sent);
        sent := sent + more;
        n := n + 1;
      }
      ExportPropsNext(sharedTypeDescriptors, props, n);
      assert sent + [] == sent;
    }

    // The description is an instance of an internal type, which is exported like any other.
    method TransmitDescription(t: Type)
      requires User(t)
      modifies this`sharedTypeDescriptors, this`out
      ensures sharedTypeDescriptors == old(sharedTypeDescriptors) + {if t.Enumeration? then ENUM_DATA else STRUCT_DATA}
      ensures out == old(out) + [Description(Describe(t))]
      decreases 0, 1
    {
      ExportDependencies(if t.Enumeration? then ENUM_DATA else STRUCT_DATA);
      out := out + [Description(Describe(t))];
    }

    /** An instance with a header: the type of the instance is exported first. */
    method Transmit(t: Type)
      modifies this`sharedTypeDescriptors, this`out
      ensures sharedTypeDescriptors == Export(old(sharedTypeDescriptors), t).shared
      ensures out == old(out) + Shipment(old(sharedTypeDescriptors), t) + [Instance(t)]
    {
      ExportDependencies(t);
      out := out + [Instance(t)];
    }

    /** A transmission that is passed on: only what a description in it is about is exported, never its own type. */
    method TransmitTransmission(item: Item)
      modifies this`sharedTypeDescriptors, this`out
      ensures match Embedded(registry.types, item)
              case None => sharedTypeDescriptors == old(sharedTypeDescriptors) && out == old(out) + [item]
              case Some(t) =>
                && sharedTypeDescriptors == Export(old(sharedTypeDescriptors), t).shared
                && out == old(out) + Shipment(old(sharedTypeDescriptors), t) + [item]
    {
      hide Export;
      if item.Description? && item.data.name in registry.types {
        var embedded := registry.types[item.data.name];
        if SameKind(item.data, embedded) {
          ExportDependencies(embedded);
        }
      }
      out := out + [item];
    }

    /** What arrives: a new description is turned into a type and registered. */
    method ImportDependencies(item: Item) returns (missing: Option<Missing>)
      modifies this`sharedTypeDescriptors, this`sharedTypeNames, registry
      ensures missing == Imported(Node(old(registry.types), old(sharedTypeDescriptors), old(sharedTypeNames), []),
          item).1
      ensures missing == None ==>
                Node(registry.types, sharedTypeDescriptors, sharedTypeNames, [])
                == Imported(Node(old(registry.types), old(sharedTypeDescriptors), old(sharedTypeNames), []), item).0
    {
      hide Register, Convert;
      if item.Description? && item.data.name !in sharedTypeNames {
        sharedTypeNames := sharedTypeNames + {item.data.name};
        var converted := Convert(registry.types, item.data);
        if converted.Failure? {
          return Some(converted.error);
        }
        SameTypes(registry.types, registry.notified, converted.value);
        var _ := registry.RegisterType(converted.value, false);
        sharedTypeDescriptors := sharedTypeDescriptors + {converted.value};
      }
      return None;
    }

    /** An instance is read as one of its registered type; without that type the transmission is an error. */
    method Receive(item: Item) returns (missing: Option<Missing>)
      modifies this`sharedTypeDescriptors, this`sharedTypeNames, registry
      ensures missing == Received(Node(old(registry.types), old(sharedTypeDescriptors), old(sharedTypeNames), []),
          item).1
      ensures missing == None ==>
                Node(registry.types, sharedTypeDescriptors, sharedTypeNames, [])
                == Received(Node(old(registry.types), old(sharedTypeDescriptors), old(sharedTypeNames), []), item).0
    {
      if item.Instance? {
        var name := NameOf(item.of);
        if name !in registry.types || !registry.types[name].Record? {
          return Some(MissingType(name));
        }
      }
      missing := ImportDependencies(item);
    }
  }

  lemma ExportPropsNext(shared: set<Type>, props: seq<Property>, n: nat)
    requires n <= |props|
    ensures n == |props| ==> ExportProps(shared, props[n..]) == Exported(shared, [])
    ensures n < |props| ==>
              var first := Export(shared, props[n].of);
              var rest := ExportProps(first.shared, props[n + 1..]);
              ExportProps(shared, props[n..]) == Exported(rest.shared, first.sent + rest.sent)
  {
    hide Export;
    if n < |props| {
      assert props[n..][0] == props[n] && props[n..][1..] == props[n + 1..];
    }
  }

  lemma DescriptionsAppend(a: seq<Type>, b: seq<Type>)
    requires (forall t :: t in a ==> User(t)) && forall t :: t in b ==> User(t)
    ensures Descriptions(a + b) == Descriptions(a) + Descriptions(b) && Descriptions([]) == []
  {
  }

  lemma Longer(ts: seq<Type>, t: Type)
    requires User(t) && forall u :: u in ts ==> User(u)
    ensures Descriptions(ts + [t]) == Descriptions(ts) + [Description(Describe(t))]
  {
  }

  // What gets registered does not depend on what was announced before.
  lemma {:induction false} SameTypes(types: Registry, notified: seq<Type>, t: Type)
    ensures Register(Known(types, notified), t).types == Register(Known(types, []), t).types
    decreases Size(t), 0
  {
    if NameOf(t) !in types {
      var entered := types[NameOf(t) := t];
      match t
      case List(e) => SameTypes(entered, notified, e);
      case Enumeration(_, _) => SameTypes(entered, notified, INT32);
      case Record(_, _, props) => SameTypesProps(entered, notified, [], props);
      case Fundamental(_) =>
    }
  }

  lemma {:induction false} SameTypesProps(types: Registry, a: seq<Type>, b: seq<Type>, props: seq<Property>)
    ensures RegisterProps(Known(types, a), props).types == RegisterProps(Known(types, b), props).types
    decreases SizeAll(props), |props| + 1
  {
    if props != [] {
      assert SizeOne(props[0]) == Size(props[0].of);
      var t := props[0].of;
      SameTypes(types, a, t);
      SameTypes(types, b, t);
      var r, s := Register(Known(types, a), t), Register(Known(types, b), t);
      SameTypesProps(r.types, r.notified, s.notified, props[1..]);
    }
  }

  // ----- Both ends -----

  // `exported` are all types described on the way out of this end.
  datatype Node = Node(registry: Registry, shared: set<Type>, names: set<Name>, exported: seq<Type>)

  function Imported(n: Node, item: Item): (Node, Option<Missing>) {
    if item.Instance? || item.data.name in n.names then (n, None)
    else
      var named := n.(names := n.names + {item.data.name});
      match Convert(n.registry, item.data)
      case Failure(m) => (named, Some(m))
      case Success(t) => (named.(registry := Register(Known(n.registry, []), t).types, shared := n.shared + {t}), None)
  }

  // Whether instances of `t` can be read.
  predicate Reads(registry: Registry, t: Type) {
    NameOf(t) in registry && registry[NameOf(t)].Record?
  }

  function Received(n: Node, item: Item): (Node, Option<Missing>) {
    if item.Instance? && !Reads(n.registry, item.of) then (n, Some(MissingType(NameOf(item.of)))) else Imported(n, item)
  }

  // `ab` is under way from `a` to `b`, `ba` the other way.
  datatype Link = Link(a: Node, b: Node, ab: seq<Item>, ba: seq<Item>)

  function Flip(l: Link): Link {
    Link(l.b, l.a, l.ba, l.ab)
  }

  datatype Step = Send(of: Type) | Forward(item: Item) | Receive

  predicate Registered(registry: Registry, t: Type) {
    NameOf(t) in registry && registry[NameOf(t)] == t
  }

  /**
   Instances are of registered types. A description that is passed on came in through another channel
   of the same registry, so there is a type under its name; its layout may be another one. After an
   error nothing more is received.
   */
  predicate Enabled(l: Link, step: Step) {
    match step
    case Send(t) => Registered(l.a.registry, t) && t.Record?
    case Forward(item) =>
      if item.Instance? then Registered(l.a.registry, item.of) && item.of.Record?
          else Embedded(l.a.registry, item).Some?
    case Receive => l.ba != [] && Received(l.a, l.ba[0]).1 == None
  }

  // A type is exported, then the item goes out.
  function Put(l: Link, t: Type, item: Item): Link {
    var r := Export(l.a.shared, t);
    l.(a := l.a.(shared := r.shared, exported := l.a.exported + r.sent), ab := l.ab + Shipment(l.a.shared, t) + [item])
  }

  /** Steps of the end `a`. */
  function Next(l: Link, step: Step): Link
    requires Enabled(l, step)
  {
    match step
    case Send(t) => Put(l, t, Instance(t))
    case Forward(item) =>
      if item.Instance? then l.(ab := l.ab + [item]) else Put(l, Embedded(l.a.registry, item).value, item)
    case Receive => l.(a := Received(l.a, l.ba[0]).0, ba := l.ba[1..])
  }

  function Described(q: seq<Item>): set<Name> {
    set m | m in q && m.Description? :: m.data.name
  }

  ghost predicate DependenciesIn(t: Type, known: set<Name>) {
    forall e :: e in Dependencies(t) ==> NameOf(e) in known
  }

  /** The data is about `t`, and whoever has the types `known` already has `t` or can convert it. */
  ghost predicate Convertible(data: Data, t: Type, known: set<Name>) {
    && data.name == NameOf(t) && SameKind(data, t)
    && (NameOf(t) in known || (User(t) && data == Describe(t) && DependenciesIn(t, known)))
  }

  /** Item `i` under way to `b` is about a registered type of `a`, and `b` will be able to convert it by then. */
  ghost predicate Understood(universe: set<Type>, l: Link, i: nat)
    requires i < |l.ab| && l.ab[i].Description?
  {
    exists t ::
      t in universe && NameOf(t) in l.a.registry
      && Convertible(l.ab[i].data, t, l.b.registry.Keys + Described(l.ab[..i]))
  }

  // Types that are not described have to be known to both ends: fundamental and internal ones, and vectors of vectors.
  ghost predicate Basics(universe: set<Type>, registry: Registry) {
    forall e :: e in universe && !User(e) && Needed(e) == e ==> NameOf(e) in registry
  }

  ghost predicate Half(universe: set<Type>, l: Link) {
    && Agreed(l.a.registry, universe) && Closed(l.a.registry) && Basics(universe, l.a.registry)
    && (forall i :: 0 <= i < |l.ab| && l.ab[i].Description? ==> Understood(universe, l, i))
    && Covered(l.a.shared, l.b.registry.Keys + Described(l.ab), {})
    && (forall n :: n in l.a.names ==> n in l.a.registry)
    && Distinct(l.a.exported) && forall t :: t in l.a.exported ==> t in l.a.shared
  }

  ghost predicate Inv(universe: set<Type>, l: Link) {
    Universe(universe) && Half(universe, l) && Half(universe, Flip(l))
  }

  lemma DescribedMore(q: seq<Item>, more: seq<Item>)
    ensures Described(q + more) == Described(q) + Described(more)
  {
  }

  lemma DescribedNames(ts: seq<Type>)
    requires forall t :: t in ts ==> User(t)
    ensures Described(Descriptions(ts)) == Names(ts)
  {
    var q := Descriptions(ts);
    forall n
      ensures n in Described(q) <==> n in Names(ts)
    {
      if n in Described(q) {
        var i :| 0 <= i < |q| && q[i].data.name == n;
        assert ts[i] in ts;
        DescribedName(ts[i]);
      }
      if n in Names(ts) {
        var i :| 0 <= i < |ts| && NameOf(ts[i]) == n;
        assert ts[i] in ts;
        DescribedName(ts[i]);
        assert q[i] in q && q[i].data.name == n;
      }
    }
  }

  // Dependencies are parts, or parts of parts.
  lemma DependencyWithin(universe: set<Type>, t: Type, e: Type)
    requires Universe(universe) && t in universe && e in Dependencies(t)
    ensures e in universe
  {
    var p :| p in t.props && Needed(p.of) == e;
    assert p.of in Parts(t);
    if e != p.of {
      assert e in Parts(p.of);
    }
  }

  // The registered types are a universe of their own.
  lemma RegisteredUniverse(universe: set<Type>, registry: Registry)
    requires Universe(universe) && Agreed(registry, universe) && Closed(registry)
    ensures Universe(set u | u in universe && NameOf(u) in registry)
  {
    var own := set u | u in universe && NameOf(u) in registry;
    forall t, e | t in own && e in Parts(t)
      ensures e in own
    {
      assert registry[NameOf(t)] == t;
    }
  }

  lemma QueueKept(universe: set<Type>, l: Link, m: Link)
    requires l.ab <= m.ab && (forall n :: n in l.a.registry ==> n in m.a.registry)
    requires forall n :: n in l.b.registry ==> n in m.b.registry
    requires forall i :: 0 <= i < |l.ab| && l.ab[i].Description? ==> Understood(universe, l, i)
    ensures forall i :: 0 <= i < |l.ab| && m.ab[i].Description? ==> Understood(universe, m, i)
  {
    hide Dependencies, Described, Convertible;
    forall i | 0 <= i < |l.ab| && m.ab[i].Description?
      ensures Understood(universe, m, i)
    {
      var known, more := l.b.registry.Keys + Described(l.ab[..i]), m.b.registry.Keys + Described(m.ab[..i]);
      assert m.ab[..i] == l.ab[..i] && known <= more;
      var t :| t in universe && NameOf(t) in l.a.registry && Convertible(l.ab[i].data, t, known);
      ConvertibleMore(l.ab[i].data, t, known, more);
    }
  }

  lemma ConvertibleMore(data: Data, t: Type, known: set<Name>, more: set<Name>)
    requires Convertible(data, t, known) && known <= more
    ensures Convertible(data, t, more)
  {
    hide Dependencies, Describe;
  }

  // What can follow the export of a type: an instance of it, or a description under its name.
  predicate Follows(t: Type, item: Item) {
    if item.Instance? then item.of == t else item.data.name == NameOf(t) && SameKind(item.data, t)
  }

  lemma PutKeeps(universe: set<Type>, l: Link, t: Type, item: Item)
    requires Inv(universe, l) && Registered(l.a.registry, t) && (t.Record? || t.Enumeration?) && Follows(t, item)
    ensures Half(universe, Put(l, t, item))
    ensures NameOf(t) in l.b.registry.Keys + Described(Put(l, t, item).ab[..|Put(l, t, item).ab| - 1])
  {
    hide Dependencies, Described, Describe, Export, Names, Basics, Agreed, Closed, SameKind;
    var m, r, known := Put(l, t, item), Export(l.a.shared, t), l.b.registry.Keys + Described(l.ab);
    var own := set u | u in universe && NameOf(u) in l.a.registry;
    RegisteredUniverse(universe, l.a.registry);
    RegisteredMember(universe, l.a.registry, t);
    ExportShips(own, known, {}, l.a.shared, t);
    ExportSendsUsers(l.a.shared, t);
    var q, ds := l.ab, Descriptions(r.sent);
    DescribedNames(r.sent);
    DescribedMore(q, ds);
    assert m.ab == q + ds + [item] && m.ab[..|m.ab| - 1] == q + ds;
    SharedKnown(universe, l.b.registry, r.shared, known + Names(r.sent), t);
    HeadName(item);
    DescribedMore(q + ds, [item]);
    CoveredMore(r.shared, known + Names(r.sent), l.b.registry.Keys + Described(m.ab), {});
    QueueKept(universe, l, m);
    forall i | |q| <= i < |m.ab| && m.ab[i].Description?
      ensures Understood(universe, m, i)
    {
      if i == |m.ab| - 1 {
        assert Convertible(item.data, t, m.b.registry.Keys + Described(m.ab[..i]));
      } else {
        SentUnderstood(universe, l, t, item, i);
      }
    }
    ExportedDistinct(l.a.exported, r.sent, l.a.shared);
  }

  // A shared type with a name of its own is known: it was described, or every end has it.
  lemma SharedKnown(universe: set<Type>, registry: Registry, shared: set<Type>, known: set<Name>, t: Type)
    requires t in universe && t in shared && !t.List?
    requires Covered(shared, known, {}) && Basics(universe, registry) && registry.Keys <= known
    ensures NameOf(t) in known
  {
  }

  lemma ExportedDistinct(a: seq<Type>, b: seq<Type>, shared: set<Type>)
    requires Distinct(a) && Distinct(b) && (forall t :: t in a ==> t in shared) && forall t :: t in b ==> t !in shared
    ensures Distinct(a + b)
  {
    forall i, j | 0 <= i < j < |a + b|
      ensures (a + b)[i] != (a + b)[j]
    {
      if i < |a| <= j {
        assert a[i] in a && b[j - |a|] in b;
      }
    }
  }

  lemma RegisteredMember(universe: set<Type>, registry: Registry, t: Type)
    requires Agreed(registry, universe) && Registered(registry, t)
    ensures t in universe
  {
  }

  // A description that was just sent: what it depends on was described before, or is basic.
  lemma SentUnderstood(universe: set<Type>, l: Link, t: Type, item: Item, i: nat)
    requires Inv(universe, l) && Registered(l.a.registry, t)
    requires |l.ab| <= i < |Put(l, t, item).ab| - 1
    ensures Put(l, t, item).ab[i].Description? && Understood(universe, Put(l, t, item), i)
  {
    hide Described, Describe, Export, Names, Closed, Dependencies, Covered, Distinct, Basics, Agreed,
      DependenciesFirst, Universe;
    var m, r, known := Put(l, t, item), Export(l.a.shared, t), l.b.registry.Keys + Described(l.ab);
    var own := set u | u in universe && NameOf(u) in l.a.registry;
    RegisteredUniverse(universe, l.a.registry);
    RegisteredMember(universe, l.a.registry, t);
    ExportShips(own, known, {}, l.a.shared, t);
    ExportSendsUsers(l.a.shared, t);
    var k := i - |l.ab|;
    var ds := Descriptions(r.sent);
    Grouped(l.ab, ds, [item]);
    assert m.ab == l.ab + ds + [item];
    assert k < |ds| && m.ab[i] == ds[k];
    var u := r.sent[k];
    assert u in r.sent;
    SentBefore(l.ab, r.sent, item, k);
    forall e | e in Dependencies(u)
      ensures NameOf(e) in m.b.registry.Keys + Described(m.ab[..i])
    {
      DependencyWithin(universe, u, e);
      DependencyKnown(universe, known, l.b.registry, r.sent, k, e);
    }
    DescribedName(u);
    assert Convertible(m.ab[i].data, u, m.b.registry.Keys + Described(m.ab[..i]));
  }

  // What is under way before the k-th description of a shipment.
  lemma SentBefore(q: seq<Item>, sent: seq<Type>, item: Item, k: nat)
    requires (forall u :: u in sent ==> User(u)) && k < |sent|
    ensures Described((q + Descriptions(sent) + [item])[..|q| + k]) == Described(q) + Names(sent[..k])
  {
    hide Described, Describe, Names;
    var ds := Descriptions(sent);
    assert (q + ds + [item])[..|q| + k] == q + ds[..k] && ds[..k] == Descriptions(sent[..k]);
    DescribedMore(q, ds[..k]);
    DescribedNames(sent[..k]);
  }

  lemma DependencyKnown(universe: set<Type>, known: set<Name>, registry: Registry, sent: seq<Type>, k: nat, e: Type)
    requires DependenciesFirst(known, sent) && k < |sent| && e in Dependencies(sent[k]) && e in universe
    requires Basics(universe, registry) && registry.Keys <= known
    ensures NameOf(e) in known + Names(sent[..k])
  {
    hide Names;
    if !User(e) {
      NeededTwice(sent[k], e);
    }
  }

  lemma NeededTwice(t: Type, e: Type)
    requires e in Dependencies(t)
    ensures Needed(e) == e
  {
  }

  lemma OtherKeeps(universe: set<Type>, l: Link, m: Link)
    requires Half(universe, Flip(l))
    requires m.b == l.b && m.ba == l.ba && m.a.registry == l.a.registry
    ensures Half(universe, Flip(m))
  {
    hide Dependencies, Described;
    QueueKept(universe, Flip(l), Flip(m));
  }

  // An instance that is merely passed on.
  lemma PassedKeeps(universe: set<Type>, l: Link, t: Type)
    requires Half(universe, l)
    ensures Half(universe, l.(ab := l.ab + [Instance(t)]))
  {
    hide Dependencies, Described, Understood;
    var m := l.(ab := l.ab + [Instance(t)]);
    QueueKept(universe, l, m);
    DescribedMore(l.ab, [Instance(t)]);
    HeadName(Instance(t));
  }

  /** The description at the head of a queue always converts, to the type its sender means by that name. */
  lemma HeadConverts(universe: set<Type>, l: Link)
    requires Inv(universe, l) && l.ba != [] && l.ba[0].Description?
    ensures var data := l.ba[0].data;
            && data.name in l.b.registry && NameOf(l.b.registry[data.name]) == data.name
              && l.b.registry[data.name] in universe
            && Convertible(data, l.b.registry[data.name], l.a.registry.Keys)
            && Convert(l.a.registry, data) == Success(l.b.registry[data.name])
  {
    hide Dependencies, Describe, Convert;
    var data := l.ba[0].data;
    assert Understood(universe, Flip(l), 0);
    assert l.ba[..0] == [] && Described([]) == {} && l.a.registry.Keys + {} == l.a.registry.Keys;
    var t :| t in universe && NameOf(t) in l.b.registry
      && Convertible(data, t, l.a.registry.Keys + Described(l.ba[..0]));
    assert l.b.registry[data.name] == t;
    if NameOf(t) in l.a.registry {
      ConvertKnown(l.a.registry, data);
    } else {
      WithinUniverse(universe, t);
      ConvertInverse(l.a.registry, universe, t);
    }
  }

  lemma ConvertKnown(registry: Registry, data: Data)
    requires data.name in registry && SameKind(data, registry[data.name])
    ensures Convert(registry, data) == Success(registry[data.name])
  {
  }

  lemma WithinUniverse(universe: set<Type>, t: Type)
    requires Universe(universe) && t in universe
    ensures Within(t, universe)
  {
    if t.Record? {
      forall p | p in t.props
        ensures p.of in universe && Needed(p.of) in universe
      {
        assert p.of in Parts(t);
        assert Needed(p.of) != p.of ==> Needed(p.of) in Parts(p.of);
      }
    }
  }

  lemma ReceiveKeeps(universe: set<Type>, l: Link)
    requires Inv(universe, l) && Enabled(l, Receive)
    ensures Inv(universe, Next(l, Receive))
  {
    hide Dependencies, Describe, Convert, Register, Basics, Described, Agreed, Closed, Covered, Distinct,
      Convertible, Reads;
    var m, item := Next(l, Receive), l.ba[0];
    assert l.ba == [item] + l.ba[1..];
    DescribedMore([item], l.ba[1..]);
    HeadName(item);
    if item.Instance? || item.data.name in l.a.names {
      assert m.a == l.a && Described([item]) <= l.a.registry.Keys;
    } else {
      HeadConverts(universe, l);
      var t := l.b.registry[item.data.name];
      RegisterKeeps(universe, l.a.registry, t);
      assert m.a == l.a.(names := l.a.names + {NameOf(t)}, registry := Register(Known(l.a.registry, []), t).types,
                         shared := l.a.shared + {t});
      NotList(item.data, t, l.a.registry.Keys);
      CoveredAdd(l.a.shared, l.b.registry.Keys + Described(l.ab), t);
    }
    TailUnderstood(universe, l, m);
    CoveredMore(l.b.shared, l.a.registry.Keys + Described(l.ba), m.a.registry.Keys + Described(m.ba), {});
    QueueKept(universe, l, m);
  }

  lemma NotList(data: Data, t: Type, known: set<Name>)
    requires Convertible(data, t, known)
    ensures !t.List?
  {
  }

  lemma DescribedName(t: Type)
    requires User(t)
    ensures Describe(t).name == NameOf(t) && SameKind(Describe(t), t)
  {
  }

  lemma HeadName(item: Item)
    ensures Described([item]) == if item.Description? then {item.data.name} else {}
  {
    assert [item][0] in [item];
  }

  lemma CoveredMore(shared: set<Type>, known: set<Name>, more: set<Name>, open: set<Type>)
    requires Covered(shared, known, open) && known <= more
    ensures Covered(shared, more, open)
  {
  }

  lemma CoveredAdd(shared: set<Type>, known: set<Name>, t: Type)
    requires Covered(shared, known, {}) && !t.List? && NameOf(t) in known
    ensures Covered(shared + {t}, known, {})
  {
  }

  lemma RegisterKeeps(universe: set<Type>, registry: Registry, t: Type)
    requires Universe(universe) && Agreed(registry, universe) && Closed(registry) && t in universe
    ensures var types := Register(Known(registry, []), t).types;
            && Agreed(types, universe) && Closed(types) && NameOf(t) in types
              && (forall n :: n in registry ==> n in types)
            && (Basics(universe, registry) ==> Basics(universe, types))
  {
    hide Register;
    var k := Known(registry, []);
    RegisterGrows(universe, k, t);
    GrownCloses(universe, k, Register(k, t), Size(t));
  }

  // The queue to `a` without its head, once the head has been registered.
  lemma TailUnderstood(universe: set<Type>, l: Link, m: Link)
    requires l.ba != [] && m.ba == l.ba[1..] && m.b == l.b
    requires forall n :: n in l.a.registry ==> n in m.a.registry
    requires Described([l.ba[0]]) <= m.a.registry.Keys
    requires forall i :: 0 <= i < |l.ba| && l.ba[i].Description? ==> Understood(universe, Flip(l), i)
    ensures forall i :: 0 <= i < |m.ba| && m.ba[i].Description? ==> Understood(universe, Flip(m), i)
  {
    hide Dependencies, Described, Convertible;
    forall i | 0 <= i < |m.ba| && m.ba[i].Description?
      ensures Understood(universe, Flip(m), i)
    {
      assert Understood(universe, Flip(l), i + 1);
      assert l.ba[..i + 1] == [l.ba[0]] + m.ba[..i];
      DescribedMore([l.ba[0]], m.ba[..i]);
      var known, more := l.a.registry.Keys + Described(l.ba[..i + 1]), m.a.registry.Keys + Described(m.ba[..i]);
      var t :| t in universe && NameOf(t) in l.b.registry && Convertible(m.ba[i].data, t, known);
      ConvertibleMore(m.ba[i].data, t, known, more);
    }
  }

  // The type a passed on description is about.
  lemma EmbeddedRegistered(universe: set<Type>, registry: Registry, item: Item)
    requires Agreed(registry, universe) && Embedded(registry, item).Some?
    ensures var t := Embedded(registry, item).value;
            Registered(registry, t) && (t.Record? || t.Enumeration?) && Follows(t, item)
  {
  }

  /** Every step of either end keeps the invariant. */
  lemma StepKeeps(universe: set<Type>, l: Link, step: Step)
    requires Inv(universe, l) && Enabled(l, step)
    ensures Inv(universe, Next(l, step))
  {
    hide Understood, Covered, Distinct, Closed, Basics, Described, Embedded;
    match step
    case Send(t) =>
      PutKeeps(universe, l, t, Instance(t));
      OtherKeeps(universe, l, Next(l, step));
    case Forward(item) =>
      if item.Instance? {
        PassedKeeps(universe, l, item.of);
      } else {
        EmbeddedRegistered(universe, l.a.registry, item);
        PutKeeps(universe, l, Embedded(l.a.registry, item).value, item);
      }
      OtherKeeps(universe, l, Next(l, step));
    case Receive => ReceiveKeeps(universe, l);
  }

  lemma FlipKeeps(universe: set<Type>, l: Link)
    requires Inv(universe, l)
    ensures Inv(universe, Flip(l))
  {
    hide Half;
    assert Flip(Flip(l)) == l;
  }

  // ----- Whole runs -----

  // A step of the first end, or of the second.
  datatype Move = First(step: Step) | Second(step: Step)

  predicate Possible(l: Link, move: Move) {
    match move
    case First(s) => Enabled(l, s)
    case Second(s) => Enabled(Flip(l), s)
  }

  function Moved(l: Link, move: Move): Link
    requires Possible(l, move)
  {
    match move
    case First(s) => Next(l, s)
    case Second(s) => Flip(Next(Flip(l), s))
  }

  ghost predicate Runs(l: Link, moves: seq<Move>)
    decreases |moves|
  {
    moves == [] || (Possible(l, moves[0]) && Runs(Moved(l, moves[0]), moves[1..]))
  }

  ghost function After(l: Link, moves: seq<Move>): Link
    requires Runs(l, moves)
    decreases |moves|
  {
    if moves == [] then l else After(Moved(l, moves[0]), moves[1..])
  }

  function Fresh(a: Registry, b: Registry): Link {
    Link(Node(a, {}, {}, []), Node(b, {}, {}, []), [], [])
  }

  /** Two ends that have not talked yet. */
  ghost predicate Ends(universe: set<Type>, a: Registry, b: Registry) {
    && Universe(universe)
    && Agreed(a, universe) && Closed(a) && Basics(universe, a)
    && Agreed(b, universe) && Closed(b) && Basics(universe, b)
  }

  lemma FreshInv(universe: set<Type>, a: Registry, b: Registry)
    requires Ends(universe, a, b)
    ensures Inv(universe, Fresh(a, b))
  {
  }

  lemma MoveKeeps(universe: set<Type>, l: Link, move: Move)
    requires Inv(universe, l) && Possible(l, move)
    ensures Inv(universe, Moved(l, move))
  {
    hide Inv, Next, Enabled;
    match move
    case First(s) => StepKeeps(universe, l, s);
    case Second(s) =>
      FlipKeeps(universe, l);
      StepKeeps(universe, Flip(l), s);
      FlipKeeps(universe, Next(Flip(l), s));
  }

  lemma {:induction false} RunKeeps(universe: set<Type>, l: Link, moves: seq<Move>)
    requires Inv(universe, l) && Runs(l, moves)
    ensures Inv(universe, After(l, moves))
    decreases |moves|
  {
    hide Inv, Moved, Possible;
    if moves != [] {
      MoveKeeps(universe, l, moves[0]);
      RunKeeps(universe, Moved(l, moves[0]), moves[1..]);
    }
  }

  /** The next thing to be received at `n`, if it is a description, becomes the type `sender` has under that name. */
  ghost predicate TurnedBack(n: Node, sender: Node, q: seq<Item>) {
    q != [] && q[0].Description? ==>
      var data := q[0].data;
      && Received(n, q[0]).1 == None
      && data.name in sender.registry && Convert(n.registry, data) == Success(sender.registry[data.name])
      && (data.name in n.registry || (User(sender.registry[data.name]) && data == Describe(sender.registry[data.name])))
  }

  lemma HeadTurnedBack(universe: set<Type>, l: Link)
    requires Inv(universe, l)
    ensures TurnedBack(l.a, l.b, l.ba)
  {
    hide Inv, Convert, Describe, Register;
    if l.ba != [] && l.ba[0].Description? {
      HeadConverts(universe, l);
    }
  }

  /**
   However sends, receipts and whatever is passed on interleave at both ends, no description ever lacks
   a dependency, it is turned into the very type its sender means, and no end describes a type twice.
   */
  lemma NeverMissing(universe: set<Type>, a: Registry, b: Registry, moves: seq<Move>)
    requires Ends(universe, a, b) && Runs(Fresh(a, b), moves)
    ensures var l := After(Fresh(a, b), moves);
            && TurnedBack(l.a, l.b, l.ba) && TurnedBack(l.b, l.a, l.ab)
            && Distinct(l.a.exported) && Distinct(l.b.exported)
  {
    hide TurnedBack, Understood, Universe, Ends;
    FreshInv(universe, a, b);
    RunKeeps(universe, Fresh(a, b), moves);
    var l := After(Fresh(a, b), moves);
    FlipKeeps(universe, l);
    HeadTurnedBack(universe, l);
    HeadTurnedBack(universe, Flip(l));
  }

  // ----- Instances -----

  /** The type of an instance under way will be there when it arrives. */
  ghost predicate Announced(l: Link, i: nat, t: Type)
    requires i < |l.ab|
  {
    NameOf(t) in l.b.registry.Keys + Described(l.ab[..i])
  }

  lemma AddsVector(k: Known, t: Type)
    requires NameOf(Needed(t)) in k.types
    ensures var types := Register(k, t).types;
            types == k.types || (t.List? && NameOf(t) !in k.types && types == k.types[NameOf(t) := t])
  {
    if NameOf(t) !in k.types {
      assert t.List? && NameOf(t.of) in k.types[NameOf(t) := t];
    }
  }

  // Registering properties whose dependencies are there adds nothing but vectors.
  lemma {:induction false} PropsAddVectors(k: Known, props: seq<Property>)
    requires forall i :: 0 <= i < |props| ==> NameOf(Needed(props[i].of)) in k.types
    ensures var types := RegisterProps(k, props).types;
            forall n ::
                (n in k.types ==> n in types && types[n] == k.types[n]) && (n in types && n !in k.types
                ==> types[n].List?)
    decreases |props|
  {
    if props != [] {
      var first := Register(k, props[0].of);
      AddsVector(k, props[0].of);
      assert forall i :: 0 <= i < |props[1..]| ==> props[1..][i] == props[i + 1];
      PropsAddVectors(first, props[1..]);
    }
  }

  // Registering a type whose dependencies are there adds no other type with instances.
  lemma RegisterAddsOne(registry: Registry, t: Type)
    requires NameOf(t) !in registry && User(t) && DependenciesIn(t, registry.Keys)
    ensures var types := Register(Known(registry, []), t).types;
            forall n :: n in types && n !in registry && types[n].Record? ==> n == NameOf(t)
  {
    if t.Record? {
      forall i | 0 <= i < |t.props|
        ensures NameOf(Needed(t.props[i].of)) in registry
      {
        assert t.props[i] in t.props && Needed(t.props[i].of) in Dependencies(t);
      }
      PropsAddVectors(Known(registry[NameOf(t) := t], []), t.props);
    }
  }

  /** Receiving makes just the type known that the received item describes. */
  lemma ReceiptRegisters(universe: set<Type>, l: Link, t: Type)
    requires Inv(universe, l) && Enabled(l, Receive) && t in universe && t.Record?
    ensures NameOf(t) in Next(l, Receive).a.registry <==> NameOf(t) in l.a.registry.Keys + Described([l.ba[0]])
  {
    hide Dependencies, Describe, Convert, Register, Basics, Described, Closed, Covered, Distinct, Understood, Universe;
    var item, registry := l.ba[0], l.a.registry;
    HeadName(item);
    if item.Description? && item.data.name !in l.a.names {
      HeadConverts(universe, l);
      var u := l.b.registry[item.data.name];
      var types := Register(Known(registry, []), u).types;
      RegisterKeeps(universe, registry, u);
      assert Agreed(types, universe);
      if NameOf(u) !in registry {
        RegisterAddsOne(registry, u);
      } else {
        RegisteredAlready(registry, u);
      }
    }
  }

  lemma RegisteredAlready(registry: Registry, t: Type)
    requires NameOf(t) in registry
    ensures Register(Known(registry, []), t).types == registry
  {
  }

  function Consumed(moves: seq<Move>): nat {
    if moves == [] then 0 else Consumed(moves[1..]) + if moves[0] == Second(Receive) then 1 else 0
  }

  // One move: whether an item under way to the second end is announced does not change.
  lemma MoveAnnounces(universe: set<Type>, l: Link, move: Move, i: nat, t: Type)
    requires Inv(universe, l) && Possible(l, move) && i < |l.ab| && t in universe && t.Record?
    requires move == Second(Receive) ==> i > 0
    ensures var m, j := Moved(l, move), if move == Second(Receive) then i - 1 else i;
            j < |m.ab| && m.ab[j] == l.ab[i] && (Announced(m, j, t) <==> Announced(l, i, t))
  {
    hide Inv, Described, Received, Export, Embedded;
    var m := Moved(l, move);
    match move
    case First(s) =>
      assert !s.Receive? ==> l.ab <= m.ab && m.ab[..i] == l.ab[..i];
    case Second(s) =>
      if s.Receive? {
        FlipKeeps(universe, l);
        ReceiptRegisters(universe, Flip(l), t);
        assert l.ab[..i] == [l.ab[0]] + m.ab[..i - 1];
        DescribedMore([l.ab[0]], m.ab[..i - 1]);
      }
  }

  /** Whether an instance is understood on arrival was settled when it went out. */
  lemma {:induction false} ArrivesAnnounced(universe: set<Type>, l: Link, moves: seq<Move>, i: nat, t: Type)
    requires Inv(universe, l) && Runs(l, moves) && i < |l.ab| && t in universe && t.Record? && Consumed(moves) == i
    ensures var m := After(l, moves);
            m.ab != [] && m.ab[0] == l.ab[i] && (NameOf(t) in m.b.registry <==> Announced(l, i, t))
    ensures Inv(universe, After(l, moves))
    decreases |moves|
  {
    hide Inv, Moved, Possible, Announced, Described;
    if moves == [] {
      FirstAnnounced(l, t);
    } else {
      MoveAnnounces(universe, l, moves[0], i, t);
      MoveKeeps(universe, l, moves[0]);
      ArrivesAnnounced(universe, Moved(l, moves[0]), moves[1..], if moves[0] == Second(Receive) then i - 1 else i, t);
    }
  }

  lemma FirstAnnounced(l: Link, t: Type)
    requires l.ab != []
    ensures Announced(l, 0, t) <==> NameOf(t) in l.b.registry
  {
    assert l.ab[..0] == [] && Described([]) == {};
  }

  // Registered under the right name is readable.
  lemma ReadsIf(universe: set<Type>, registry: Registry, t: Type)
    requires Agreed(registry, universe) && t in universe && t.Record?
    ensures Reads(registry, t) <==> NameOf(t) in registry
  {
  }

  /**
   An instance that goes out together with its type is always understood: when everything before it
   has been received, it is next, and its type is registered.
   */
  lemma SentIsRead(universe: set<Type>, a: Registry, b: Registry, before: seq<Move>, t: Type, after: seq<Move>)
    requires Ends(universe, a, b) && Runs(Fresh(a, b), before)
    requires var l := After(Fresh(a, b), before);
             Enabled(l, Send(t)) && Runs(Next(l, Send(t)), after) && Consumed(after) == |Next(l, Send(t)).ab| - 1
    ensures var m := After(Next(After(Fresh(a, b), before), Send(t)), after);
            m.ab != [] && m.ab[0] == Instance(t) && Received(m.b, m.ab[0]).1 == None
  {
    hide Inv, Ends, Next, Described, Reads;
    FreshInv(universe, a, b);
    RunKeeps(universe, Fresh(a, b), before);
    var l := After(Fresh(a, b), before);
    var sent := Next(l, Send(t));
    SentAnnounced(universe, l, t);
    StepKeeps(universe, l, Send(t));
    ArrivesAnnounced(universe, sent, after, |sent.ab| - 1, t);
    AgreedEnd(universe, After(sent, after));
    ReadsIf(universe, After(sent, after).b.registry, t);
  }

  lemma SentAnnounced(universe: set<Type>, l: Link, t: Type)
    requires Inv(universe, l) && Enabled(l, Send(t))
    ensures t in universe && t.Record?
    ensures var m := Next(l, Send(t)); m.ab != [] && m.ab[|m.ab| - 1] == Instance(t) && Announced(m, |m.ab| - 1, t)
  {
    hide Described, Export, Understood, Covered, Distinct, Closed, Basics;
    RegisteredMember(universe, l.a.registry, t);
    PutKeeps(universe, l, t, Instance(t));
  }

  lemma AgreedEnd(universe: set<Type>, l: Link)
    requires Inv(universe, l)
    ensures Agreed(l.a.registry, universe) && Agreed(l.b.registry, universe)
  {
  }

  /**
   An instance that is merely passed on is understood exactly if its type was there, or under way,
   when it went out. Nothing that happens later helps.
   */
  lemma PassedOnIsRead(universe: set<Type>, a: Registry, b: Registry, before: seq<Move>, t: Type, after: seq<Move>)
    requires Ends(universe, a, b) && Runs(Fresh(a, b), before)
    requires var l := After(Fresh(a, b), before);
             Enabled(l, Forward(Instance(t))) && Runs(Next(l, Forward(Instance(t))), after) && Consumed(after) == |l.ab|
    ensures var l := After(Fresh(a, b), before);
            var m := After(Next(l, Forward(Instance(t))), after);
            && m.ab != [] && m.ab[0] == Instance(t)
            && Received(m.b, m.ab[0]).1 == if NameOf(t) in l.b.registry.Keys + Described(l.ab) then None
              else Some(MissingType(NameOf(t)))
  {
    hide Inv, Ends, Described, Reads;
    FreshInv(universe, a, b);
    RunKeeps(universe, Fresh(a, b), before);
    var l := After(Fresh(a, b), before);
    var put := Next(l, Forward(Instance(t)));
    AgreedEnd(universe, l);
    RegisteredMember(universe, l.a.registry, t);
    StepKeeps(universe, l, Forward(Instance(t)));
    assert put.ab[..|l.ab|] == l.ab;
    ArrivesAnnounced(universe, put, after, |l.ab|, t);
    AgreedEnd(universe, After(put, after));
    ReadsIf(universe, After(put, after).b.registry, t);
  }

  /** Such a link: one end passes on an instance of a type it has from elsewhere, and the other end fails on it. */
  lemma PassedOnFails()
    ensures exists universe, a, b, t ::
              && Ends(universe, a, b) && User(t)
              && Enabled(Fresh(a, b), Forward(Instance(t)))
              && Received(Fresh(a, b).b, Next(Fresh(a, b), Forward(Instance(t))).ab[0]).1
                == Some(MissingType(NameOf(t)))
  {
    var t := Record("ball", Flags(true, false, false, false, false, false), []);
    var universe := {t};
    var a: Registry, b: Registry := map["ball" := t], map[];
    assert Ends(universe, a, b);
    assert Enabled(Fresh(a, b), Forward(Instance(t)));
    assert Next(Fresh(a, b), Forward(Instance(t))).ab == [Instance(t)];
  }
}
