/**
 Type descriptors, the data they are described by on the wire, and how a registry turns data back into a
 descriptor.
 */
module Types {
  import opened Wrappers

  type Name = string

  datatype Flags = Flags(cached: bool, internal_: bool, persistent: bool, cleanup: bool, local: bool,
                         substructOnly: bool)

  datatype Element = Element(tag: nat, name: Name, value: int)

  datatype Property = Property(name: Name, tag: nat, isKey: bool, of: Type)

  // Descriptors form a tree: a type is made of smaller ones.
  datatype Type =
    | Fundamental(name: Name)
    | Enumeration(name: Name, elements: seq<Element>)
    | List(of: Type)
    | Record(name: Name, flags: Flags, props: seq<Property>)

  const INT32 := Fundamental("int32")

  const VECTOR: Name := "vector<"

  function NameOf(t: Type): Name {
    match t
    case List(e) => VECTOR + NameOf(e) + ">"
    case _ => t.name
  }

  function Size(t: Type): nat
    decreases t
  {
    match t
    case List(e) => 1 + Size(e)
    case Record(_, _, props) => 1 + SizeAll(props)
    case Enumeration(_, _) => 2
    case Fundamental(_) => 1
  }

  function SizeAll(props: seq<Property>): nat
    decreases props
  {
    if props == [] then 0 else SizeOne(props[0]) + SizeAll(props[1..])
  }

  function SizeOne(p: Property): nat
    decreases p
  {
    Size(p.of)
  }

  lemma {:induction false} PartSmaller(props: seq<Property>, i: nat)
    requires i < |props|
    ensures Size(props[i].of) <= SizeAll(props)
  {
    if i > 0 {
      PartSmaller(props[1..], i - 1);
    }
  }

  /** The types a descriptor is directly made of. */
  function Parts(t: Type): set<Type> {
    match t
    case List(e) => {e}
    case Record(_, _, props) => set p | p in props :: p.of
    case Enumeration(_, _) => {INT32}
    case Fundamental(_) => {}
  }

  lemma PartsSmaller(t: Type, e: Type)
    requires e in Parts(t)
    ensures Size(e) < Size(t)
  {
    if t.Record? {
      var i :| 0 <= i < |t.props| && t.props[i].of == e;
      PartSmaller(t.props, i);
    }
  }

  // ----- Descriptor data -----

  datatype PropertyData = PropertyData(name: Name, tag: nat, isKey: bool, typeName: Name)

  datatype Data =
    | EnumData(name: Name, elements: seq<Element>)
    | StructData(name: Name, flags: Flags, props: seq<PropertyData>)

  // What is described on the wire: enumerations, and structs that not every application knows.
  predicate User(t: Type) {
    t.Enumeration? || (t.Record? && !t.flags.internal_)
  }

  function DescribeProps(props: seq<Property>): seq<PropertyData> {
    seq(|props|, n requires 0 <= n < |props| => PropertyData(props[n].name, props[n].tag, props[n].isKey,
      NameOf(props[n].of)))
  }

  function Describe(t: Type): Data
    requires User(t)
  {
    if t.Enumeration? then EnumData(t.name, t.elements) else StructData(t.name, t.flags, DescribeProps(t.props))
  }

  type Registry = map<Name, Type>

  datatype Missing = MissingType(name: Name) | MissingValueType(name: Name) | UnsupportedVector(name: Name)

  predicate Contains(s: Name, part: Name) {
    exists i :: 0 <= i <= |s| && part <= s[i..]
  }

  function Resolve(registry: Registry, typeName: Name): Result<Type, Missing> {
    if typeName in registry then Success(registry[typeName])
    else if !Contains(typeName, VECTOR) || |typeName| < 8 then Failure(MissingType(typeName))
    else
      var valueName := typeName[7..|typeName| - 1];
      if valueName !in registry then Failure(MissingValueType(valueName))
      else if registry[valueName].Enumeration? || registry[valueName].Record? then Success(List(registry[valueName]))
      else Failure(UnsupportedVector(valueName))
  }

  function ResolveAll(registry: Registry, props: seq<PropertyData>): Result<seq<Property>, Missing> {
    if props == [] then Success([])
    else
      var p := props[0];
      match Resolve(registry, p.typeName)
      case Failure(m) => Failure(m)
      case Success(of) =>
        match ResolveAll(registry, props[1..])
        case Failure(m) => Failure(m)
        case Success(rest) => Success([Property(p.name, p.tag, p.isKey, of)] + rest)
  }

  /** The descriptor for described data: the one that is registered, or a new one whose parts are. */
  function Convert(registry: Registry, data: Data): Result<Type, Missing> {
    match data
    case EnumData(name, elements) =>
      if name in registry && registry[name].Enumeration? then Success(registry[name])
          else Success(Enumeration(name, elements))
    case StructData(name, flags, props) =>
      if name in registry && registry[name].Record? then Success(registry[name])
      else
        match ResolveAll(registry, props)
        case Failure(m) => Failure(m)
        case Success(resolved) => Success(Record(name, flags, resolved))
  }

  // ----- Conversion there and back -----

  /** A registry holds types under their names, and under a name both ends mean the same type. */
  /** The data is about a type of this shape: the same name and flags, and the same properties in the same order. */
  ghost predicate Says(data: Data, t: Type) {
    match data
    case EnumData(name, elements) => t == Enumeration(name, elements)
    case StructData(name, flags, props) =>
      && t.Record? && t.name == name && t.flags == flags && |t.props| == |props|
      && forall i :: 0 <= i < |props| ==> SaysProperty(props[i], t.props[i])
  }

  predicate SaysProperty(data: PropertyData, p: Property) {
    data.name == p.name && data.tag == p.tag && data.isKey == p.isKey
  }

  /** A description is about its type and gives the type of each property by name. */
  lemma DescriptionSays(t: Type)
    requires User(t)
    ensures Says(Describe(t), t)
    ensures t.Record? ==> forall i :: 0 <= i < |t.props| ==> Describe(t).props[i].typeName == NameOf(t.props[i].of)
  {
  }

  lemma {:induction false} ResolveAllSays(registry: Registry, props: seq<PropertyData>)
    ensures match ResolveAll(registry, props) case Failure(_) => true
            case Success(resolved) =>
              |resolved| == |props| && forall i :: 0 <= i < |props| ==> SaysProperty(props[i], resolved[i])
  {
    if props != [] {
      ResolveAllSays(registry, props[1..]);
    }
  }

  /** A type that is made from a description is one that the description is about. */
  lemma ConvertSays(registry: Registry, data: Data, t: Type)
    requires data.name !in registry && Convert(registry, data) == Success(t)
    ensures Says(data, t)
  {
    if data.StructData? {
      ResolveAllSays(registry, data.props);
    }
  }

  ghost predicate Agreed(registry: Registry, universe: set<Type>) {
    && (forall n :: n in registry ==> NameOf(registry[n]) == n && registry[n] in universe)
    && forall t, u :: t in universe && u in universe && NameOf(t) == NameOf(u) ==> t == u
  }

  // The type that has to be registered for a property of type `t`: a vector is made on the spot.
  function Needed(t: Type): Type {
    if t.List? && (t.of.Enumeration? || t.of.Record?) then t.of else t
  }

  ghost predicate Resolvable(registry: Registry, t: Type) {
    NameOf(Needed(t)) in registry
  }

  lemma VectorName(e: Type)
    ensures NameOf(List(e)) == "vector<" + NameOf(e) + ">"
    ensures Contains(NameOf(List(e)), VECTOR) && |NameOf(List(e))| >= 8 && NameOf(List(e))[7..|NameOf(List(e))| - 1]
        == NameOf(e)
  {
    var n := NameOf(List(e));
    assert n[0..] == n && VECTOR <= n;
  }

  lemma ResolveInverse(registry: Registry, universe: set<Type>, t: Type)
    requires Agreed(registry, universe) && t in universe && Needed(t) in universe
    ensures Resolve(registry, NameOf(t)) == Success(t) <==> Resolvable(registry, t) || NameOf(t) in registry
  {
    hide Contains;
    if t.List? {
      VectorName(t.of);
    }
    if NameOf(t) !in registry && t.List? && NameOf(t.of) in registry {
      assert Needed(t) == t.of ==> registry[NameOf(t.of)] == t.of;
    }
  }

  lemma {:induction false} ResolveAllInverse(registry: Registry, universe: set<Type>, props: seq<Property>)
    requires Agreed(registry, universe)
    requires forall i ::
        0 <= i < |props| ==> props[i].of in universe && Needed(props[i].of) in universe && Resolvable(registry,
        props[i].of)
    ensures ResolveAll(registry, DescribeProps(props)) == Success(props)
  {
    hide Resolve, Resolvable, Needed, Agreed;
    if props != [] {
      ResolveInverse(registry, universe, props[0].of);
      ResolveAllInverse(registry, universe, props[1..]);
      assert DescribeProps(props)[1..] == DescribeProps(props[1..]);
      assert props == [props[0]] + props[1..];
    }
  }

  /** The parts that have to be registered before the data of `t` can be turned back. */
  function Dependencies(t: Type): set<Type> {
    if t.Record? then set p | p in t.props :: Needed(p.of) else {}
  }

  ghost predicate Within(t: Type, universe: set<Type>) {
    t in universe && (t.Record? ==> forall p :: p in t.props ==> p.of in universe && Needed(p.of) in universe)
  }

  /** A described type comes back as it was, once its dependencies are registered. */
  lemma ConvertInverse(registry: Registry, universe: set<Type>, t: Type)
    requires User(t) && Agreed(registry, universe) && Within(t, universe)
    requires forall e :: e in Dependencies(t) ==> NameOf(e) in registry
    ensures Convert(registry, Describe(t)) == Success(t)
  {
    if t.Record? {
      forall i | 0 <= i < |t.props|
        ensures t.props[i].of in universe && Needed(t.props[i].of) in universe && Resolvable(registry, t.props[i].of)
      {
        assert t.props[i] in t.props && Needed(t.props[i].of) in Dependencies(t);
      }
      ResolveAllInverse(registry, universe, t.props);
    }
  }
}
