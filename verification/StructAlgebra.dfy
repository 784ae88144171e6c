/**
 Structs as sets of valid properties, nested to any depth: what copying, merging, comparing and
 taking differences mean, and the order on instances.
 */
module StructAlgebra {
  import opened Wrappers

  datatype Kind = Scalar | Nested(members: seq<Member>)

  datatype Member = Member(tag: nat, kind: Kind)

  // Values that are not structs are only compared; their types are totally ordered.
  datatype Value = Leaf(i: int) | Sub(fields: Fields)

  type Fields = map<nat, Value>

  const ALL: set<nat> := set t | 0 <= t < 32

  function Get(f: Fields, tag: nat): Option<Value> {
    if tag in f then Some(f[tag]) else None
  }

  function Set(f: Fields, tag: nat, v: Option<Value>): Fields {
    if v.Some? then f[tag := v.value] else f - {tag}
  }

  function Tags(members: seq<Member>): set<nat> {
    set m | m in members :: m.tag
  }

  ghost predicate Shaped(members: seq<Member>)
    decreases members
  {
    && (forall i, j :: 0 <= i < j < |members| ==> members[i].tag != members[j].tag)
    && forall i :: 0 <= i < |members| ==> ShapedMember(members[i])
  }

  ghost predicate ShapedMember(m: Member)
    decreases m
  {
    m.tag < 32 && (m.kind.Nested? ==> Shaped(m.kind.members))
  }

  ghost predicate Typed(members: seq<Member>, f: Fields)
    decreases members
  {
    && f.Keys <= Tags(members)
    && forall i :: 0 <= i < |members| && members[i].tag in f ==> TypedMember(members[i], f[members[i].tag])
  }

  ghost predicate TypedMember(m: Member, v: Value)
    decreases m
  {
    match m.kind
    case Scalar => v.Leaf?
    case Nested(members) => v.Sub? && Typed(members, v.fields)
  }

  lemma MembersTyped(members: seq<Member>, f: Fields, m: Member)
    requires Typed(members, f) && m in members
    ensures m.tag in f ==> TypedMember(m, f[m.tag])
  {
  }

  lemma RestShaped(members: seq<Member>)
    requires Shaped(members) && members != []
    ensures Shaped(members[1..]) && ShapedMember(members[0])
    ensures Tags(members) == {members[0].tag} + Tags(members[1..]) && members[0].tag !in Tags(members[1..])
  {
    var rest := members[1..];
    assert members == [members[0]] + rest;
    forall m | m in rest
      ensures m.tag != members[0].tag
    {
      var i :| 0 <= i < |rest| && rest[i] == m;
      assert members[i + 1] == m;
    }
  }

  lemma TagBelow(members: seq<Member>)
    requires Shaped(members)
    ensures Tags(members) <= ALL
  {
    forall m | m in members
      ensures m.tag < 32
    {
      var i :| 0 <= i < |members| && members[i] == m;
      assert ShapedMember(members[i]);
    }
  }

  // ----- Copying and differences -----

  /** Included properties follow `other`, valid or not; all others stay. */
  function Copied(f: Fields, other: Fields, included: set<nat>): Fields {
    map t | t in f.Keys + other.Keys && (if t in included then t in other else t in f) ::
      if t in included then other[t] else f[t]
  }

  /** Included valid properties of `other`, and nothing else. */
  function Assigned(other: Fields, included: set<nat>): Fields {
    map t | t in other && t in included :: other[t]
  }

  /** The included properties in which two instances differ. */
  function Differing(f: Fields, other: Fields, included: set<nat>): set<nat> {
    set t | t in f.Keys + other.Keys && t in included && Get(f, t) != Get(other, t)
  }

  /** Copying the properties `s` makes two instances equal if and only if they differ in no other. */
  lemma DifferenceIsLeast(f: Fields, other: Fields, s: set<nat>)
    requires f.Keys <= ALL && other.Keys <= ALL
    ensures Copied(f, other, s) == other <==> Differing(f, other, ALL) <= s
    ensures Copied(f, other, Differing(f, other, ALL)) == other
  {
    var c := Copied(f, other, s);
    forall t
      ensures Get(c, t) == if t in s then Get(other, t) else Get(f, t)
    {
    }
    if Differing(f, other, ALL) <= s {
      SameFields(c, other);
    }
    if c == other {
      forall t | t in Differing(f, other, ALL)
        ensures t in s
      {
        assert Get(c, t) == Get(other, t);
      }
    }
    var d := Copied(f, other, Differing(f, other, ALL));
    forall t
      ensures Get(d, t) == Get(other, t)
    {
    }
    SameFields(d, other);
  }

  lemma SameFields(f: Fields, g: Fields)
    requires forall t :: Get(f, t) == Get(g, t)
    ensures f == g
  {
    forall t
      ensures t in f <==> t in g
      ensures t in f ==> f[t] == g[t]
    {
      assert Get(f, t) == Get(g, t);
    }
  }

  // ----- Merging -----

  /** Included valid properties of `other` go into `f`, nested structs merge in turn. */
  function Merged(members: seq<Member>, f: Fields, other: Fields, included: set<nat>): Fields
    decreases members
  {
    if members == [] then f
    else
      var m := members[0];
      var rest := Merged(members[1..], f, other, included);
      if m.tag in other && m.tag in included then rest[m.tag := MergedValue(m, Get(f, m.tag), other[m.tag])] else rest
  }

  function MergedValue(m: Member, was: Option<Value>, v: Value): Value
    decreases m
  {
    match (m.kind, v)
    case (Nested(members), Sub(fields)) =>
      (match was
       case Some(Sub(mine)) => Sub(Merged(members, mine, fields, ALL))
       case _ => Sub(Merged(members, map[], fields, ALL)))
    case _ => v
  }

  lemma UniqueTag(members: seq<Member>, m: Member, n: Member)
    requires Shaped(members) && m in members && n in members && m.tag == n.tag
    ensures m == n
  {
  }

  lemma {:induction false} MergedGet(members: seq<Member>, f: Fields, other: Fields, included: set<nat>, t: nat)
    requires Shaped(members)
    ensures t !in Tags(members) ==> Get(Merged(members, f, other, included), t) == Get(f, t)
    ensures forall m :: m in members && m.tag == t ==>
              Get(Merged(members, f, other, included), t) ==
                if t in other && t in included then Some(MergedValue(m, Get(f, t), other[t])) else Get(f, t)
  {
    hide MergedValue, ShapedMember;
    if members != [] {
      RestShaped(members);
      MergedGet(members[1..], f, other, included, t);
      assert members == [members[0]] + members[1..];
      forall m | m in members && m.tag == t
        ensures if t == members[0].tag then m == members[0] else m in members[1..]
      {
        if t == members[0].tag {
          UniqueTag(members, m, members[0]);
        }
      }
    }
  }

  // Every tag is that of a member, or of none.
  ghost predicate Of(members: seq<Member>, t: nat, m: Member) {
    m in members && m.tag == t
  }

  lemma MergedAt(members: seq<Member>, f: Fields, other: Fields, included: set<nat>, m: Member)
    requires Shaped(members) && m in members
    ensures Get(Merged(members, f, other, included), m.tag) ==
              if m.tag in other && m.tag in included then Some(MergedValue(m, Get(f, m.tag), other[m.tag]))
                  else Get(f, m.tag)
  {
    MergedGet(members, f, other, included, m.tag);
  }

  lemma MergedOutside(members: seq<Member>, f: Fields, other: Fields, included: set<nat>, t: nat)
    requires Shaped(members) && t !in Tags(members)
    ensures Get(Merged(members, f, other, included), t) == Get(f, t)
  {
    MergedGet(members, f, other, included, t);
  }

  /** The scalar at the end of a path of tags. */
  function At(f: Fields, path: seq<nat>): Option<int>
    decreases |path|
  {
    if path == [] || path[0] !in f then None
    else
      match f[path[0]]
      case Leaf(i) => if |path| == 1 then Some(i) else None
      case Sub(fields) => At(fields, path[1..])
  }

  /** Whether what a path of tags leads to is valid, scalar or struct. */
  predicate Reaches(f: Fields, path: seq<nat>)
    decreases |path|
  {
    path != [] && path[0] in f && (|path| == 1 || (f[path[0]].Sub? && Reaches(f[path[0]].fields, path[1..])))
  }

  /**
   What merging means, at any depth: where `other` has a scalar and its first tag is included the
   result has that, and everywhere else it has what was there. A path is valid if it was, or came in.
   */
  lemma {:induction false} MergeAtPath(members: seq<Member>, f: Fields, other: Fields, included: set<nat>,
                                       path: seq<nat>)
    requires Shaped(members) && Typed(members, f) && Typed(members, other)
    ensures At(Merged(members, f, other, included), path)
         == if path != [] && path[0] in included && At(other, path).Some? then At(other, path) else At(f, path)
    ensures Reaches(Merged(members, f, other, included), path)
       <==> Reaches(f, path) || (path != [] && path[0] in included && Reaches(other, path))
    decreases |path|
  {
    hide Merged, MergedValue, ShapedMember, TypedMember;
    if path != [] {
      var t := path[0];
      if t in Tags(members) {
        var i :| 0 <= i < |members| && members[i].tag == t;
        assert ShapedMember(members[i]);
        MergedAt(members, f, other, included, members[i]);
        if t in other && t in included {
          MergeInside(members[i], Get(f, t), other[t], path);
        }
      } else {
        MergedOutside(members, f, other, included, t);
      }
    }
  }

  // Inside one property that is merged.
  lemma {:induction false} MergeInside(m: Member, was: Option<Value>, v: Value, path: seq<nat>)
    requires ShapedMember(m) && TypedMember(m, v) && (was.Some? ==> TypedMember(m, was.value)) && path != []
    ensures var mine := if was.Some? then map[path[0] := was.value] else map[];
            var theirs, merged := map[path[0] := v], map[path[0] := MergedValue(m, was, v)];
            && At(merged, path) == (if At(theirs, path).Some? then At(theirs, path) else At(mine, path))
            && (Reaches(merged, path) <==> Reaches(mine, path) || Reaches(theirs, path))
    decreases |path|, 0
  {
    hide Merged, Shaped, Typed;
    if m.kind.Nested? {
      var members := m.kind.members;
      var mine: Fields := match was case Some(Sub(f)) => f case _ => map[];
      assert Typed(members, mine) by {
        EmptyTyped(members);
      }
      MergeAtPath(members, mine, v.fields, ALL, path[1..]);
      if |path| > 1 && Reaches(v.fields, path[1..]) {
        ReachesBelow(members, v.fields, path[1..]);
      }
      AtReaches(v.fields, path[1..]);
    }
  }

  lemma EmptyTyped(members: seq<Member>)
    ensures Typed(members, map[])
  {
  }

  lemma ReachesBelow(members: seq<Member>, f: Fields, path: seq<nat>)
    requires Shaped(members) && Typed(members, f) && Reaches(f, path)
    ensures path[0] in ALL
  {
    TagBelow(members);
  }

  lemma {:induction false} AtReaches(f: Fields, path: seq<nat>)
    ensures At(f, path).Some? ==> Reaches(f, path)
    decreases |path|
  {
    if path != [] && path[0] in f && f[path[0]].Sub? {
      AtReaches(f[path[0]].fields, path[1..]);
    }
  }

  lemma {:induction false} MergeIntoEmpty(members: seq<Member>, f: Fields)
    requires Shaped(members) && Typed(members, f)
    ensures Merged(members, map[], f, ALL) == f
    decreases members, 1
  {
    hide MergedValue, Merged, TypedMember, ShapedMember;
    TagBelow(members);
    var r := Merged(members, map[], f, ALL);
    forall t
      ensures Get(r, t) == Get(f, t)
    {
      if t in Tags(members) {
        var i :| 0 <= i < |members| && members[i].tag == t;
        MergedAt(members, map[], f, ALL, members[i]);
        if t in f {
          FreshValue(members[i], f[t]);
        }
      } else {
        MergedOutside(members, map[], f, ALL, t);
      }
    }
    SameFields(r, f);
  }

  lemma {:induction false} FreshValue(m: Member, v: Value)
    requires ShapedMember(m) && TypedMember(m, v)
    ensures MergedValue(m, None, v) == v
    decreases m, 0
  {
    if m.kind.Nested? {
      MergeIntoEmpty(m.kind.members, v.fields);
    }
  }

  /** Merging the same instance again changes nothing more. */
  lemma {:induction false} MergeIdempotent(members: seq<Member>, f: Fields, other: Fields, included: set<nat>)
    requires Shaped(members) && Typed(members, f) && Typed(members, other)
    ensures var once := Merged(members, f, other, included);
            Merged(members, once, other, included) == once
    decreases members, 1
  {
    hide MergedValue, Merged, TypedMember, ShapedMember;
    var once := Merged(members, f, other, included);
    var twice := Merged(members, once, other, included);
    forall t
      ensures Get(twice, t) == Get(once, t)
    {
      if t in Tags(members) {
        var i :| 0 <= i < |members| && members[i].tag == t;
        MergedAt(members, f, other, included, members[i]);
        MergedAt(members, once, other, included, members[i]);
        if t in other && t in included {
          AgainValue(members[i], Get(f, t), other[t]);
        }
      } else {
        MergedOutside(members, f, other, included, t);
        MergedOutside(members, once, other, included, t);
      }
    }
    SameFields(twice, once);
  }

  lemma {:induction false} AgainValue(m: Member, was: Option<Value>, v: Value)
    requires ShapedMember(m) && TypedMember(m, v) && (was.Some? ==> TypedMember(m, was.value))
    ensures MergedValue(m, Some(MergedValue(m, was, v)), v) == MergedValue(m, was, v)
    decreases m, 0
  {
    if m.kind.Nested? {
      var mine: Fields := match was case Some(Sub(f)) => f case _ => map[];
      MergeIdempotent(m.kind.members, mine, v.fields, ALL);
    }
  }

  /** Merging is associative, through nested structs and for every included set. */
  lemma {:induction false} MergeAssociative(members: seq<Member>, a: Fields, b: Fields, c: Fields, included: set<nat>)
    requires Shaped(members) && Typed(members, a) && Typed(members, b) && Typed(members, c)
    ensures Merged(members, Merged(members, a, b, included), c, included)
        == Merged(members, a, Merged(members, b, c, included), included)
    decreases members, 1
  {
    hide MergedValue, Merged, TypedMember, ShapedMember;
    var ab, bc := Merged(members, a, b, included), Merged(members, b, c, included);
    var left, right := Merged(members, ab, c, included), Merged(members, a, bc, included);
    forall t
      ensures Get(left, t) == Get(right, t)
    {
      if t in Tags(members) {
        var i :| 0 <= i < |members| && members[i].tag == t;
        MergedAt(members, a, b, included, members[i]);
        MergedAt(members, b, c, included, members[i]);
        MergedAt(members, ab, c, included, members[i]);
        MergedAt(members, a, bc, included, members[i]);
        if t in c && t in included {
          if t in b {
            AssociativeValue(members[i], Get(a, t), b[t], c[t]);
          } else {
            FreshValue(members[i], c[t]);
          }
        }
      } else {
        MergedOutside(members, a, b, included, t);
        MergedOutside(members, ab, c, included, t);
        MergedOutside(members, a, bc, included, t);
      }
    }
    SameFields(left, right);
  }

  lemma {:induction false} AssociativeValue(m: Member, was: Option<Value>, b: Value, c: Value)
    requires ShapedMember(m) && TypedMember(m, b) && TypedMember(m, c) && (was.Some? ==> TypedMember(m, was.value))
    ensures MergedValue(m, Some(MergedValue(m, was, b)), c) == MergedValue(m, was, MergedValue(m, Some(b), c))
    decreases m, 0
  {
    if m.kind.Nested? {
      var mine: Fields := match was case Some(Sub(f)) => f case _ => map[];
      MergeAssociative(m.kind.members, mine, b.fields, c.fields, ALL);
    }
  }

  // ----- Equality and order -----

  /** The included properties agree, valid or not. */
  ghost predicate EqualOn(members: seq<Member>, f: Fields, g: Fields, included: set<nat>) {
    forall m :: m in members && m.tag in included ==> Get(f, m.tag) == Get(g, m.tag)
  }

  /** The static fold over property pairs, in the order of declaration. */
  predicate Less(members: seq<Member>, f: Fields, g: Fields, included: set<nat>)
    decreases members, 2
  {
    if included == {} || members == [] then false
    else
      var m := members[0];
      if |members| == 1 then LessIncluded(m, f, g, included)
      else LessIncluded(m, f, g, included) || (!LessIncluded(m, g, f, included) && Less(members[1..], f, g, included))
  }

  predicate LessIncluded(m: Member, f: Fields, g: Fields, included: set<nat>)
    decreases m, 1
  {
    m.tag in included && LessProperty(m, Get(f, m.tag), Get(g, m.tag))
  }

  // An invalid property is less than every valid one.
  predicate LessProperty(m: Member, l: Option<Value>, r: Option<Value>)
    decreases m, 0
  {
    match (l, r)
    case (None, Some(_)) => true
    case (Some(x), Some(y)) =>
      (match (m.kind, x, y)
       case (Scalar, Leaf(i), Leaf(j)) => i < j
       case (Nested(members), Sub(f), Sub(g)) => Less(members, f, g, ALL)
       case _ => false)
    case _ => false
  }

  ghost predicate TypedProperty(m: Member, v: Option<Value>) {
    v.Some? ==> TypedMember(m, v.value)
  }

  lemma RestTyped(members: seq<Member>, f: Fields)
    requires Shaped(members) && members != [] && TypedAll(members, f)
    ensures TypedAll(members[1..], f) && TypedProperty(members[0], Get(f, members[0].tag))
  {
    assert members == [members[0]] + members[1..];
  }

  // Typed as far as these members are concerned.
  ghost predicate TypedAll(members: seq<Member>, f: Fields) {
    forall i :: 0 <= i < |members| ==> TypedProperty(members[i], Get(f, members[i].tag))
  }

  lemma TypedEverywhere(members: seq<Member>, f: Fields)
    requires Typed(members, f)
    ensures TypedAll(members, f)
  {
    hide TypedMember;
  }

  /** The order decides between any two instances that differ: exactly one of less, equal, greater. */
  lemma {:induction false} LessTotal(members: seq<Member>, f: Fields, g: Fields, included: set<nat>)
    requires Shaped(members) && TypedAll(members, f) && TypedAll(members, g)
    ensures !(Less(members, f, g, included) && Less(members, g, f, included))
    ensures EqualOn(members, f, g, included) <==> !Less(members, f, g, included) && !Less(members, g, f, included)
    decreases members, 2
  {
    hide LessProperty, TypedProperty, ShapedMember;
    if members != [] && included != {} {
      var m, rest := members[0], members[1..];
      assert members == [m] + rest;
      RestShaped(members);
      RestTyped(members, f);
      RestTyped(members, g);
      PropertyTotal(m, Get(f, m.tag), Get(g, m.tag));
      LessTotal(rest, f, g, included);
    }
  }

  lemma {:induction false} PropertyTotal(m: Member, l: Option<Value>, r: Option<Value>)
    requires ShapedMember(m) && TypedProperty(m, l) && TypedProperty(m, r)
    ensures !(LessProperty(m, l, r) && LessProperty(m, r, l))
    ensures l == r <==> !LessProperty(m, l, r) && !LessProperty(m, r, l)
    decreases m, 1
  {
    if l.Some? && r.Some? && m.kind.Nested? {
      var members, f, g := m.kind.members, l.value.fields, r.value.fields;
      TypedEverywhere(members, f);
      TypedEverywhere(members, g);
      LessTotal(members, f, g, ALL);
      EqualWhole(members, f, g);
    }
  }

  lemma EqualWhole(members: seq<Member>, f: Fields, g: Fields)
    requires Shaped(members) && Typed(members, f) && Typed(members, g)
    ensures EqualOn(members, f, g, ALL) <==> f == g
  {
    hide TypedMember, ShapedMember;
    TagBelow(members);
    if EqualOn(members, f, g, ALL) {
      forall t
        ensures Get(f, t) == Get(g, t)
      {
        if t in Tags(members) {
          var m :| m in members && m.tag == t;
        }
      }
      SameFields(f, g);
    }
  }

  lemma {:induction false} LessTransitive(members: seq<Member>, a: Fields, b: Fields, c: Fields, included: set<nat>)
    requires Shaped(members) && TypedAll(members, a) && TypedAll(members, b) && TypedAll(members, c)
    requires Less(members, a, b, included) && Less(members, b, c, included)
    ensures Less(members, a, c, included)
    decreases members, 2
  {
    hide LessProperty, TypedProperty, ShapedMember;
    var m, rest := members[0], members[1..];
    RestShaped(members);
    RestTyped(members, a);
    RestTyped(members, b);
    RestTyped(members, c);
    var x, y, z := Get(a, m.tag), Get(b, m.tag), Get(c, m.tag);
    PropertyTotal(m, x, y);
    PropertyTotal(m, y, z);
    PropertyTotal(m, x, z);
    if m.tag in included && LessProperty(m, x, y) && LessProperty(m, y, z) {
      PropertyTransitive(m, x, y, z);
    }
    if Less(rest, a, b, included) && Less(rest, b, c, included) {
      LessTransitive(rest, a, b, c, included);
    }
  }

  lemma {:induction false} PropertyTransitive(m: Member, x: Option<Value>, y: Option<Value>, z: Option<Value>)
    requires ShapedMember(m) && TypedProperty(m, x) && TypedProperty(m, y) && TypedProperty(m, z)
    requires LessProperty(m, x, y) && LessProperty(m, y, z)
    ensures LessProperty(m, x, z)
    decreases m, 1
  {
    if x.Some? && y.Some? && z.Some? && m.kind.Nested? {
      var members := m.kind.members;
      TypedEverywhere(members, x.value.fields);
      TypedEverywhere(members, y.value.fields);
      TypedEverywhere(members, z.value.fields);
      LessTransitive(members, x.value.fields, y.value.fields, z.value.fields, ALL);
    }
  }

  // ----- The order as a lexicographic one -----

  /** All there is to compare, in the order of declaration: whether a property is valid, then its value or its parts. */
  function Flat(members: seq<Member>, f: Fields, included: set<nat>): seq<int>
    decreases members, 2
  {
    if members == [] then []
    else (if members[0].tag in included then FlatProperty(members[0], Get(f, members[0].tag)) else [])
         + Flat(members[1..], f, included)
  }

  function FlatProperty(m: Member, v: Option<Value>): seq<int>
    decreases m, 0
  {
    [if v.Some? then 1 else 0] +
    match m.kind
    case Scalar => [if v.Some? && v.value.Leaf? then v.value.i else 0]
    case Nested(members) => Flat(members, if v.Some? && v.value.Sub? then v.value.fields else map[], ALL)
  }

  /** The first difference decides. */
  ghost predicate Lexicographic(a: seq<int>, b: seq<int>) {
    exists n :: 0 <= n < |a| && n < |b| && a[..n] == b[..n] && a[n] < b[n]
  }

  lemma LexicographicOne(i: int, j: int)
    ensures Lexicographic([i], [j]) <==> i < j
  {
    if i < j {
      assert [i][..0] == [j][..0] && [i][0] < [j][0];
    }
  }

  lemma LexicographicAppend(a: seq<int>, b: seq<int>, c: seq<int>, d: seq<int>)
    requires |a| == |b|
    ensures Lexicographic(a + c, b + d) <==> Lexicographic(a, b) || (a == b && Lexicographic(c, d))
  {
    if n :| 0 <= n < |a + c| && n < |b + d| && (a + c)[..n] == (b + d)[..n] && (a + c)[n] < (b + d)[n] {
      if n < |a| {
        assert (a + c)[..n] == a[..n] && (b + d)[..n] == b[..n];
      } else {
        assert (a + c)[..n] == a + c[..n - |a|] && (b + d)[..n] == b + d[..n - |a|];
        assert (a + c)[..n][..|a|] == a && (b + d)[..n][..|a|] == b;
        assert (a + c)[..n][|a|..] == c[..n - |a|] && (b + d)[..n][|a|..] == d[..n - |a|];
        assert c[n - |a|] < d[n - |a|];
      }
    }
    if n :| 0 <= n < |a| && n < |b| && a[..n] == b[..n] && a[n] < b[n] {
      assert (a + c)[..n] == a[..n] && (b + d)[..n] == b[..n] && (a + c)[n] < (b + d)[n];
    }
    if a == b {
      if n :| 0 <= n < |c| && n < |d| && c[..n] == d[..n] && c[n] < d[n] {
        assert (a + c)[..|a| + n] == a + c[..n] && (b + d)[..|a| + n] == b + d[..n];
        assert (a + c)[|a| + n] < (b + d)[|a| + n];
      }
    }
  }

  lemma AppendSame(a: seq<int>, b: seq<int>, c: seq<int>, d: seq<int>)
    requires |a| == |b|
    ensures a + c == b + d <==> a == b && c == d
  {
    assert (a + c)[..|a|] == a && (a + c)[|a|..] == c && (b + d)[..|a|] == b && (b + d)[|a|..] == d;
  }

  lemma LexicographicAntisymmetric(a: seq<int>, b: seq<int>)
    ensures !(Lexicographic(a, b) && Lexicographic(b, a)) && !Lexicographic(a, a)
  {
    forall n, k | 0 <= n < k < |a| && k < |b| && a[..k] == b[..k]
      ensures a[n] == b[n]
    {
      assert a[n] == a[..k][n] && b[n] == b[..k][n];
    }
  }

  /** The order compares all scalars, through all nested structs, one after the other; invalid is lowest. */
  lemma {:induction false} LessIsLexicographic(members: seq<Member>, f: Fields, g: Fields, included: set<nat>)
    requires Shaped(members) && TypedAll(members, f) && TypedAll(members, g)
    ensures |Flat(members, f, included)| == |Flat(members, g, included)|
    ensures Less(members, f, g, included) <==> Lexicographic(Flat(members, f, included), Flat(members, g, included))
    ensures Flat(members, f, included) == Flat(members, g, included) <==> EqualOn(members, f, g, included)
    decreases members, 2
  {
    hide LessProperty, FlatProperty, TypedProperty, ShapedMember, Lexicographic;
    if members == [] {
      LexicographicAntisymmetric([], []);
    } else {
      var m, rest := members[0], members[1..];
      assert members == [m] + rest;
      RestShaped(members);
      RestTyped(members, f);
      RestTyped(members, g);
      LessIsLexicographic(rest, f, g, included);
      if m.tag in included {
        var l, r := Get(f, m.tag), Get(g, m.tag);
        PropertyIsLexicographic(m, l, r);
        PropertyIsLexicographic(m, r, l);
        PropertyTotal(m, l, r);
        LexicographicAppend(FlatProperty(m, l), FlatProperty(m, r), Flat(rest, f, included), Flat(rest, g, included));
        AppendSame(FlatProperty(m, l), FlatProperty(m, r), Flat(rest, f, included), Flat(rest, g, included));
        if rest == [] {
          LexicographicAntisymmetric([], []);
        }
      } else {
        assert Flat(members, f, included) == Flat(rest, f, included);
        assert Flat(members, g, included) == Flat(rest, g, included);
        if rest == [] || included == {} {
          NoneIncluded(rest, f, g, included);
        }
      }
    }
  }

  lemma NoneIncluded(members: seq<Member>, f: Fields, g: Fields, included: set<nat>)
    requires members == [] || included == {}
    ensures !Less(members, f, g, included)
  {
  }

  lemma {:induction false} PropertyIsLexicographic(m: Member, l: Option<Value>, r: Option<Value>)
    requires ShapedMember(m) && TypedProperty(m, l) && TypedProperty(m, r)
    ensures |FlatProperty(m, l)| == |FlatProperty(m, r)|
    ensures LessProperty(m, l, r) <==> Lexicographic(FlatProperty(m, l), FlatProperty(m, r))
    ensures FlatProperty(m, l) == FlatProperty(m, r) <==> l == r
    decreases m, 1
  {
    hide Lexicographic, Flat, Less, Typed, EqualOn;
    var x, y := if l.Some? then 1 else 0, if r.Some? then 1 else 0;
    LexicographicOne(x, y);
    match m.kind
    case Scalar =>
      var i, j := if l.Some? then l.value.i else 0, if r.Some? then r.value.i else 0;
      LexicographicOne(i, j);
      LexicographicAppend([x], [y], [i], [j]);
      assert ([x] + [i])[0] == x && ([x] + [i])[1] == i && ([y] + [j])[0] == y && ([y] + [j])[1] == j;
    case Nested(members) =>
      var f: Fields, g: Fields := if l.Some? then l.value.fields else map[], if r.Some? then r.value.fields else map[];
      EmptyTyped(members);
      TypedEverywhere(members, f);
      TypedEverywhere(members, g);
      LessIsLexicographic(members, f, g, ALL);
      EqualWhole(members, f, g);
      var a, b := Flat(members, f, ALL), Flat(members, g, ALL);
      LexicographicAppend([x], [y], a, b);
      LexicographicAntisymmetric(a, b);
      LexicographicAntisymmetric(a, a);
      assert ([x] + a)[0] == x && ([x] + a)[1..] == a && ([y] + b)[0] == y && ([y] + b)[1..] == b;
  }
}
