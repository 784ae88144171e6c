/** Structs with a descriptor, updated in place: loops over the descriptor's properties against the algebra. */
module DynamicStructs {
  import opened Wrappers
  import opened StructAlgebra

  // ----- The static forms: folds over the property list -----

  function FoldCopy(members: seq<Member>, f: Fields, other: Fields, included: set<nat>): Fields {
    if members == [] then f
    else
      var m := members[0];
      FoldCopy(members[1..], if m.tag in included then Set(f, m.tag, Get(other, m.tag)) else f, other, included)
  }

  function FoldAssign(members: seq<Member>, f: Fields, other: Fields, included: set<nat>): Fields {
    if members == [] then f
    else
      var m := members[0];
      FoldAssign(members[1..], Set(f, m.tag, if m.tag in included then Get(other, m.tag) else None), other, included)
  }

  function FoldDiff(members: seq<Member>, f: Fields, other: Fields, intersection: set<nat>): set<nat> {
    if members == [] then {}
    else
      var m := members[0];
      (if m.tag in intersection && Get(f, m.tag) != Get(other, m.tag) then {m.tag} else {})
        + FoldDiff(members[1..], f, other, intersection)
  }

  predicate FoldEqual(members: seq<Member>, f: Fields, other: Fields, included: set<nat>) {
    members == [] ||
    ((members[0].tag in included ==> Get(f, members[0].tag) == Get(other, members[0].tag))
      && FoldEqual(members[1..], f, other, included))
  }

  lemma {:induction false} FoldCopyIs(members: seq<Member>, f: Fields, other: Fields, included: set<nat>)
    ensures FoldCopy(members, f, other, included) == Copied(f, other, included * Tags(members))
  {
    if members == [] {
      assert included * Tags(members) == {};
      assert Copied(f, other, {}) == f;
    } else {
      var m, rest := members[0], members[1..];
      assert members == [m] + rest;
      assert Tags(members) == {m.tag} + Tags(rest);
      var g := if m.tag in included then Set(f, m.tag, Get(other, m.tag)) else f;
      FoldCopyIs(rest, g, other, included);
      CopiedOneMore(f, other, included, m.tag, Tags(rest));
    }
  }

  lemma CopiedOneMore(f: Fields, other: Fields, included: set<nat>, t: nat, tags: set<nat>)
    ensures Copied(if t in included then Set(f, t, Get(other, t)) else f, other, included * tags)
        == Copied(f, other, included * ({t} + tags))
  {
    var g := if t in included then Set(f, t, Get(other, t)) else f;
    var x, y := Copied(g, other, included * tags), Copied(f, other, included * ({t} + tags));
    forall s
      ensures Get(x, s) == Get(y, s)
    {
    }
    SameFields(x, y);
  }

  lemma CopiedNext(f: Fields, other: Fields, included: set<nat>, tags: set<nat>, t: nat)
    ensures Copied(f, other, included * (tags + {t})) ==
              if t in included then Set(Copied(f, other, included * tags), t, Get(other, t))
                  else Copied(f, other, included * tags)
  {
    var x := Copied(f, other, included * (tags + {t}));
    var y := if t in included then Set(Copied(f, other, included * tags), t, Get(other, t))
      else Copied(f, other, included * tags);
    forall s
      ensures Get(x, s) == Get(y, s)
    {
    }
    SameFields(x, y);
  }

  lemma TagsNext(members: seq<Member>, n: nat)
    requires n < |members|
    ensures Tags(members[..n + 1]) == Tags(members[..n]) + {members[n].tag}
    ensures Tags(members[..0]) == {} && members[..|members|] == members
  {
    assert members[..n + 1] == members[..n] + [members[n]];
  }

  lemma CopiedWhole(members: seq<Member>, f: Fields, other: Fields, included: set<nat>)
    requires Typed(members, f) && Typed(members, other)
    ensures Copied(f, other, included * Tags(members)) == Copied(f, other, included)
    ensures Copied(f, other, {}) == f
    ensures f == other ==> forall s :: Copied(f, other, s) == f
  {
    hide TypedMember;
  }

  /** The static copy of instances of one type is the dynamic one. */
  lemma StaticCopy(members: seq<Member>, f: Fields, other: Fields, included: set<nat>)
    requires Typed(members, f) && Typed(members, other)
    ensures FoldCopy(members, f, other, included) == Copied(f, other, included)
  {
    FoldCopyIs(members, f, other, included);
    CopiedWhole(members, f, other, included);
  }

  lemma {:induction false} FoldAssignIs(members: seq<Member>, f: Fields, other: Fields, included: set<nat>, t: nat)
    requires Shaped(members)
    ensures Get(FoldAssign(members, f, other, included), t) ==
              if t in Tags(members) then (if t in included then Get(other, t) else None) else Get(f, t)
  {
    hide ShapedMember;
    if members != [] {
      RestShaped(members);
      var m := members[0];
      FoldAssignIs(members[1..], Set(f, m.tag, if m.tag in included then Get(other, m.tag) else None), other,
        included, t);
    }
  }

  lemma StaticAssign(members: seq<Member>, f: Fields, other: Fields, included: set<nat>)
    requires Shaped(members) && Typed(members, f) && Typed(members, other)
    ensures FoldAssign(members, f, other, included) == Assigned(other, included)
  {
    hide ShapedMember, TypedMember, FoldAssign;
    forall t
      ensures Get(FoldAssign(members, f, other, included), t) == Get(Assigned(other, included), t)
    {
      FoldAssignIs(members, f, other, included, t);
    }
    SameFields(FoldAssign(members, f, other, included), Assigned(other, included));
  }

  lemma {:induction false} FoldDiffIs(members: seq<Member>, f: Fields, other: Fields, intersection: set<nat>)
    ensures FoldDiff(members, f, other, intersection) == set t | t in Tags(members) && t in intersection
        && Get(f, t) != Get(other, t)
  {
    if members != [] {
      FoldDiffIs(members[1..], f, other, intersection);
      assert members == [members[0]] + members[1..];
      assert Tags(members) == {members[0].tag} + Tags(members[1..]);
    }
  }

  function SymmetricDifference(a: set<nat>, b: set<nat>): set<nat> {
    (a - b) + (b - a)
  }

  /** Properties valid on one side only, and those valid on both with different values. */
  lemma StaticDiff(members: seq<Member>, f: Fields, other: Fields, included: set<nat>)
    requires Typed(members, f) && Typed(members, other)
    ensures SymmetricDifference(f.Keys, other.Keys) * included
        + FoldDiff(members, f, other, f.Keys * other.Keys * included)
         == Differing(f, other, included)
  {
    FoldDiffIs(members, f, other, f.Keys * other.Keys * included);
  }

  lemma {:induction false} StaticEqual(members: seq<Member>, f: Fields, other: Fields, included: set<nat>)
    ensures FoldEqual(members, f, other, included) <==> EqualOn(members, f, other, included)
  {
    if members != [] {
      StaticEqual(members[1..], f, other, included);
      assert members == [members[0]] + members[1..];
    }
  }

  lemma MergedOneMore(members: seq<Member>, f: Fields, other: Fields, included: set<nat>, n: nat)
    requires Shaped(members) && n < |members|
    ensures Shaped(members[..n]) && Shaped(members[..n + 1])
    ensures var m, so := members[n], Merged(members[..n], f, other, included);
            && Get(so, m.tag) == Get(f, m.tag)
            && Merged(members[..n + 1], f, other, included)
               == if m.tag in other && m.tag in included
                 then so[m.tag := MergedValue(m, Get(f, m.tag), other[m.tag])] else so
  {
    hide Merged, MergedValue, ShapedMember;
    var m, first, more := members[n], members[..n], members[..n + 1];
    assert more == first + [m];
    var so, next := Merged(first, f, other, included), Merged(more, f, other, included);
    assert m.tag !in Tags(first);
    MergedOutside(first, f, other, included, m.tag);
    var y := if m.tag in other && m.tag in included then so[m.tag := MergedValue(m, Get(f, m.tag), other[m.tag])]
      else so;
    forall t
      ensures Get(next, t) == Get(y, t)
    {
      if t == m.tag {
        MergedAt(more, f, other, included, m);
      } else if t in Tags(first) {
        var o :| o in first && o.tag == t;
        assert o in more;
        MergedAt(more, f, other, included, o);
        MergedAt(first, f, other, included, o);
      } else {
        MergedOutside(more, f, other, included, t);
        MergedOutside(first, f, other, included, t);
      }
    }
    SameFields(next, y);
  }

  lemma AssignedTyped(members: seq<Member>, other: Fields, included: set<nat>)
    requires Typed(members, other)
    ensures Typed(members, Assigned(other, included))
  {
    hide TypedMember;
  }

  lemma CopiedTyped(members: seq<Member>, f: Fields, other: Fields, included: set<nat>)
    requires Typed(members, f) && Typed(members, other)
    ensures Typed(members, Copied(f, other, included))
  {
    hide TypedMember;
  }

  lemma {:induction false} MergedTyped(members: seq<Member>, f: Fields, other: Fields, included: set<nat>)
    requires Shaped(members) && Typed(members, f) && Typed(members, other)
    ensures Typed(members, Merged(members, f, other, included))
    decreases members, 1
  {
    hide Merged, MergedValue, ShapedMember, TypedMember;
    var r := Merged(members, f, other, included);
    forall t | t in r
      ensures t in Tags(members)
    {
      if t !in Tags(members) {
        MergedOutside(members, f, other, included, t);
      }
    }
    forall i | 0 <= i < |members| && members[i].tag in r
      ensures TypedMember(members[i], r[members[i].tag])
    {
      var m := members[i];
      MergedAt(members, f, other, included, m);
      if m.tag in other && m.tag in included {
        MergedValueTyped(m, Get(f, m.tag), other[m.tag]);
      }
    }
  }

  lemma {:induction false} MergedValueTyped(m: Member, was: Option<Value>, v: Value)
    requires ShapedMember(m) && TypedMember(m, v) && (was.Some? ==> TypedMember(m, was.value))
    ensures TypedMember(m, MergedValue(m, was, v))
    decreases m, 0
  {
    if m.kind.Nested? {
      var mine: Fields := match was case Some(Sub(f)) => f case _ => map[];
      MergedTyped(m.kind.members, mine, v.fields, ALL);
    }
  }

  // ----- Loops over the properties of a descriptor -----

  class DynamicStruct {
    const members: seq<Member>
    var fields: Fields

    ghost predicate Valid()
      reads this
    {
      Shaped(members) && Typed(members, fields)
    }

    constructor (members: seq<Member>)
      requires Shaped(members)
      ensures Valid() && this.members == members && fields == map[]
    {
      this.members, fields := members, map[];
    }

    function ValidProperties(): set<nat>
      reads this
    {
      fields.Keys
    }

    /** Only included valid properties of `other` remain. */
    method Assign(other: DynamicStruct, includedProperties: set<nat>)
      requires Valid() && other.Valid() && other.members == members
      modifies this`fields
      ensures Valid() && fields == Assigned(old(other.fields), includedProperties)
    {
      hide ShapedMember, TypedMember, Typed;
      var assignProperties := other.ValidProperties() * includedProperties;
      StaticAssign(members, fields, other.fields, includedProperties);
      AssignedTyped(members, other.fields, includedProperties);
      ghost var mine, theirs := fields, other.fields;
      var n := 0;
      assert members[0..] == members;
      while n < |members|
        modifies this`fields
        invariant n <= |members| && FoldAssign(members[n..], fields, theirs, includedProperties)
            == FoldAssign(members, mine, theirs, includedProperties)
        invariant other != this ==> other.fields == theirs
        invariant forall t :: t !in Tags(members[..n]) ==> Get(other.fields, t) == Get(theirs, t)
      {
        var t := members[n].tag;
        TagsNext(members, n);
        FirstTime(members, n);
        assert members[n..][0] == members[n] && members[n..][1..] == members[n + 1..];
        fields := Set(fields, t, if t in assignProperties then Get(other.fields, t) else None);
        assert t in assignProperties <==> t in includedProperties && Get(theirs, t).Some?;
        n := n + 1;
      }
    }

    /** Included properties follow `other`. */
    method Copy(other: DynamicStruct, includedProperties: set<nat>)
      requires Valid() && other.Valid() && other.members == members
      modifies this`fields
      ensures Valid() && fields == Copied(old(fields), old(other.fields), includedProperties)
    {
      hide Shaped, Typed;
      CopiedTyped(members, fields, other.fields, includedProperties);
      var copyProperties := (ValidProperties() + other.ValidProperties()) * includedProperties;
      CopiedWhole(members, fields, other.fields, includedProperties);
      ghost var mine, theirs := fields, other.fields;
      var n := 0;
      assert includedProperties * Tags(members[..0]) == {};
      while n < |members|
        modifies this`fields
        invariant n <= |members| && fields == Copied(mine, theirs, includedProperties * Tags(members[..n]))
      {
        assert other.fields == theirs;
        var t := members[n].tag;
        TagsNext(members, n);
        CopiedNext(mine, theirs, includedProperties, Tags(members[..n]), t);
        if t in copyProperties {
          fields := Set(fields, t, Get(other.fields, t));
        } else {
          assert t in includedProperties ==> Set(fields, t, None) == fields;
        }
        n := n + 1;
      }
      assert members[..n] == members;
    }

    /** Included valid properties of `other` go in; nested structs merge in turn. */
    method Merge(other: DynamicStruct, includedProperties: set<nat>)
      requires Valid() && other.Valid() && other.members == members
      modifies this`fields
      ensures Valid() && fields == Merged(members, old(fields), old(other.fields), includedProperties)
    {
      hide Typed, TypedMember, MergedValue;
      ghost var mine, theirs := fields, other.fields;
      MergedTyped(members, mine, theirs, includedProperties);
      var mergeProperties := other.ValidProperties() * includedProperties;
      var n := 0;
      while n < |members|
        modifies this`fields
        invariant n <= |members| && fields == Merged(members[..n], mine, theirs, includedProperties)
        invariant other != this ==> other.fields == theirs
      {
        MergedOneMore(members, mine, theirs, includedProperties, n);
        var m := members[n];
        assert Get(other.fields, m.tag) == Get(theirs, m.tag);
        if m.tag in mergeProperties {
          MembersTyped(members, theirs, m);
          assert ShapedMember(m);
          var v := MergeProperty(m, Get(fields, m.tag), other.fields[m.tag]);
          fields := fields[m.tag := v];
        }
        n := n + 1;
      }
      assert members[..n] == members;
    }

    method Clear(includedProperties: set<nat>)
      requires Valid()
      modifies this`fields
      ensures Valid() && fields == old(fields) - includedProperties
    {
      hide Shaped, ShapedMember, TypedMember;
      var n := 0;
      while n < |members|
        modifies this`fields
        invariant n <= |members| && fields == old(fields) - includedProperties * Tags(members[..n])
      {
        TagsNext(members, n);
        if members[n].tag in includedProperties {
          fields := fields - {members[n].tag};
        }
        n := n + 1;
      }
      assert members[..n] == members;
    }

    /** Exactly the included properties change places. */
    method Swap(other: DynamicStruct, includedProperties: set<nat>)
      requires Valid() && other.Valid() && other.members == members
      modifies this`fields, other`fields
      ensures Valid() && other.Valid() && fields == Copied(old(fields), old(other.fields), includedProperties)
      ensures other.fields == Copied(old(other.fields), old(fields), includedProperties)
    {
      hide Shaped, Typed;
      CopiedTyped(members, fields, other.fields, includedProperties);
      CopiedTyped(members, other.fields, fields, includedProperties);
      CopiedWhole(members, fields, other.fields, includedProperties);
      CopiedWhole(members, other.fields, fields, includedProperties);
      ghost var mine, theirs := fields, other.fields;
      var n := 0;
      assert includedProperties * Tags(members[..0]) == {};
      while n < |members|
        modifies this`fields, other`fields
        invariant n <= |members| && fields == Copied(mine, theirs, includedProperties * Tags(members[..n]))
        invariant other.fields == Copied(theirs, mine, includedProperties * Tags(members[..n]))
        invariant forall t ::
            t !in Tags(members[..n]) ==> Get(fields, t) == Get(mine, t) && Get(other.fields, t) == Get(theirs, t)
      {
        var t := members[n].tag;
        TagsNext(members, n);
        CopiedNext(mine, theirs, includedProperties, Tags(members[..n]), t);
        CopiedNext(theirs, mine, includedProperties, Tags(members[..n]), t);
        if t in includedProperties {
          FirstTime(members, n);
          var was := Get(fields, t);
          fields := Set(fields, t, Get(other.fields, t));
          other.fields := Set(other.fields, t, was);
        }
        n := n + 1;
      }
      assert members[..n] == members;
    }

    method Equal(other: DynamicStruct, includedProperties: set<nat>) returns (r: bool)
      ensures r <==> EqualOn(members, fields, other.fields, includedProperties)
    {
      var n := 0;
      while n < |members|
        invariant n <= |members| && EqualOn(members[..n], fields, other.fields, includedProperties)
      {
        var t := members[n].tag;
        if t in includedProperties && Get(fields, t) != Get(other.fields, t) {
          return false;
        }
        assert members[..n + 1] == members[..n] + [members[n]];
        n := n + 1;
      }
      assert members[..n] == members;
      return true;
    }

    /** The loop decides like the static fold. */
    method LessThan(other: DynamicStruct, includedProperties: set<nat>) returns (r: bool)
      ensures r <==> Less(members, fields, other.fields, includedProperties)
    {
      hide LessProperty;
      if includedProperties == {} {
        return false;
      }
      var n := 0;
      assert members[0..] == members;
      while n < |members|
        invariant n <= |members|
        invariant Less(members, fields, other.fields, includedProperties)
            <==> Less(members[n..], fields, other.fields, includedProperties)
      {
        var m := members[n];
        assert members[n..][0] == m && members[n..][1..] == members[n + 1..];
        if m.tag in includedProperties {
          if LessProperty(m, Get(fields, m.tag), Get(other.fields, m.tag)) {
            return true;
          } else if LessProperty(m, Get(other.fields, m.tag), Get(fields, m.tag)) {
            return false;
          }
        }
        n := n + 1;
      }
      return false;
    }

    method DiffProperties(other: DynamicStruct, includedProperties: set<nat>) returns (r: set<nat>)
      requires Valid() && other.Valid() && other.members == members
      ensures r == Differing(fields, other.fields, includedProperties)
    {
      hide Shaped, ShapedMember, TypedMember, Differing;
      ghost var both := ValidProperties() * other.ValidProperties() * includedProperties;
      StaticDiff(members, fields, other.fields, includedProperties);
      FoldDiffIs(members, fields, other.fields, both);
      r := SymmetricDifference(ValidProperties(), other.ValidProperties()) * includedProperties;
      ghost var oneSided := r;
      var intersection := ValidProperties() * other.ValidProperties() * includedProperties;
      if intersection != {} {
        var n := 0;
        while n < |members|
          invariant n <= |members|
          invariant r == oneSided + set t | t in Tags(members[..n]) && t in intersection
              && Get(fields, t) != Get(other.fields, t)
        {
          TagsNext(members, n);
          var t := members[n].tag;
          if t in intersection && Get(fields, t) != Get(other.fields, t) {
            r := r + {t};
          }
          n := n + 1;
        }
        assert members[..n] == members;
      } else {
        assert FoldDiff(members, fields, other.fields, both) == {};
      }
    }
  }

  lemma FirstTime(members: seq<Member>, n: nat)
    requires Shaped(members) && n < |members|
    ensures members[n].tag !in Tags(members[..n])
  {
    hide ShapedMember;
  }

  method MergeFields(members: seq<Member>, f: Fields, other: Fields, includedProperties: set<nat>) returns (r: Fields)
    requires Shaped(members) && Typed(members, other)
    ensures r == Merged(members, f, other, includedProperties)
    decreases members, 1
  {
    hide Typed, TypedMember, MergedValue;
    var mergeProperties := other.Keys * includedProperties;
    r := f;
    var n := 0;
    while n < |members|
      invariant n <= |members| && r == Merged(members[..n], f, other, includedProperties)
    {
      MergedOneMore(members, f, other, includedProperties, n);
      var m := members[n];
      if m.tag in mergeProperties {
        MembersTyped(members, other, m);
        assert ShapedMember(m);
        var v := MergeProperty(m, Get(r, m.tag), other[m.tag]);
        r := r[m.tag := v];
      }
      n := n + 1;
    }
    assert members[..n] == members;
  }

  // A struct is merged into what is there, or into a new one; anything else is assigned.
  method MergeProperty(m: Member, was: Option<Value>, v: Value) returns (r: Value)
    requires ShapedMember(m) && TypedMember(m, v)
    ensures r == MergedValue(m, was, v)
    decreases m, 0
  {
    if m.kind.Nested? {
      var mine: Fields := match was case Some(Sub(fields)) => fields case _ => map[];
      var merged := MergeFields(m.kind.members, mine, v.fields, ALL);
      r := Sub(merged);
    } else {
      r := v;
    }
  }
}
