/** Where the properties of a dynamic struct lie in memory, and how a path through nested structs finds one. */
module Layout {

  datatype Slot = Slot(alignment: nat, size: nat)

  predicate Sound(slots: seq<Slot>) {
    forall i :: 0 <= i < |slots| ==> slots[i].alignment > 0
  }

  // ----- Offsets -----

  function CalculateOffset(alignment: nat, previousOffset: nat, previousSize: nat): nat
    requires alignment > 0
  {
    var current := previousOffset + previousSize;
    current + (alignment - current % alignment) % alignment
  }

  lemma AtLeastOnce(n: int, a: nat)
    ensures n >= 1 ==> n * a >= a
    ensures n <= -1 ==> n * a + a <= 0
  {
  }

  lemma Difference(k: int, q: int, a: int)
    ensures k * a - q * a == (k - q) * a
  {
  }

  lemma RemainderIs(x: nat, a: nat, q: nat, r: nat)
    requires a > 0 && x == q * a + r && r < a
    ensures x % a == r
  {
    var k, s := x / a, x % a;
    assert x == k * a + s;
    Difference(k, q, a);
    AtLeastOnce(k - q, a);
    if k == q {
      assert s == r;
    }
  }

  /** An offset is the least aligned one that does not overlap what comes before. */
  lemma LeastAligned(alignment: nat, previousOffset: nat, previousSize: nat, x: nat)
    requires alignment > 0
    ensures var offset := CalculateOffset(alignment, previousOffset, previousSize);
            && offset % alignment == 0 && previousOffset + previousSize <= offset
            && (previousOffset + previousSize <= x < offset ==> x % alignment != 0)
  {
    var a, current := alignment, previousOffset + previousSize;
    var q, r := current / a, current % a;
    assert current == q * a + r;
    if r == 0 {
      RemainderIs(a, a, 1, 0);
    } else {
      RemainderIs(a - r, a, 0, a - r);
      assert current + (a - r) == (q + 1) * a by {
        Difference(q + 1, q, a);
      }
      RemainderIs((q + 1) * a, a, q + 1, 0);
      if current <= x < (q + 1) * a {
        RemainderIs(x, a, q, x - q * a);
      }
    }
  }

  // The offsets of a list of properties; the first follows the header of the property area.
  function Offsets(header: nat, slots: seq<Slot>): (offsets: seq<nat>)
    requires Sound(slots)
    ensures |offsets| == |slots|
  {
    if slots == [] then []
    else
      var n := |slots| - 1;
      var before := Offsets(header, slots[..n]);
      before + [if n == 0 then CalculateOffset(slots[0].alignment, 0, header)
                else CalculateOffset(slots[n].alignment, before[n - 1], slots[n - 1].size)]
  }

  function MaxAlignment(initial: nat, slots: seq<Slot>): nat {
    if slots == [] then initial
    else
      var rest := MaxAlignment(initial, slots[..|slots| - 1]);
      var last := slots[|slots| - 1].alignment;
      if last > rest then last else rest
  }

  lemma {:induction false} OffsetsOrdered(header: nat, slots: seq<Slot>, i: nat, j: nat)
    requires Sound(slots) && i < j < |slots|
    ensures Offsets(header, slots)[i] + slots[i].size <= Offsets(header, slots)[j]
  {
    var n := |slots| - 1;
    var before := Offsets(header, slots[..n]);
    if j == n {
      LeastAligned(slots[n].alignment, before[n - 1], slots[n - 1].size, 0);
      if i < n - 1 {
        OffsetsOrdered(header, slots[..n], i, n - 1);
      }
    } else {
      OffsetsOrdered(header, slots[..n], i, j);
    }
  }

  lemma {:induction false} OffsetsAligned(header: nat, slots: seq<Slot>, i: nat)
    requires Sound(slots) && i < |slots|
    ensures Offsets(header, slots)[i] % slots[i].alignment == 0 && header <= Offsets(header, slots)[i]
  {
    var n := |slots| - 1;
    var before := Offsets(header, slots[..n]);
    if i < n {
      OffsetsAligned(header, slots[..n], i);
    } else if n == 0 {
      LeastAligned(slots[0].alignment, 0, header, 0);
    } else {
      OffsetsAligned(header, slots[..n], n - 1);
      LeastAligned(slots[n].alignment, before[n - 1], slots[n - 1].size, 0);
    }
  }

  predicate Aligned(x: nat, alignment: nat)
    requires alignment > 0
  {
    x % alignment == 0
  }

  // Where a property could begin at the earliest: after the header, or after the property before it.
  function Earliest(header: nat, slots: seq<Slot>, offsets: seq<nat>, i: nat): nat
    requires i < |slots| == |offsets|
  {
    if i == 0 then header else offsets[i - 1] + slots[i - 1].size
  }

  lemma {:induction false} OffsetsPacked(header: nat, slots: seq<Slot>, i: nat, x: nat)
    requires Sound(slots) && i < |slots|
    requires Earliest(header, slots, Offsets(header, slots), i) <= x < Offsets(header, slots)[i]
    ensures !Aligned(x, slots[i].alignment)
  {
    var n := |slots| - 1;
    var before := Offsets(header, slots[..n]);
    if i < n {
      OffsetsPacked(header, slots[..n], i, x);
    } else if n == 0 {
      LeastAligned(slots[0].alignment, 0, header, x);
    } else {
      LeastAligned(slots[n].alignment, before[n - 1], slots[n - 1].size, x);
    }
  }

  lemma {:induction false} AlignmentOccurs(initial: nat, slots: seq<Slot>)
    ensures MaxAlignment(initial, slots) == initial
        || exists i :: 0 <= i < |slots| && slots[i].alignment == MaxAlignment(initial, slots)
  {
    if slots != [] {
      var n := |slots| - 1;
      AlignmentOccurs(initial, slots[..n]);
      if MaxAlignment(initial, slots) != initial && MaxAlignment(initial, slots) != slots[n].alignment {
        var i :| 0 <= i < n && slots[..n][i].alignment == MaxAlignment(initial, slots[..n]);
        assert slots[i].alignment == MaxAlignment(initial, slots);
      }
    }
  }

  lemma {:induction false} AlignmentCovers(initial: nat, slots: seq<Slot>, i: nat)
    requires i < |slots|
    ensures slots[i].alignment <= MaxAlignment(initial, slots) && initial <= MaxAlignment(initial, slots[..0])
        <= MaxAlignment(initial, slots)
  {
    var n := |slots| - 1;
    if i < n {
      AlignmentCovers(initial, slots[..n], i);
      assert slots[..n][..0] == slots[..0];
    } else if n > 0 {
      AlignmentCovers(initial, slots[..n], 0);
      assert slots[..n][..0] == slots[..0];
    } else {
      assert slots[..0] == [];
    }
  }

  /** A layout in which nothing overlaps and everything is aligned and inside. */
  ghost predicate WellLaid(header: nat, slots: seq<Slot>, offsets: seq<nat>, size: nat) {
    && |offsets| == |slots|
    && (forall i :: 0 <= i < |slots| ==> slots[i].alignment > 0 && offsets[i] % slots[i].alignment == 0)
    && (forall i :: 0 <= i < |slots| ==> header <= offsets[i] && offsets[i] + slots[i].size <= size)
    && forall i, j :: 0 <= i < j < |slots| ==> offsets[i] + slots[i].size <= offsets[j]
  }

  /** No property could begin earlier. */
  ghost predicate Packed(header: nat, slots: seq<Slot>, offsets: seq<nat>)
    requires |offsets| == |slots| && Sound(slots)
  {
    forall i, x: nat :: 0 <= i < |slots| && Earliest(header, slots, offsets, i) <= x < offsets[i] ==>
      !Aligned(x, slots[i].alignment)
  }

  /** The alignment of a struct: that of its type or of one of its properties, and no less than any of them. */
  ghost predicate Strictest(initial: nat, slots: seq<Slot>, alignment: nat) {
    && initial <= alignment && (forall i :: 0 <= i < |slots| ==> slots[i].alignment <= alignment)
    && (alignment == initial || exists i :: 0 <= i < |slots| && slots[i].alignment == alignment)
  }

  lemma AllPacked(header: nat, slots: seq<Slot>)
    requires Sound(slots)
    ensures Packed(header, slots, Offsets(header, slots))
  {
    forall i, x: nat | 0 <= i < |slots|
        && Earliest(header, slots, Offsets(header, slots), i) <= x < Offsets(header, slots)[i]
      ensures !Aligned(x, slots[i].alignment)
    {
      OffsetsPacked(header, slots, i, x);
    }
  }

  lemma IsStrictest(initial: nat, slots: seq<Slot>)
    ensures Strictest(initial, slots, MaxAlignment(initial, slots))
  {
    AlignmentOccurs(initial, slots);
    forall i | 0 <= i < |slots|
      ensures slots[i].alignment <= MaxAlignment(initial, slots)
    {
      AlignmentCovers(initial, slots, i);
    }
    if slots != [] {
      AlignmentCovers(initial, slots, 0);
    }
  }

  /** The layout computed for a descriptor; the struct as a whole ends on its own alignment. */
  method ComputeLayout(header: nat, structAlignment: nat, slots: seq<Slot>)
    returns (offsets: seq<nat>, alignment: nat, size: nat)
    requires Sound(slots) && slots != [] && structAlignment > 0
    ensures offsets == Offsets(header, slots) && alignment == MaxAlignment(structAlignment, slots)
    ensures WellLaid(header, slots, offsets, size) && alignment > 0 && size % alignment == 0
    ensures Packed(header, slots, offsets) && Strictest(structAlignment, slots, alignment)
    ensures forall x: nat :: offsets[|slots| - 1] + slots[|slots| - 1].size <= x < size ==> x % alignment != 0
  {
    offsets, alignment := [], structAlignment;
    var n := 0;
    while n < |slots|
      invariant n <= |slots| && offsets == Offsets(header, slots[..n])
      invariant alignment == MaxAlignment(structAlignment, slots[..n]) && alignment > 0
    {
      assert slots[..n + 1][..n] == slots[..n];
      offsets := offsets + [if n == 0 then CalculateOffset(slots[0].alignment, 0, header)
        else CalculateOffset(slots[n].alignment, offsets[n - 1], slots[n - 1].size)];
      alignment := if slots[n].alignment > alignment then slots[n].alignment else alignment;
      n := n + 1;
    }
    assert slots[..n] == slots;
    size := CalculateOffset(alignment, offsets[n - 1], slots[n - 1].size);
    LayoutFits(header, slots, alignment, size);
    AllPacked(header, slots);
    IsStrictest(structAlignment, slots);
    forall x: nat | offsets[n - 1] + slots[n - 1].size <= x < size
      ensures x % alignment != 0
    {
      LeastAligned(alignment, offsets[n - 1], slots[n - 1].size, x);
    }
  }

  lemma LayoutFits(header: nat, slots: seq<Slot>, alignment: nat, size: nat)
    requires Sound(slots) && slots != [] && alignment > 0
    requires size == CalculateOffset(alignment, Offsets(header, slots)[|slots| - 1], slots[|slots| - 1].size)
    ensures WellLaid(header, slots, Offsets(header, slots), size) && size % alignment == 0
  {
    hide Offsets, CalculateOffset;
    var n := |slots| - 1;
    LeastAligned(alignment, Offsets(header, slots)[n], slots[n].size, 0);
    forall i | 0 <= i < |slots|
      ensures Offsets(header, slots)[i] % slots[i].alignment == 0 && header <= Offsets(header, slots)[i]
          && Offsets(header, slots)[i] + slots[i].size <= size
    {
      OffsetsAligned(header, slots, i);
      if i < n {
        OffsetsOrdered(header, slots, i, n);
      }
    }
    forall i, j | 0 <= i < j < |slots|
      ensures Offsets(header, slots)[i] + slots[i].size <= Offsets(header, slots)[j]
    {
      OffsetsOrdered(header, slots, i, j);
    }
  }

  // ----- Paths through nested structs -----

  // One property on a path: its offset, and where the property area of its value begins.
  datatype Hop = Hop(offset: nat, subArea: nat)

  /** The address reached from an area by visiting one sub-property after the other. */
  function Walk(area: nat, path: seq<Hop>): nat
    requires path != []
    decreases |path|
  {
    if |path| == 1 then area + path[0].offset else Walk(area + path[0].offset + path[0].subArea, path[1..])
  }

  lemma {:induction false} WalkShifts(area: nat, path: seq<Hop>)
    requires path != []
    ensures Walk(area, path) == area + Walk(0, path)
    decreases |path|
  {
    if |path| > 1 {
      WalkShifts(area + path[0].offset + path[0].subArea, path[1..]);
      WalkShifts(path[0].offset + path[0].subArea, path[1..]);
    }
  }

  /** The flat offset of a path is the address that walking it reaches. */
  method PathOffset(path: seq<Hop>) returns (offset: nat)
    requires path != []
    ensures forall area: nat :: area + offset == Walk(area, path)
  {
    offset := 0;
    var i := 0;
    assert path[0..] == path;
    while i < |path| - 1
      invariant 0 <= i < |path|
      invariant Walk(0, path) == offset + Walk(0, path[i..])
    {
      assert path[i..][1..] == path[i + 1..] && path[i..][0] == path[i];
      WalkShifts(path[i].offset + path[i].subArea, path[i + 1..]);
      offset := offset + path[i].offset;
      offset := offset + path[i].subArea;
      i := i + 1;
    }
    offset := offset + path[|path| - 1].offset;
    forall area: nat
      ensures area + offset == Walk(area, path)
    {
      WalkShifts(area, path);
    }
  }

  // The valid properties of a struct, and of the structs in them.
  datatype Area = Area(valid: map<nat, Area>)

  function IsValid(area: Area, path: seq<nat>): bool {
    path == [] || (path[0] in area.valid && IsValid(area.valid[path[0]], path[1..]))
  }

  // Every struct on the way is emplaced if it has to be.
  function SetValid(area: Area, path: seq<nat>): Area
    decreases |path|
  {
    if path == [] then area
    else Area(area.valid[path[0] := SetValid(if path[0] in area.valid then area.valid[path[0]] else Area(map[]),
      path[1..])])
  }

  function SetInvalid(area: Area, path: seq<nat>): Area
    requires path != [] && IsValid(area, path)
    decreases |path|
  {
    if |path| == 1 then Area(area.valid - {path[0]})
    else Area(area.valid[path[0] := SetInvalid(area.valid[path[0]], path[1..])])
  }

  /** Setting a path makes it and what leads to it valid, and nothing else. */
  lemma {:induction false} SetValidExact(area: Area, path: seq<nat>, other: seq<nat>)
    ensures IsValid(SetValid(area, path), other) <==> IsValid(area, other) || other <= path
    decreases |path|
  {
    if path != [] && other != [] && other[0] == path[0] {
      var sub := if path[0] in area.valid then area.valid[path[0]] else Area(map[]);
      SetValidExact(sub, path[1..], other[1..]);
      assert other <= path <==> other[1..] <= path[1..] by {
        PrefixTail(other, path);
      }
    }
  }

  lemma PrefixTail(a: seq<nat>, b: seq<nat>)
    requires a != [] && b != [] && a[0] == b[0]
    ensures a <= b <==> a[1..] <= b[1..]
  {
    if a[1..] <= b[1..] {
      assert a == [a[0]] + a[1..] && b == [b[0]] + b[1..];
      forall i | 0 <= i < |a|
        ensures i < |b| && a[i] == b[i]
      {
        if i > 0 {
          assert a[i] == a[1..][i - 1] == b[1..][i - 1] == b[i];
        }
      }
    }
  }

  /** Resetting a valid path takes away it and everything below, and nothing else. */
  lemma {:induction false} SetInvalidExact(area: Area, path: seq<nat>, other: seq<nat>)
    requires path != [] && IsValid(area, path)
    ensures IsValid(SetInvalid(area, path), other) <==> IsValid(area, other) && !(path <= other)
    decreases |path|
  {
    if other != [] && other[0] == path[0] {
      PrefixTail(path, other);
      if |path| > 1 {
        SetInvalidExact(area.valid[path[0]], path[1..], other[1..]);
      } else {
        assert path[1..] == [];
      }
    }
  }
}
