/** The per-player interest region `View` (feather/common/src/view.rs):
    its padded bounding box, the enumeration of its chunks, containment and
    the difference between two views. */
module ViewRegion {
  import opened Base

  // ---------------------------------------------------------------------
  // Boxes of chunks and their enumeration
  // ---------------------------------------------------------------------

  /** Number of integers in the inclusive range `lo..=hi` (zero if empty). */
  function Span(lo: int, hi: int): nat
  {
    if hi < lo then 0 else hi - lo + 1
  }

  /** The enumeration order of `iter`: x first, then z, both ascending. */
  predicate LexLess(a: ChunkPos, b: ChunkPos)
  {
    a.x < b.x || (a.x == b.x && a.z < b.z)
  }

  /** Every element comes strictly before every later one; in particular no
      chunk occurs twice. */
  predicate StrictlyAscending(s: seq<ChunkPos>)
  {
    forall i, j :: 0 <= i < j < |s| ==> LexLess(s[i], s[j])
  }

  /** The chunks of a sequence, as a set (what collecting into a hash set keeps). */
  function ChunkSet(s: seq<ChunkPos>): set<ChunkPos>
  {
    set c | c in s
  }

  /** The inner iterator of `iter_2d`: `(min_z..=max_z).map(|z| (x, z))`. */
  function Column(x: int, zLo: int, zHi: int): seq<ChunkPos>
    decreases zHi - zLo
  {
    if zHi < zLo then [] else [ChunkPos(x, zLo)] + Column(x, zLo + 1, zHi)
  }

  /** `iter_2d(min_x, min_z, max_x, max_z)`: `(min_x..=max_x).flat_map` of the columns. */
  function Iter2d(xLo: int, zLo: int, xHi: int, zHi: int): seq<ChunkPos>
    decreases xHi - xLo
  {
    if xHi < xLo then [] else Column(xLo, zLo, zHi) + Iter2d(xLo + 1, zLo, xHi, zHi)
  }

  lemma {:induction false} ColumnShape(x: int, zLo: int, zHi: int)
    ensures |Column(x, zLo, zHi)| == Span(zLo, zHi)
    ensures forall c :: c in Column(x, zLo, zHi) <==> c.x == x && zLo <= c.z <= zHi
    ensures StrictlyAscending(Column(x, zLo, zHi))
    decreases zHi - zLo
  {
    if zLo <= zHi {
      ColumnShape(x, zLo + 1, zHi);
      var rest := Column(x, zLo + 1, zHi);
      var s := Column(x, zLo, zHi);
      assert s == [ChunkPos(x, zLo)] + rest;
      forall i, j | 0 <= i < j < |s| ensures LexLess(s[i], s[j]) {
        assert s[j] == rest[j - 1] && s[j] in rest;
        if 0 < i {
          assert s[i] == rest[i - 1];
        }
      }
    }
  }

  /** Two strictly ascending sequences whose elements are all ordered before
      one another concatenate to a strictly ascending sequence. */
  lemma AppendAscending(a: seq<ChunkPos>, b: seq<ChunkPos>)
    requires StrictlyAscending(a) && StrictlyAscending(b)
    requires forall c, d :: c in a && d in b ==> LexLess(c, d)
    ensures StrictlyAscending(a + b)
  {
    var s := a + b;
    forall i, j | 0 <= i < j < |s| ensures LexLess(s[i], s[j]) {
      if j < |a| {
        assert s[i] == a[i] && s[j] == a[j];
      } else if i < |a| {
        assert s[i] == a[i] && a[i] in a;
        assert s[j] == b[j - |a|] && b[j - |a|] in b;
      } else {
        assert s[i] == b[i - |a|] && s[j] == b[j - |a|];
      }
    }
  }

  lemma {:induction false} Iter2dLength(xLo: int, zLo: int, xHi: int, zHi: int)
    ensures |Iter2d(xLo, zLo, xHi, zHi)| == Span(xLo, xHi) * Span(zLo, zHi)
    decreases xHi - xLo
  {
    if xLo <= xHi {
      Iter2dLength(xLo + 1, zLo, xHi, zHi);
      ColumnShape(xLo, zLo, zHi);
      var w, h := Span(xLo + 1, xHi), Span(zLo, zHi);
      assert Span(xLo, xHi) == 1 + w;
      assert (1 + w) * h == h + w * h;
    }
  }

  lemma {:induction false} Iter2dMembers(xLo: int, zLo: int, xHi: int, zHi: int)
    ensures forall c :: c in Iter2d(xLo, zLo, xHi, zHi) <==> xLo <= c.x <= xHi && zLo <= c.z <= zHi
    decreases xHi - xLo
  {
    if xLo <= xHi {
      Iter2dMembers(xLo + 1, zLo, xHi, zHi);
      ColumnShape(xLo, zLo, zHi);
    }
  }

  lemma {:induction false} Iter2dAscending(xLo: int, zLo: int, xHi: int, zHi: int)
    ensures StrictlyAscending(Iter2d(xLo, zLo, xHi, zHi))
    decreases xHi - xLo
  {
    if xLo <= xHi {
      Iter2dAscending(xLo + 1, zLo, xHi, zHi);
      Iter2dMembers(xLo + 1, zLo, xHi, zHi);
      ColumnShape(xLo, zLo, zHi);
      AppendAscending(Column(xLo, zLo, zHi), Iter2d(xLo + 1, zLo, xHi, zHi));
    }
  }

  /** `iter_2d` enumerates the inclusive box exactly once per chunk, x outer and
      z inner, both ascending, and yields width times height chunks. */
  lemma Iter2dShape(xLo: int, zLo: int, xHi: int, zHi: int)
    ensures |Iter2d(xLo, zLo, xHi, zHi)| == Span(xLo, xHi) * Span(zLo, zHi)
    ensures forall c :: c in Iter2d(xLo, zLo, xHi, zHi) <==> xLo <= c.x <= xHi && zLo <= c.z <= zHi
    ensures StrictlyAscending(Iter2d(xLo, zLo, xHi, zHi))
  {
    Iter2dLength(xLo, zLo, xHi, zHi);
    Iter2dMembers(xLo, zLo, xHi, zHi);
    Iter2dAscending(xLo, zLo, xHi, zHi);
  }

  /** The head of a non-empty sequence is one of its elements. Stated apart so
      that the branch of `AscendingUnique` where one sequence is empty needs no
      checked statement of its own. */
  lemma HeadIsMember(s: seq<ChunkPos>)
    ensures s != [] ==> s[0] in s
  {
  }

  /** In a strictly ascending sequence the head comes before every other element. */
  lemma HeadIsLeast(s: seq<ChunkPos>, c: ChunkPos)
    requires StrictlyAscending(s) && c in s
    ensures c == s[0] || LexLess(s[0], c)
  {
    var k :| 0 <= k < |s| && s[k] == c;
    if k > 0 {
      assert LexLess(s[0], s[k]);
    }
  }

  /** The enumeration order is well defined: a strictly ascending sequence is
      determined by its elements. */
  lemma {:induction false} AscendingUnique(s: seq<ChunkPos>, t: seq<ChunkPos>)
    requires StrictlyAscending(s) && StrictlyAscending(t)
    requires forall c :: c in s <==> c in t
    ensures s == t
    decreases |s|
  {
    if s != [] && t != [] {
      assert s == [s[0]] + s[1..];
      assert t == [t[0]] + t[1..];
      HeadIsLeast(s, t[0]);
      HeadIsLeast(t, s[0]);
      assert s[0] == t[0];
      forall c ensures c in s[1..] <==> c in t[1..] {
        if c in s {
          HeadIsLeast(s, c);
        }
        if c in t {
          HeadIsLeast(t, c);
        }
      }
      AscendingUnique(s[1..], t[1..]);
    } else {
      HeadIsMember(s);
      HeadIsMember(t);
    }
  }

  /** A sequence without repetitions has as many distinct chunks as elements. */
  lemma {:induction false} AscendingCard(s: seq<ChunkPos>)
    requires StrictlyAscending(s)
    ensures |ChunkSet(s)| == |s|
    decreases |s|
  {
    if s != [] {
      var tail := s[1..];
      assert StrictlyAscending(tail) by {
        forall i, j | 0 <= i < j < |tail| ensures LexLess(tail[i], tail[j]) {
          assert tail[i] == s[i + 1] && tail[j] == s[j + 1];
        }
      }
      AscendingCard(tail);
      assert s == [s[0]] + tail;
      assert ChunkSet(s) == {s[0]} + ChunkSet(tail);
      assert s[0] !in ChunkSet(tail) by {
        forall k | 0 <= k < |tail| ensures tail[k] != s[0] {
          assert LexLess(s[0], s[k + 1]);
        }
      }
    }
  }

  // ---------------------------------------------------------------------
  // The View value
  // ---------------------------------------------------------------------

  /** `View`: a center chunk, a view distance, a world and a dimension.
      The getters `center`, `view_distance`, `world` and `dimension` are the
      datatype's destructors. */
  datatype View = View(center: ChunkPos, viewDistance: u32, world: WorldId, dimension: Dimension)
  {
    /** `is_empty`: decided by the distance alone, not by the box. */
    predicate IsEmpty()
    {
      viewDistance == 0
    }

    /** The padded bounds: one chunk beyond the view distance on every side. */
    function MinX(): int { center.x - viewDistance - 1 }
    function MinZ(): int { center.z - viewDistance - 1 }
    function MaxX(): int { center.x + viewDistance + 1 }
    function MaxZ(): int { center.z + viewDistance + 1 }

    /** `contains`: a purely geometric test against the padded box. */
    predicate Contains(pos: ChunkPos)
    {
      pos.x >= MinX() && pos.x <= MaxX() && pos.z >= MinZ() && pos.z <= MaxZ()
    }

    /** `iter`: nothing for the empty view, otherwise `iter_2d` over the box. */
    function Iter(): seq<ChunkPos>
    {
      if IsEmpty() then [] else Iter2d(MinX(), MinZ(), MaxX(), MaxZ())
    }

    /** `difference`: all of this view's chunks when the world or the dimension
        differ, otherwise the set difference of the two enumerations. */
    function Difference(other: View): set<ChunkPos>
    {
      if dimension != other.dimension || world != other.world then
        ChunkSet(Iter())
      else
        ChunkSet(Iter()) - ChunkSet(other.Iter())
    }

    /** `set_center`, as the View it leaves behind. */
    function SetCenter(c: ChunkPos): View
    {
      this.(center := c)
    }

    /** `set_view_distance`, as the View it leaves behind. */
    function SetViewDistance(d: u32): View
    {
      this.(viewDistance := d)
    }
  }

  /** `View::new`: no validation; the view keeps exactly what it is given. */
  function New(center: ChunkPos, viewDistance: u32, world: WorldId, dimension: Dimension): View
  {
    View(center, viewDistance, world, dimension)
  }

  /** `View::empty`: centered on (0, 0) with distance 0; it is empty and
      enumerates nothing. */
  function Empty(world: WorldId, dimension: Dimension): (v: View)
    ensures v.center == ChunkPos(0, 0) && v.viewDistance == 0
    ensures v.world == world && v.dimension == dimension
    ensures v.IsEmpty() && v.Iter() == []
  {
    New(ChunkPos(0, 0), 0, world, dimension)
  }

  // ---------------------------------------------------------------------
  // Properties of a View
  // ---------------------------------------------------------------------

  /** A view is empty exactly when its distance is zero; a non-empty view is
      never reported empty. */
  lemma EmptyIffZeroDistance(v: View)
    ensures v.IsEmpty() <==> v.viewDistance == 0
    ensures Empty(v.world, v.dimension).IsEmpty()
    ensures v.viewDistance > 0 ==> v != Empty(v.world, v.dimension)
  {
  }

  /** Replacing a view's center by `View::new` with its own distance, world and
      dimension is `set_center`. */
  lemma NewIsSetCenter(v: View, c: ChunkPos)
    ensures New(c, v.viewDistance, v.world, v.dimension) == v.SetCenter(c)
    ensures v.SetCenter(v.center) == v
  {
  }

  /** The setters: each changes its own field only, the later of two writes
      wins, the two setters commute, recentering translates the box, and the
      new distance alone decides emptiness. */
  lemma SetterLaws(v: View, c: ChunkPos, c2: ChunkPos, d: u32, p: ChunkPos)
    ensures v.SetCenter(c).center == c && v.SetCenter(c).viewDistance == v.viewDistance
    ensures v.SetCenter(c).world == v.world && v.SetCenter(c).dimension == v.dimension
    ensures v.SetViewDistance(d).viewDistance == d && v.SetViewDistance(d).center == v.center
    ensures v.SetViewDistance(d).world == v.world && v.SetViewDistance(d).dimension == v.dimension
    ensures v.SetCenter(c).SetCenter(c2) == v.SetCenter(c2)
    ensures v.SetCenter(c).SetViewDistance(d) == v.SetViewDistance(d).SetCenter(c)
    ensures v.SetCenter(c).Contains(p) <==>
      v.Contains(ChunkPos(p.x - c.x + v.center.x, p.z - c.z + v.center.z))
    ensures v.SetViewDistance(d).IsEmpty() <==> d == 0
  {
  }

  /** The box spans `2r + 3` chunks on each axis and is centered on `center`. */
  lemma BoxSpan(v: View)
    ensures v.MaxX() - v.MinX() + 1 == 2 * v.viewDistance + 3
    ensures v.MaxZ() - v.MinZ() + 1 == 2 * v.viewDistance + 3
    ensures v.MinX() + v.MaxX() == 2 * v.center.x && v.MinZ() + v.MaxZ() == 2 * v.center.z
  {
  }

  function Abs(n: int): nat { if n < 0 then -n else n }

  /** Containment as distance: a chunk is in the box exactly when it is at most
      `r + 1` away from the center on both axes (whether or not the view is empty). */
  lemma ContainsWithinPaddedRadius(v: View, p: ChunkPos)
    ensures v.Contains(p) <==>
      Abs(p.x - v.center.x) <= v.viewDistance + 1 && Abs(p.z - v.center.z) <= v.viewDistance + 1
  {
  }

  /** The empty view enumerates nothing, yet its box is the 3x3 square around
      the origin; `contains` does not consult `is_empty`. */
  lemma EmptyViewBox(w: WorldId, d: Dimension, p: ChunkPos)
    ensures Empty(w, d).Iter() == []
    ensures Empty(w, d).Contains(p) <==> -1 <= p.x <= 1 && -1 <= p.z <= 1
  {
  }

  /** A chunk is enumerated by `iter` exactly when the view is not empty and
      contains it. */
  lemma IterMembership(v: View, c: ChunkPos)
    ensures c in v.Iter() <==> !v.IsEmpty() && v.Contains(c)
  {
    Iter2dShape(v.MinX(), v.MinZ(), v.MaxX(), v.MaxZ());
  }

  /** `iter` yields each chunk at most once, in ascending (x, z) order. */
  lemma IterAscending(v: View)
    ensures StrictlyAscending(v.Iter())
    ensures forall i, j :: 0 <= i < j < |v.Iter()| ==> v.Iter()[i] != v.Iter()[j]
  {
    Iter2dShape(v.MinX(), v.MinZ(), v.MaxX(), v.MaxZ());
  }

  /** `iter` yields nothing for an empty view and `(2r + 3)^2` chunks otherwise,
      all distinct. */
  lemma IterCount(v: View)
    ensures |v.Iter()| == if v.IsEmpty() then 0 else (2 * v.viewDistance + 3) * (2 * v.viewDistance + 3)
    ensures |ChunkSet(v.Iter())| == |v.Iter()|
  {
    if !v.IsEmpty() {
      Iter2dLength(v.MinX(), v.MinZ(), v.MaxX(), v.MaxZ());
      var side := 2 * v.viewDistance + 3;
      assert Span(v.MinX(), v.MaxX()) == side && Span(v.MinZ(), v.MaxZ()) == side;
    }
    IterAscending(v);
    AscendingCard(v.Iter());
  }

  /** `iter` is THE ascending enumeration of the box: any strictly ascending
      sequence holding exactly the chunks the view contains equals it. */
  lemma IterIsOrderedBox(v: View, s: seq<ChunkPos>)
    requires !v.IsEmpty()
    requires StrictlyAscending(s)
    requires forall c :: c in s <==> v.Contains(c)
    ensures s == v.Iter()
  {
    Iter2dShape(v.MinX(), v.MinZ(), v.MaxX(), v.MaxZ());
    AscendingUnique(s, v.Iter());
  }

  // ---------------------------------------------------------------------
  // Properties of difference
  // ---------------------------------------------------------------------

  predicate SameSpace(a: View, b: View)
  {
    a.world == b.world && a.dimension == b.dimension
  }

  /** Across worlds or dimensions the difference is every chunk of `a`,
      however the coordinates overlap. */
  lemma DifferenceAcrossSpaces(a: View, b: View)
    requires !SameSpace(a, b)
    ensures a.Difference(b) == ChunkSet(a.Iter())
    ensures |a.Difference(b)| == |a.Iter()|
    ensures forall c :: c in a.Difference(b) <==> !a.IsEmpty() && a.Contains(c)
  {
    IterCount(a);
    forall c ensures c in a.Difference(b) <==> !a.IsEmpty() && a.Contains(c) {
      IterMembership(a, c);
    }
  }

  /** Within one world and dimension the difference is the chunks `a` covers
      that `b` does not cover. */
  lemma DifferenceWithinSpace(a: View, b: View, c: ChunkPos)
    requires SameSpace(a, b)
    ensures c in a.Difference(b) <==> c in a.Iter() && c !in b.Iter()
    ensures c in a.Difference(b) <==>
      (!a.IsEmpty() && a.Contains(c)) && !(!b.IsEmpty() && b.Contains(c))
  {
    IterMembership(a, c);
    IterMembership(b, c);
  }

  /** A view has nothing that it does not have itself. */
  lemma DifferenceSelf(a: View)
    ensures a.Difference(a) == {}
  {
  }

  /** Against the empty view of its own world and dimension, a view's
      difference is all of its chunks; the empty view's difference against
      anything is empty. */
  lemma DifferenceWithEmpty(v: View)
    ensures v.Difference(Empty(v.world, v.dimension)) == ChunkSet(v.Iter())
    ensures Empty(v.world, v.dimension).Difference(v) == {}
  {
    assert Empty(v.world, v.dimension).Iter() == [];
  }

  /** Difference is a true set complement: the two differences and the common
      chunks partition the union, and `a.difference(b)` shares nothing with `b`. */
  lemma DifferencePartition(a: View, b: View)
    requires SameSpace(a, b)
    ensures a.Difference(b) + b.Difference(a) + (ChunkSet(a.Iter()) * ChunkSet(b.Iter()))
         == ChunkSet(a.Iter()) + ChunkSet(b.Iter())
    ensures a.Difference(b) * ChunkSet(b.Iter()) == {}
    ensures a.Difference(b) * b.Difference(a) == {}
  {
  }

  /** Moving one chunk towards +x (same world, dimension and distance): the
      chunks gained are the column at the new `max_x`, the chunks lost the
      column at the old `min_x`, each over the full z-span. */
  lemma StepEastDifference(a: View)
    requires !a.IsEmpty()
    ensures var b := a.SetCenter(ChunkPos(a.center.x + 1, a.center.z));
      b.Difference(a) == ChunkSet(Column(b.MaxX(), b.MinZ(), b.MaxZ())) &&
      a.Difference(b) == ChunkSet(Column(a.MinX(), a.MinZ(), a.MaxZ()))
  {
    var b := a.SetCenter(ChunkPos(a.center.x + 1, a.center.z));
    ColumnShape(b.MaxX(), b.MinZ(), b.MaxZ());
    ColumnShape(a.MinX(), a.MinZ(), a.MaxZ());
    forall c ensures c in b.Difference(a) <==> c in ChunkSet(Column(b.MaxX(), b.MinZ(), b.MaxZ())) {
      DifferenceWithinSpace(b, a, c);
    }
    forall c ensures c in a.Difference(b) <==> c in ChunkSet(Column(a.MinX(), a.MinZ(), a.MaxZ())) {
      DifferenceWithinSpace(a, b, c);
    }
  }
}
