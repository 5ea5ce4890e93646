/**
 * The restartable 3-D cursor of the arena builder (RegionIterator).
 *
 * The cursor walks an axis-aligned box with z varying fastest, then x, then
 * y. Its behaviour is first given as a pure step function on a `Cursor`
 * value; the class `RegionIterator` keeps the same state in mutable fields
 * and each of its methods is proved to perform exactly that step.
 *
 * The exact-count and visit-once properties are proved through a linear
 * index of a position inside the box: every step moves the index up by one,
 * and the index is a bijection between the box and [0, Volume).
 */
module Region {

  datatype Coord = Coord(x: int, y: int, z: int)

  /** The two corners given to the constructor, unchanged for the cursor's lifetime. */
  datatype Box = Box(min: Coord, max: Coord)

  /** The mutable part of a cursor: its position and the done flag. */
  datatype Cursor = Cursor(pos: Coord, done: bool)

  /** State right after construction or reset. */
  function Start(b: Box): Cursor
  {
    Cursor(b.min, false)
  }

  /** One call of update(): advance z, carrying into x, then into y; a y overflow sets done. */
  function Step(b: Box, c: Cursor): Cursor
  {
    if c.done then c
    else if c.pos.z + 1 <= b.max.z then Cursor(Coord(c.pos.x, c.pos.y, c.pos.z + 1), false)
    else if c.pos.x + 1 <= b.max.x then Cursor(Coord(c.pos.x + 1, c.pos.y, b.min.z), false)
    else if c.pos.y + 1 <= b.max.y then Cursor(Coord(b.min.x, c.pos.y + 1, b.min.z), false)
    else Cursor(b.min, true)
  }

  /** n successive calls of update(). */
  function Steps(b: Box, c: Cursor, n: nat): Cursor
    decreases n
  {
    if n == 0 then c else Steps(b, Step(b, c), n - 1)
  }

  predicate WellFormed(b: Box)
  {
    b.min.x <= b.max.x && b.min.y <= b.max.y && b.min.z <= b.max.z
  }

  predicate InBox(b: Box, p: Coord)
  {
    b.min.x <= p.x <= b.max.x && b.min.y <= p.y <= b.max.y && b.min.z <= p.z <= b.max.z
  }

  function SizeX(b: Box): int { b.max.x - b.min.x + 1 }
  function SizeY(b: Box): int { b.max.y - b.min.y + 1 }
  function SizeZ(b: Box): int { b.max.z - b.min.z + 1 }

  /** Number of positions of a well-formed box. */
  function Volume(b: Box): nat
    requires WellFormed(b)
  {
    SizeY(b) * SizeX(b) * SizeZ(b)
  }

  /** Position of p in scan order (z fastest, then x, then y). */
  function Index(b: Box, p: Coord): int
  {
    ((p.y - b.min.y) * SizeX(b) + (p.x - b.min.x)) * SizeZ(b) + (p.z - b.min.z)
  }

  /** The state the cursor keeps between calls: done cursors sit on the min corner, others inside the box. */
  predicate Consistent(b: Box, c: Cursor)
  {
    if c.done then c.pos == b.min else InBox(b, c.pos)
  }

  // ---------------------------------------------------------------------
  // Arithmetic helpers for the linear index
  // ---------------------------------------------------------------------

  lemma Distribute(a: int, b: int, d: int)
    ensures (a + b) * d == a * d + b * d
  {
  }

  lemma MulNonNegative(u: int, v: int)
    requires u >= 0 && v >= 0
    ensures u * v >= 0
  {
  }

  /** a * d + r with 0 <= r < d determines a and r. */
  lemma MixedRadixUnique(a: int, r: int, a': int, r': int, d: int)
    requires 0 <= r < d && 0 <= r' < d
    requires a * d + r == a' * d + r'
    ensures a == a' && r == r'
  {
    if a < a' {
      Distribute(a + 1, a' - a - 1, d);
      Distribute(a, 1, d);
      MulNonNegative(a' - a - 1, d);
    } else if a' < a {
      Distribute(a' + 1, a - a' - 1, d);
      Distribute(a', 1, d);
      MulNonNegative(a - a' - 1, d);
    }
  }

  /** 0 <= a < n and 0 <= r < d give 0 <= a * d + r < n * d. */
  lemma MixedRadixBound(a: int, r: int, n: int, d: int)
    requires 0 <= a < n && 0 <= r < d
    ensures 0 <= a * d + r < n * d
  {
    Distribute(a + 1, n - a - 1, d);
    Distribute(a, 1, d);
    MulNonNegative(n - a - 1, d);
    MulNonNegative(a, d);
  }

  lemma IndexBounds(b: Box, p: Coord)
    requires WellFormed(b) && InBox(b, p)
    ensures 0 <= Index(b, p) < Volume(b)
  {
    MixedRadixBound(p.y - b.min.y, p.x - b.min.x, SizeY(b), SizeX(b));
    MixedRadixBound((p.y - b.min.y) * SizeX(b) + (p.x - b.min.x), p.z - b.min.z,
                    SizeY(b) * SizeX(b), SizeZ(b));
  }

  /** Distinct positions of the box have distinct scan indices. */
  lemma IndexInjective(b: Box, p: Coord, q: Coord)
    requires WellFormed(b) && InBox(b, p) && InBox(b, q)
    requires Index(b, p) == Index(b, q)
    ensures p == q
  {
    MixedRadixUnique((p.y - b.min.y) * SizeX(b) + (p.x - b.min.x), p.z - b.min.z,
                     (q.y - b.min.y) * SizeX(b) + (q.x - b.min.x), q.z - b.min.z, SizeZ(b));
    MixedRadixUnique(p.y - b.min.y, p.x - b.min.x, q.y - b.min.y, q.x - b.min.x, SizeX(b));
  }

  /** Carrying z into x moves the index up by one. */
  lemma CarryIntoX(b: Box, p: Coord)
    requires WellFormed(b) && InBox(b, p) && p.z == b.max.z && p.x + 1 <= b.max.x
    ensures Index(b, Coord(p.x + 1, p.y, b.min.z)) == Index(b, p) + 1
  {
    Distribute((p.y - b.min.y) * SizeX(b) + (p.x - b.min.x), 1, SizeZ(b));
  }

  /** Carrying x into y moves the index up by one. */
  lemma CarryIntoY(b: Box, p: Coord)
    requires WellFormed(b) && InBox(b, p) && p.z == b.max.z && p.x == b.max.x && p.y + 1 <= b.max.y
    ensures Index(b, Coord(b.min.x, p.y + 1, b.min.z)) == Index(b, p) + 1
  {
    var ya := p.y - b.min.y;
    Distribute(ya, 1, SizeX(b));
    Distribute(ya * SizeX(b) + (p.x - b.min.x), 1, SizeZ(b));
  }

  /** The max corner is the last index. */
  lemma LastIndex(b: Box, p: Coord)
    requires WellFormed(b) && p == b.max
    ensures Index(b, p) == Volume(b) - 1
  {
    Distribute(SizeY(b) - 1, 1, SizeX(b));
    Distribute(SizeY(b) * SizeX(b) - 1, 1, SizeZ(b));
  }

  /** One update() from a live position either reaches the next index or, from the last one, finishes. */
  lemma StepAdvancesIndex(b: Box, c: Cursor)
    requires WellFormed(b) && !c.done && InBox(b, c.pos)
    ensures Index(b, c.pos) == Volume(b) - 1 ==> Step(b, c) == Cursor(b.min, true)
    ensures Index(b, c.pos) < Volume(b) - 1 ==>
              !Step(b, c).done && InBox(b, Step(b, c).pos) && Index(b, Step(b, c).pos) == Index(b, c.pos) + 1
  {
    var p := c.pos;
    IndexBounds(b, p);
    var s := Step(b, c);
    if p.z + 1 <= b.max.z {
    } else if p.x + 1 <= b.max.x {
      CarryIntoX(b, p);
    } else if p.y + 1 <= b.max.y {
      CarryIntoY(b, p);
    } else {
      LastIndex(b, p);
    }
    if !s.done {
      IndexBounds(b, s.pos);
    }
  }

  // ---------------------------------------------------------------------
  // Properties of the scan
  // ---------------------------------------------------------------------

  /** Consistency is established by reset and kept by update() on a well-formed box. */
  lemma StepKeepsConsistent(b: Box, c: Cursor)
    requires WellFormed(b) && Consistent(b, c)
    ensures Consistent(b, Step(b, c))
    ensures Step(b, c).done ==> Step(b, c).pos == b.min
  {
  }

  /** Updates on a finished cursor change nothing, however many there are. */
  lemma {:induction false} StepsWhenDone(b: Box, c: Cursor, n: nat)
    requires c.done
    ensures Steps(b, c, n) == c
  {
    if n > 0 {
      StepsWhenDone(b, Step(b, c), n - 1);
    }
  }

  lemma {:induction false} StepsSplit(b: Box, c: Cursor, m: nat, n: nat)
    decreases m
    ensures Steps(b, c, m + n) == Steps(b, Steps(b, c, m), n)
  {
    if m > 0 {
      StepsSplit(b, Step(b, c), m - 1, n);
    }
  }

  /** The k-th position of a fresh scan is the box position whose index is k. */
  lemma {:induction false} ScanPosition(b: Box, k: nat)
    requires WellFormed(b) && k < Volume(b)
    ensures !Steps(b, Start(b), k).done
    ensures InBox(b, Steps(b, Start(b), k).pos)
    ensures Index(b, Steps(b, Start(b), k).pos) == k
  {
    if k > 0 {
      ScanPosition(b, k - 1);
      StepsSplit(b, Start(b), k - 1, 1);
      StepAdvancesIndex(b, Steps(b, Start(b), k - 1));
    }
  }

  /**
   * A fresh cursor is not done after fewer than Volume updates and is done,
   * back on the min corner, after exactly Volume updates.
   */
  lemma ScanLength(b: Box, k: nat)
    requires WellFormed(b)
    ensures k < Volume(b) ==> !Steps(b, Start(b), k).done
    ensures k >= Volume(b) ==> Steps(b, Start(b), k) == Cursor(b.min, true)
  {
    if k < Volume(b) {
      ScanPosition(b, k);
    } else {
      var v := Volume(b);
      ScanPosition(b, v - 1);
      StepsSplit(b, Start(b), v - 1, 1);
      StepAdvancesIndex(b, Steps(b, Start(b), v - 1));
      StepsSplit(b, Start(b), v, k - v);
      StepsWhenDone(b, Steps(b, Start(b), v), k - v);
    }
  }

  /** Every position of the box is visited by a fresh scan: at the update count given by its index. */
  lemma ScanCoversBox(b: Box, p: Coord)
    requires WellFormed(b) && InBox(b, p)
    ensures 0 <= Index(b, p) < Volume(b)
    ensures Steps(b, Start(b), Index(b, p)) == Cursor(p, false)
  {
    IndexBounds(b, p);
    var k := Index(b, p);
    ScanPosition(b, k);
    IndexInjective(b, p, Steps(b, Start(b), k).pos);
  }

  /** A fresh scan never visits the same position twice before it is done. */
  lemma ScanNoRepeat(b: Box, i: nat, j: nat)
    requires WellFormed(b) && i < j < Volume(b)
    ensures Steps(b, Start(b), i).pos != Steps(b, Start(b), j).pos
  {
    ScanPosition(b, i);
    ScanPosition(b, j);
  }

  /** `done` is set only by a y overflow: a cursor over a malformed box is live, outside its box, after construction. */
  lemma MalformedStartNotDone(b: Box)
    requires !WellFormed(b)
    ensures !Start(b).done && !InBox(b, Start(b).pos)
  {
  }

  // ---------------------------------------------------------------------
  // The mutable cursor
  // ---------------------------------------------------------------------

  class RegionIterator {
    const bounds: Box
    var x: int
    var y: int
    var z: int
    var done: bool

    /** The cursor value the fields stand for. */
    function State(): Cursor
      reads this
    {
      Cursor(Coord(x, y, z), done)
    }

    constructor (minX: int, minY: int, minZ: int, maxX: int, maxY: int, maxZ: int)
      ensures bounds == Box(Coord(minX, minY, minZ), Coord(maxX, maxY, maxZ))
      ensures State() == Start(bounds)
    {
      bounds := Box(Coord(minX, minY, minZ), Coord(maxX, maxY, maxZ));
      x, y, z := minX, minY, minZ;
      done := false;
    }

    method Reset()
      modifies this
      ensures State() == Start(bounds)
    {
      x := bounds.min.x;
      y := bounds.min.y;
      z := bounds.min.z;
      done := false;
    }

    method Update()
      modifies this
      ensures State() == Step(bounds, old(State()))
    {
      if done {
        return;
      }
      z := z + 1;
      if z > bounds.max.z {
        z := bounds.min.z;
        x := x + 1;
        if x > bounds.max.x {
          x := bounds.min.x;
          y := y + 1;
          if y > bounds.max.y {
            y := bounds.min.y;
            done := true;
          }
        }
      }
    }

    function GetX(): int reads this { x }
    function GetY(): int reads this { y }
    function GetZ(): int reads this { z }
    function IsDone(): bool reads this { done }

    function GetMinX(): int { bounds.min.x }
    function GetMaxX(): int { bounds.max.x }
    function GetMinY(): int { bounds.min.y }
    function GetMaxY(): int { bounds.max.y }
    function GetMinZ(): int { bounds.min.z }
    function GetMaxZ(): int { bounds.max.z }
  }
}
