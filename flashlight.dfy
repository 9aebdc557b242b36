/** The client's view geometry: the facing direction, the one-cell step the `m` key predicts,
    the flashlight cone of `getVisibleBlocks`, and the 3x3 neighbourhood drawn around every
    player while positions are revealed. */
module Flashlight {
  import opened Grid

  /** `gameState.direction`: the client only ever stores one of these four strings. */
  datatype Facing = Up | Down | Left | Right

  /** The string the client stores and sends to the server for a facing. */
  function DirName(d: Facing): string {
    match d
    case Up => "up"
    case Down => "down"
    case Left => "left"
    case Right => "right"
  }

  const FlashlightRange: int := 2

  /** The cell one step ahead of `o`, clamped to the `size` by `size` grid. */
  function StepAhead(o: Cell, d: Facing, size: int): Cell {
    match d
    case Up => Cell(o.x, Max(0, o.y - 1))
    case Down => Cell(o.x, Min(size - 1, o.y + 1))
    case Left => Cell(Max(0, o.x - 1), o.y)
    case Right => Cell(Min(size - 1, o.x + 1), o.y)
  }

  /** From inside the grid, a step stays inside it, moves along the facing axis only, and
      by at most one cell; it goes nowhere exactly at the edge the player faces. */
  lemma StepAheadStaysInGrid(o: Cell, d: Facing, size: int)
    requires InGrid(o, size)
    ensures InGrid(StepAhead(o, d, size), size)
    ensures StepAhead(o, d, size) == o || Beam(o, d, 1, 0) == StepAhead(o, d, size)
    ensures StepAhead(o, d, size) == o <==> !InGrid(Beam(o, d, 1, 0), size)
  {
  }

  /** Signed distance of `c` ahead of `o` along the facing axis. */
  function Ahead(o: Cell, d: Facing, c: Cell): int {
    match d
    case Up => o.y - c.y
    case Down => c.y - o.y
    case Left => o.x - c.x
    case Right => c.x - o.x
  }

  /** Signed offset of `c` from `o` across the facing axis. */
  function Across(o: Cell, d: Facing, c: Cell): int {
    match d
    case Up => c.x - o.x
    case Down => c.x - o.x
    case Left => c.y - o.y
    case Right => c.y - o.y
  }

  /** The candidate cell at depth `i` and side offset `j` of the beam. */
  function Beam(o: Cell, d: Facing, i: int, j: int): (c: Cell)
    ensures Ahead(o, d, c) == i && Across(o, d, c) == j
  {
    match d
    case Up => Cell(o.x + j, o.y - i)
    case Down => Cell(o.x + j, o.y + i)
    case Left => Cell(o.x - i, o.y + j)
    case Right => Cell(o.x + i, o.y + j)
  }

  /** The bounds test `getVisibleBlocks` applies to a candidate: only the side axis and the
      far edge in the facing direction are checked. */
  predicate Clipped(c: Cell, d: Facing, size: int) {
    match d
    case Up => 0 <= c.x < size && c.y >= 0
    case Down => 0 <= c.x < size && c.y < size
    case Left => 0 <= c.y < size && c.x >= 0
    case Right => 0 <= c.y < size && c.x < size
  }

  /** The beam cells the nested loops have added before reaching depth `i`, offset `j`. */
  function Swept(o: Cell, d: Facing, size: int, i: int, j: int): set<Cell> {
    set a: int, b: int | 1 <= a <= FlashlightRange && -1 <= b <= 1 && (a < i || (a == i && b < j))
                          && Clipped(Beam(o, d, a, b), d, size)
      :: Beam(o, d, a, b)
  }

  /** The flashlight cone: the player's own cell and the clipped beam. */
  function Cone(o: Cell, d: Facing, size: int): set<Cell> {
    {o} + Swept(o, d, size, FlashlightRange + 1, -1)
  }

  lemma SweptNext(o: Cell, d: Facing, size: int, i: int, j: int)
    requires 1 <= i <= FlashlightRange && -1 <= j <= 1
    ensures Swept(o, d, size, i, j + 1)
         == Swept(o, d, size, i, j) + (if Clipped(Beam(o, d, i, j), d, size) then {Beam(o, d, i, j)} else {})
  {
  }

  lemma SweptNextRow(o: Cell, d: Facing, size: int, i: int)
    requires 1 <= i <= FlashlightRange
    ensures Swept(o, d, size, i, 2) == Swept(o, d, size, i + 1, -1)
  {
  }

  /** Every cell of the cone other than the origin is one or two cells ahead and at most one
      cell to the side; nothing behind or level with the player is lit. */
  lemma ConeShape(o: Cell, d: Facing, size: int)
    ensures o in Cone(o, d, size)
    ensures forall c :: c in Cone(o, d, size) && c != o ==>
              1 <= Ahead(o, d, c) <= FlashlightRange && -1 <= Across(o, d, c) <= 1
  {
  }

  /** With the player inside the grid, the cone is exactly the origin and the in-grid cells one
      or two ahead with side offset at most one. */
  lemma {:induction false} ConeCharacterization(o: Cell, d: Facing, size: int, c: Cell)
    requires InGrid(o, size)
    ensures c in Cone(o, d, size) <==>
              c == o || (InGrid(c, size) && 1 <= Ahead(o, d, c) <= FlashlightRange && -1 <= Across(o, d, c) <= 1)
  {
    var i, j := Ahead(o, d, c), Across(o, d, c);
    if c != o && 1 <= i <= FlashlightRange && -1 <= j <= 1 {
      assert Beam(o, d, i, j) == c;
      assert InGrid(c, size) <==> Clipped(c, d, size);
    }
  }

  /** With the player inside the grid, every lit cell is inside the grid. */
  lemma ConeInGrid(o: Cell, d: Facing, size: int)
    requires InGrid(o, size)
    ensures forall c :: c in Cone(o, d, size) ==> InGrid(c, size)
  {
    forall c | c in Cone(o, d, size) ensures InGrid(c, size) {
      ConeCharacterization(o, d, size, c);
    }
  }

  /** The cone has at most seven cells: the origin and two bands of three. */
  lemma ConeSize(o: Cell, d: Facing, size: int)
    ensures |Cone(o, d, size)| <= 1 + 2 * 3
  {
    var beam := Swept(o, d, size, FlashlightRange + 1, -1);
    var near, far := Band(o, d, 1), Band(o, d, 2);
    BeamInBands(o, d, size);
    UnionCard(near, far);
    SubsetCard(beam, near + far);
    UnionCard({o}, beam);
  }

  lemma BeamInBands(o: Cell, d: Facing, size: int)
    ensures Swept(o, d, size, FlashlightRange + 1, -1) <= Band(o, d, 1) + Band(o, d, 2)
  {
    forall c | c in Swept(o, d, size, FlashlightRange + 1, -1)
      ensures c in Band(o, d, 1) + Band(o, d, 2)
    {
      var a: int, b: int :| 1 <= a <= FlashlightRange && -1 <= b <= 1 && c == Beam(o, d, a, b);
      assert c in Band(o, d, a);
    }
  }

  /** The three candidates at one depth. */
  function Band(o: Cell, d: Facing, i: int): (r: set<Cell>)
    ensures |r| <= 3
  {
    AddOneCard({Beam(o, d, i, -1)}, Beam(o, d, i, 0));
    AddOneCard({Beam(o, d, i, -1), Beam(o, d, i, 0)}, Beam(o, d, i, 1));
    {Beam(o, d, i, -1), Beam(o, d, i, 0), Beam(o, d, i, 1)}
  }

  lemma UnionCard<T>(a: set<T>, b: set<T>)
    ensures |a + b| <= |a| + |b|
  {
    assert |a + b| + |a * b| == |a| + |b|;
  }

  lemma AddOneCard<T>(s: set<T>, x: T)
    ensures |s + {x}| <= |s| + 1
  {
    if x in s {
      assert s + {x} == s;
    }
  }

  lemma SubsetCard<T>(a: set<T>, b: set<T>)
    requires a <= b
    ensures |a| <= |b|
  {
    assert b == a + (b - a);
  }

  /** The cells drawn around a player at `p` while positions are revealed: its 3x3
      neighbourhood, cut to the grid. */
  function Neighbourhood(p: Cell, size: int): set<Cell> {
    set x: int, y: int | p.x - 1 <= x <= p.x + 1 && p.y - 1 <= y <= p.y + 1 && InGrid(Cell(x, y), size)
      :: Cell(x, y)
  }

  /** The neighbourhood is exactly the in-grid cells at most one step away on each axis. */
  lemma NeighbourhoodMembers(p: Cell, size: int, c: Cell)
    ensures c in Neighbourhood(p, size) <==> InGrid(c, size) && Abs(c.x - p.x) <= 1 && Abs(c.y - p.y) <= 1
  {
    if InGrid(c, size) && Abs(c.x - p.x) <= 1 && Abs(c.y - p.y) <= 1 {
      assert Cell(c.x, c.y) == c;
    }
  }

}
