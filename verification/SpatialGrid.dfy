/**
 The spatial grid over the background nodes: nodes are bucketed by cell, and the nearest node is
 searched only in the cells that the radius can reach.
 */
module SpatialGrid {
  import opened Text
  import opened Windows

  datatype Node = Node(x: real, y: real)

  const ROW := 4096

  function Cell(v: real, size: real): int
    requires size > 0.0
  {
    (v / size).Floor
  }

  function GridKey(x: real, y: real, size: real): int
    requires size > 0.0
  {
    Cell(x, size) * ROW + Cell(y, size)
  }

  function Ceil(v: real): int {
    if v == v.Floor as real then v.Floor else v.Floor + 1
  }

  function Square(v: real): real {
    v * v
  }

  function Distance2(n: Node, px: real, py: real): real {
    Square(n.x - px) + Square(n.y - py)
  }

  function Bucket(grid: map<int, seq<Node>>, key: int): seq<Node> {
    if key in grid then grid[key] else []
  }

  function WithKey(key: int, size: real): Node -> bool
    requires size > 0.0
  {
    (n: Node) => GridKey(n.x, n.y, size) == key
  }

  /** Each bucket holds exactly the nodes with its key, in their order. */
  ghost predicate IsGridOf(grid: map<int, seq<Node>>, nodes: seq<Node>, size: real) {
    size > 0.0 && forall key :: Bucket(grid, key) == Filter(nodes, WithKey(key, size))
  }

  // ---------------------------------------------------------------- what the search can reach

  lemma SquareBelow(v: real, m: real)
    requires m >= 0.0 && Square(v) < Square(m)
    ensures -m < v < m
  {
    if v >= m {
      SquareRises(m, v);
    } else if v <= -m {
      SquareRises(m, -v);
    }
  }

  lemma SquareRises(a: real, b: real)
    requires 0.0 <= a <= b
    ensures Square(a) <= Square(b) == Square(-b)
  {
    assert a * a <= b * a <= b * b;
  }

  lemma SquareNonnegative(v: real)
    ensures Square(v) >= 0.0
  {
  }

  lemma DivideBelow(a: real, b: real, m: real, size: real)
    requires size > 0.0 && a < b + m
    ensures a / size < b / size + m / size
  {
    assert b / size + m / size - a / size == (b + m - a) / size > 0.0;
  }

  /** A coordinate closer than `m` lies at most `Ceil(m / size)` cells away. */
  lemma CellWithin(a: real, b: real, m: real, size: real)
    requires size > 0.0 && b - m < a < b + m
    ensures Cell(b, size) - Ceil(m / size) <= Cell(a, size) <= Cell(b, size) + Ceil(m / size)
  {
    DivideBelow(a, b, m, size);
    DivideBelow(b, a, m, size);
  }

  lemma NodeWithin(n: Node, px: real, py: real, m: real, size: real)
    requires size > 0.0 && m >= 0.0 && Distance2(n, px, py) < Square(m)
    ensures var reach := Ceil(m / size);
            && Cell(px, size) - reach <= Cell(n.x, size) <= Cell(px, size) + reach
            && Cell(py, size) - reach <= Cell(n.y, size) <= Cell(py, size) + reach
  {
    SquareNonnegative(n.x - px);
    SquareNonnegative(n.y - py);
    hide Cell, Ceil;
    SquareBelow(n.x - px, m);
    SquareBelow(n.y - py, m);
    hide Square;
    CellWithin(n.x, px, m, size);
    CellWithin(n.y, py, m, size);
  }

  /** Different cells can share a key, so a bucket may hold nodes from far away. */
  lemma KeysCollide(size: real, gx: int, gy: int, a: Node, b: Node)
    requires size > 0.0 && Cell(a.x, size) == gx && Cell(a.y, size) == gy
    requires Cell(b.x, size) == gx + 1
    ensures GridKey(a.x, a.y, size) == GridKey(b.x, b.y, size) <==> Cell(b.y, size) == gy - 4096
  {
  }

  /** What a scan of every node would answer. */
  ghost predicate IsNearest(best: Option<Node>, nodes: seq<Node>, px: real, py: real, m: real) {
    match best
    case None => forall n :: n in nodes ==> Distance2(n, px, py) >= Square(m)
    case Some(b) =>
      b in nodes && Distance2(b, px, py) < Square(m) && forall n :: n in nodes ==> Distance2(b, px, py) <= Distance2(n, px, py)
  }

  /** The distance that a further node has to beat. */
  function ToBeat(best: Option<Node>, px: real, py: real, m: real): real {
    if best.None? then Square(m) else Distance2(best.value, px, py)
  }

  class BackgroundGrid {
    var gridCell: real
    var grid: map<int, seq<Node>>
    ghost var nodes: seq<Node>

    ghost predicate Valid() reads this {
      IsGridOf(grid, nodes, gridCell)
    }

    constructor (size: real)
      requires size > 0.0
      ensures Valid() && nodes == [] && gridCell == size
    {
      gridCell, grid, nodes := size, map[], [];
    }

    method Build(background: seq<Node>, size: real)
      requires size > 0.0
      modifies this
      ensures Valid() && nodes == background && gridCell == size
    {
      gridCell, grid, nodes := size, map[], [];
      for i := 0 to |background|
        invariant Valid() && gridCell == size && nodes == background[..i]
      {
        Push(background[i]);
        assert background[..i + 1] == background[..i] + [background[i]];
      }
      assert background[..|background|] == background;
    }

    method Push(n: Node)
      requires Valid()
      modifies this`grid, this`nodes
      ensures Valid() && nodes == old(nodes) + [n]
    {
      var key := GridKey(n.x, n.y, gridCell);
      ghost var before := grid;
      if key in grid {
        grid := grid[key := grid[key] + [n]];
      } else {
        grid := grid[key := [n]];
      }
      nodes := nodes + [n];
      forall k ensures Bucket(grid, k) == Filter(nodes, WithKey(k, gridCell)) {
        assert Bucket(before, k) == Filter(old(nodes), WithKey(k, gridCell));
        FilterConcat(old(nodes), [n], WithKey(k, gridCell));
      }
    }

    /** The search box of cells answers exactly as a scan of every node, for every radius. */
    method NearestNode(px: real, py: real, maxD: real) returns (best: Option<Node>)
      requires Valid()
      ensures maxD >= 0.0 ==> IsNearest(best, nodes, px, py, maxD)
      ensures best.Some? ==> best.value in nodes && Distance2(best.value, px, py) < Square(maxD)
    {
      assert gridCell > 0.0;
      hide GridKey, IsGridOf, Cell, Ceil, Square, Distance2;
      best := None;
      var bd := Square(maxD);
      var reach, cx, cy := Ceil(maxD / gridCell), Cell(px, gridCell), Cell(py, gridCell);
      var gx := cx - reach;
      while gx <= cx + reach
        invariant bd == ToBeat(best, px, py, maxD)
        invariant best.Some? ==> best.value in nodes && bd < Square(maxD)
        invariant Passed(nodes, gridCell, px, py, bd, cx - reach, gx, cy - reach, cy + reach)
      {
        var gy := cy - reach;
        while gy <= cy + reach
          invariant bd == ToBeat(best, px, py, maxD)
          invariant best.Some? ==> best.value in nodes && bd < Square(maxD)
          invariant Passed(nodes, gridCell, px, py, bd, cx - reach, gx, cy - reach, cy + reach)
          invariant Passed(nodes, gridCell, px, py, bd, gx, gx + 1, cy - reach, gy - 1)
        {
          best, bd := ScanBucket(gx * ROW + gy, px, py, maxD, best, bd, gx, gy);
          gy := gy + 1;
        }
        gx := gx + 1;
      }
      if maxD >= 0.0 {
        forall n | n in nodes && Distance2(n, px, py) < Square(maxD) ensures bd <= Distance2(n, px, py) {
          NodeWithin(n, px, py, maxD, gridCell);
        }
      }
    }

    method ScanBucket(key: int, px: real, py: real, ghost m: real, from: Option<Node>, fromD: real, ghost gx: int, ghost gy: int)
      returns (best: Option<Node>, bd: real)
      requires Valid() && key == gx * ROW + gy
      requires fromD == ToBeat(from, px, py, m) && (from.Some? ==> from.value in nodes && fromD < Square(m))
      ensures bd == ToBeat(best, px, py, m) && bd <= fromD && (best.Some? ==> best.value in nodes && bd < Square(m))
      ensures Passed(nodes, gridCell, px, py, bd, gx, gx + 1, gy, gy)
    {
      hide Square, Distance2;
      best, bd := from, fromD;
      FilterMembers(nodes, WithKey(key, gridCell));
      var cell := Bucket(grid, key);
      for i := 0 to |cell|
        invariant bd == ToBeat(best, px, py, m) && bd <= fromD && (best.Some? ==> best.value in nodes && bd < Square(m))
        invariant forall k :: 0 <= k < i ==> bd <= Distance2(cell[k], px, py)
      {
        var d := Distance2(cell[i], px, py);
        assert cell[i] in cell;
        if d < bd {
          bd := d;
          best := Some(cell[i]);
        }
      }
    }
  }

  /** No node in these cells is nearer than `bd`. */
  ghost predicate Passed(nodes: seq<Node>, size: real, px: real, py: real, bd: real, x0: int, x1: int, y0: int, y1: int)
  {
    size > 0.0 &&
    forall n :: n in nodes && x0 <= Cell(n.x, size) < x1 && y0 <= Cell(n.y, size) <= y1 ==> bd <= Distance2(n, px, py)
  }
}
