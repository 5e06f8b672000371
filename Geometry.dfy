/**
 * Box geometry of masker_v2.py: `dist`, `aspect_ratio`, `ar_check` and
 * `neighbouring_boxes`. Coordinates are integers, so every comparison that the
 * source makes between a length ratio and a decimal constant is decided here
 * exactly, on squared lengths, without square roots.
 */
module Geometry {

  datatype Point = Point(x: int, y: int)

  /** A detector box; corners P0..P3 in the detector's order
      (top-left, top-right, bottom-right, bottom-left). */
  datatype Quad = Quad(p0: Point, p1: Point, p2: Point, p3: Point)

  /** `dist(a, b)` squared; `dist` itself is the square root of this. */
  function SquaredDist(a: Point, b: Point): (d: nat)
    ensures d == 0 <==> a == b
  {
    var dx, dy := a.x - b.x, a.y - b.y;
    assert dx * dx >= 0 && dy * dy >= 0;
    assert dx * dx + dy * dy == 0 ==> dx == 0 && dy == 0 by {
      if dx != 0 { assert dx * dx > 0; }
      if dy != 0 { assert dy * dy > 0; }
    }
    dx * dx + dy * dy
  }

  /**
   * `aspect_ratio`: ar = |P0P1| / |P1P2|, carried as the two squared lengths,
   * ar = sqrt(top) / sqrt(side). A zero `side` is numpy's division by zero:
   * ar is +inf when `top` is positive and nan when it is zero too.
   */
  datatype SquaredRatio = SquaredRatio(top: nat, side: nat)

  function AspectRatio(q: Quad): (ar: SquaredRatio)
    ensures ar.side == 0 <==> q.p1 == q.p2
    ensures ar.top == 0 <==> q.p0 == q.p1
  {
    SquaredRatio(SquaredDist(q.p0, q.p1), SquaredDist(q.p1, q.p2))
  }

  /**
   * `ar_check`: 1.65 <= ar <= 5.75. With ar = sqrt(top) / sqrt(side) and both
   * sides non-negative this is 1.65^2 * side <= top <= 5.75^2 * side, scaled
   * by 10000. inf fails the upper bound and nan fails both.
   */
  function ArCheck(ar: SquaredRatio): (ok: bool)
    ensures ok ==> ar.side > 0 && ar.top > 0
  {
    ar.side > 0 && 27225 * ar.side <= 10000 * ar.top && 10000 * ar.top <= 330625 * ar.side
  }

  /**
   * The exact reading of `ar_check(aspect_ratio(...))`: for any real lengths
   * whose squares are the squared edge lengths, the gate accepts iff their
   * quotient lies in [1.65, 5.75].
   */
  lemma ArCheckMeansRatioInRange(ar: SquaredRatio, top: real, side: real)
    requires top >= 0.0 && Sq(top) == ar.top as real
    requires side > 0.0 && Sq(side) == ar.side as real
    ensures ArCheck(ar) <==> 1.65 <= top / side <= 5.75
  {
    QuotientBounds(top, side, 1.65);
    QuotientBounds(top, side, 5.75);
    assert Sq(1.65) == 2.7225 && Sq(5.75) == 33.0625;
    PositiveSquare(side);
  }

  /** A box whose P1P2 edge has length zero never passes the gate. */
  lemma DegenerateBoxRejected(q: Quad)
    requires q.p1 == q.p2
    ensures !ArCheck(AspectRatio(q))
  {
  }

  function Abs(n: int): nat {
    if n < 0 then -n else n
  }

  /**
   * `neighbouring_boxes(b1, b2)`: the top-left corners differ vertically by at
   * most 0.75 * |P0P3| and horizontally by at most 1.35 * |P0P1|, both
   * lengths measured on `b1`. Squared: 16 dy^2 <= 9 |P0P3|^2 and
   * 400 dx^2 <= 729 |P0P1|^2.
   */
  function Neighbouring(b1: Quad, b2: Quad): (adjacent: bool)
    ensures b1.p0 == b2.p0 ==> adjacent
  {
    var dy, dx := b1.p0.y - b2.p0.y, b1.p0.x - b2.p0.x;
    16 * (dy * dy) <= 9 * SquaredDist(b1.p0, b1.p3) && 400 * (dx * dx) <= 729 * SquaredDist(b1.p0, b1.p1)
  }

  /** The exact reading of `neighbouring_boxes` over real edge lengths of `b1`. */
  lemma NeighbouringMeansWithinTolerance(b1: Quad, b2: Quad, v: real, h: real)
    requires v >= 0.0 && Sq(v) == SquaredDist(b1.p0, b1.p3) as real
    requires h >= 0.0 && Sq(h) == SquaredDist(b1.p0, b1.p1) as real
    ensures Neighbouring(b1, b2) <==>
              (Abs(b1.p0.y - b2.p0.y) as real <= 0.75 * v && Abs(b1.p0.x - b2.p0.x) as real <= 1.35 * h)
  {
    OffsetWithinTolerance(b1.p0.y - b2.p0.y, v, SquaredDist(b1.p0, b1.p3), 0.75, 16, 9);
    OffsetWithinTolerance(b1.p0.x - b2.p0.x, h, SquaredDist(b1.p0, b1.p1), 1.35, 400, 729);
  }

  /**
   * One axis of `neighbouring_boxes`: with k^2 = b / a, the squared test
   * a d^2 <= b len^2 says |d| <= k * len.
   */
  lemma OffsetWithinTolerance(d: int, len: real, sqLen: nat, k: real, a: nat, b: nat)
    requires len >= 0.0 && Sq(len) == sqLen as real
    requires k >= 0.0 && a > 0 && Sq(k) * (a as real) == b as real
    ensures a * (d * d) <= b * sqLen <==> Abs(d) as real <= k * len
  {
    SquareMonotone(Abs(d) as real, k * len);
    SquareOfInt(d);
    assert Sq(k * len) == Sq(k) * Sq(len);
    var lhs, rhs := (d * d) as real, Sq(k) * Sq(len);
    ScalePositive(lhs, rhs, a as real);
    assert rhs * (a as real) == (b * sqLen) as real;
    assert lhs * (a as real) == (a * (d * d)) as real;
  }

  /**
   * The tolerances come from the first box only, so the relation is not
   * symmetric: a wide box reaches a tiny one whose corner lies 100 pixels to
   * its right, but not the other way round.
   */
  lemma NeighbouringNotSymmetric()
    ensures var wide := Quad(Point(0, 0), Point(100, 0), Point(100, 20), Point(0, 20));
            var tiny := Quad(Point(100, 0), Point(101, 0), Point(101, 1), Point(100, 1));
            Neighbouring(wide, tiny) && !Neighbouring(tiny, wide)
  {
  }

  /** The square of a real length. */
  function Sq(x: real): real {
    x * x
  }

  /** Scaling both sides by a positive factor keeps their order. */
  lemma ScalePositive(x: real, y: real, k: real)
    requires k > 0.0
    ensures x <= y <==> x * k <= y * k
  {
    if x <= y {
      var d := (y - x) * k;
      assert d >= 0.0;
      assert y * k == x * k + d;
    } else {
      var d := (x - y) * k;
      assert d > 0.0;
      assert x * k == y * k + d;
    }
  }

  /** For non-negative reals, comparing squares compares the numbers. */
  lemma SquareMonotone(a: real, b: real)
    requires a >= 0.0 && b >= 0.0
    ensures a <= b <==> Sq(a) <= Sq(b)
  {
    if a <= b {
      calc {
        a * a;
      <= a * b;
      <= b * b;
      }
    } else {
      calc {
        b * b;
      <= a * b;
      < a * a;
      }
    }
  }

  lemma PositiveSquare(x: real)
    requires x > 0.0
    ensures Sq(x) > 0.0
  {
    calc {
      Sq(x);
    == x * x;
    > 0.0;
    }
  }

  /**
   * For lengths top >= 0 and side > 0 and a bound c >= 0, comparing the
   * quotient top / side with c is comparing Sq(top) with Sq(c) * Sq(side).
   */
  lemma QuotientBounds(top: real, side: real, c: real)
    requires top >= 0.0 && side > 0.0 && c >= 0.0
    ensures c <= top / side <==> Sq(c) * Sq(side) <= Sq(top)
    ensures top / side <= c <==> Sq(top) <= Sq(c) * Sq(side)
  {
    var r := top / side;
    assert r >= 0.0;
    assert r * side == top;
    assert Sq(r) * Sq(side) == Sq(top) by {
      calc {
        (r * r) * (side * side);
      == (r * side) * (r * side);
      == top * top;
      }
    }
    PositiveSquare(side);
    SquareMonotone(c, r);
    SquareMonotone(r, c);
    ScalePositive(Sq(c), Sq(r), Sq(side));
    ScalePositive(Sq(r), Sq(c), Sq(side));
  }

  /** An integer difference squared, read as a real. */
  lemma SquareOfInt(i: int)
    ensures Sq(Abs(i) as real) == (i * i) as real
  {
  }
}
