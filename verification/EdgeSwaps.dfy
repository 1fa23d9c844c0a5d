/** When an edge of a pass trades resonances, which two, and how much of them. */
module EdgeSwaps {
  import opened Prelude
  import opened Bands
  import opened Flow
  import opened Transport
  import opened EdgeAmounts

  // ----- the trade -----

  /** The units of a resonance a mixture would hold if it were mixed as its baseline says. */
  function DueShare(mixture: Six, baseline: Six, r: nat): nat
    requires r < 6
  {
    Sum6(mixture) * baseline[r] / 255
  }

  /** `units` of `p` in the first cell, and as many of `q` in the second, are each too many where they are and too few
      where they would go. */
  predicate Helps(a: Six, baseA: Six, b: Six, baseB: Six, p: nat, q: nat, units: nat)
    requires p < 6 && q < 6
  {
    && DueShare(a, baseA, p) + units <= a[p] && b[p] + units <= DueShare(b, baseB, p)
    && DueShare(b, baseB, q) + units <= b[q] && a[q] + units <= DueShare(a, baseA, q)
  }

  lemma ScoreHelps(a: Six, baseA: Six, b: Six, baseB: Six, p: nat, q: nat, units: nat)
    requires p < 6 && q < 6 && p != q
    ensures Helps(a, baseA, b, baseB, p, q, units) <==> units <= SwapScore(a, baseA, b, baseB, p, q)
  {
    hide Sum6;
  }

  /** No trade before the chosen one is as good. */
  lemma {:induction false} EarliestIsBest(a: Six, baseA: Six, b: Six, baseB: Six, k: nat, j: nat)
    requires k <= 36 && BestSwap(a, baseA, b, baseB, k).Some?
    ensures var best := BestSwap(a, baseA, b, baseB, k).value;
            j < 6 * best.fromA + best.fromB ==>
              j / 6 < 6 && SwapScore(a, baseA, b, baseB, j / 6, j % 6) < best.score
  {
    hide SwapScore;
    BestSwapIsBest(a, baseA, b, baseB, k - 1);
    if BestSwap(a, baseA, b, baseB, k) == BestSwap(a, baseA, b, baseB, k - 1) {
      EarliestIsBest(a, baseA, b, baseB, k - 1, j);
    }
  }

  /** A trade is made exactly when some trade of one unit helps both cells. It is one that helps with the most units,
      and the first of them, by the resonance given and then the one taken. */
  lemma BestTrade(a: Six, baseA: Six, b: Six, baseB: Six)
    ensures var best := BestSwap(a, baseA, b, baseB, 36);
            && (best.Some? <==> exists p: nat, q: nat :: p < 6 && q < 6 && p != q && Helps(a, baseA, b, baseB, p, q, 1))
            && (best.Some? ==>
                  var Swap(score, fromA, fromB) := best.value;
                  && fromA < 6 && fromB < 6 && fromA != fromB
                  && 0 < score && Helps(a, baseA, b, baseB, fromA, fromB, score)
                  && forall p: nat, q: nat, units: nat | p < 6 && q < 6 && p != q
                                                         && Helps(a, baseA, b, baseB, p, q, units) ::
                       units <= score && (units == score ==> 6 * fromA + fromB <= 6 * p + q))
  {
    var best := BestSwap(a, baseA, b, baseB, 36);
    BestSwapIsBest(a, baseA, b, baseB, 36);
    hide Helps, SwapScore;
    forall p: nat, q: nat, units: nat | p < 6 && q < 6 && p != q && Helps(a, baseA, b, baseB, p, q, units)
      ensures units <= ScoreOf(best)
      ensures best.Some? && units == best.value.score ==> 6 * best.value.fromA + best.value.fromB <= 6 * p + q
    {
      var j := 6 * p + q;
      assert j / 6 == p && j % 6 == q;
      ScoreHelps(a, baseA, b, baseB, p, q, units);
      if best.Some? {
        EarliestIsBest(a, baseA, b, baseB, 36, j);
      }
    }
    if best.Some? {
      ScoreHelps(a, baseA, b, baseB, best.value.fromA, best.value.fromB, best.value.score);
      ScoreHelps(a, baseA, b, baseB, best.value.fromA, best.value.fromB, 1);
      assert Helps(a, baseA, b, baseB, best.value.fromA, best.value.fromB, 1);
    }
  }

  // ----- the rotation and the gate -----

  /** Bit `k` of a number, from the lowest. */
  predicate Bit(n: nat, k: nat)
    decreases k
  {
    if k == 0 then n % 2 == 1 else Bit(n / 2, k - 1)
  }

  /** The exclusive or sets the bits in which its arguments differ. */
  lemma {:induction false} XorBits(a: nat, b: nat, k: nat)
    ensures Bit(Xor(a, b), k) <==> Bit(a, k) != Bit(b, k)
    decreases k
  {
    if k > 0 && (a != 0 || b != 0) {
      XorBits(a / 2, b / 2, k - 1);
      assert Xor(a, b) / 2 == Xor(a / 2, b / 2);
    }
    if a == 0 && b == 0 {
      NoBits(k);
    }
  }

  lemma {:induction false} NoBits(k: nat)
    ensures !Bit(0, k)
    decreases k
  {
    if k > 0 {
      NoBits(k - 1);
    }
  }

  // ----- the edge -----

  /** The ambient bands alike, or traded. */
  ghost predicate AmbientAlike(before: seq<Delta>, after: seq<Delta>) {
    |after| == |before| && forall i, b | 0 <= i < |before| && 6 <= b < 12 :: after[i][b] == before[i][b]
  }

  ghost predicate AmbientTraded(before: seq<Delta>, after: seq<Delta>, first: nat, second: nat, swap: Swap, units: nat)
    requires swap.fromA < 6 && swap.fromB < 6
  {
    && |after| == |before|
    && forall i, b | 0 <= i < |before| && 6 <= b < 12 ::
         after[i][b] == before[i][b]
                        + (if (i == first && b == 6 + swap.fromB) || (i == second && b == 6 + swap.fromA)
                           then units as int else 0)
                        - (if (i == first && b == 6 + swap.fromA) || (i == second && b == 6 + swap.fromB)
                           then units as int else 0)
  }

  /** What may follow a flow: nothing on a poor edge, at a closed gate or without a trade that helps both, otherwise the
      best trade, at most one unit and one more for every 500 of conductance, as far as both bands still hold it. */
  ghost predicate MayTrade(planet: Planet, cells: seq<Cell>, step: nat, mid: seq<Delta>, after: seq<Delta>, first: nat,
                           second: nat, c: nat)
    requires |planet.controls| == |cells| == |mid| && first < |cells| && second < |cells|
  {
    var best := BestSwap(cells[first].ambient, planet.controls[first].baseline, cells[second].ambient,
                         planet.controls[second].baseline, 36);
    if c < 64 || !planet.gate(step % 0x1_0000_0000, Xor(first, second)) || best.None? then AmbientAlike(mid, after)
    else
      && best.value.fromA < 6 && best.value.fromB < 6
      && AmbientTraded(mid, after, first, second, best.value,
                       Max(Min(Min(best.value.score, 1 + c / 500),
                               Min(Available(cells, mid, first, 6 + best.value.fromA),
                                   Available(cells, mid, second, 6 + best.value.fromB))), 0))
  }

  /** An edge of a pass, resonance by resonance: the units given run down the gradient, and exactly when any did, a
      trade may follow. */
  lemma EdgeTrades(planet: Planet, cells: seq<Cell>, step: nat, work: Work, index: nat, direction: Direction)
    returns (shares: Six, given: Six, mid: seq<Delta>)
    requires SoundFlux(cells, work.delta) && |planet.controls| == |cells| == |work.delta|
    requires index < planet.step(index, direction).0 < |cells|
    ensures var other, c := planet.step(index, direction).0, Conductance(planet, index, direction);
            var way := Way(planet, cells, index, other, AMBIENT);
            var after := EdgeFlux(planet, cells, step, work, index, direction).delta;
            && Given(cells, work.delta, way.0, FlowDue(cells, way.0, way.1, c, 16, work.remainder), shares, given)
            && Moves(work.delta, mid, way.0, way.1, given) && |mid| == |cells|
            && if Sum6(given) == 0 then AmbientAlike(mid, after)
               else MayTrade(planet, cells, step, mid, after, index, other, c)
  {
    hide *;
    var other, c := planet.step(index, direction).0, Conductance(planet, index, direction);
    ConductanceIs(planet, index, direction);
    var way := Way(planet, cells, index, other, AMBIENT);
    var course := Course(way.0, way.1, c, 16, index + other);
    AmbientWayIs(planet, cells, index, other, c);
    shares, given := PourMoves(cells, work, way.0, way.1, c, 16, index + other);
    PourSound(cells, work, way.0, way.1, c, 16, index + other);
    mid := Pour(cells, work, way.0, way.1, c, 16, index + other).delta;
    SoundLength(cells, mid);
    var half := AmbientEdge(planet, cells, step, work, index, other, c);
    SwapsWhenMoved(planet, cells, step, work, index, other, c, course);
    AmbientEdgeSound(planet, cells, step, work, index, other, c);
    var after := EdgeFlux(planet, cells, step, work, index, direction).delta;
    DrossLeavesAmbient(planet, cells, step, work, index, direction, half);
    if Sum6(given) == 0 {
      assert half.delta == mid;
    } else {
      assert half.delta == SwapFlux(planet, cells, step, mid, index, other, c);
      SwapMoves(planet, cells, step, mid, index, other, c);
      TradeThenAlike(planet, cells, step, mid, half.delta, after, index, other, c);
    }
  }

  /** The swap follows exactly a flow that moved something. */
  lemma SwapsWhenMoved(planet: Planet, cells: seq<Cell>, step: nat, work: Work, index: nat, other: nat, c: nat,
                       course: Course)
    requires |work.delta| == |cells| == |planet.controls| && index < |cells| && other < |cells|
    requires course == AmbientCourse(planet, cells, index, other, c)
    ensures var poured := Pour(cells, work, course.from, course.to, course.conductivity, course.divisor,
                               course.rotation);
            var units := PouredUnits(cells, work, course.from, course.to, course.conductivity, course.divisor,
                                     course.rotation);
            var half := AmbientEdge(planet, cells, step, work, index, other, c);
            && (units == 0 ==> half.delta == poured.delta)
            && (units != 0 ==> half.delta == SwapFlux(planet, cells, step, poured.delta, index, other, c))
  {
    hide Pour, PouredUnits, SwapFlux, AmbientCourse;
  }

  /** The dross half of an edge leaves ambient bands alone. */
  lemma DrossLeavesAmbient(planet: Planet, cells: seq<Cell>, step: nat, work: Work, index: nat, direction: Direction,
                           half: Work)
    requires SoundFlux(cells, work.delta) && |planet.controls| == |cells| == |work.delta|
    requires index < planet.step(index, direction).0 < |cells|
    requires var other, c := planet.step(index, direction).0, Conductance(planet, index, direction);
             half == AmbientEdge(planet, cells, step, work, index, other, c)
    ensures AmbientAlike(half.delta, EdgeFlux(planet, cells, step, work, index, direction).delta)
  {
    hide *;
    var other, c := planet.step(index, direction).0, Conductance(planet, index, direction);
    ConductanceIs(planet, index, direction);
    AmbientEdgeSound(planet, cells, step, work, index, other, c);
    DrossWayIs(planet, cells, index, other, c);
    var d := DrossConductance(planet, index, other, c);
    var way := Way(planet, cells, index, other, DROSS);
    EdgeIs(planet, cells, step, work, index, direction, Course(way.0, way.1, d, 96, Xor(index, other)));
    var shares, foul := PourMoves(cells, half, way.0, way.1, d, 96, Xor(index, other));
    DrossOnly(half.delta, EdgeFlux(planet, cells, step, work, index, direction).delta, way.0, way.1, foul);
  }

  lemma DrossOnly(before: seq<Delta>, after: seq<Delta>, from: Side, to: Side, foul: Six)
    requires Moves(before, after, from, to, foul) && from.band == to.band == DROSS
    ensures AmbientAlike(before, after)
  {
  }

  lemma TradeThenAlike(planet: Planet, cells: seq<Cell>, step: nat, mid: seq<Delta>, half: seq<Delta>,
                       after: seq<Delta>, first: nat, second: nat, c: nat)
    requires |planet.controls| == |cells| == |mid| && first < |cells| && second < |cells|
    requires AmbientAlike(half, after)
    requires var best := BestSwap(cells[first].ambient, planet.controls[first].baseline, cells[second].ambient,
                                  planet.controls[second].baseline, 36);
             if c < 64 || !planet.gate(step % 0x1_0000_0000, Xor(first, second)) || best.None? then half == mid
             else
               && best.value.fromA < 6 && best.value.fromB < 6
               && Trades(mid, half, first, second, best.value,
                         Max(Min(Min(best.value.score, 1 + c / 500),
                                 Min(Available(cells, mid, first, 6 + best.value.fromA),
                                     Available(cells, mid, second, 6 + best.value.fromB))), 0))
    ensures MayTrade(planet, cells, step, mid, after, first, second, c)
  {
    hide BestSwap, Available, Xor, Min, Max;
  }
}
