/** One edge of the planetary Current: how much flows, and which bands it is taken from. */
module Flow {
  import opened Prelude
  import opened Bands

  const FIXED_ONE: nat := 1_000_000

  datatype Flux = Flux(moved: nat, remainder: int)

  // ----- bounded flow -----

  /** The excess of the steeper side, in capacity-weighted cross products. */
  function Excess(source: nat, sourceCapacity: nat, target: nat, targetCapacity: nat): int {
    source * targetCapacity - target * sourceCapacity
  }

  function FixedFlow(excess: nat, widest: nat, conductivity: nat, divisor: nat, carried: int): nat
    requires 0 < widest
  {
    FlowRate(excess, widest, conductivity, divisor) + Max(carried, 0)
  }

  function FlowRate(excess: nat, widest: nat, conductivity: nat, divisor: nat): nat
    requires 0 < widest
  {
    excess * conductivity * FIXED_ONE / 1_000 / (widest * Max(divisor, 1))
  }

  function FluxOf(source: nat, sourceCapacity: nat, target: nat, targetCapacity: nat,
                  conductivity: nat, divisor: nat, remainder: int): Flux
  {
    var excess := Excess(source, sourceCapacity, target, targetCapacity);
    var widest := Max(sourceCapacity, targetCapacity);
    if excess <= 0 || source == 0 then Flux(0, remainder)
    else if excess <= widest * 4 then Flux(0, 0)
    else
      WidestPositive(source, sourceCapacity, target, targetCapacity);
      var fixed := FixedFlow(excess, widest, conductivity, divisor, remainder);
      var raw := fixed / FIXED_ONE;
      var capped := Min(Min(raw, source / 8 + 1), U16_MAX);
      Flux(capped, if capped == raw then fixed % FIXED_ONE else 0)
  }

  lemma WidestPositive(source: nat, sourceCapacity: nat, target: nat, targetCapacity: nat)
    requires Excess(source, sourceCapacity, target, targetCapacity) > 0
    ensures Max(sourceCapacity, targetCapacity) > 0
  {
    Monotone(target, 0, sourceCapacity);
    assert targetCapacity == 0 ==> source * targetCapacity == 0;
  }

  /** The flow over one edge never exceeds the source and never reverses the gradient it follows; the
      remainder stays a proper fraction of a unit. */
  method BoundedFlow(source: nat, sourceCapacity: nat, target: nat, targetCapacity: nat,
                     conductivity: nat, divisor: nat, remainder: int)
    returns (moved: nat, left: int)
    ensures Flux(moved, left)
            == FluxOf(source, sourceCapacity, target, targetCapacity, conductivity, divisor, remainder)
    ensures moved <= source && moved <= U16_MAX
    ensures 0 <= remainder < FIXED_ONE ==> 0 <= left < FIXED_ONE
    ensures moved > 0 && conductivity <= 1_000 && 16 <= divisor && remainder < FIXED_ONE ==>
              (source - moved) * targetCapacity >= (target + moved) * sourceCapacity
  {
    if source * targetCapacity <= target * sourceCapacity || source == 0 {
      return 0, remainder;
    }
    var excess: nat := source * targetCapacity - target * sourceCapacity;
    var widest := Max(sourceCapacity, targetCapacity);
    if excess <= widest * 4 {
      return 0, 0;
    }
    WidestPositive(source, sourceCapacity, target, targetCapacity);
    var fixed := FixedFlow(excess, widest, conductivity, divisor, remainder);
    var raw := fixed / FIXED_ONE;
    moved := Min(Min(raw, source / 8 + 1), U16_MAX);
    left := if moved == raw then fixed % FIXED_ONE else 0;
    if moved > 0 && conductivity <= 1_000 && 16 <= divisor && remainder < FIXED_ONE {
      NeverReverses(source, sourceCapacity, target, targetCapacity, conductivity, divisor, remainder, moved);
    }
  }

  lemma NeverReverses(source: nat, sourceCapacity: nat, target: nat, targetCapacity: nat,
                      conductivity: nat, divisor: nat, remainder: int, moved: nat)
    requires conductivity <= 1_000 && 16 <= divisor && remainder < FIXED_ONE
    requires var excess := Excess(source, sourceCapacity, target, targetCapacity);
             var widest := Max(sourceCapacity, targetCapacity);
             0 < widest && widest * 4 < excess
               && moved <= FixedFlow(excess, widest, conductivity, divisor, remainder) / FIXED_ONE
    requires moved <= source
    ensures (source - moved) * targetCapacity >= (target + moved) * sourceCapacity
  {
    var excess: nat := Excess(source, sourceCapacity, target, targetCapacity);
    var widest: nat := Max(sourceCapacity, targetCapacity);
    FlowSmall(excess, widest, conductivity, divisor, remainder, moved);
    assert (source - moved) * targetCapacity == source * targetCapacity - moved * targetCapacity;
    assert (target + moved) * sourceCapacity == target * sourceCapacity + moved * sourceCapacity;
    Monotone(moved, sourceCapacity, widest);
    Monotone(moved, targetCapacity, widest);
  }

  lemma FlowNeverReverses(source: nat, sourceCapacity: nat, target: nat, targetCapacity: nat,
                          conductivity: nat, divisor: nat, remainder: int)
    requires conductivity <= 1_000 && 16 <= divisor && remainder < FIXED_ONE
    ensures var m := FluxOf(source, sourceCapacity, target, targetCapacity, conductivity, divisor, remainder).moved;
            m <= source && (0 < m ==> (source - m) * targetCapacity >= (target + m) * sourceCapacity)
  {
    var m := FluxOf(source, sourceCapacity, target, targetCapacity, conductivity, divisor, remainder).moved;
    var excess := Excess(source, sourceCapacity, target, targetCapacity);
    var widest := Max(sourceCapacity, targetCapacity);
    if 0 < excess && source != 0 && widest * 4 < excess {
      WidestPositive(source, sourceCapacity, target, targetCapacity);
      hide FlowRate;
      NeverReverses(source, sourceCapacity, target, targetCapacity, conductivity, divisor, remainder, m);
    }
  }

  lemma FluxFraction(source: nat, sourceCapacity: nat, target: nat, targetCapacity: nat,
                     conductivity: nat, divisor: nat, remainder: int)
    requires 0 <= remainder < FIXED_ONE
    ensures 0
            <= FluxOf(source, sourceCapacity, target, targetCapacity, conductivity, divisor, remainder).remainder
            < FIXED_ONE
  {
    hide FlowRate, Excess;
  }

  /** A flow closes at most five eighths of the excess: one eighth by its rate, the rest by the carried unit. */
  lemma FlowSmall(excess: nat, widest: nat, conductivity: nat, divisor: nat, remainder: int, moved: nat)
    requires conductivity <= 1_000 && 16 <= divisor && remainder < FIXED_ONE
    requires 0 < widest && widest * 4 < excess
    requires moved <= FixedFlow(excess, widest, conductivity, divisor, remainder) / FIXED_ONE
    ensures 2 * (moved * widest) <= excess
  {
    hide *;
    var rate: nat := FlowRate(excess, widest, conductivity, divisor);
    RateSmall(excess, widest, conductivity, divisor, rate);
    FixedIsRate(excess, widest, conductivity, divisor, remainder, rate);
    assert 1_000_000 * moved <= rate + 999_999;
    Monotone(widest, 1_000_000 * moved, rate + 999_999);
    assert widest * (1_000_000 * moved) == 1_000_000 * (moved * widest);
    assert widest * (rate + 999_999) == widest * rate + 999_999 * widest;
  }

  lemma FixedIsRate(excess: nat, widest: nat, conductivity: nat, divisor: nat, remainder: int, rate: nat)
    requires 0 < widest && remainder < FIXED_ONE && rate == FlowRate(excess, widest, conductivity, divisor)
    ensures FixedFlow(excess, widest, conductivity, divisor, remainder) <= rate + 999_999
    ensures FIXED_ONE == 1_000_000
  {
  }

  lemma RateSmall(excess: nat, widest: nat, conductivity: nat, divisor: nat, rate: nat)
    requires conductivity <= 1_000 && 16 <= divisor && 0 < widest
    requires rate == FlowRate(excess, widest, conductivity, divisor)
    ensures 16 * (widest * rate) <= 1_000_000 * excess
  {
    var scaled := excess * conductivity * FIXED_ONE / 1_000;
    Monotone(excess, conductivity, 1_000);
    assert scaled <= 1_000_000 * excess;
    assert rate == scaled / (widest * divisor);
    var d := widest * divisor;
    Monotone(widest, 16, divisor);
    assert d * rate <= scaled by {
      assert scaled == d * (scaled / d) + scaled % d;
    }
    Monotone(rate, 16 * widest, d);
    assert rate * (16 * widest) == 16 * (widest * rate);
    assert rate * d == d * rate;
  }

  // ----- taking bands in proportion -----

  function Share(units: nat, part: nat, total: nat): nat
    requires 0 < total
  {
    units * part / total
  }

  function Shares(source: Six, units: nat): Six
    requires 0 < Sum6(source)
  {
    var total := Sum6(source);
    [Share(units, source[0], total), Share(units, source[1], total), Share(units, source[2], total),
     Share(units, source[3], total), Share(units, source[4], total), Share(units, source[5], total)]
  }

  /** Going around the ring for up to `n` slots, one more unit to each slot that still has room. */
  function RotateIn(source: Six, out: Six, left: nat, cursor: nat, n: nat): Six
    requires cursor < 6
    decreases n
  {
    if n == 0 || left == 0 then out
    else if out[cursor] < source[cursor] then
      RotateIn(source, out[cursor := out[cursor] + 1], left - 1, Next6(cursor), n - 1)
    else RotateIn(source, out, left, Next6(cursor), n - 1)
  }

  function Proportional(source: Six, units: nat, rotation: nat): Six {
    var total := Sum6(source);
    if units == 0 || total == 0 then Zero6
    else
      var taken := Min(units, total);
      var floors := Shares(source, taken);
      RotateIn(source, floors, Max(taken - Sum6(floors), 0), rotation % 6, 6)
  }

  function RoomFrom(source: Six, out: Six, cursor: nat, n: nat): nat
    requires cursor < 6
    decreases n
  {
    if n == 0 then 0
    else (if out[cursor] < source[cursor] then 1 else 0) + RoomFrom(source, out, Next6(cursor), n - 1)
  }

  lemma {:induction false} RoomBehind(source: Six, out: Six, cursor: nat, n: nat, s: nat, v: nat)
    requires cursor < 6 && s < 6 && n <= Ahead(s, cursor)
    ensures RoomFrom(source, out[s := v], cursor, n) == RoomFrom(source, out, cursor, n)
    decreases n
  {
    if n > 0 {
      RoomBehind(source, out, Next6(cursor), n - 1, s, v);
    }
  }

  predicate OneMore(room: nat, before: nat, after: nat) {
    before <= after <= before + 1 && (before <= room ==> after <= room)
  }

  ghost predicate GivenOut(source: Six, out: Six, left: nat, cursor: nat, n: nat, r: Six)
    requires cursor < 6
  {
    && Sum6(r) == Sum6(out) + left
    && forall s | 0 <= s < 6 :: OneMore(source[s], out[s], r[s]) && (n <= Ahead(s, cursor) ==> r[s] == out[s])
  }

  lemma GivenHere(source: Six, out: Six, left: nat, cursor: nat, n: nat, r: Six)
    requires cursor < 6 && 0 < n <= 6 && 0 < left && out[cursor] < source[cursor]
    requires GivenOut(source, out[cursor := out[cursor] + 1], left - 1, Next6(cursor), n - 1, r)
    ensures GivenOut(source, out, left, cursor, n, r)
  {
    Put6(out, cursor, out[cursor] + 1);
    AheadStep(cursor);
    hide Sum6, Ahead, Next6;
  }

  lemma GivenLater(source: Six, out: Six, left: nat, cursor: nat, n: nat, r: Six)
    requires cursor < 6 && 0 < n <= 6
    requires GivenOut(source, out, left, Next6(cursor), n - 1, r)
    ensures GivenOut(source, out, left, cursor, n, r)
  {
    AheadStep(cursor);
    hide Sum6, Ahead, Next6;
  }

  lemma GivenNothing(source: Six, out: Six, cursor: nat, n: nat)
    requires cursor < 6
    ensures GivenOut(source, out, 0, cursor, n, out)
  {
    hide Sum6, Ahead;
  }

  lemma RotateInDone(source: Six, out: Six, left: nat, cursor: nat, n: nat)
    requires cursor < 6 && (n == 0 || left == 0) && left <= RoomFrom(source, out, cursor, n)
    ensures left == 0 && RotateIn(source, out, left, cursor, n) == out
  {
  }

  lemma RotateInStep(source: Six, out: Six, left: nat, cursor: nat, n: nat)
    requires cursor < 6 && 0 < n <= 6 && 0 < left <= RoomFrom(source, out, cursor, n)
    ensures out[cursor] < source[cursor] ==>
              var more := out[cursor := out[cursor] + 1];
              && RotateIn(source, out, left, cursor, n) == RotateIn(source, more, left - 1, Next6(cursor), n - 1)
              && left - 1 <= RoomFrom(source, more, Next6(cursor), n - 1)
    ensures out[cursor] >= source[cursor] ==>
              && RotateIn(source, out, left, cursor, n) == RotateIn(source, out, left, Next6(cursor), n - 1)
              && left <= RoomFrom(source, out, Next6(cursor), n - 1)
  {
    RoomBehindNext(source, out, cursor, n);
    hide Next6;
  }

  /** One round gives out everything that is left while no slot grows by more than one. */
  lemma {:induction false} RotateInFits(source: Six, out: Six, left: nat, cursor: nat, n: nat)
    requires cursor < 6 && n <= 6 && left <= RoomFrom(source, out, cursor, n)
    ensures GivenOut(source, out, left, cursor, n, RotateIn(source, out, left, cursor, n))
    decreases n
  {
    hide *;
    var r := RotateIn(source, out, left, cursor, n);
    if n == 0 || left == 0 {
      RotateInDone(source, out, left, cursor, n);
      GivenNothing(source, out, cursor, n);
    } else {
      RotateInStep(source, out, left, cursor, n);
      if out[cursor] < source[cursor] {
        RotateInFits(source, out[cursor := out[cursor] + 1], left - 1, Next6(cursor), n - 1);
        GivenHere(source, out, left, cursor, n, r);
      } else {
        RotateInFits(source, out, left, Next6(cursor), n - 1);
        GivenLater(source, out, left, cursor, n, r);
      }
    }
  }

  /** Filling the slot under the cursor leaves the rest of the round as it was. */
  lemma RoomBehindNext(source: Six, out: Six, cursor: nat, n: nat)
    requires cursor < 6 && 0 < n <= 6
    ensures RoomFrom(source, out[cursor := out[cursor] + 1], Next6(cursor), n - 1)
            == RoomFrom(source, out, Next6(cursor), n - 1)
  {
    hide *;
    AheadStep(cursor);
    RoomBehind(source, out, Next6(cursor), n - 1, cursor, out[cursor] + 1);
  }

  function Room(source: Six, out: Six, s: nat): nat
    requires s < 6
  {
    if out[s] < source[s] then 1 else 0
  }

  function Rooms(source: Six, out: Six): Six {
    [Room(source, out, 0), Room(source, out, 1), Room(source, out, 2),
     Room(source, out, 3), Room(source, out, 4), Room(source, out, 5)]
  }

  lemma RoomUnrolled(source: Six, out: Six, a: nat, b: nat, c: nat, d: nat, e: nat, f: nat)
    requires a < 6 && b == Next6(a) && c == Next6(b) && d == Next6(c) && e == Next6(d) && f == Next6(e)
    ensures RoomFrom(source, out, a, 6)
            == Room(source, out, a) + Room(source, out, b) + Room(source, out, c)
               + Room(source, out, d) + Room(source, out, e) + Room(source, out, f)
  {
    hide Room, Next6;
    RoomStep(source, out, a, 6);
    RoomStep(source, out, b, 5);
    RoomStep(source, out, c, 4);
    RoomStep(source, out, d, 3);
    RoomStep(source, out, e, 2);
    RoomStep(source, out, f, 1);
    hide RoomFrom;
    RoomNone(source, out, Next6(f));
  }

  lemma RoomStep(source: Six, out: Six, cursor: nat, n: nat)
    requires cursor < 6 && 0 < n
    ensures RoomFrom(source, out, cursor, n) == Room(source, out, cursor) + RoomFrom(source, out, Next6(cursor), n - 1)
  {
  }

  lemma RoomNone(source: Six, out: Six, cursor: nat)
    requires cursor < 6
    ensures RoomFrom(source, out, cursor, 0) == 0
  {
  }

  lemma RoomAround(source: Six, out: Six, cursor: nat)
    requires cursor < 6
    ensures RoomFrom(source, out, cursor, 6) == Sum6(Rooms(source, out))
  {
    hide RoomFrom, Room;
    if cursor == 0 {
      RoomUnrolled(source, out, 0, 1, 2, 3, 4, 5);
    } else if cursor == 1 {
      RoomUnrolled(source, out, 1, 2, 3, 4, 5, 0);
    } else if cursor == 2 {
      RoomUnrolled(source, out, 2, 3, 4, 5, 0, 1);
    } else if cursor == 3 {
      RoomUnrolled(source, out, 3, 4, 5, 0, 1, 2);
    } else if cursor == 4 {
      RoomUnrolled(source, out, 4, 5, 0, 1, 2, 3);
    } else {
      RoomUnrolled(source, out, 5, 0, 1, 2, 3, 4);
    }
  }

  /** A floored share loses less than one unit, and loses nothing where the band is empty or taken whole. */
  lemma ShareLoss(units: nat, part: nat, total: nat)
    requires 0 < total && part <= total && units <= total
    ensures Share(units, part, total) <= part
    ensures total * Share(units, part, total) <= units * part
    ensures units * part
            <= total * Share(units, part, total) + (total - 1) * (if Share(units, part, total) < part then 1 else 0)
  {
    var q := Share(units, part, total);
    assert units * part == total * q + units * part % total;
    Monotone(part, units, total);
    assert total * q <= total * part;
    CancelAtMost(total, q, part);
    if q == part {
      assert total * q == part * total;
    }
  }

  lemma SharesAddUp(source: Six, units: nat)
    requires 0 < Sum6(source) && units <= Sum6(source)
    ensures var floors := Shares(source, units);
            && Sum6(floors) <= units <= Sum6(floors) + Sum6(Rooms(source, floors))
            && forall s | 0 <= s < 6 :: floors[s] <= source[s]
  {
    var total, floors := Sum6(source), Shares(source, units);
    var rooms := Rooms(source, floors);
    forall s | 0 <= s < 6
      ensures floors[s] <= source[s]
      ensures ShareSplit(total, units, source[s], floors[s], rooms[s])
    {
      SlotWithinSum(source, s);
      ShareLoss(units, source[s], total);
      assert floors[s] == Share(units, source[s], total);
      assert rooms[s] == Room(source, floors, s);
      hide Sum6, Share, Shares, Rooms;
    }
    hide Shares, Rooms;
    SharesBound(total, units, source, floors, rooms);
  }

  predicate ShareSplit(total: nat, units: nat, part: nat, share: nat, room: nat) {
    total * share <= units * part <= total * share + (total - 1) * room
  }

  lemma SharesBound(total: nat, units: nat, source: Six, floors: Six, rooms: Six)
    requires 0 < total == Sum6(source)
    requires forall s | 0 <= s < 6 :: ShareSplit(total, units, source[s], floors[s], rooms[s])
    ensures Sum6(floors) <= units <= Sum6(floors) + Sum6(rooms)
  {
    SplitSum(total, units, source, floors, rooms);
    hide *;
    BoundBySplit(total, units, Sum6(floors), Sum6(rooms));
  }

  lemma BoundBySplit(total: nat, units: nat, f: nat, r: nat)
    requires 0 < total && total * f <= units * total <= total * f + (total - 1) * r
    ensures f <= units <= f + r
  {
    assert units * total == total * units;
    CancelAtMost(total, f, units);
    assert (total - 1) * r == total * r - r;
    assert total * (f + r) == total * f + total * r;
    CancelAtMost(total, units, f + r);
  }

  lemma SplitSum(total: nat, units: nat, source: Six, floors: Six, rooms: Six)
    requires 0 < total && forall s | 0 <= s < 6 :: ShareSplit(total, units, source[s], floors[s], rooms[s])
    ensures total * Sum6(floors) <= units * Sum6(source) <= total * Sum6(floors) + (total - 1) * Sum6(rooms)
  {
    Distribute(units, source);
    Distribute(total, floors);
    Distribute(total - 1, rooms);
    SplitAt(total, units, source, floors, rooms, 0);
    SplitAt(total, units, source, floors, rooms, 1);
    SplitAt(total, units, source, floors, rooms, 2);
    SplitAt(total, units, source, floors, rooms, 3);
    SplitAt(total, units, source, floors, rooms, 4);
    SplitAt(total, units, source, floors, rooms, 5);
    hide *;
  }

  lemma SplitAt(total: nat, units: nat, source: Six, floors: Six, rooms: Six, s: nat)
    requires 0 < total && s < 6 && forall k | 0 <= k < 6 :: ShareSplit(total, units, source[k], floors[k], rooms[k])
    ensures total * floors[s] <= units * source[s] <= total * floors[s] + (total - 1) * rooms[s]
  {
    assert ShareSplit(total, units, source[s], floors[s], rooms[s]);
  }

  lemma Distribute(factor: nat, s: Six)
    ensures factor * Sum6(s)
            == factor * s[0] + factor * s[1] + factor * s[2] + factor * s[3] + factor * s[4] + factor * s[5]
  {
  }

  predicate FairPart(taken: nat, part: nat, total: nat, out: nat) {
    out <= part && (0 < total ==> Share(taken, part, total) <= out <= Share(taken, part, total) + 1)
  }

  predicate TakenFairly(source: Six, units: nat, out: Six) {
    var taken := Min(units, Sum6(source));
    && Sum6(out) == taken
    && forall s | 0 <= s < 6 :: FairPart(taken, source[s], Sum6(source), out[s])
  }

  function TakenUnits(source: Six, units: nat): nat {
    Min(units, Sum6(source))
  }

  lemma ProportionalNone(source: Six, units: nat, rotation: nat)
    requires units == 0 || Sum6(source) == 0
    ensures Proportional(source, units, rotation) == Zero6
  {
  }

  lemma ProportionalSome(source: Six, units: nat, rotation: nat, floors: Six, left: nat)
    requires units != 0 && Sum6(source) != 0
    requires floors == Shares(source, TakenUnits(source, units)) && Sum6(floors) + left == TakenUnits(source, units)
    ensures Proportional(source, units, rotation) == RotateIn(source, floors, left, rotation % 6, 6)
  {
    hide Shares, Sum6, RotateIn;
  }

  lemma FloorsLeave(source: Six, taken: nat, floors: Six, cursor: nat)
    requires 0 < Sum6(source) && taken <= Sum6(source) && floors == Shares(source, taken) && cursor < 6
    ensures Sum6(floors) <= taken <= Sum6(floors) + RoomFrom(source, floors, cursor, 6)
    ensures forall s | 0 <= s < 6 :: floors[s] <= source[s]
  {
    hide *;
    SharesAddUp(source, taken);
    RoomAround(source, floors, cursor);
  }

  /** The bands taken add up to the request, or to everything held, and each is the floor of its share or one more. */
  lemma ProportionalIsFair(source: Six, units: nat, rotation: nat)
    ensures TakenFairly(source, units, Proportional(source, units, rotation))
  {
    if units == 0 || Sum6(source) == 0 {
      ProportionalNone(source, units, rotation);
      NothingIsFair(source, units);
    } else {
      TakenWithin(source, units);
      hide *;
      var taken := TakenUnits(source, units);
      var floors := Shares(source, taken);
      FloorsLeave(source, taken, floors, rotation % 6);
      var left: nat := taken - Sum6(floors);
      ProportionalSome(source, units, rotation, floors, left);
      RotateInFits(source, floors, left, rotation % 6, 6);
      GivenIsFair(source, units, floors, left, rotation % 6, Proportional(source, units, rotation));
    }
  }

  lemma TakenWithin(source: Six, units: nat)
    ensures TakenUnits(source, units) <= Sum6(source)
  {
  }

  lemma NothingIsFair(source: Six, units: nat)
    requires units == 0 || Sum6(source) == 0
    ensures TakenFairly(source, units, Zero6)
  {
    forall s | 0 <= s < 6 ensures FairPart(0, source[s], Sum6(source), 0) {
      assert 0 * source[s] == 0;
    }
  }

  lemma GivenIsFair(source: Six, units: nat, floors: Six, left: nat, cursor: nat, out: Six)
    requires 0 < Sum6(source) && floors == Shares(source, TakenUnits(source, units)) && cursor < 6
    requires TakenUnits(source, units) == Sum6(floors) + left && GivenOut(source, floors, left, cursor, 6, out)
    requires forall s | 0 <= s < 6 :: floors[s] <= source[s]
    ensures TakenFairly(source, units, out)
  {
    var taken := TakenUnits(source, units);
    forall s | 0 <= s < 6 ensures FairPart(taken, source[s], Sum6(source), out[s]) {
      assert floors[s] == Share(taken, source[s], Sum6(source));
      hide Share, Shares, Sum6;
    }
    hide Shares, Sum6, FairPart;
  }

  method TakeProportional(source: Six, units: nat, rotation: nat) returns (out: Six)
    ensures out == Proportional(source, units, rotation)
    ensures TakenFairly(source, units, out)
  {
    hide *;
    ProportionalIsFair(source, units, rotation);
    var total := Sum6(source);
    if units == 0 || total == 0 {
      ProportionalNone(source, units, rotation);
      return Zero6;
    }
    TakenWithin(source, units);
    var taken := TakenUnits(source, units);
    var floors, given := FloorBands(source, taken);
    FloorsLeave(source, taken, floors, rotation % 6);
    ProportionalSome(source, units, rotation, floors, taken - given);
    out := GiveRemainder(source, floors, taken - given, rotation % 6);
  }

  /** Go around the ring until nothing is left; a single round is enough. */
  method GiveRemainder(source: Six, floors: Six, left: nat, start: nat) returns (out: Six)
    requires start < 6 && left <= RoomFrom(source, floors, start, 6)
    ensures out == RotateIn(source, floors, left, start, 6)
  {
    hide *;
    out := floors;
    var remainder: nat, cursor: nat := left, start;
    ghost var n: nat := 6;
    while remainder != 0
      invariant cursor < 6 && n <= 6
      invariant remainder <= RoomFrom(source, out, cursor, n)
      invariant RotateIn(source, out, remainder, cursor, n) == RotateIn(source, floors, left, start, 6)
      decreases n
    {
      RoundGoesOn(source, out, remainder, cursor, n);
      RotateInStep(source, out, remainder, cursor, n);
      if out[cursor] < source[cursor] {
        out := out[cursor := out[cursor] + 1];
        remainder := remainder - 1;
      }
      cursor := Next6(cursor);
      n := n - 1;
    }
    RotateInNone(source, out, cursor, n);
  }

  lemma RotateInNone(source: Six, out: Six, cursor: nat, n: nat)
    requires cursor < 6
    ensures RotateIn(source, out, 0, cursor, n) == out
  {
  }

  lemma RoundGoesOn(source: Six, out: Six, left: nat, cursor: nat, n: nat)
    requires cursor < 6 && 0 < left <= RoomFrom(source, out, cursor, n)
    ensures 0 < n
  {
  }

  method FloorBands(source: Six, units: nat) returns (out: Six, given: nat)
    requires 0 < Sum6(source)
    ensures out == Shares(source, units) && given == Sum6(out)
  {
    hide Share, Sum6;
    var total := Sum6(source);
    out := Zero6;
    given := 0;
    for slot := 0 to 6
      invariant forall s | 0 <= s < slot :: out[s] == Share(units, source[s], total)
      invariant given == SumBefore(out, slot)
    {
      SumBeforePut(out, slot, Share(units, source[slot], total));
      out := out[slot := Share(units, source[slot], total)];
      given := given + out[slot];
    }
    SumBeforeAll(out);
  }
}
