/** Exact liquid parcels: proportional splits with floors, and merging them back. */
module Liquid {
  import opened Prelude

  const MAX_BATCH_VOLUME_UNITS: nat := 4_096
  const MAX_ALCHEMY_VECTOR_ENTRIES: nat := 64
  const MAX_PREPARATION_ID_BYTES: nat := 96
  const HEAT_LIMIT: nat := 250_000
  const I64_MAX: int := 0x7FFF_FFFF_FFFF_FFFF

  datatype CarrierKind = FreshWater | Brine | Alcohol | PlantOil

  datatype AlchemyError = Corrupt | InvalidOperation | Overflow

  /** A parcel with its planetary water and salt, its heat and dross, and its dissolved units. */
  datatype Parcel = Parcel(carrier: Option<CarrierKind>, volume: nat, water: nat, salt: nat, thermal: int, dross: nat,
                           solutes: map<string, nat>)

  const Empty: Parcel := Parcel(None, 0, 0, 0, 0, 0, map[])

  predicate IsWater(carrier: Option<CarrierKind>) {
    carrier == Some(FreshWater) || carrier == Some(Brine)
  }

  predicate ContentId(name: string) {
    && 0 < |name| <= MAX_PREPARATION_ID_BYTES
    && ':' in name
    && forall i | 0 <= i < |name| :: 'a' <= name[i] <= 'z' || '0' <= name[i] <= '9' || name[i] in ":_-/"
  }

  function Abs(x: int): nat {
    if x < 0 then -x else x
  }

  function Units(solutes: map<string, nat>, name: string): nat {
    if name in solutes then solutes[name] else 0
  }

  predicate SolutesValid(solutes: map<string, nat>) {
    && |solutes| <= MAX_ALCHEMY_VECTOR_ENTRIES
    && forall name | name in solutes :: ContentId(name) && 0 < solutes[name] <= U32_MAX
  }

  predicate Valid(p: Parcel) {
    && p.volume <= MAX_BATCH_VOLUME_UNITS
    && p.water <= p.volume
    && (p.carrier.None? <==> p.volume == 0)
    && SolutesValid(p.solutes)
    && Abs(p.thermal) <= p.volume * HEAT_LIMIT
    && p.dross <= p.volume * U32_MAX
    && (IsWater(p.carrier) ==> 0 < p.water)
  }

  // ----- splitting -----

  /** What a take moves: of everything the floor of its proportional share, heat toward zero and salt with its water. */
  lemma TakeShares(p: Parcel, r: nat, name: string)
    requires 0 < r < p.volume
    ensures var parcel, v := Taken(p, r), p.volume;
            && parcel.carrier == p.carrier && parcel.volume == r
            && parcel.water == p.water * r / v && parcel.dross == p.dross * r / v
            && parcel.thermal == (if p.thermal < 0 then -((-p.thermal) * r / v) else p.thermal * r / v)
            && parcel.salt == (if parcel.water == 0 || p.water == 0 then 0
                               else if parcel.water >= p.water then p.salt else p.salt * parcel.water / p.water)
            && (if name in parcel.solutes then parcel.solutes[name] else 0)
               == (if name in p.solutes then p.solutes[name] * r / v else 0)
            && (name in parcel.solutes ==> 0 < parcel.solutes[name])
  {
  }

  /** The floor of a proportional part. */
  function Part(x: nat, r: nat, v: nat): nat
    requires 0 < v
  {
    x * r / v
  }

  /** Division of signed heat truncates toward zero. */
  function HeatPart(x: int, r: nat, v: nat): int
    requires 0 < v
  {
    if x < 0 then -(Part(-x, r, v) as int) else Part(x, r, v)
  }

  /** Salt goes with its water; the last of the water takes the last of the salt. */
  function SaltPart(salt: nat, moved: nat, water: nat): nat {
    if moved == 0 || water == 0 then 0 else if moved >= water then salt else Part(salt, moved, water)
  }

  function SolutesTaken(solutes: map<string, nat>, r: nat, v: nat): map<string, nat>
    requires 0 < v
  {
    map name | name in solutes && Part(solutes[name], r, v) != 0 :: Part(solutes[name], r, v)
  }

  function SolutesLeft(solutes: map<string, nat>, r: nat, v: nat): map<string, nat>
    requires 0 < v
  {
    map name | name in solutes && Saturating(solutes[name], Part(solutes[name], r, v)) != 0 ::
      Saturating(solutes[name], Part(solutes[name], r, v))
  }

  function Taken(p: Parcel, r: nat): Parcel
    requires 0 < r <= p.volume
  {
    if r == p.volume then p
    else
      var water := Part(p.water, r, p.volume);
      Parcel(p.carrier, r, water, SaltPart(p.salt, water, p.water), HeatPart(p.thermal, r, p.volume),
             Part(p.dross, r, p.volume), SolutesTaken(p.solutes, r, p.volume))
  }

  function Left(p: Parcel, r: nat): Parcel
    requires 0 < r <= p.volume
  {
    if r == p.volume then Empty
    else
      var water := Part(p.water, r, p.volume);
      Parcel(p.carrier, p.volume - r, Saturating(p.water, water), Saturating(p.salt, SaltPart(p.salt, water, p.water)),
             p.thermal - HeatPart(p.thermal, r, p.volume), Saturating(p.dross, Part(p.dross, r, p.volume)),
             SolutesLeft(p.solutes, r, p.volume))
  }

  lemma PartBounds(x: nat, r: nat, v: nat)
    requires 0 < r < v
    ensures Part(x, r, v) <= x
    ensures v * Part(x, r, v) <= x * r
    ensures 0 < x ==> Part(x, r, v) < x
    ensures (x - Part(x, r, v)) * v >= x * (v - r)
  {
    var q := Part(x, r, v);
    assert x * r == v * q + x * r % v;
    assert x * v == v * x;
    Monotone(x, r, v);
    CancelAtMost(v, q, x);
    if 0 < x {
      assert x * (v - r) == x * v - x * r;
      Monotone(x, 1, v - r);
      CancelLess(v, q, x);
    }
    assert (x - q) * v == x * v - v * q;
    assert x * (v - r) == x * v - x * r;
  }

  /** A limit proportional to the volume survives a split, on both sides. */
  lemma PartKeepsLimit(x: nat, r: nat, v: nat, limit: nat)
    requires 0 < r < v && x <= v * limit
    ensures Part(x, r, v) <= r * limit
    ensures x - Part(x, r, v) <= (v - r) * limit
  {
    var q := Part(x, r, v);
    assert x * r == v * q + x * r % v;
    Monotone(r, x, v * limit);
    assert r * x == x * r && r * (v * limit) == v * (r * limit);
    CancelAtMost(v, q, r * limit);
    Monotone(v - r, x, v * limit);
    var rest := x - q;
    assert v * rest == v * x - v * q;
    assert (v - r) * x == v * x - x * r;
    assert v * rest < (v - r) * x + v;
    assert (v - r) * (v * limit) == v * ((v - r) * limit);
    assert v * ((v - r) * limit + 1) == v * ((v - r) * limit) + v;
    CancelLess(v, rest, (v - r) * limit + 1);
  }

  /** `a` and `b` together are exactly `whole`, component by component. */
  ghost predicate Whole(a: Parcel, b: Parcel, whole: Parcel) {
    && a.volume + b.volume == whole.volume && a.water + b.water == whole.water && a.salt + b.salt == whole.salt
    && a.thermal + b.thermal == whole.thermal && a.dross + b.dross == whole.dross
    && forall name: string :: Units(a.solutes, name) + Units(b.solutes, name) == Units(whole.solutes, name)
  }

  lemma SolutesSplit(solutes: map<string, nat>, r: nat, v: nat, name: string)
    requires 0 < r < v
    ensures Units(SolutesTaken(solutes, r, v), name) + Units(SolutesLeft(solutes, r, v), name) == Units(solutes, name)
  {
    if name in solutes {
      PartBounds(solutes[name], r, v);
      hide Part;
    }
  }

  lemma SaltBound(salt: nat, moved: nat, water: nat)
    ensures SaltPart(salt, moved, water) <= salt
  {
    if 0 < moved < water {
      PartBounds(salt, moved, water);
    }
  }

  /** A split loses nothing: the parcel and the remainder make up the whole. */
  lemma TakeSplits(p: Parcel, r: nat)
    requires 0 < r <= p.volume
    ensures Whole(Taken(p, r), Left(p, r), p)
  {
    if r < p.volume {
      PartBounds(p.water, r, p.volume);
      PartBounds(p.dross, r, p.volume);
      SaltBound(p.salt, Part(p.water, r, p.volume), p.water);
      hide Part, HeatPart, SaltPart, SolutesTaken, SolutesLeft, Units;
      forall name: string
        ensures Units(Taken(p, r).solutes, name) + Units(Left(p, r).solutes, name) == Units(p.solutes, name)
      {
        SolutesSplit(p.solutes, r, p.volume, name);
      }
    } else {
      forall name: string ensures Units(p.solutes, name) + Units(Empty.solutes, name) == Units(p.solutes, name) {
      }
    }
  }

  lemma FewerNames(a: map<string, nat>, b: map<string, nat>)
    requires a.Keys <= b.Keys
    ensures |a| <= |b|
  {
    Subset(a.Keys, b.Keys);
  }

  lemma SolutesStayValid(solutes: map<string, nat>, r: nat, v: nat)
    requires 0 < r < v && SolutesValid(solutes)
    ensures SolutesValid(SolutesTaken(solutes, r, v)) && SolutesValid(SolutesLeft(solutes, r, v))
  {
    forall name | name in solutes ensures Part(solutes[name], r, v) <= solutes[name] {
      PartBounds(solutes[name], r, v);
    }
    hide Part, ContentId;
    FewerNames(SolutesTaken(solutes, r, v), solutes);
    FewerNames(SolutesLeft(solutes, r, v), solutes);
  }

  lemma HeatLimit(thermal: int, r: nat, v: nat)
    requires 0 < r < v && Abs(thermal) <= v * HEAT_LIMIT
    ensures Abs(HeatPart(thermal, r, v)) <= r * HEAT_LIMIT
    ensures Abs(thermal - HeatPart(thermal, r, v)) <= (v - r) * HEAT_LIMIT
  {
    PartKeepsLimit(Abs(thermal), r, v, HEAT_LIMIT);
    PartBounds(Abs(thermal), r, v);
    hide Part;
  }

  /** A split of a valid liquid leaves a valid remainder; the parcel is valid unless it is water by name that carries
      no planetary water. */
  lemma TakeValid(p: Parcel, r: nat)
    requires Valid(p) && 0 < r < p.volume
    ensures Valid(Left(p, r))
    ensures Valid(Taken(p, r)) <==> (IsWater(p.carrier) ==> p.volume <= p.water * r)
  {
    var v := p.volume;
    SolutesStayValid(p.solutes, r, v);
    HeatLimit(p.thermal, r, v);
    PartKeepsLimit(p.dross, r, v, U32_MAX);
    assert v * 1 == v && r * 1 == r && (v - r) * 1 == v - r;
    PartKeepsLimit(p.water, r, v, 1);
    PartBounds(p.water, r, v);
    AtLeastOne(p.water * r, v);
    hide SolutesValid, SolutesTaken, SolutesLeft, HeatPart, SaltPart;
    assert Part(p.water, r, v) > 0 <==> v <= p.water * r;
    hide Part;
  }

  /** An input whose refusal loses half of it: two volumes of brine with one unit of planetary water between them. */
  lemma RefusedTakeLoses()
    ensures var p := Parcel(Some(Brine), 2, 1, 7, 0, 0, map[]);
            Valid(p) && !Takeable(p, 1) && Left(p, 1) == p.(volume := 1)
  {
    var p := Parcel(Some(Brine), 2, 1, 7, 0, 0, map[]);
    assert Part(1, 1, 2) == 0 && Part(0, 1, 2) == 0;
    assert SolutesLeft(map[], 1, 2) == map[];
    hide Part, SolutesLeft;
  }

  lemma AtLeastOne(x: nat, v: nat)
    requires 0 < v
    ensures x / v > 0 <==> v <= x
  {
  }

  /** When a take succeeds, in terms a caller can check. */
  predicate Takeable(p: Parcel, r: nat) {
    && Valid(p) && 0 < r <= p.volume
    && (r < p.volume && IsWater(p.carrier) ==> p.volume <= p.water * r)
  }

  // ----- concentration -----

  /** A solute is at least as concentrated in `b` as in `a`. */
  predicate NoWeaker(a: Parcel, b: Parcel, name: string) {
    Units(b.solutes, name) * a.volume >= Units(a.solutes, name) * b.volume
  }

  lemma TakeNeverDilutes(p: Parcel, r: nat, name: string)
    requires 0 < r <= p.volume
    ensures NoWeaker(p, Left(p, r), name)
  {
    if r < p.volume && name in p.solutes {
      PartBounds(p.solutes[name], r, p.volume);
      var rest := p.solutes[name] - Part(p.solutes[name], r, p.volume);
      assert Units(Left(p, r).solutes, name) == rest;
    }
  }

  lemma NoWeakerTrans(a: Parcel, b: Parcel, c: Parcel, name: string)
    requires NoWeaker(a, b, name) && NoWeaker(b, c, name) && (b.volume == 0 ==> c.volume == 0)
    ensures NoWeaker(a, c, name)
  {
    RatioTrans(Units(a.solutes, name), Units(b.solutes, name), Units(c.solutes, name), a.volume, b.volume, c.volume);
  }

  lemma RatioTrans(x: nat, y: nat, z: nat, u: nat, v: nat, w: nat)
    requires y * u >= x * v && z * v >= y * w && (v == 0 ==> w == 0)
    ensures z * u >= x * w
  {
    if v == 0 {
      assert x * w == 0;
    } else {
      Monotone(w, x * v, y * u);
      Monotone(u, y * w, z * v);
      assert w * (x * v) == v * (x * w) && w * (y * u) == u * (y * w) && u * (z * v) == v * (z * u);
      CancelAtMost(v, x * w, z * u);
    }
  }

  // ----- chains of takes -----

  datatype Chain = Chain(parcels: seq<Parcel>, rest: Parcel)

  /** The parcels of successive takes, as long as each one succeeds. */
  function TakeAll(p: Parcel, requests: seq<nat>): Option<Chain>
    decreases |requests|
  {
    if requests == [] then Some(Chain([], p))
    else if !Takeable(p, requests[0]) then None
    else
      var later := TakeAll(Left(p, requests[0]), requests[1..]);
      if later.None? then None
      else Some(Chain([Taken(p, requests[0])] + later.value.parcels, later.value.rest))
  }

  /** However a liquid is drawn off, no solute is ever weaker in what remains. */
  lemma {:induction false} ChainNeverDilutes(p: Parcel, requests: seq<nat>, name: string)
    requires TakeAll(p, requests).Some?
    ensures NoWeaker(p, TakeAll(p, requests).value.rest, name)
    ensures TakeAll(p, requests).value.rest.volume <= p.volume
    decreases |requests|
  {
    hide NoWeaker, Takeable, Left, Taken;
    if requests == [] {
      SameStrength(p, name);
    } else {
      TakeableParts(p, requests[0]);
      var left := Left(p, requests[0]);
      ChainNeverDilutes(left, requests[1..], name);
      TakeNeverDilutes(p, requests[0], name);
      NoWeakerTrans(p, left, TakeAll(left, requests[1..]).value.rest, name);
    }
  }

  lemma SameStrength(p: Parcel, name: string)
    ensures NoWeaker(p, p, name)
  {
  }

  lemma TakeableParts(p: Parcel, r: nat)
    requires Takeable(p, r)
    ensures Valid(p) && 0 < r <= p.volume && Left(p, r).volume == p.volume - r
  {
  }

  // ----- merging -----

  predicate SumsInRange(a: Parcel, b: Parcel) {
    && a.water + b.water <= U64_MAX && a.salt + b.salt <= U64_MAX && a.dross + b.dross <= U64_MAX
    && -I64_MAX - 1 <= a.thermal + b.thermal <= I64_MAX
  }

  function SolutesSum(a: map<string, nat>, b: map<string, nat>): map<string, nat> {
    map name | name in a.Keys + b.Keys && Units(a, name) + Units(b, name) != 0 :: Units(a, name) + Units(b, name)
  }

  predicate SolutesInRange(a: map<string, nat>, b: map<string, nat>) {
    forall name | name in b :: Units(a, name) + Units(b, name) <= U64_MAX
  }

  function Sum(a: Parcel, b: Parcel): Parcel {
    Parcel(a.carrier, a.volume + b.volume, a.water + b.water, a.salt + b.salt, a.thermal + b.thermal, a.dross + b.dross,
           SolutesSum(a.solutes, b.solutes))
  }

  /** Adding one liquid to another: an empty one is replaced, matching carriers are added component by component. */
  function Added(a: Parcel, b: Parcel): Result<Parcel, AlchemyError> {
    if !Valid(a) || !Valid(b) then Err(Corrupt)
    else if a.volume == 0 then Ok(b)
    else if b.volume == 0 || a.carrier != b.carrier then Err(InvalidOperation)
    else if a.volume + b.volume > MAX_BATCH_VOLUME_UNITS || !SumsInRange(a, b)
            || !SolutesInRange(a.solutes, b.solutes)
    then Err(Overflow)
    else if Valid(Sum(a, b)) then Ok(Sum(a, b))
    else Err(Corrupt)
  }

  function MergeAll(acc: Parcel, parts: seq<Parcel>): Result<Parcel, AlchemyError>
    decreases |parts|
  {
    if parts == [] then Ok(acc)
    else
      var next := Added(acc, parts[0]);
      if next.Err? then next else MergeAll(next.value, parts[1..])
  }

  lemma SumUnits(a: map<string, nat>, b: map<string, nat>, name: string)
    ensures Units(SolutesSum(a, b), name) == Units(a, name) + Units(b, name)
  {
  }

  /** `acc` and what is still to come make up `whole`. */
  ghost predicate PartOf(acc: Parcel, rest: seq<Parcel>, whole: Parcel) {
    && acc.volume + SumSeq(rest, VolumeOf()) == whole.volume
    && acc.water + SumSeq(rest, WaterOf()) == whole.water
    && acc.salt + SumSeq(rest, SaltOf()) == whole.salt
    && acc.thermal + SumSeq(rest, HeatOf()) == whole.thermal
    && acc.dross + SumSeq(rest, DrossOf()) == whole.dross
    && forall name: string :: Units(acc.solutes, name) + SumSeq(rest, SoluteOf(name)) == Units(whole.solutes, name)
  }

  ghost function VolumeOf(): Parcel -> int { (p: Parcel) => p.volume }
  ghost function WaterOf(): Parcel -> int { (p: Parcel) => p.water }
  ghost function SaltOf(): Parcel -> int { (p: Parcel) => p.salt }
  ghost function HeatOf(): Parcel -> int { (p: Parcel) => p.thermal }
  ghost function DrossOf(): Parcel -> int { (p: Parcel) => p.dross }
  ghost function SoluteOf(name: string): Parcel -> int { (p: Parcel) => Units(p.solutes, name) }

  lemma PartOfNext(acc: Parcel, rest: seq<Parcel>, whole: Parcel)
    requires rest != [] && PartOf(acc, rest, whole)
    ensures PartOf(Sum(acc, rest[0]), rest[1..], whole)
    ensures acc.volume == 0 && acc == Empty ==> PartOf(rest[0], rest[1..], whole)
  {
    SumSeqFirst(rest, VolumeOf());
    SumSeqFirst(rest, WaterOf());
    SumSeqFirst(rest, SaltOf());
    SumSeqFirst(rest, HeatOf());
    SumSeqFirst(rest, DrossOf());
    hide SolutesSum, Units, SumSeq;
    forall name: string
      ensures Units(Sum(acc, rest[0]).solutes, name) + SumSeq(rest[1..], SoluteOf(name)) == Units(whole.solutes, name)
      ensures acc == Empty ==>
                Units(rest[0].solutes, name) + SumSeq(rest[1..], SoluteOf(name)) == Units(whole.solutes, name)
    {
      SumSeqFirst(rest, SoluteOf(name));
      SumUnits(acc.solutes, rest[0].solutes, name);
      NoUnits(name);
    }
  }

  lemma NoUnits(name: string)
    ensures Units(Empty.solutes, name) == 0
  {
  }

  ghost predicate Pieces(parts: seq<Parcel>, whole: Parcel) {
    forall i | 0 <= i < |parts| :: Valid(parts[i]) && 0 < parts[i].volume && parts[i].carrier == whole.carrier
  }

  /** What has been merged so far is within the whole, so the next addition cannot fail. */
  lemma SumValid(acc: Parcel, rest: seq<Parcel>, whole: Parcel)
    requires rest != [] && Valid(acc) && 0 < acc.volume && acc.carrier == whole.carrier
    requires Pieces(rest, whole) && PartOf(acc, rest, whole) && Valid(whole) && whole.salt <= U64_MAX
    ensures Added(acc, rest[0]) == Ok(Sum(acc, rest[0]))
  {
    var p := rest[0];
    assert Valid(p) && 0 < p.volume && p.carrier == whole.carrier;
    hide Valid, PartOf, Pieces;
    ValidSolutes(acc);
    ValidSolutes(p);
    ValidSolutes(whole);
    SumSolutesValid(acc, rest, whole);
    SumWithin(acc, rest, whole);
    BoundedSumValid(acc, p, whole.volume, whole.salt);
  }

  lemma SumWithin(acc: Parcel, rest: seq<Parcel>, whole: Parcel)
    requires rest != [] && PartOf(acc, rest, whole) && Valid(whole)
    ensures acc.volume + rest[0].volume <= whole.volume <= MAX_BATCH_VOLUME_UNITS
            && acc.salt + rest[0].salt <= whole.salt
  {
    SumSeqFirst(rest, VolumeOf());
    SumSeqFirst(rest, SaltOf());
    RestNonNegative(rest[1..]);
    hide SumSeq, Units, SolutesValid;
  }

  lemma BoundedSumValid(a: Parcel, b: Parcel, volume: nat, salt: nat)
    requires Valid(a) && Valid(b) && 0 < a.volume && 0 < b.volume && a.carrier == b.carrier
    requires a.volume + b.volume <= volume <= MAX_BATCH_VOLUME_UNITS && a.salt + b.salt <= salt <= U64_MAX
    requires SolutesInRange(a.solutes, b.solutes) && SolutesValid(SolutesSum(a.solutes, b.solutes))
    ensures Added(a, b) == Ok(Sum(a, b))
  {
    hide SolutesSum, SolutesValid, SolutesInRange;
    SumHeat(a.thermal, b.thermal, a.volume, b.volume);
  }

  lemma SumHeat(a: int, b: int, u: nat, v: nat)
    requires Abs(a) <= u * HEAT_LIMIT && Abs(b) <= v * HEAT_LIMIT
    ensures Abs(a + b) <= (u + v) * HEAT_LIMIT
  {
  }

  lemma {:induction false} RestNonNegative(rest: seq<Parcel>)
    ensures 0 <= SumSeq(rest, VolumeOf()) && 0 <= SumSeq(rest, SaltOf())
    ensures forall name: string :: 0 <= SumSeq(rest, SoluteOf(name))
  {
    SumSeqNonNegative(rest, VolumeOf());
    SumSeqNonNegative(rest, SaltOf());
    forall name: string ensures 0 <= SumSeq(rest, SoluteOf(name)) {
      SumSeqNonNegative(rest, SoluteOf(name));
    }
  }

  lemma SumSolutesValid(acc: Parcel, rest: seq<Parcel>, whole: Parcel)
    requires rest != [] && SolutesValid(acc.solutes) && SolutesValid(rest[0].solutes) && SolutesValid(whole.solutes)
    requires PartOf(acc, rest, whole)
    ensures SolutesInRange(acc.solutes, rest[0].solutes) && SolutesValid(SolutesSum(acc.solutes, rest[0].solutes))
  {
    SolutesWithin(acc, rest, whole);
    SolutesBounded(acc.solutes, rest[0].solutes, whole.solutes);
  }

  lemma SolutesWithin(acc: Parcel, rest: seq<Parcel>, whole: Parcel)
    requires rest != [] && PartOf(acc, rest, whole)
    ensures forall name: string :: Units(acc.solutes, name) + Units(rest[0].solutes, name) <= Units(whole.solutes, name)
  {
    RestNonNegative(rest[1..]);
    forall name: string ensures Units(acc.solutes, name) + Units(rest[0].solutes, name) <= Units(whole.solutes, name) {
      SumSeqFirst(rest, SoluteOf(name));
      hide SumSeq, Units;
      assert Units(acc.solutes, name) + SumSeq(rest, SoluteOf(name)) == Units(whole.solutes, name);
    }
    hide *;
  }

  lemma SolutesBounded(a: map<string, nat>, b: map<string, nat>, whole: map<string, nat>)
    requires SolutesValid(a) && SolutesValid(b) && SolutesValid(whole)
    requires forall name: string :: Units(a, name) + Units(b, name) <= Units(whole, name)
    ensures SolutesInRange(a, b) && SolutesValid(SolutesSum(a, b))
  {
    hide ContentId, SolutesSum;
    var sum := SolutesSum(a, b);
    SumUnderWhole(a, b, whole);
    FewerNames(sum, whole);
    RangeUnderWhole(a, b, whole);
    hide Units;
    forall name | name in sum ensures ContentId(name) && 0 < sum[name] <= U32_MAX {
      assert name in whole;
    }
  }

  lemma RangeUnderWhole(a: map<string, nat>, b: map<string, nat>, whole: map<string, nat>)
    requires SolutesValid(whole) && forall name: string :: Units(a, name) + Units(b, name) <= Units(whole, name)
    ensures SolutesInRange(a, b)
  {
    hide ContentId;
    forall name | name in b ensures Units(a, name) + Units(b, name) <= U64_MAX {
      assert Units(a, name) + Units(b, name) <= Units(whole, name);
    }
  }

  lemma SumUnderWhole(a: map<string, nat>, b: map<string, nat>, whole: map<string, nat>)
    requires forall name: string :: Units(a, name) + Units(b, name) <= Units(whole, name)
    ensures var sum := SolutesSum(a, b);
            sum.Keys <= whole.Keys && forall name | name in sum :: name in whole && 0 < sum[name] <= whole[name]
  {
    var sum := SolutesSum(a, b);
    forall name | name in sum ensures name in whole && 0 < sum[name] <= whole[name] {
      assert Units(a, name) + Units(b, name) <= Units(whole, name);
    }
  }

  lemma SameParcel(a: Parcel, whole: Parcel)
    requires PartOf(a, [], whole) && a.carrier == whole.carrier && SolutesValid(a.solutes)
             && SolutesValid(whole.solutes)
    ensures a == whole
  {
    hide ContentId;
    forall name: string ensures name in a.solutes <==> name in whole.solutes {
      assert Units(a.solutes, name) + SumSeq([], SoluteOf(name)) == Units(whole.solutes, name);
    }
    forall name | name in a.solutes ensures a.solutes[name] == whole.solutes[name] {
      assert Units(a.solutes, name) + SumSeq([], SoluteOf(name)) == Units(whole.solutes, name);
    }
    assert a.solutes == whole.solutes;
  }

  /** Pieces of a valid whole merge back into exactly that whole. */
  lemma {:induction false} MergeRestores(acc: Parcel, rest: seq<Parcel>, whole: Parcel)
    requires Valid(acc) && (acc == Empty || (0 < acc.volume && acc.carrier == whole.carrier))
    requires Pieces(rest, whole) && PartOf(acc, rest, whole) && Valid(whole) && whole.salt <= U64_MAX
             && 0 < whole.volume
    ensures MergeAll(acc, rest) == Ok(whole)
    decreases |rest|
  {
    hide Valid, PartOf, Sum;
    if rest == [] {
      NotEmptyYet(acc, whole);
      ValidSolutes(acc);
      ValidSolutes(whole);
      SameParcel(acc, whole);
    } else {
      PartOfNext(acc, rest, whole);
      assert Pieces(rest[1..], whole);
      if acc == Empty {
        assert Added(acc, rest[0]) == Ok(rest[0]);
        MergeRestores(rest[0], rest[1..], whole);
      } else {
        SumValid(acc, rest, whole);
        SumShape(acc, rest[0]);
        MergeRestores(Sum(acc, rest[0]), rest[1..], whole);
      }
    }
  }

  lemma NotEmptyYet(acc: Parcel, whole: Parcel)
    requires PartOf(acc, [], whole) && 0 < whole.volume
    ensures acc != Empty
  {
  }

  lemma ValidSolutes(p: Parcel)
    requires Valid(p)
    ensures SolutesValid(p.solutes)
  {
  }

  lemma SumShape(a: Parcel, b: Parcel)
    requires Added(a, b) == Ok(Sum(a, b)) && 0 < a.volume
    ensures Valid(Sum(a, b)) && Sum(a, b).carrier == a.carrier && 0 < Sum(a, b).volume
  {
    hide SolutesSum;
  }

  // ----- chains make pieces -----

  lemma {:induction false} ChainPieces(p: Parcel, requests: seq<nat>)
    requires Valid(p) && TakeAll(p, requests).Some?
    ensures var chain := TakeAll(p, requests).value;
            && Pieces(chain.parcels, p)
            && Valid(chain.rest) && PartOf(chain.rest, chain.parcels, p)
            && (chain.rest.volume == 0 ==> chain.rest == Empty || chain.parcels == [])
            && (0 < chain.rest.volume ==> chain.rest.carrier == p.carrier)
    decreases |requests|
  {
    hide Valid, PartOf, Takeable, Taken, Left;
    if requests == [] {
      AloneWhole(p);
    } else {
      var r := requests[0];
      TakeablePieces(p, r);
      var later := TakeAll(Left(p, r), requests[1..]).value;
      if Left(p, r).volume == 0 {
        NothingLeft(p, requests);
        AloneWhole(Empty);
        JoinPart(p, r, later);
      } else {
        ChainPieces(Left(p, r), requests[1..]);
        JoinPart(p, r, later);
      }
    }
  }

  lemma TakeablePieces(p: Parcel, r: nat)
    requires Takeable(p, r)
    ensures Valid(p) && 0 < r <= p.volume && Left(p, r).volume == p.volume - r
    ensures Valid(Taken(p, r)) && 0 < Taken(p, r).volume && Taken(p, r).carrier == p.carrier
    ensures Valid(Left(p, r)) && (Left(p, r).volume == 0 ==> Left(p, r) == Empty)
    ensures 0 < Left(p, r).volume ==> Left(p, r).carrier == p.carrier
  {
    if r < p.volume {
      TakeValid(p, r);
      hide Valid, Part, SaltPart, HeatPart, SolutesTaken, SolutesLeft;
    }
  }

  /** A liquid can be drawn off in any amounts that add up to no more than there is, unless it is water by name that
      carries other volume too; every parcel has the volume asked for and the rest has what is left. */
  lemma {:induction false} ChainSucceedsIff(p: Parcel, requests: seq<nat>)
    requires Valid(p)
    ensures var chain := TakeAll(p, requests);
            && (chain.Some? ==>
                  && SumOf(requests) <= p.volume && (forall i | 0 <= i < |requests| :: 0 < requests[i])
                  && chain.value.rest.volume == p.volume - SumOf(requests)
                  && |chain.value.parcels| == |requests|
                  && (forall i | 0 <= i < |requests| :: chain.value.parcels[i].volume == requests[i]))
            && (!IsWater(p.carrier) || p.water == p.volume ==>
                  (chain.Some? <==>
                     SumOf(requests) <= p.volume && forall i | 0 <= i < |requests| :: 0 < requests[i]))
    decreases |requests|
  {
    if requests != [] {
      var r := requests[0];
      TakenWhole(p, r);
      hide Valid, Taken, Left, Takeable;
      if Takeable(p, r) {
        ChainSucceedsIff(Left(p, r), requests[1..]);
      }
      assert requests == [r] + requests[1..];
    }
  }

  function SumOf(amounts: seq<nat>): nat {
    if amounts == [] then 0 else amounts[0] + SumOf(amounts[1..])
  }

  lemma TakenWhole(p: Parcel, r: nat)
    requires Valid(p)
    ensures Takeable(p, r) ==>
              && 0 < r <= p.volume && Valid(Left(p, r))
              && Left(p, r).volume == p.volume - r && Taken(p, r).volume == r
    ensures (!IsWater(p.carrier) || p.water == p.volume) && 0 < r <= p.volume ==>
              && Takeable(p, r) && (!IsWater(Left(p, r).carrier) || Left(p, r).water == Left(p, r).volume)
  {
    if Takeable(p, r) {
      TakeablePieces(p, r);
    }
    if p.water == p.volume && 0 < r <= p.volume {
      WholePart(r, p.volume);
    }
    hide Valid, SolutesTaken, SolutesLeft, HeatPart, SaltPart, Part;
  }

  lemma WholePart(r: nat, v: nat)
    requires 0 < r <= v
    ensures Part(v, r, v) == r && v <= v * r
  {
    Monotone(v, 1, r);
    WholeQuotient(v * r, v, r);
  }

  lemma WholeQuotient(n: nat, v: nat, q: nat)
    requires 0 < v && n == v * q
    ensures n / v == q
  {
    var k := n / v;
    assert n == v * k + n % v && 0 <= n % v < v;
    assert v * (q - k) == n % v;
    if q > k {
      Monotone(v, 1, q - k);
    } else if q < k {
      Monotone(v, q - k, -1);
    }
  }

  lemma NothingLeft(p: Parcel, requests: seq<nat>)
    requires requests != [] && Takeable(p, requests[0]) && Left(p, requests[0]) == Empty && TakeAll(p, requests).Some?
    ensures TakeAll(Left(p, requests[0]), requests[1..]) == Some(Chain([], Empty)) && requests[1..] == []
  {
    NothingTakeable(if |requests| > 1 then requests[1] else 0);
  }

  lemma NothingTakeable(r: nat)
    ensures !Takeable(Empty, r)
  {
  }

  lemma AloneWhole(p: Parcel)
    ensures PartOf(p, [], p)
  {
  }

  lemma JoinPart(p: Parcel, r: nat, later: Chain)
    requires 0 < r <= p.volume && PartOf(later.rest, later.parcels, Left(p, r))
    ensures PartOf(later.rest, [Taken(p, r)] + later.parcels, p)
  {
    TakeSplits(p, r);
    var taken, left, parts := Taken(p, r), Left(p, r), [Taken(p, r)] + later.parcels;
    assert parts[1..] == later.parcels;
    SumSeqFirst(parts, VolumeOf());
    SumSeqFirst(parts, WaterOf());
    SumSeqFirst(parts, SaltOf());
    SumSeqFirst(parts, HeatOf());
    SumSeqFirst(parts, DrossOf());
    hide Taken, Left, SumSeq, Units;
    forall name: string
      ensures Units(later.rest.solutes, name) + SumSeq(parts, SoluteOf(name)) == Units(p.solutes, name)
    {
      SumSeqFirst(parts, SoluteOf(name));
      assert Units(taken.solutes, name) + Units(left.solutes, name) == Units(p.solutes, name);
    }
  }

  // ----- any order -----

  lemma PermutedWhole(a: seq<Parcel>, b: seq<Parcel>, whole: Parcel)
    requires multiset(a) == multiset(b) && PartOf(Empty, a, whole) && Pieces(a, whole)
    ensures PartOf(Empty, b, whole) && Pieces(b, whole)
  {
    SumSeqPermuted(a, b, VolumeOf());
    SumSeqPermuted(a, b, WaterOf());
    SumSeqPermuted(a, b, SaltOf());
    SumSeqPermuted(a, b, HeatOf());
    SumSeqPermuted(a, b, DrossOf());
    forall name: string ensures SumSeq(b, SoluteOf(name)) == SumSeq(a, SoluteOf(name)) {
      SumSeqPermuted(a, b, SoluteOf(name));
    }
    forall i | 0 <= i < |b| ensures Valid(b[i]) && 0 < b[i].volume && b[i].carrier == whole.carrier {
      assert b[i] in multiset(a);
      var j :| 0 <= j < |a| && a[j] == b[i];
      hide Valid;
    }
    hide Valid, SumSeq, Units;
  }

  lemma WholeFromAll(rest: Parcel, parcels: seq<Parcel>, whole: Parcel)
    requires PartOf(rest, parcels, whole)
    ensures PartOf(Empty, [rest] + parcels, whole)
  {
    var all := [rest] + parcels;
    assert all[1..] == parcels;
    SumSeqFirst(all, VolumeOf());
    SumSeqFirst(all, WaterOf());
    SumSeqFirst(all, SaltOf());
    SumSeqFirst(all, HeatOf());
    SumSeqFirst(all, DrossOf());
    hide SumSeq;
    forall name: string ensures Units(Empty.solutes, name) + SumSeq(all, SoluteOf(name)) == Units(whole.solutes, name) {
      SumSeqFirst(all, SoluteOf(name));
      assert Units(rest.solutes, name) + SumSeq(parcels, SoluteOf(name)) == Units(whole.solutes, name);
    }
  }

  /** Every parcel of a chain and its remainder, poured back together in any order, are exactly the liquid again. */
  lemma ChainMergesBack(p: Parcel, requests: seq<nat>, order: seq<Parcel>)
    requires Valid(p) && 0 < p.volume && p.salt <= U64_MAX && TakeAll(p, requests).Some?
    requires var chain := TakeAll(p, requests).value;
             multiset(order) == multiset(if chain.rest.volume == 0 then chain.parcels else [chain.rest] + chain.parcels)
    ensures MergeAll(Empty, order) == Ok(p)
    ensures order != [] && MergeAll(order[0], order[1..]) == Ok(p)
  {
    hide *;
    ChainPieces(p, requests);
    var chain := TakeAll(p, requests).value;
    if chain.rest.volume == 0 {
      AllTaken(p, chain);
      PermutedWhole(chain.parcels, order, p);
    } else {
      WholeFromAll(chain.rest, chain.parcels, p);
      MorePieces(chain.rest, chain.parcels, p);
      PermutedWhole([chain.rest] + chain.parcels, order, p);
    }
    EmptyIsValid();
    MergeRestores(Empty, order, p);
    FromEmpty(order, p);
  }

  lemma MorePieces(rest: Parcel, parcels: seq<Parcel>, whole: Parcel)
    requires Pieces(parcels, whole) && Valid(rest) && 0 < rest.volume && rest.carrier == whole.carrier
    ensures Pieces([rest] + parcels, whole)
  {
    hide Valid;
  }

  lemma AllTaken(p: Parcel, chain: Chain)
    requires PartOf(chain.rest, chain.parcels, p) && chain.rest.volume == 0 && 0 < p.volume
    requires chain.rest == Empty || chain.parcels == []
    ensures PartOf(Empty, chain.parcels, p)
  {
    assert SumSeq(chain.parcels, VolumeOf()) == p.volume;
  }

  lemma EmptyIsValid()
    ensures Valid(Empty)
  {
  }

  lemma FromEmpty(order: seq<Parcel>, p: Parcel)
    requires MergeAll(Empty, order) == Ok(p) && 0 < p.volume
    ensures order != [] && MergeAll(order[0], order[1..]) == Ok(p)
  {
    if order != [] {
      assert Added(Empty, order[0]).Ok? ==> Added(Empty, order[0]) == Ok(order[0]);
      hide Valid;
    }
  }

  lemma {:induction false} EmptyAmong(acc: Parcel, rest: seq<Parcel>)
    requires Valid(acc) && 0 < acc.volume && Empty in rest
    ensures MergeAll(acc, rest).Err?
    decreases |rest|
  {
    hide Valid, SolutesSum;
    var next := Added(acc, rest[0]);
    if next.Ok? {
      AddedGrows(acc, rest[0]);
      assert Empty in rest[1..] by {
        assert rest == [rest[0]] + rest[1..];
      }
      EmptyAmong(next.value, rest[1..]);
    }
  }

  lemma AddedGrows(a: Parcel, b: Parcel)
    requires Added(a, b).Ok? && 0 < a.volume
    ensures b != Empty && Valid(Added(a, b).value) && 0 < Added(a, b).value.volume
  {
    hide SolutesSum, SolutesValid;
  }

  lemma TailPermutes<T>(order: seq<T>, all: seq<T>)
    requires order != [] && all != [] && order[0] == all[0] && multiset(order) == multiset(all)
    ensures multiset(order[1..]) == multiset(all[1..])
  {
    assert order == [order[0]] + order[1..] && all == [all[0]] + all[1..];
    assert multiset(order) == multiset{order[0]} + multiset(order[1..]);
    assert multiset(all) == multiset{all[0]} + multiset(all[1..]);
    assert multiset(order[1..]) == multiset(order) - multiset{order[0]};
    assert multiset(all[1..]) == multiset(all) - multiset{all[0]};
  }

  /** The parcels of any chain of takes and whatever remains, an empty vessel included, are exactly the liquid again in
      whatever order they are poured together, unless something was poured before the empty remainder. */
  lemma ChainMergesIff(p: Parcel, requests: seq<nat>, order: seq<Parcel>)
    requires Valid(p) && 0 < p.volume && p.salt <= U64_MAX && TakeAll(p, requests).Some?
    requires var chain := TakeAll(p, requests).value; multiset(order) == multiset([chain.rest] + chain.parcels)
    ensures order != []
    ensures MergeAll(order[0], order[1..]).Ok? ==> MergeAll(order[0], order[1..]) == Ok(p)
    ensures MergeAll(order[0], order[1..]).Ok? <==> 0 < TakeAll(p, requests).value.rest.volume || order[0] == Empty
  {
    ChainPieces(p, requests);
    var chain := TakeAll(p, requests).value;
    var all := [chain.rest] + chain.parcels;
    hide Valid, TakeAll, MergeAll;
    SameLength(order, all);
    if 0 < chain.rest.volume {
      ChainMergesBack(p, requests, order);
    } else {
      RestIsEmpty(p, chain);
      assert all[1..] == chain.parcels;
      if order[0] == Empty {
        TailPermutes(order, all);
        ChainMergesBack(p, requests, order[1..]);
      } else {
        PieceOrRest(chain, order, p);
        EmptyAmong(order[0], order[1..]);
      }
    }
  }

  lemma RestIsEmpty(p: Parcel, chain: Chain)
    requires PartOf(chain.rest, chain.parcels, p) && chain.rest.volume == 0 && 0 < p.volume
    requires chain.rest == Empty || chain.parcels == []
    ensures chain.rest == Empty
  {
    assert SumSeq(chain.parcels, VolumeOf()) == p.volume;
  }

  lemma PieceOrRest(chain: Chain, order: seq<Parcel>, p: Parcel)
    requires multiset(order) == multiset([chain.rest] + chain.parcels) && order != [] && order[0] != Empty
    requires chain.rest == Empty && Pieces(chain.parcels, p)
    ensures Valid(order[0]) && 0 < order[0].volume && Empty in order[1..]
  {
    var all := [chain.rest] + chain.parcels;
    assert order[0] in multiset(order) && all[0] in multiset(all);
    assert order[0] in all && Empty in order;
    assert order == [order[0]] + order[1..];
    var i :| 0 <= i < |all| && all[i] == order[0];
    hide Valid;
    assert chain.parcels[i - 1] == order[0];
  }

  /** The one remainder that cannot be poured back is an empty one, once there is something to pour it into. */
  lemma EmptyCannotFollow(acc: Parcel, before: Parcel)
    requires Valid(acc)
    ensures before.volume == 0 && Valid(before) ==> (Added(acc, before).Ok? <==> acc.volume == 0)
  {
    hide SolutesValid;
  }

  // ----- the liquid in a vessel -----

  class ExactLiquid {
    var carrier: Option<CarrierKind>
    var volume: nat
    var water: nat
    var salt: nat
    var thermal: int
    var dross: nat
    var solutes: map<string, nat>

    function Value(): Parcel
      reads this
    {
      Parcel(carrier, volume, water, salt, thermal, dross, solutes)
    }

    constructor (p: Parcel)
      ensures Value() == p
    {
      carrier, volume, water, salt := p.carrier, p.volume, p.water, p.salt;
      thermal, dross, solutes := p.thermal, p.dross, p.solutes;
    }

    method Store(p: Parcel)
      modifies this
      ensures Value() == p
    {
      carrier, volume, water, salt := p.carrier, p.volume, p.water, p.salt;
      thermal, dross, solutes := p.thermal, p.dross, p.solutes;
    }

    /** Draw off a parcel. It succeeds exactly for a valid liquid, a volume it has, and, for water by name, a share
        that carries planetary water; failing that last condition the parcel has already been lost. */
    method Take(requested: nat) returns (r: Result<Parcel, AlchemyError>)
      modifies this
      ensures r.Ok? <==> Takeable(old(Value()), requested)
      ensures r.Ok? ==> r.value == Taken(old(Value()), requested) && Value() == Left(old(Value()), requested)
      ensures r.Err? ==>
                Value() == if Valid(old(Value())) && 0 < requested < old(volume) then Left(old(Value()), requested)
                                    else old(Value())
    {
      ghost var before := Value();
      if !Valid(Value()) {
        return Err(Corrupt);
      }
      if requested == 0 || requested > volume {
        return Err(InvalidOperation);
      }
      if requested == volume {
        r := Ok(Value());
        Store(Empty);
        return;
      }
      TakeValid(before, requested);
      PartBounds(water, requested, volume);
      PartBounds(dross, requested, volume);
      SaltBound(salt, Part(water, requested, volume), water);
      hide Valid, Part, HeatPart, SaltPart, SolutesTaken, SolutesLeft, IsWater;
      var movedWater := Part(water, requested, volume);
      var movedSalt := SaltPart(salt, movedWater, water);
      var movedHeat := HeatPart(thermal, requested, volume);
      var movedDross := Part(dross, requested, volume);
      var moved, left := SplitSolutes(solutes, requested, volume);
      water, salt, thermal, dross, solutes :=
        water - movedWater, salt - movedSalt, thermal - movedHeat, dross - movedDross, left;
      volume := volume - requested;
      var parcel := Parcel(carrier, requested, movedWater, movedSalt, movedHeat, movedDross, moved);
      assert parcel == Taken(before, requested) && Value() == Left(before, requested);
      if !Valid(Value()) || !Valid(parcel) {
        return Err(Corrupt);
      }
      r := Ok(parcel);
    }

    /** Pour another liquid in. It succeeds exactly when the addition is defined and then holds the sum; an addition
        that is refused before any component was touched changes nothing, an overflow leaves what was added before it,
        and a sum found invalid stays. */
    method CheckedAdd(other: Parcel) returns (r: Result<(), AlchemyError>)
      modifies this
      ensures r.Ok? <==> Added(old(Value()), other).Ok?
      ensures r.Ok? ==> Value() == Added(old(Value()), other).value
      ensures r.Err? ==> Added(old(Value()), other) == Err(r.error)
      ensures r.Err? && (!Valid(old(Value())) || !Valid(other) || r.error == InvalidOperation) ==>
                Value() == old(Value())
      ensures r.Err? && r.error == Overflow ==> Overflowed(old(Value()), other, Value())
      ensures r.Err? && r.error == Corrupt && Valid(old(Value())) && Valid(other) ==>
                Value() == Sum(old(Value()), other)
    {
      ghost var before := Value();
      if !Valid(Value()) || !Valid(other) {
        return Err(Corrupt);
      }
      if volume == 0 {
        Store(other);
        return Ok(());
      }
      AddedCases(before, other);
      CanonicalSolutes(before);
      hide *;
      if other.volume == 0 || carrier != other.carrier {
        return Err(InvalidOperation);
      }
      var ok := AddComponents(other);
      if !ok {
        return Err(Overflow);
      }
      if !Valid(Value()) {
        return Err(Corrupt);
      }
      r := Ok(());
    }

    /** Add every component with a range check; on overflow the components before it have already been added. */
    method AddComponents(other: Parcel) returns (ok: bool)
      requires forall name | name in solutes :: 0 < solutes[name]
      modifies this
      ensures ok <==> old(volume) + other.volume <= MAX_BATCH_VOLUME_UNITS && SumsInRange(old(Value()), other)
                      && SolutesInRange(old(solutes), other.solutes)
      ensures ok ==> Value() == Sum(old(Value()), other)
      ensures !ok ==> Overflowed(old(Value()), other, Value())
    {
      RangesOf(Value(), other);
      SumIs(Value(), other);
      hide Sum, SumsInRange, SolutesSum, SolutesInRange;
      if volume + other.volume > MAX_BATCH_VOLUME_UNITS {
        return false;
      }
      volume := volume + other.volume;
      if water + other.water > U64_MAX || salt + other.salt > U64_MAX {
        return false;
      }
      water, salt := water + other.water, salt + other.salt;
      if !(-I64_MAX - 1 <= thermal + other.thermal <= I64_MAX) || dross + other.dross > U64_MAX {
        return false;
      }
      thermal, dross := thermal + other.thermal, dross + other.dross;
      var sum;
      sum, ok := AddMaterialVector(solutes, other.solutes);
      solutes := sum;
    }
  }

  /** What an overflow leaves: each stage before it has been added, and of the solutes some names but not the one that
      overflows. */
  ghost predicate Overflowed(a: Parcel, b: Parcel, after: Parcel) {
    var filled := a.(volume := a.volume + b.volume);
    var watered := filled.(water := a.water + b.water, salt := a.salt + b.salt);
    var heated := watered.(thermal := a.thermal + b.thermal, dross := a.dross + b.dross);
    if a.volume + b.volume > MAX_BATCH_VOLUME_UNITS then after == a
    else if a.water + b.water > U64_MAX || a.salt + b.salt > U64_MAX then after == filled
    else if !(-I64_MAX - 1 <= a.thermal + b.thermal <= I64_MAX) || a.dross + b.dross > U64_MAX then after == watered
    else after == heated.(solutes := after.solutes) && StoppedAdding(a.solutes, b.solutes, after.solutes)
  }

  lemma AddedCases(a: Parcel, b: Parcel)
    requires Valid(a) && Valid(b) && 0 < a.volume
    ensures b.volume == 0 || a.carrier != b.carrier ==> Added(a, b) == Err(InvalidOperation)
    ensures 0 < b.volume && a.carrier == b.carrier ==>
              Added(a, b)
              == if a.volume + b.volume > MAX_BATCH_VOLUME_UNITS || !SumsInRange(a, b)
                 || !SolutesInRange(a.solutes, b.solutes)
                 then Err(Overflow)
                 else if Valid(Sum(a, b)) then Ok(Sum(a, b)) else Err(Corrupt)
  {
    hide Valid, Sum, SumsInRange, SolutesInRange;
  }

  lemma RangesOf(a: Parcel, b: Parcel)
    ensures SumsInRange(a, b)
            <==> a.water + b.water <= U64_MAX && a.salt + b.salt <= U64_MAX
                 && -I64_MAX - 1 <= a.thermal + b.thermal <= I64_MAX && a.dross + b.dross <= U64_MAX
  {
  }

  lemma SumIs(a: Parcel, b: Parcel)
    ensures Sum(a, b)
            == Parcel(a.carrier, a.volume + b.volume, a.water + b.water, a.salt + b.salt, a.thermal + b.thermal,
                                a.dross + b.dross, SolutesSum(a.solutes, b.solutes))
  {
  }

  lemma CanonicalSolutes(p: Parcel)
    requires Valid(p)
    ensures forall name | name in p.solutes :: 0 < p.solutes[name]
  {
    hide ContentId;
  }

  /** Every solute gives up the floor of its share; what is left over stays. */
  method SplitSolutes(solutes: map<string, nat>, r: nat, v: nat)
    returns (moved: map<string, nat>, left: map<string, nat>)
    requires 0 < r < v
    ensures moved == SolutesTaken(solutes, r, v) && left == SolutesLeft(solutes, r, v)
  {
    hide *;
    moved, left := map[], map[];
    var todo := solutes.Keys;
    SplitNone(solutes, r, v);
    while todo != {}
      invariant todo <= solutes.Keys && SplitSoFar(solutes, r, v, todo, moved, left)
      decreases |todo|
    {
      var name :| name in todo;
      PartBounds(solutes[name], r, v);
      var units := Part(solutes[name], r, v);
      SplitNext(solutes, r, v, todo, moved, left, name, units);
      if units != 0 {
        moved := moved[name := units];
      }
      if solutes[name] - units != 0 {
        left := left[name := solutes[name] - units];
      }
      todo := todo - {name};
    }
    SplitAll(solutes, r, v, moved, left);
  }

  ghost predicate SplitSoFar(solutes: map<string, nat>, r: nat, v: nat, todo: set<string>, moved: map<string, nat>,
                             left: map<string, nat>)
    requires 0 < v
  {
    && moved == (map name | name in solutes && name !in todo && Part(solutes[name], r, v) != 0 ::
                 Part(solutes[name], r, v))
    && left == (map name | name in solutes && name !in todo
                && Saturating(solutes[name], Part(solutes[name], r, v)) != 0 ::
                  Saturating(solutes[name], Part(solutes[name], r, v)))
  }

  lemma SplitNone(solutes: map<string, nat>, r: nat, v: nat)
    requires 0 < v
    ensures SplitSoFar(solutes, r, v, solutes.Keys, map[], map[])
  {
    hide Part;
  }

  lemma SplitNext(solutes: map<string, nat>, r: nat, v: nat, todo: set<string>, moved: map<string, nat>,
                  left: map<string, nat>,
                  name: string, units: nat)
    requires 0 < v && name in todo && name in solutes && units == Part(solutes[name], r, v) <= solutes[name]
    requires SplitSoFar(solutes, r, v, todo, moved, left)
    ensures SplitSoFar(solutes, r, v, todo - {name}, if units != 0 then moved[name := units] else moved,
                       if solutes[name] - units != 0 then left[name := solutes[name] - units] else left)
  {
    hide Part;
  }

  lemma SplitAll(solutes: map<string, nat>, r: nat, v: nat, moved: map<string, nat>, left: map<string, nat>)
    requires 0 < v && SplitSoFar(solutes, r, v, {}, moved, left)
    ensures moved == SolutesTaken(solutes, r, v) && left == SolutesLeft(solutes, r, v)
  {
    hide Part;
  }

  /** Add one material vector to another, name by name; it fails when some name would pass 64 bits. */
  method AddMaterialVector(into: map<string, nat>, other: map<string, nat>) returns (sum: map<string, nat>, ok: bool)
    requires forall name | name in into :: 0 < into[name]
    ensures ok <==> SolutesInRange(into, other)
    ensures ok ==> sum == SolutesSum(into, other)
    ensures !ok ==> StoppedAdding(into, other, sum)
  {
    hide *;
    sum := into;
    var todo := other.Keys;
    NothingAdded(into, other);
    while todo != {}
      invariant todo <= other.Keys && PartlyAdded(into, other, todo, sum)
      decreases |todo|
    {
      var name :| name in todo;
      var next := Units(sum, name) + other[name];
      NextAdded(into, other, todo, sum, name, next);
      if next > U64_MAX {
        StoppedAt(into, other, todo, sum, name);
        return sum, false;
      }
      if next == 0 {
        sum := sum - {name};
      } else {
        sum := sum[name := next];
      }
      todo := todo - {name};
    }
    AllAdded(into, other, sum);
    ok := true;
  }

  /** The vector with every name added but those still to do, without zero entries. */
  ghost predicate PartlyAdded(into: map<string, nat>, other: map<string, nat>, todo: set<string>, sum: map<string, nat>)
  {
    && (forall name | name in other.Keys - todo :: Units(into, name) + Units(other, name) <= U64_MAX)
    && (forall name: string :: Units(sum, name) == Units(into, name) + if name in todo then 0 else Units(other, name))
    && (forall name | name in sum :: 0 < sum[name])
  }

  /** Some names have been added, and one of the others would overflow. */
  ghost predicate StoppedAdding(into: map<string, nat>, other: map<string, nat>, sum: map<string, nat>) {
    exists todo: set<string>, name: string ::
      && PartlyAdded(into, other, todo, sum) && todo <= other.Keys
      && name in todo && U64_MAX < Units(into, name) + other[name]
  }

  lemma StoppedAt(into: map<string, nat>, other: map<string, nat>, todo: set<string>, sum: map<string, nat>,
                  name: string)
    requires PartlyAdded(into, other, todo, sum) && todo <= other.Keys && name in todo
    requires U64_MAX < Units(sum, name) + other[name]
    ensures StoppedAdding(into, other, sum)
  {
    assert Units(sum, name) == Units(into, name);
    hide PartlyAdded, Units;
  }

  lemma NothingAdded(into: map<string, nat>, other: map<string, nat>)
    requires forall name | name in into :: 0 < into[name]
    ensures PartlyAdded(into, other, other.Keys, into)
  {
  }

  lemma NextAdded(into: map<string, nat>, other: map<string, nat>, todo: set<string>, sum: map<string, nat>,
                  name: string, next: nat)
    requires todo <= other.Keys && name in todo && PartlyAdded(into, other, todo, sum)
             && next == Units(sum, name) + other[name]
    ensures next > U64_MAX ==> !SolutesInRange(into, other)
    ensures next <= U64_MAX ==>
              PartlyAdded(into, other, todo - {name}, if next == 0 then sum - {name} else sum[name := next])
  {
    assert Units(into, name) + Units(other, name) == next;
    var after := if next == 0 then sum - {name} else sum[name := next];
    if next <= U64_MAX {
      forall n: string ensures Units(after, n) == Units(into, n) + if n in todo - {name} then 0 else Units(other, n) {
        assert Units(sum, n) == Units(into, n) + if n in todo then 0 else Units(other, n);
      }
      forall n | n in other.Keys - (todo - {name}) ensures Units(into, n) + Units(other, n) <= U64_MAX {
        assert n in other.Keys - todo || n == name;
        hide Units;
      }
    }
    hide Units;
  }

  lemma AllAdded(into: map<string, nat>, other: map<string, nat>, sum: map<string, nat>)
    requires PartlyAdded(into, other, {}, sum)
    ensures SolutesInRange(into, other) && sum == SolutesSum(into, other)
  {
    var goal := SolutesSum(into, other);
    forall name: string ensures name in sum <==> name in goal {
      SumUnits(into, other, name);
      assert Units(sum, name) == Units(into, name) + Units(other, name);
      hide SolutesSum;
      PositiveGoal(into, other);
    }
    forall name | name in sum ensures sum[name] == goal[name] {
      SumUnits(into, other, name);
      assert Units(sum, name) == Units(into, name) + Units(other, name);
    }
  }

  lemma PositiveGoal(a: map<string, nat>, b: map<string, nat>)
    ensures forall name | name in SolutesSum(a, b) :: 0 < SolutesSum(a, b)[name]
  {
  }
}
