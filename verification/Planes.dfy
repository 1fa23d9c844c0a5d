/** Uniform-or-dense voxel planes and their runs. */
module Planes {
  import opened Prelude

  const CHUNK_X: nat := 16
  const CHUNK_Y: nat := 256
  const CHUNK_Z: nat := 16
  const CHUNK_CELLS: nat := 65_536

  function Idx(x: nat, y: nat, z: nat): nat {
    (x * CHUNK_Z + z) * CHUNK_Y + y
  }

  /** Every cell of a chunk has exactly one index, and every index is a cell's. */
  lemma IdxIsBijection(i: nat, x: nat, y: nat, z: nat)
    requires x < CHUNK_X && y < CHUNK_Y && z < CHUNK_Z
    ensures Idx(x, y, z) < CHUNK_CELLS
    ensures Idx(x, y, z) == i
            <==> i < CHUNK_CELLS && x == i / CHUNK_Y / CHUNK_Z && z == i / CHUNK_Y % CHUNK_Z && y == i % CHUNK_Y
  {
    var column := x * CHUNK_Z + z;
    assert (column * 256 + y) / 256 == column && (column * 256 + y) % 256 == y;
    assert column / 16 == x && column % 16 == z;
  }

  // ----- runs of a sequence -----

  datatype Run<T> = Run(value: T, length: nat)

  /** How far the first value reaches from the start. */
  ghost function Lead<T>(s: seq<T>): nat
    requires s != []
  {
    if |s| > 1 && s[1] == s[0] then 1 + Lead(s[1..]) else 1
  }

  lemma {:induction false} LeadBounds<T>(s: seq<T>)
    requires s != []
    ensures 1 <= Lead(s) <= |s|
    ensures forall k | 0 <= k < Lead(s) :: s[k] == s[0]
    ensures Lead(s) < |s| ==> s[Lead(s)] != s[0]
  {
    if |s| > 1 && s[1] == s[0] {
      LeadBounds(s[1..]);
      forall k | 0 <= k < Lead(s) ensures s[k] == s[0] {
        if k > 0 {
          assert s[k] == s[1..][k - 1];
        }
      }
    }
  }

  lemma {:induction false} LeadIs<T>(s: seq<T>, n: nat)
    requires 0 < n <= |s| && (forall k | 0 <= k < n :: s[k] == s[0]) && (n < |s| ==> s[n] != s[0])
    ensures Lead(s) == n
  {
    if n > 1 {
      assert s[1] == s[0];
      LeadIs(s[1..], n - 1);
    }
  }

  ghost function RunsOf<T>(s: seq<T>): seq<Run<T>> {
    if s == [] then []
    else
      LeadBounds(s);
      [Run(s[0], Lead(s))] + RunsOf(s[Lead(s)..])
  }

  function Repeat<T>(value: T, n: nat): seq<T> {
    seq(n, _ => value)
  }

  function Expand<T>(runs: seq<Run<T>>): seq<T> {
    if runs == [] then [] else Repeat(runs[0].value, runs[0].length) + Expand(runs[1..])
  }

  /** Positive runs whose neighbours differ. */
  ghost predicate Maximal<T>(runs: seq<Run<T>>) {
    && (forall i | 0 <= i < |runs| :: 0 < runs[i].length)
    && (forall i | 0 < i < |runs| :: runs[i - 1].value != runs[i].value)
  }

  /** Written out, the runs are the cells again, and they are as long as they can be. */
  lemma {:induction false} RunsExpand<T>(s: seq<T>)
    ensures Expand(RunsOf(s)) == s && Maximal(RunsOf(s))
  {
    if s != [] {
      LeadBounds(s);
      var n := Lead(s);
      RunsExpand(s[n..]);
      RunsOfStep(s);
      FirstRun(s, n, RunsOf(s[n..]));
      if n < |s| {
        RunsOfStep(s[n..]);
      }
    }
  }

  lemma RunsOfStep<T>(s: seq<T>)
    requires s != []
    ensures 1 <= Lead(s) <= |s| && RunsOf(s) == [Run(s[0], Lead(s))] + RunsOf(s[Lead(s)..])
  {
    LeadBounds(s);
  }

  lemma FirstRun<T>(s: seq<T>, n: nat, rest: seq<Run<T>>)
    requires 0 < n <= |s| && (forall k | 0 <= k < n :: s[k] == s[0]) && Expand(rest) == s[n..]
    ensures Expand([Run(s[0], n)] + rest) == s
  {
    var runs := [Run(s[0], n)] + rest;
    assert runs[1..] == rest;
    assert Repeat(s[0], n) == s[..n];
    assert s[..n] + s[n..] == s;
  }

  lemma {:induction false} ExpandStart<T>(runs: seq<Run<T>>)
    requires runs != [] && Maximal(runs)
    ensures Expand(runs) != [] && Expand(runs)[0] == runs[0].value && Lead(Expand(runs)) == runs[0].length
  {
    var s, n := Expand(runs), runs[0].length;
    assert s == Repeat(runs[0].value, n) + Expand(runs[1..]);
    assert 0 < n;
    if |runs| > 1 {
      assert Maximal(runs[1..]);
      ExpandStart(runs[1..]);
      assert s[n] == Expand(runs[1..])[0];
      assert runs[0].value != runs[1].value;
    }
    LeadIs(s, n);
  }

  /** There is only one way to write cells as maximal runs, so a codec that stores runs stores the cells. */
  lemma {:induction false} RunsUnique<T>(runs: seq<Run<T>>)
    requires Maximal(runs)
    ensures RunsOf(Expand(runs)) == runs
  {
    if runs != [] {
      ExpandStart(runs);
      var s, n := Expand(runs), runs[0].length;
      assert s == Repeat(runs[0].value, n) + Expand(runs[1..]);
      assert s[n..] == Expand(runs[1..]);
      assert Maximal(runs[1..]);
      RunsUnique(runs[1..]);
    }
  }

  lemma NoRuns<T>(s: seq<T>)
    requires s == []
    ensures RunsOf(s) == []
  {
  }

  ghost function LengthOf<T>(): Run<T> -> int {
    (r: Run<T>) => r.length
  }

  lemma {:induction false} RunsFill<T>(runs: seq<Run<T>>)
    ensures SumSeq(runs, LengthOf()) == |Expand(runs)|
  {
    if runs != [] {
      SumSeqFirst(runs, LengthOf());
      RunsFill(runs[1..]);
    }
  }

  // ----- planes -----

  datatype Storage<T> = Uniform(value: T) | Dense(cells: array<T>)

  /** One value for every cell of a chunk, stored once while all cells agree. */
  class Plane<T(==)> {
    var storage: Storage<T>

    ghost predicate Valid()
      reads this
    {
      storage.Dense? ==> storage.cells.Length == CHUNK_CELLS
    }

    ghost function Footprint(): set<object>
      reads this
    {
      if storage.Dense? then {this, storage.cells} else {this}
    }

    /** The full array this plane stands for. */
    ghost function Contents(): (s: seq<T>)
      reads this, if storage.Dense? then {storage.cells} else {}
      requires Valid()
      ensures |s| == CHUNK_CELLS
    {
      if storage.Uniform? then Repeat(storage.value, CHUNK_CELLS) else storage.cells[..]
    }

    constructor (value: T)
      ensures Valid() && storage == Uniform(value) && Contents() == Repeat(value, CHUNK_CELLS)
    {
      storage := Uniform(value);
    }

    constructor FromSlice(values: seq<T>)
      requires |values| == CHUNK_CELLS
      ensures Valid() && Contents() == values && fresh(Footprint())
      ensures storage.Uniform? <==> forall i | 0 <= i < CHUNK_CELLS :: values[i] == values[0]
    {
      var all := AllEqual(values, values[0]);
      if all {
        storage := Uniform(values[0]);
      } else {
        var cells := new T[CHUNK_CELLS](i requires 0 <= i < CHUNK_CELLS => values[i]);
        storage := Dense(cells);
      }
      new;
      assert Contents() == values;
    }

    method Get(i: nat) returns (value: T)
      requires Valid() && i < CHUNK_CELLS
      ensures value == Contents()[i]
    {
      value := match storage { case Uniform(v) => v case Dense(cells) => cells[i] };
    }

    method Densify()
      requires Valid()
      modifies this
      ensures Valid() && storage.Dense? && Contents() == old(Contents())
      ensures fresh(Footprint() - old(Footprint()))
    {
      if storage.Uniform? {
        var value := storage.value;
        var cells := new T[CHUNK_CELLS](_ => value);
        storage := Dense(cells);
        assert Contents() == old(Contents());
      }
    }

    method Set(i: nat, value: T)
      requires Valid() && i < CHUNK_CELLS
      modifies Footprint()
      ensures Valid() && Contents() == old(Contents())[i := value]
      ensures fresh(Footprint() - old(Footprint()))
    {
      if storage.Uniform? && storage.value == value {
        assert Contents() == old(Contents())[i := value];
        return;
      }
      Densify();
      storage.cells[i] := value;
    }

    method Compact()
      requires Valid()
      modifies this
      ensures Valid() && Contents() == old(Contents()) && fresh(Footprint() - old(Footprint()))
      ensures storage.Uniform? <==> forall i | 0 <= i < CHUNK_CELLS :: Contents()[i] == Contents()[0]
    {
      if storage.Dense? {
        var all := AllEqual(storage.cells[..], storage.cells[0]);
        if all {
          ghost var was := storage.cells[..];
          assert forall i | 0 <= i < CHUNK_CELLS :: was[i] == was[0];
          storage := Uniform(storage.cells[0]);
          assert Contents() == was;
        } else {
          ghost var now := Contents();
          assert now == storage.cells[..];
          ghost var i :| 0 <= i < CHUNK_CELLS && storage.cells[..][i] != storage.cells[0];
          assert now[i] != now[0];
        }
      }
    }

    /** For a full array this is equality; a uniform plane only looks at the values it is given. */
    method Matches(values: seq<T>) returns (same: bool)
      requires Valid()
      ensures |values| == CHUNK_CELLS ==> (same <==> Contents() == values)
      ensures same <==> if storage.Uniform? then forall i | 0 <= i < |values| :: values[i] == storage.value
                        else Contents() == values
    {
      if storage.Uniform? {
        same := AllEqual(values, storage.value);
        if same && |values| == CHUNK_CELLS {
          assert Contents() == values;
        } else if |values| == CHUNK_CELLS {
          ghost var i :| 0 <= i < |values| && values[i] != storage.value;
          assert Contents()[i] != values[i];
        }
      } else {
        same := storage.cells[..] == values;
      }
    }
  }

  method AllEqual<T(==)>(values: seq<T>, value: T) returns (all: bool)
    ensures all <==> forall i | 0 <= i < |values| :: values[i] == value
  {
    for i := 0 to |values|
      invariant forall k | 0 <= k < i :: values[k] == value
    {
      if values[i] != value {
        return false;
      }
    }
    all := true;
  }

  /** A cursor over the runs of a plane. */
  class PlaneRuns<T(==)> {
    const plane: Plane<T>
    var at: nat

    ghost predicate Valid()
      reads this, plane
    {
      plane.Valid() && at <= CHUNK_CELLS && (plane.storage.Uniform? ==> at == 0 || at == CHUNK_CELLS)
    }

    constructor (plane: Plane<T>)
      requires plane.Valid()
      ensures Valid() && this.plane == plane && at == 0
    {
      this.plane, at := plane, 0;
    }

    /** Each call yields the next maximal run of what is left, and the last one ends at the last cell. */
    method Next() returns (run: Option<Run<T>>)
      requires Valid()
      modifies this
      ensures Valid()
      ensures run.None? <==> old(at) == CHUNK_CELLS
      ensures run.None? ==> at == old(at)
      ensures run.Some? ==> at == old(at) + run.value.length
      ensures run.Some? ==> RunsOf(plane.Contents()[old(at)..]) == [run.value] + RunsOf(plane.Contents()[at..])
    {
      if at >= CHUNK_CELLS {
        return None;
      }
      ghost var left := plane.Contents()[at..];
      if plane.storage.Uniform? {
        LeadIs(left, CHUNK_CELLS);
        run := Some(Run(plane.storage.value, CHUNK_CELLS));
        at := CHUNK_CELLS;
        assert left[CHUNK_CELLS..] == [] == plane.Contents()[at..];
        return;
      }
      var cells := plane.storage.cells;
      var value := cells[at];
      var length := 1;
      while at + length < CHUNK_CELLS && cells[at + length] == value
        invariant 1 <= length <= CHUNK_CELLS - at
        invariant forall k | 0 <= k < length :: left[k] == value
        invariant at == old(at)
      {
        assert left[length] == cells[at + length];
        length := length + 1;
      }
      if at + length < CHUNK_CELLS {
        assert left[length] == cells[at + length];
      }
      LeadIs(left, length);
      at := at + length;
      assert left[length..] == plane.Contents()[at..];
      run := Some(Run(value, length));
    }

    /** Collect every run. */
    method All() returns (runs: seq<Run<T>>)
      requires Valid() && at == 0
      modifies this
      ensures runs == RunsOf(plane.Contents()) && at == CHUNK_CELLS
      ensures Maximal(runs) && Expand(runs) == plane.Contents() && SumSeq(runs, LengthOf()) == CHUNK_CELLS
    {
      hide RunsOf, Maximal, Expand, LengthOf;
      runs := [];
      ghost var whole := plane.Contents();
      assert whole[0..] == whole;
      while at < CHUNK_CELLS
        invariant Valid() && plane.Contents() == whole && |whole| == CHUNK_CELLS
        invariant RunsOf(whole) == runs + RunsOf(whole[at..])
        decreases CHUNK_CELLS - at
      {
        ghost var start := at;
        var run := Next();
        runs := runs + [run.value];
      }
      NoRuns(whole[at..]);
      RunsExpand(whole);
      RunsFill(runs);
    }
  }

  // ----- light -----

  datatype Rgb = Rgb(r: nat, g: nat, b: nat)

  /** The two light planes of a chunk. */
  class Chunk {
    var lightBlock: Plane<Rgb>
    var lightSky: Plane<nat>

    ghost predicate Valid()
      reads this, lightBlock, lightSky
    {
      lightBlock.Valid() && lightSky.Valid()
    }

    constructor (block: Rgb, sky: nat)
      ensures Valid()
    {
      lightBlock := new Plane(block);
      lightSky := new Plane(sky);
    }

    method LightMatches(block: seq<Rgb>, sky: seq<nat>) returns (same: bool)
      requires Valid() && |block| == |sky| == CHUNK_CELLS
      ensures same <==> lightBlock.Contents() == block && lightSky.Contents() == sky
    {
      same := lightBlock.Matches(block);
      if same {
        same := lightSky.Matches(sky);
      }
    }

    method SetLight(block: seq<Rgb>, sky: seq<nat>)
      requires Valid() && |block| == |sky| == CHUNK_CELLS
      modifies this
      ensures Valid() && lightBlock.Contents() == block && lightSky.Contents() == sky
      ensures fresh(lightBlock) && fresh(lightSky)
      ensures lightBlock.storage.Uniform? <==> forall i | 0 <= i < CHUNK_CELLS :: block[i] == block[0]
    {
      lightBlock := new Plane.FromSlice(block);
      lightSky := new Plane.FromSlice(sky);
    }

    /** The reference: expand the uniform colour, compare the field and replace it when it differs. */
    method CompareThenSet(block: Rgb, sky: seq<nat>) returns (changed: bool)
      requires Valid() && |sky| == CHUNK_CELLS
      modifies this
      ensures Valid()
      ensures changed <==>
                old(lightBlock.Contents()) != Repeat(block, CHUNK_CELLS) || old(lightSky.Contents()) != sky
      ensures lightBlock.Contents() == Repeat(block, CHUNK_CELLS) && lightSky.Contents() == sky
      ensures if changed then fresh(lightBlock) && fresh(lightSky) && lightBlock.storage == Uniform(block)
              else lightBlock == old(lightBlock) && lightSky == old(lightSky)
    {
      var full := Repeat(block, CHUNK_CELLS);
      var same := LightMatches(full, sky);
      if same {
        return false;
      }
      SetLight(full, sky);
      UniformStorage(lightBlock, block);
      changed := true;
    }

    /** The same result and flag without building the expanded array. */
    method ReplaceUniformBlockLight(block: Rgb, sky: seq<nat>) returns (changed: bool)
      requires Valid() && |sky| == CHUNK_CELLS
      modifies this
      ensures Valid()
      ensures changed <==>
                old(lightBlock.Contents()) != Repeat(block, CHUNK_CELLS) || old(lightSky.Contents()) != sky
      ensures lightBlock.Contents() == Repeat(block, CHUNK_CELLS) && lightSky.Contents() == sky
      ensures if changed then fresh(lightBlock) && fresh(lightSky) && lightBlock.storage == Uniform(block)
              else lightBlock == old(lightBlock) && lightSky == old(lightSky)
    {
      ghost var field, sky0 := lightBlock.Contents(), lightSky.Contents();
      UniformField(field, block);
      var blockMatches;
      if lightBlock.storage.Uniform? {
        blockMatches := lightBlock.storage.value == block;
        assert field[0] == lightBlock.storage.value;
      } else {
        blockMatches := AllEqual(lightBlock.storage.cells[..], block);
        assert field == lightBlock.storage.cells[..];
      }
      assert blockMatches <==> field == Repeat(block, CHUNK_CELLS);
      if blockMatches {
        var same := lightSky.Matches(sky);
        if same {
          return false;
        }
      }
      lightBlock := new Plane(block);
      lightSky := new Plane.FromSlice(sky);
      changed := true;
    }
  }

  lemma UniformField(field: seq<Rgb>, block: Rgb)
    requires |field| == CHUNK_CELLS
    ensures field == Repeat(block, CHUNK_CELLS) <==> forall i | 0 <= i < |field| :: field[i] == block
  {
  }

  lemma UniformStorage(plane: Plane<Rgb>, block: Rgb)
    requires plane.Valid() && plane.Contents() == Repeat(block, CHUNK_CELLS)
    requires plane.storage.Uniform? <==> forall i | 0 <= i < CHUNK_CELLS :: plane.Contents()[i] == plane.Contents()[0]
    ensures plane.storage == Uniform(block)
  {
    assert plane.Contents()[0] == block;
  }
}
