/** Matching a crafting grid against recipes, wherever and whichever way round the items lie. */
module Crafting {
  import opened Prelude

  type ItemId = nat

  datatype Ingredient = One(item: ItemId) | Any(items: seq<ItemId>)

  datatype Recipe = Recipe(w: nat, h: nat, pattern: seq<Option<Ingredient>>, station: Option<string>)

  predicate WellFormed(r: Recipe) {
    |r.pattern| == r.w * r.h
  }

  predicate IngredientMatches(want: Ingredient, item: ItemId) {
    match want
    case One(i) => i == item
    case Any(items) => item in items
  }

  predicate Accepts(want: Option<Ingredient>, have: Option<ItemId>) {
    match want
    case None => have.None?
    case Some(ingredient) => have.Some? && IngredientMatches(ingredient, have.value)
  }

  // ----- views -----

  lemma InGrid(x: nat, y: nat, w: nat, h: nat)
    requires x < w && y < h
    ensures y * w + x < w * h
  {
    Monotone(w, y + 1, h);
    assert w * (y + 1) == y * w + w;
  }

  function At<T>(cells: seq<T>, w: nat, h: nat, x: nat, y: nat): T
    requires |cells| == w * h && x < w && y < h
  {
    InGrid(x, y, w, h);
    cells[y * w + x]
  }

  /** The item seen at any position of the plane; nothing lies outside the grid. */
  function Look(grid: seq<Option<ItemId>>, size: nat, x: int, y: int): Option<ItemId>
    requires |grid| == size * size
  {
    if 0 <= x < size && 0 <= y < size then At(grid, size, size, x, y) else None
  }

  type View = (int, int) -> Option<ItemId>

  function ViewOf(grid: seq<Option<ItemId>>, size: nat): View
    requires |grid| == size * size
  {
    (x, y) => Look(grid, size, x, y)
  }

  // ----- what a match is -----

  datatype Box = Box(x: int, y: int, w: nat, h: nat)

  predicate Inside(box: Box, x: int, y: int) {
    box.x <= x < box.x + box.w && box.y <= y < box.y + box.h
  }

  ghost predicate ColumnUsed(view: View, x: int) {
    exists y: int :: view(x, y).Some?
  }

  ghost predicate RowUsed(view: View, y: int) {
    exists x: int :: view(x, y).Some?
  }

  /** The smallest box around everything in view. */
  ghost predicate Bounds(view: View, box: Box) {
    && 0 < box.w && 0 < box.h
    && (forall x: int, y: int :: view(x, y).Some? ==> Inside(box, x, y))
    && ColumnUsed(view, box.x) && ColumnUsed(view, box.x + box.w - 1)
    && RowUsed(view, box.y) && RowUsed(view, box.y + box.h - 1)
  }

  function Column(r: Recipe, x: nat, mirror: bool): nat
    requires x < r.w
  {
    if mirror then r.w - 1 - x else x
  }

  ghost predicate DrawnAt(r: Recipe, view: View, box: Box, mirror: bool, x: nat, y: nat)
    requires WellFormed(r) && r.w == box.w && r.h == box.h && x < box.w && y < box.h
  {
    Accepts(At(r.pattern, r.w, r.h, Column(r, x, mirror), y), view(box.x + x, box.y + y))
  }

  ghost predicate Drawn(r: Recipe, view: View, box: Box, mirror: bool)
    requires WellFormed(r) && r.w == box.w && r.h == box.h
  {
    forall x: nat, y: nat | x < box.w && y < box.h :: DrawnAt(r, view, box, mirror, x, y)
  }

  ghost predicate FitsIn(r: Recipe, view: View, box: Box)
    requires WellFormed(r)
  {
    Bounds(view, box) && r.w == box.w && r.h == box.h && (Drawn(r, view, box, false) || Drawn(r, view, box, true))
  }

  /** A recipe without a station fits a view when its pattern, or the pattern's mirror image, is what the smallest
      box around the items shows. */
  ghost predicate Fits(r: Recipe, view: View) {
    WellFormed(r) && r.station.None? && exists box :: FitsIn(r, view, box)
  }

  /** The view shows the cell of the pattern that lies at (x, y) of the box, read straight or mirrored. */
  ghost predicate CellShown(r: Recipe, view: View, box: Box, mirror: bool, x: nat, y: nat)
    requires WellFormed(r) && x < r.w && y < r.h
  {
    ShownAt(view(box.x + x, box.y + y), At(r.pattern, r.w, r.h, if mirror then r.w - 1 - x else x, y))
  }

  /** The smallest box around the items has the size of the pattern and shows every cell of it. */
  ghost predicate Shows(r: Recipe, view: View, box: Box, mirror: bool)
    requires WellFormed(r)
  {
    && Bounds(view, box) && r.w == box.w && r.h == box.h
    && forall x: nat, y: nat | x < r.w && y < r.h :: CellShown(r, view, box, mirror, x, y)
  }

  /** What it is to fit, spelled out: within the smallest box around the items, read straight or mirrored, every blank
      of the pattern is empty, every item of it is there, and every choice of it holds one of its items. */
  lemma FitsSpelledOut(r: Recipe, view: View)
    ensures Fits(r, view) <==>
              WellFormed(r) && r.station.None? && exists box: Box, mirror: bool :: Shows(r, view, box, mirror)
  {
    hide Shows, FitsIn;
    if WellFormed(r) {
      forall box: Box ensures FitsIn(r, view, box) <==> Shows(r, view, box, false) || Shows(r, view, box, true) {
        BoxIs(r, view, box);
      }
    }
  }

  lemma BoxIs(r: Recipe, view: View, box: Box)
    requires WellFormed(r)
    ensures FitsIn(r, view, box) <==> Shows(r, view, box, false) || Shows(r, view, box, true)
  {
    hide Bounds;
    if Bounds(view, box) && r.w == box.w && r.h == box.h {
      DrawnIs(r, view, box, false);
      DrawnIs(r, view, box, true);
    }
    hide Drawn;
  }

  lemma DrawnIs(r: Recipe, view: View, box: Box, mirror: bool)
    requires WellFormed(r) && Bounds(view, box) && r.w == box.w && r.h == box.h
    ensures Drawn(r, view, box, mirror) <==> Shows(r, view, box, mirror)
  {
    forall x: nat, y: nat | x < r.w && y < r.h
      ensures DrawnAt(r, view, box, mirror, x, y) <==> CellShown(r, view, box, mirror, x, y)
    {
      AcceptsIs(At(r.pattern, r.w, r.h, if mirror then r.w - 1 - x else x, y), view(box.x + x, box.y + y));
      hide At, Accepts, ShownAt, Bounds;
    }
    hide DrawnAt, CellShown, Bounds, WellFormed;
  }

  /** A cell of the grid shows what a cell of the pattern asks for. */
  predicate ShownAt(have: Option<ItemId>, want: Option<Ingredient>) {
    if want == None then have == None
    else have.Some? && if want.value.One? then have.value == want.value.item else have.value in want.value.items
  }

  lemma AcceptsIs(want: Option<Ingredient>, have: Option<ItemId>)
    ensures Accepts(want, have) == ShownAt(have, want)
  {
  }

  lemma BoundsUnique(view: View, a: Box, b: Box)
    requires Bounds(view, a) && Bounds(view, b)
    ensures a == b
  {
    BoundsWithin(view, a, b);
    BoundsWithin(view, b, a);
  }

  lemma BoundsWithin(view: View, a: Box, b: Box)
    requires Bounds(view, a) && Bounds(view, b)
    ensures b.x <= a.x && a.x + a.w <= b.x + b.w && b.y <= a.y && a.y + a.h <= b.y + b.h
  {
    var y0 :| view(a.x, y0).Some?;
    var y1 :| view(a.x + a.w - 1, y1).Some?;
    var x0 :| view(x0, a.y).Some?;
    var x1 :| view(x1, a.y + a.h - 1).Some?;
    assert Inside(b, a.x, y0) && Inside(b, a.x + a.w - 1, y1) && Inside(b, x0, a.y) && Inside(b, x1, a.y + a.h - 1);
  }

  /** The first recipe that fits. */
  ghost function FirstFit(recipes: seq<Recipe>, view: View, from: nat): Option<nat>
    requires from <= |recipes|
    decreases |recipes| - from
  {
    if from == |recipes| then None
    else if Fits(recipes[from], view) then Some(from)
    else FirstFit(recipes, view, from + 1)
  }

  lemma {:induction false} FirstFitIsFirst(recipes: seq<Recipe>, view: View, from: nat)
    requires from <= |recipes|
    ensures var r := FirstFit(recipes, view, from);
            && (r.None? ==> forall k | from <= k < |recipes| :: !Fits(recipes[k], view))
            && (r.Some? ==> from <= r.value < |recipes| && Fits(recipes[r.value], view)
                            && forall k | from <= k < r.value :: !Fits(recipes[k], view))
    decreases |recipes| - from
  {
    hide Fits;
    if from < |recipes| && !Fits(recipes[from], view) {
      FirstFitIsFirst(recipes, view, from + 1);
    }
  }

  // ----- invariance -----

  /** `b` shows what `a` shows, moved by (dx, dy). */
  ghost predicate Slid(a: View, b: View, dx: int, dy: int) {
    forall x: int, y: int :: b(x, y) == a(x - dx, y - dy)
  }

  /** `b` shows what `a` shows in a mirror standing at half of `axis`. */
  ghost predicate Mirrored(a: View, b: View, axis: int) {
    forall x: int, y: int :: b(x, y) == a(axis - x, y)
  }

  lemma SlidBounds(a: View, b: View, dx: int, dy: int, box: Box)
    requires Slid(a, b, dx, dy) && Bounds(a, box)
    ensures Bounds(b, Box(box.x + dx, box.y + dy, box.w, box.h))
  {
    var moved := Box(box.x + dx, box.y + dy, box.w, box.h);
    forall x: int, y: int | b(x, y).Some? ensures Inside(moved, x, y) {
      assert Inside(box, x - dx, y - dy);
    }
    var y0 :| a(box.x, y0).Some?;
    assert b(box.x + dx, y0 + dy) == a(box.x, y0);
    var y1 :| a(box.x + box.w - 1, y1).Some?;
    assert b(box.x + box.w - 1 + dx, y1 + dy) == a(box.x + box.w - 1, y1);
    var x0 :| a(x0, box.y).Some?;
    assert b(x0 + dx, box.y + dy) == a(x0, box.y);
    var x1 :| a(x1, box.y + box.h - 1).Some?;
    assert b(x1 + dx, box.y + box.h - 1 + dy) == a(x1, box.y + box.h - 1);
  }

  lemma SlidDrawn(r: Recipe, a: View, b: View, dx: int, dy: int, box: Box, mirror: bool)
    requires WellFormed(r) && r.w == box.w && r.h == box.h && Slid(a, b, dx, dy) && Drawn(r, a, box, mirror)
    ensures Drawn(r, b, Box(box.x + dx, box.y + dy, box.w, box.h), mirror)
  {
    var moved := Box(box.x + dx, box.y + dy, box.w, box.h);
    forall x: nat, y: nat | x < box.w && y < box.h ensures DrawnAt(r, b, moved, mirror, x, y) {
      assert DrawnAt(r, a, box, mirror, x, y);
      assert b(box.x + dx + x, box.y + dy + y) == a(box.x + x, box.y + y);
    }
  }

  lemma SlidFits(r: Recipe, a: View, b: View, dx: int, dy: int)
    requires Slid(a, b, dx, dy) && Fits(r, a)
    ensures Fits(r, b)
  {
    var box :| FitsIn(r, a, box);
    SlidBounds(a, b, dx, dy, box);
    var mirror := Drawn(r, a, box, true);
    SlidDrawn(r, a, b, dx, dy, box, mirror);
    hide Drawn, Bounds;
    assert FitsIn(r, b, Box(box.x + dx, box.y + dy, box.w, box.h));
  }

  lemma MirroredBounds(a: View, b: View, axis: int, box: Box)
    requires Mirrored(a, b, axis) && Bounds(a, box)
    ensures Bounds(b, Box(axis - (box.x + box.w - 1), box.y, box.w, box.h))
  {
    var flipped := Box(axis - (box.x + box.w - 1), box.y, box.w, box.h);
    forall x: int, y: int | b(x, y).Some? ensures Inside(flipped, x, y) {
      assert Inside(box, axis - x, y);
    }
    var y0 :| a(box.x, y0).Some?;
    assert b(axis - box.x, y0) == a(box.x, y0);
    var y1 :| a(box.x + box.w - 1, y1).Some?;
    assert b(axis - (box.x + box.w - 1), y1) == a(box.x + box.w - 1, y1);
    var x0 :| a(x0, box.y).Some?;
    assert b(axis - x0, box.y) == a(x0, box.y);
    var x1 :| a(x1, box.y + box.h - 1).Some?;
    assert b(axis - x1, box.y + box.h - 1) == a(x1, box.y + box.h - 1);
  }

  lemma MirroredDrawn(r: Recipe, a: View, b: View, axis: int, box: Box, mirror: bool)
    requires WellFormed(r) && r.w == box.w && r.h == box.h && Mirrored(a, b, axis) && Drawn(r, a, box, mirror)
    ensures Drawn(r, b, Box(axis - (box.x + box.w - 1), box.y, box.w, box.h), !mirror)
  {
    var flipped := Box(axis - (box.x + box.w - 1), box.y, box.w, box.h);
    var turned := !mirror;
    forall x: nat, y: nat | x < box.w && y < box.h ensures DrawnAt(r, b, flipped, turned, x, y) {
      var other: nat := box.w - 1 - x;
      assert DrawnAt(r, a, box, mirror, other, y);
      assert b(flipped.x + x, box.y + y) == a(box.x + other, box.y + y);
      assert Column(r, x, turned) == Column(r, other, mirror);
    }
  }

  lemma MirroredFits(r: Recipe, a: View, b: View, axis: int)
    requires Mirrored(a, b, axis) && Fits(r, a)
    ensures Fits(r, b)
  {
    var box :| FitsIn(r, a, box);
    MirroredBounds(a, b, axis, box);
    var mirror := Drawn(r, a, box, true);
    MirroredDrawn(r, a, b, axis, box, mirror);
    hide Drawn, Bounds;
    assert FitsIn(r, b, Box(axis - (box.x + box.w - 1), box.y, box.w, box.h));
  }

  lemma SlidBack(a: View, b: View, dx: int, dy: int)
    requires Slid(a, b, dx, dy)
    ensures Slid(b, a, -dx, -dy)
  {
    forall x: int, y: int ensures a(x, y) == b(x - (-dx), y - (-dy)) {
      assert b(x + dx, y + dy) == a(x + dx - dx, y + dy - dy);
    }
  }

  lemma MirroredBack(a: View, b: View, axis: int)
    requires Mirrored(a, b, axis)
    ensures Mirrored(b, a, axis)
  {
    forall x: int, y: int ensures a(x, y) == b(axis - x, y) {
      assert b(axis - x, y) == a(axis - (axis - x), y);
    }
  }

  /** The answer is the same wherever the items lie, and does not depend on the size of the grid around them. */
  lemma {:induction false} SlidingKeepsAnswer(recipes: seq<Recipe>, a: View, b: View, dx: int, dy: int, from: nat)
    requires from <= |recipes| && Slid(a, b, dx, dy)
    ensures FirstFit(recipes, a, from) == FirstFit(recipes, b, from)
    decreases |recipes| - from
  {
    hide Fits, Slid;
    if from < |recipes| {
      SlidBack(a, b, dx, dy);
      if Fits(recipes[from], a) {
        SlidFits(recipes[from], a, b, dx, dy);
      } else if Fits(recipes[from], b) {
        SlidFits(recipes[from], b, a, -dx, -dy);
        assert false;
      }
      SlidingKeepsAnswer(recipes, a, b, dx, dy, from + 1);
    }
  }

  /** The answer is the same for the mirror image of the items. */
  lemma {:induction false} MirroringKeepsAnswer(recipes: seq<Recipe>, a: View, b: View, axis: int, from: nat)
    requires from <= |recipes| && Mirrored(a, b, axis)
    ensures FirstFit(recipes, a, from) == FirstFit(recipes, b, from)
    decreases |recipes| - from
  {
    hide Fits, Mirrored;
    if from < |recipes| {
      MirroredBack(a, b, axis);
      if Fits(recipes[from], a) {
        MirroredFits(recipes[from], a, b, axis);
      } else if Fits(recipes[from], b) {
        MirroredFits(recipes[from], b, a, axis);
        assert false;
      }
      MirroringKeepsAnswer(recipes, a, b, axis, from + 1);
    }
  }

  /** A small grid copied into a larger one at any offset, everything else empty. */
  ghost predicate Embedded(small: seq<Option<ItemId>>, n: nat, large: seq<Option<ItemId>>, m: nat, dx: nat, dy: nat)
    requires |small| == n * n && |large| == m * m
  {
    && n + dx <= m && n + dy <= m
    && forall x: nat, y: nat | x < m && y < m :: At(large, m, m, x, y) == Look(small, n, x - dx, y - dy)
  }

  lemma EmbeddingKeepsAnswer(recipes: seq<Recipe>, small: seq<Option<ItemId>>, n: nat, large: seq<Option<ItemId>>,
                             m: nat, dx: nat, dy: nat)
    requires |small| == n * n && |large| == m * m && Embedded(small, n, large, m, dx, dy)
    ensures FirstFit(recipes, ViewOf(small, n), 0) == FirstFit(recipes, ViewOf(large, m), 0)
  {
    var a, b := ViewOf(small, n), ViewOf(large, m);
    forall x: int, y: int ensures b(x, y) == a(x - dx, y - dy) {
      hide At;
    }
    hide FirstFit, ViewOf;
    SlidingKeepsAnswer(recipes, a, b, dx, dy, 0);
  }

  // ----- the matcher -----

  predicate Scanned(x: nat, y: nat, i: nat, j: nat) {
    j < y || (j == y && i < x)
  }

  predicate Item(grid: seq<Option<ItemId>>, size: nat, i: nat, j: nat)
    requires |grid| == size * size && i < size && j < size
  {
    At(grid, size, size, i, j).Some?
  }

  /** Everything met by the scan lies within the corners found so far. */
  ghost predicate Covered(grid: seq<Option<ItemId>>, size: nat, x: nat, y: nat, lo: (nat, nat), hi: (nat, nat))
    requires |grid| == size * size
  {
    forall i: nat, j: nat | i < size && j < size && Scanned(x, y, i, j) && Item(grid, size, i, j) ::
      lo.0 <= i <= hi.0 && lo.1 <= j <= hi.1
  }

  /** The corners are untouched, or each side of them holds an item. */
  ghost predicate Cornered(grid: seq<Option<ItemId>>, size: nat, lo: (nat, nat), hi: (nat, nat))
    requires |grid| == size * size
  {
    (lo == (size, size) && hi == (0, 0)) || Spanned(grid, size, lo, hi)
  }

  ghost predicate Spanned(grid: seq<Option<ItemId>>, size: nat, lo: (nat, nat), hi: (nat, nat))
    requires |grid| == size * size
  {
    && lo.0 <= hi.0 < size && lo.1 <= hi.1 < size
    && (exists j: nat :: j < size && Item(grid, size, lo.0, j))
    && (exists j: nat :: j < size && Item(grid, size, hi.0, j))
    && (exists i: nat :: i < size && Item(grid, size, i, lo.1))
    && (exists i: nat :: i < size && Item(grid, size, i, hi.1))
  }

  lemma ScanItem(grid: seq<Option<ItemId>>, size: nat, x: nat, y: nat, lo: (nat, nat), hi: (nat, nat), lo': (nat, nat),
                 hi': (nat, nat))
    requires |grid| == size * size && x < size && y < size && Item(grid, size, x, y)
    requires Covered(grid, size, x, y, lo, hi) && Cornered(grid, size, lo, hi)
    requires lo' == (Min(lo.0, x), Min(lo.1, y)) && hi' == (Max(hi.0, x), Max(hi.1, y))
    ensures Covered(grid, size, x + 1, y, lo', hi') && Spanned(grid, size, lo', hi')
  {
    hide Item;
  }

  lemma ScanGap(grid: seq<Option<ItemId>>, size: nat, x: nat, y: nat, lo: (nat, nat), hi: (nat, nat))
    requires |grid| == size * size && x < size && y < size && !Item(grid, size, x, y)
             && Covered(grid, size, x, y, lo, hi)
    ensures Covered(grid, size, x + 1, y, lo, hi)
  {
    hide Item;
  }

  lemma ScanRow(grid: seq<Option<ItemId>>, size: nat, y: nat, lo: (nat, nat), hi: (nat, nat))
    requires |grid| == size * size && Covered(grid, size, size, y, lo, hi)
    ensures Covered(grid, size, 0, y + 1, lo, hi)
  {
    hide Item;
  }

  /** One scan finds the corners of the bounding box, or leaves them crossed over in an empty grid. */
  method Corners(grid: seq<Option<ItemId>>, size: nat) returns (lo: (nat, nat), hi: (nat, nat))
    requires |grid| == size * size
    ensures Covered(grid, size, 0, size, lo, hi) && Cornered(grid, size, lo, hi)
  {
    hide Item, Covered, Cornered, Spanned;
    lo, hi := (size, size), (0, 0);
    NothingScanned(grid, size);
    for y := 0 to size
      invariant Covered(grid, size, 0, y, lo, hi) && Cornered(grid, size, lo, hi)
    {
      for x := 0 to size
        invariant Covered(grid, size, x, y, lo, hi) && Cornered(grid, size, lo, hi)
      {
        if Item(grid, size, x, y) {
          var lo', hi' := (Min(lo.0, x), Min(lo.1, y)), (Max(hi.0, x), Max(hi.1, y));
          ScanItem(grid, size, x, y, lo, hi, lo', hi');
          SpannedCorners(grid, size, lo', hi');
          lo, hi := lo', hi';
        } else {
          ScanGap(grid, size, x, y, lo, hi);
        }
      }
      ScanRow(grid, size, y, lo, hi);
    }
  }

  lemma NothingScanned(grid: seq<Option<ItemId>>, size: nat)
    requires |grid| == size * size
    ensures Covered(grid, size, 0, 0, (size, size), (0, 0)) && Cornered(grid, size, (size, size), (0, 0))
  {
  }

  lemma SpannedCorners(grid: seq<Option<ItemId>>, size: nat, lo: (nat, nat), hi: (nat, nat))
    requires |grid| == size * size && Spanned(grid, size, lo, hi)
    ensures Cornered(grid, size, lo, hi)
  {
  }

  lemma ItemInView(grid: seq<Option<ItemId>>, size: nat, i: nat, j: nat)
    requires |grid| == size * size && i < size && j < size
    ensures ViewOf(grid, size)(i, j).Some? <==> Item(grid, size, i, j)
  {
  }

  function BoxOf(lo: (nat, nat), hi: (nat, nat)): Box
    requires lo.0 <= hi.0 && lo.1 <= hi.1
  {
    Box(lo.0, lo.1, hi.0 - lo.0 + 1, hi.1 - lo.1 + 1)
  }

  lemma CornersBound(grid: seq<Option<ItemId>>, size: nat, lo: (nat, nat), hi: (nat, nat))
    requires |grid| == size * size && Covered(grid, size, 0, size, lo, hi) && Spanned(grid, size, lo, hi)
    ensures Bounds(ViewOf(grid, size), BoxOf(lo, hi))
  {
    var view, box := ViewOf(grid, size), BoxOf(lo, hi);
    forall x: int, y: int | view(x, y).Some? ensures Inside(box, x, y) {
      ItemInView(grid, size, x, y);
      assert Scanned(0, size, x, y);
    }
    var a: nat :| a < size && Item(grid, size, lo.0, a);
    var b: nat :| b < size && Item(grid, size, hi.0, b);
    var c: nat :| c < size && Item(grid, size, c, lo.1);
    var d: nat :| d < size && Item(grid, size, d, hi.1);
    ItemInView(grid, size, lo.0, a);
    ItemInView(grid, size, hi.0, b);
    ItemInView(grid, size, c, lo.1);
    ItemInView(grid, size, d, hi.1);
    hide Item, ViewOf;
  }

  /** An empty grid has no bounding box, so nothing fits it. */
  lemma EmptyFitsNothing(recipes: seq<Recipe>, grid: seq<Option<ItemId>>, size: nat, lo: (nat, nat), hi: (nat, nat))
    requires |grid| == size * size && Covered(grid, size, 0, size, lo, hi)
    requires hi.0 < lo.0 || size == 0
    ensures FirstFit(recipes, ViewOf(grid, size), 0).None?
  {
    var view := ViewOf(grid, size);
    forall x: int, y: int ensures view(x, y).None? {
      if 0 <= x < size && 0 <= y < size {
        ItemInView(grid, size, x, y);
        assert Scanned(0, size, x, y);
      }
    }
    forall k | 0 <= k < |recipes| ensures !Fits(recipes[k], view) {
      NoBounds(view);
    }
    FirstFitIsFirst(recipes, view, 0);
    hide Fits, ViewOf, FirstFit;
  }

  lemma NoBounds(view: View)
    requires forall x: int, y: int :: view(x, y).None?
    ensures forall box :: !Bounds(view, box)
  {
  }

  method PatternMatches(r: Recipe, grid: seq<Option<ItemId>>, size: nat, box: Box, mirror: bool) returns (ok: bool)
    requires WellFormed(r) && r.w == box.w && r.h == box.h && |grid| == size * size
    requires 0 <= box.x && 0 <= box.y && box.x + box.w <= size && box.y + box.h <= size
    ensures ok <==> Drawn(r, ViewOf(grid, size), box, mirror)
  {
    hide At, Accepts;
    ghost var view := ViewOf(grid, size);
    for y := 0 to box.h
      invariant forall i: nat, j: nat | i < box.w && j < y :: DrawnAt(r, view, box, mirror, i, j)
    {
      for x := 0 to box.w
        invariant forall i: nat, j: nat | i < box.w && j < y :: DrawnAt(r, view, box, mirror, i, j)
        invariant forall i: nat | i < x :: DrawnAt(r, view, box, mirror, i, y)
      {
        var want := At(r.pattern, r.w, r.h, Column(r, x, mirror), y);
        var have := At(grid, size, size, box.x + x, box.y + y);
        assert have == view(box.x + x, box.y + y);
        if !Accepts(want, have) {
          assert !DrawnAt(r, view, box, mirror, x, y);
          return false;
        }
      }
    }
    ok := true;
  }

  lemma OneColumn(r: Recipe, view: View, box: Box)
    requires WellFormed(r) && r.w == box.w == 1 && r.h == box.h
    ensures Drawn(r, view, box, true) <==> Drawn(r, view, box, false)
  {
    forall x: nat, y: nat | x < box.w && y < box.h
      ensures DrawnAt(r, view, box, true, x, y) <==> DrawnAt(r, view, box, false, x, y)
    {
    }
    hide DrawnAt;
  }

  lemma FitsBox(r: Recipe, view: View, box: Box)
    requires WellFormed(r) && Bounds(view, box)
    ensures Fits(r, view) <==> r.station.None? && FitsIn(r, view, box)
  {
    if Fits(r, view) {
      var b :| FitsIn(r, view, b);
      BoundsUnique(view, b, box);
    }
  }

  /** The first recipe in registry order, among those that need no station, that the items show. */
  method MatchRecipe(recipes: seq<Recipe>, grid: seq<Option<ItemId>>, size: nat) returns (found: Option<nat>)
    requires |grid| == size * size && forall k | 0 <= k < |recipes| :: WellFormed(recipes[k])
    ensures found == FirstFit(recipes, ViewOf(grid, size), 0)
  {
    var lo, hi := Corners(grid, size);
    if lo.0 > hi.0 {
      EmptyFitsNothing(recipes, grid, size, lo, hi);
      return None;
    }
    ghost var view := ViewOf(grid, size);
    var box := Box(lo.0, lo.1, Saturating(hi.0, lo.0) + 1, Saturating(hi.1, lo.1) + 1);
    if size > 0 {
      CornersBound(grid, size, lo, hi);
    } else {
      EmptyFitsNothing(recipes, grid, size, lo, hi);
    }
    hide Covered, Cornered, Spanned, ViewOf, Drawn, Bounds, Fits;
    for i := 0 to |recipes|
      invariant size > 0 ==> FirstFit(recipes, view, 0) == FirstFit(recipes, view, i)
    {
      var r := recipes[i];
      if size > 0 {
        FitsBox(r, view, box);
      }
      if r.station.Some? || r.w != box.w || r.h != box.h || r.w > size || r.h > size {
        continue;
      }
      var straight := PatternMatches(r, grid, size, box, false);
      if straight {
        return Some(i);
      }
      if r.w == 1 {
        OneColumn(r, view, box);
        continue;
      }
      var mirrored := PatternMatches(r, grid, size, box, true);
      if mirrored {
        return Some(i);
      }
    }
    found := None;
  }
}
