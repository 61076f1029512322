/** The sketchpad experiment's game object: the grid of four 200-pixel
    cells and the conversions between cells and pixels, the design of the
    32 trials (condition, categories, objects, pose and target of each
    round), the shuffled cell locations of the four objects, and the round
    counter. The shuffles are inputs: each is given as the order it puts
    its indices in. */
module SketchpadGameCore {
  import opened Wrappers
  import opened SeqUtil

  /** Grid and design constants set by the constructor. */
  const NumHorizontalCells := 4
  const NumVerticalCells := 1
  const CellWidth := 200
  const CellHeight := 200
  const CellPadding := 0
  const NumPoses := 40
  const NumRounds := 32
  const NumCats := 4
  const NumObjs := 8

  // ---------------------------------------------------------------------------
  // Cells and pixels

  /** What `getPixelFromCell` returns. */
  datatype PixelCell = PixelCell(centerX: int, centerY: int, upperLeftX: int, upperLeftY: int, width: int, height: int)

  /** `getPixelFromCell(x, y)` for the 1-based cell (x, y). The padding is 0,
      so every coordinate is a whole number of pixels. */
  function GetPixelFromCell(x: int, y: int): (p: PixelCell)
    ensures p.width == CellWidth && p.height == CellHeight
    ensures p.upperLeftX == CellWidth * (x - 1) && p.upperLeftY == CellHeight * (y - 1)
    ensures p.centerX == p.upperLeftX + CellWidth / 2 && p.centerY == p.upperLeftY + CellHeight / 2
  {
    PixelCell(
      CellPadding / 2 + CellWidth * (x - 1) + CellWidth / 2,
      CellPadding / 2 + CellHeight * (y - 1) + CellHeight / 2,
      CellWidth * (x - 1) + CellPadding / 2,
      CellHeight * (y - 1) + CellPadding / 2,
      CellWidth,
      CellHeight)
  }

  /** `Math.floor(v / 200) + 1`: the 1-based index of the 200-pixel band
      holding `v`. */
  function CellIndex(v: real): (c: int)
    ensures (c - 1) as real * 200.0 <= v < c as real * 200.0
  {
    (v / 200.0).Floor + 1
  }

  /** `getCellFromPixel(mx, my)`: the 1-based cell a (possibly fractional)
      pixel falls in. */
  function GetCellFromPixel(mx: real, my: real): (r: (int, int))
    ensures (r.0 - 1) as real * CellWidth as real <= mx - CellPadding as real / 2.0 < r.0 as real * CellWidth as real
    ensures (r.1 - 1) as real * CellHeight as real <= my - CellPadding as real / 2.0 < r.1 as real * CellHeight as real
  {
    (CellIndex(mx - CellPadding as real / 2.0), CellIndex(my - CellPadding as real / 2.0))
  }

  /** A cell index is determined by the band of pixels it covers. */
  lemma CellIndexUnique(v: real, c: int)
    requires (c - 1) as real * 200.0 <= v < c as real * 200.0
    ensures CellIndex(v) == c
  {
  }

  /** Every pixel inside the square of cell (x, y), its upper-left corner
      included, maps back to (x, y). */
  lemma PixelInCellRoundTrip(x: int, y: int, mx: real, my: real)
    requires var p := GetPixelFromCell(x, y);
      p.upperLeftX as real <= mx < (p.upperLeftX + p.width) as real &&
      p.upperLeftY as real <= my < (p.upperLeftY + p.height) as real
    ensures GetCellFromPixel(mx, my) == (x, y)
  {
    CellIndexUnique(mx, x);
    CellIndexUnique(my, y);
  }

  /** The centre and the upper-left corner of a cell map back to the cell. */
  lemma CellRoundTrip(x: int, y: int)
    ensures var p := GetPixelFromCell(x, y);
      GetCellFromPixel(p.centerX as real, p.centerY as real) == (x, y) &&
      GetCellFromPixel(p.upperLeftX as real, p.upperLeftY as real) == (x, y)
  {
    var p := GetPixelFromCell(x, y);
    PixelInCellRoundTrip(x, y, p.centerX as real, p.centerY as real);
    PixelInCellRoundTrip(x, y, p.upperLeftX as real, p.upperLeftY as real);
  }

  // ---------------------------------------------------------------------------
  // Cell locations of the four objects

  /** The four cells of the one-row grid, left to right. */
  const Cells: seq<(int, int)> := [(1, 1), (2, 1), (3, 1), (4, 1)]

  datatype Locations = Locations(listener: seq<(int, int)>, speaker: seq<(int, int)>)

  /** `sampleStimulusLocs()`: independent shuffles of the four cells for the
      listener and for the speaker. */
  function SampleStimulusLocs(listenerOrder: seq<int>, speakerOrder: seq<int>): (l: Locations)
    requires IsPermutationOf(listenerOrder, Range(0, 4)) && IsPermutationOf(speakerOrder, Range(0, 4))
    ensures IsPermutationOf(l.listener, Cells) && IsPermutationOf(l.speaker, Cells)
    ensures Distinct(l.listener) && Distinct(l.speaker)
  {
    PermuteRearranges(Cells, listenerOrder);
    PermuteRearranges(Cells, speakerOrder);
    assert Distinct(Cells);
    PermutationKeepsDistinct(Permute(Cells, listenerOrder), Cells);
    PermutationKeepsDistinct(Permute(Cells, speakerOrder), Cells);
    Locations(Permute(Cells, listenerOrder), Permute(Cells, speakerOrder))
  }

  // ---------------------------------------------------------------------------
  // The trial design

  /** `_.times(n, () => x)`. */
  function Times<T>(n: nat, x: T): (r: seq<T>)
    ensures |r| == n && forall k :: 0 <= k < n ==> r[k] == x
  {
    seq(n, _ => x)
  }

  /** `_.times(n, () => x)` holds `x` exactly `n` times and nothing else. */
  lemma {:induction false} TimesCount<T>(n: nat, x: T, y: T)
    ensures multiset(Times(n, x))[y] == if y == x then n else 0
  {
    if n > 0 {
      assert Times(n, x) == Times(n - 1, x) + [x];
      TimesCount(n - 1, x, y);
    }
  }

  /** `s.concat(s).concat(s).concat(s)`. */
  function Copies4<T>(s: seq<T>): (r: seq<T>)
    ensures |r| == 4 * |s|
  {
    s + s + s + s
  }

  /** Row `r` of four copies of an 8-row block is row `r % 8` of the block. */
  lemma Copies4Row<T>(s: seq<T>, r: int)
    requires |s| == 8 && 0 <= r < 32
    ensures Copies4(s)[r] == s[r % 8]
  {
    var c := Copies4(s);
    assert c == s + s + s + s;
    if r < 8 {
    } else if r < 16 {
      assert c[r] == (s + s)[r];
    } else if r < 24 {
      assert c[r] == (s + s + s)[r];
    }
  }

  /** The four independent shuffles of 0..7 (the rows of `tmp`). */
  predicate ShufflesOk(tmp: seq<seq<int>>)
  {
    |tmp| == NumCats && forall i :: 0 <= i < NumCats ==> IsPermutationOf(tmp[i], Range(0, NumObjs))
  }

  /** Column `i` of `tmp`: the `i`-th object of each category. */
  function Column(tmp: seq<seq<int>>, i: int): (c: seq<int>)
    requires |tmp| == NumCats && forall k :: 0 <= k < NumCats ==> |tmp[k]| == NumObjs
    requires 0 <= i < NumObjs
    ensures |c| == NumCats
  {
    seq(NumCats, j requires 0 <= j < NumCats => tmp[j][i])
  }

  /** The eight menus: column `i` of the left 4x4 half of `tmp` for `i` in
      0..3, then the right half of row `i - 4`. */
  function Menus(tmp: seq<seq<int>>): (m: seq<seq<int>>)
    requires |tmp| == NumCats && forall i :: 0 <= i < NumCats ==> |tmp[i]| == NumObjs
    ensures |m| == NumObjs
  {
    seq(NumObjs, i requires 0 <= i < NumObjs =>
      if i < NumCats then Column(tmp, i) else tmp[i - NumCats][4..8])
  }

  /** The category menu of each of the eight menus: the four categories in
      order for the first four, a single repeated category for the others. */
  function CategoryBlock(): (b: seq<seq<int>>)
    ensures |b| == NumObjs
  {
    Times(4, Range(0, 4)) + [Times(4, 0), Times(4, 1), Times(4, 2), Times(4, 3)]
  }

  /** The two conditions: the target's distractors from other categories,
      or from its own. */
  const Further := "further"
  const Closer := "closer"

  /** The condition of each of the eight menus. */
  function ConditionBlock(): (b: seq<string>)
    ensures |b| == NumObjs
  {
    Times(4, Further) + Times(4, Closer)
  }

  /** The target column before the shuffle: 0 for the first eight rounds,
      then 1, 2 and 3. */
  function TargetColumn(): (t: seq<int>)
    ensures |t| == NumRounds
  {
    Times(8, 0) + Times(8, 1) + Times(8, 2) + Times(8, 3)
  }

  /** One row of the zipped design. */
  datatype Row = Row(obj: seq<int>, category: seq<int>, pose: int, condition: string, target: int)

  /** `design_dict`; `obj` is its `object` column. */
  datatype DesignDict = DesignDict(
    condition: seq<string>, category: seq<seq<int>>, obj: seq<seq<int>>, pose: seq<int>, target: seq<int>)

  /** The five columns zipped row by row, before the shuffle. */
  function Zipped(tmp: seq<seq<int>>, poseShuffle: seq<int>): (z: seq<Row>)
    requires ShufflesOk(tmp) && IsPermutationOf(poseShuffle, Range(0, NumPoses))
    ensures |z| == NumRounds
  {
    forall i | 0 <= i < NumCats ensures |tmp[i]| == NumObjs {
      PermutationSameLength(tmp[i], Range(0, NumObjs));
    }
    var objects, categories := Copies4(Menus(tmp)), Copies4(CategoryBlock());
    var conditions, targets := Copies4(ConditionBlock()), TargetColumn();
    PermutationSameLength(poseShuffle, Range(0, NumPoses));
    seq(NumRounds, r requires 0 <= r < NumRounds =>
      Row(objects[r], categories[r], poseShuffle[r], conditions[r], targets[r]))
  }

  /** The design for the given shuffles: the zipped rows in the order of
      `order`, split into columns again. */
  function Design(tmp: seq<seq<int>>, poseShuffle: seq<int>, order: seq<int>): (d: DesignDict)
    requires ShufflesOk(tmp) && IsPermutationOf(poseShuffle, Range(0, NumPoses))
    requires IsPermutationOf(order, Range(0, NumRounds))
    ensures |d.condition| == |d.category| == |d.obj| == |d.pose| == |d.target| == NumRounds
  {
    IndexPermutationInBounds(order, NumRounds);
    PermutationSameLength(order, Range(0, NumRounds));
    var rows := Permute(Zipped(tmp, poseShuffle), order);
    DesignDict(
      Apply(rows, (w: Row) => w.condition), Apply(rows, (w: Row) => w.category),
      Apply(rows, (w: Row) => w.obj), Apply(rows, (w: Row) => w.pose), Apply(rows, (w: Row) => w.target))
  }

  /** `getRandomizedConditions()`. `tmp` holds the four shuffles of 0..7,
      `poseShuffle` the shuffle of the pose numbers and `order` the order the
      zipped rows are shuffled into. */
  method GetRandomizedConditions(tmp: seq<seq<int>>, poseShuffle: seq<int>, order: seq<int>) returns (d: DesignDict)
    requires ShufflesOk(tmp) && IsPermutationOf(poseShuffle, Range(0, NumPoses))
    requires IsPermutationOf(order, Range(0, NumRounds))
    ensures d == Design(tmp, poseShuffle, order)
  {
    forall i | 0 <= i < NumCats ensures |tmp[i]| == NumObjs {
      PermutationSameLength(tmp[i], Range(0, NumObjs));
    }
    var menuList := BuildMenus(tmp);
    var objects := menuList + menuList + menuList + menuList;
    var arr := BuildCategoryBlock();
    var categories := arr + arr + arr + arr;
    PermutationSameLength(poseShuffle, Range(0, NumPoses));
    var poses := poseShuffle[..32];
    var f := Times(4, Further);
    var c := Times(4, Closer);
    var block := f + c;
    var conditions := block + block + block + block;
    var targets := BuildTargets();
    IndexPermutationInBounds(order, NumRounds);
    var rows := seq(NumRounds, r requires 0 <= r < NumRounds =>
      Row(objects[r], categories[r], poses[r], conditions[r], targets[r]));
    assert rows == Zipped(tmp, poseShuffle);
    var zipped := Permute(rows, order);
    d := Unzip(zipped);
  }

  /** The loops that build `menuList`. */
  method BuildMenus(tmp: seq<seq<int>>) returns (menuList: seq<seq<int>>)
    requires |tmp| == NumCats && forall i :: 0 <= i < NumCats ==> |tmp[i]| == NumObjs
    ensures menuList == Menus(tmp)
  {
    menuList := [];
    var i := 0;
    while i < NumCats
      invariant 0 <= i <= NumCats
      invariant menuList == Menus(tmp)[..i]
    {
      var menu: seq<int> := [];
      var j := 0;
      while j < NumCats
        invariant 0 <= j <= NumCats
        invariant |menu| == j && forall k :: 0 <= k < j ==> menu[k] == tmp[k][i]
      {
        menu := menu + [tmp[j][i]];
        j := j + 1;
      }
      assert menu == Menus(tmp)[i];
      assert Menus(tmp)[..i + 1] == Menus(tmp)[..i] + [Menus(tmp)[i]];
      menuList := menuList + [menu];
      i := i + 1;
    }
    i := 0;
    while i < NumObjs - NumCats
      invariant 0 <= i <= NumObjs - NumCats
      invariant menuList == Menus(tmp)[..NumCats + i]
    {
      assert Menus(tmp)[..NumCats + i + 1] == Menus(tmp)[..NumCats + i] + [tmp[i][4..8]];
      menuList := menuList + [tmp[i][4..8]];
      i := i + 1;
    }
  }

  /** The loops that build `arr`, the category menus. */
  method BuildCategoryBlock() returns (arr: seq<seq<int>>)
    ensures arr == CategoryBlock()
  {
    arr := [];
    var n := 0;
    while n < 4
      invariant 0 <= n <= 4 && arr == Times(n, Range(0, 4))
    {
      assert Times(n + 1, Range(0, 4)) == Times(n, Range(0, 4)) + [Range(0, 4)] by {
        TimesSnoc(n, Range(0, 4));
      }
      arr := arr + [Range(0, 4)];
      n := n + 1;
    }
    var tmp := Range(0, 4);
    var i := 0;
    while i < |tmp|
      invariant 0 <= i <= |tmp|
      invariant arr == Times(4, Range(0, 4)) + seq(i, k requires 0 <= k < i => Times(4, k))
    {
      assert seq(i + 1, k requires 0 <= k < i + 1 => Times(4, k)) ==
        seq(i, k requires 0 <= k < i => Times(4, k)) + [Times(4, tmp[i])];
      arr := arr + [Times(4, tmp[i])];
      i := i + 1;
    }
    assert seq(4, k requires 0 <= k < 4 => Times(4, k)) == [Times(4, 0), Times(4, 1), Times(4, 2), Times(4, 3)];
  }

  /** Appending one more copy. */
  lemma {:induction false} TimesSnoc<T>(n: nat, x: T)
    ensures Times(n + 1, x) == Times(n, x) + [x]
  {
    if n > 0 {
      TimesSnoc(n - 1, x);
    }
  }

  /** The loop that builds `_target`. */
  method BuildTargets() returns (targets: seq<int>)
    ensures targets == TargetColumn()
  {
    targets := [];
    var i := 0;
    while i < 4
      invariant 0 <= i <= 4
      invariant targets == if i == 0 then [] else if i == 1 then Times(8, 0)
        else if i == 2 then Times(8, 0) + Times(8, 1)
        else if i == 3 then Times(8, 0) + Times(8, 1) + Times(8, 2)
        else TargetColumn()
    {
      targets := targets + Times(8, i);
      i := i + 1;
    }
  }

  /** The final loop: the shuffled rows split into the five columns. */
  method Unzip(zipped: seq<Row>) returns (d: DesignDict)
    ensures d == DesignDict(
      Apply(zipped, (w: Row) => w.condition), Apply(zipped, (w: Row) => w.category),
      Apply(zipped, (w: Row) => w.obj), Apply(zipped, (w: Row) => w.pose), Apply(zipped, (w: Row) => w.target))
  {
    var obj, category, pose, condition, target := [], [], [], [], [];
    var j := 0;
    while j < |zipped|
      invariant 0 <= j <= |zipped|
      invariant |obj| == j && forall k :: 0 <= k < j ==> obj[k] == zipped[k].obj
      invariant |category| == j && forall k :: 0 <= k < j ==> category[k] == zipped[k].category
      invariant |pose| == j && forall k :: 0 <= k < j ==> pose[k] == zipped[k].pose
      invariant |condition| == j && forall k :: 0 <= k < j ==> condition[k] == zipped[k].condition
      invariant |target| == j && forall k :: 0 <= k < j ==> target[k] == zipped[k].target
    {
      obj := obj + [zipped[j].obj];
      category := category + [zipped[j].category];
      pose := pose + [zipped[j].pose];
      condition := condition + [zipped[j].condition];
      target := target + [zipped[j].target];
      j := j + 1;
    }
    d := DesignDict(condition, category, obj, pose, target);
  }

  // ---------------------------------------------------------------------------
  // Properties of the design

  /** Row `r` of the zipped columns, before the shuffle: with `m = r % 8`
      the menu it was copied from, its condition is "further" exactly for
      the first four menus, whose categories are 0, 1, 2, 3 and whose
      objects are a column of `tmp`; the others show one category `m - 4`
      with the right half of that category's shuffle. The pose is the
      `r`-th of the pose shuffle and the target `r / 8`. */
  lemma ZippedRow(tmp: seq<seq<int>>, poseShuffle: seq<int>, r: int)
    requires ShufflesOk(tmp) && IsPermutationOf(poseShuffle, Range(0, NumPoses))
    requires 0 <= r < NumRounds
    ensures forall i :: 0 <= i < NumCats ==> |tmp[i]| == NumObjs
    ensures |poseShuffle| == NumPoses
    ensures var w, m := Zipped(tmp, poseShuffle)[r], r % 8;
      w.condition == (if m < 4 then Further else Closer) &&
      w.category == (if m < 4 then Range(0, 4) else Times(4, m - 4)) &&
      w.obj == (if m < 4 then Column(tmp, m) else tmp[m - 4][4..8]) &&
      w.pose == poseShuffle[r] && w.target == r / 8
  {
    PermutationSameLength(poseShuffle, Range(0, NumPoses));
    forall i | 0 <= i < NumCats ensures |tmp[i]| == NumObjs {
      PermutationSameLength(tmp[i], Range(0, NumObjs));
    }
    var m := r % 8;
    Copies4Row(Menus(tmp), r);
    Copies4Row(CategoryBlock(), r);
    Copies4Row(ConditionBlock(), r);
    assert ConditionBlock()[m] == if m < 4 then Further else Closer;
    assert CategoryBlock()[m] == if m < 4 then Range(0, 4) else Times(4, m - 4);
    var t := TargetColumn();
    assert t[r] == r / 8 by {
      assert t == Times(8, 0) + Times(8, 1) + Times(8, 2) + Times(8, 3);
      if r < 8 {
      } else if r < 16 {
        assert t[r] == (Times(8, 0) + Times(8, 1))[r];
      } else if r < 24 {
        assert t[r] == (Times(8, 0) + Times(8, 1) + Times(8, 2))[r];
      }
    }
  }

  /** Row `j` of the design is row `order[j]` of the zipped columns, as
      `ZippedRow` describes it. */
  lemma DesignRow(tmp: seq<seq<int>>, poseShuffle: seq<int>, order: seq<int>, j: int)
    requires ShufflesOk(tmp) && IsPermutationOf(poseShuffle, Range(0, NumPoses))
    requires IsPermutationOf(order, Range(0, NumRounds))
    requires 0 <= j < NumRounds
    ensures j < |order| && 0 <= order[j] < NumRounds
    ensures forall i :: 0 <= i < NumCats ==> |tmp[i]| == NumObjs
    ensures |poseShuffle| == NumPoses
    ensures var d, r := Design(tmp, poseShuffle, order), order[j];
      var m := r % 8;
      |d.condition| == |d.category| == |d.obj| == |d.pose| == |d.target| == NumRounds &&
      d.condition[j] == (if m < 4 then Further else Closer) &&
      d.category[j] == (if m < 4 then Range(0, 4) else Times(4, m - 4)) &&
      d.obj[j] == (if m < 4 then Column(tmp, m) else tmp[m - 4][4..8]) &&
      d.pose[j] == poseShuffle[r] && d.target[j] == r / 8
  {
    PermutationSameLength(order, Range(0, NumRounds));
    IndexPermutationInBounds(order, NumRounds);
    ZippedRow(tmp, poseShuffle, order[j]);
    var z := Zipped(tmp, poseShuffle);
    assert Permute(z, order)[j] == z[order[j]];
  }

  /** The rows stay aligned through the shuffle: every "further" round shows
      one object of each category, in category order, taken from one column
      of `tmp`; every "closer" round shows four objects of a single category
      `c`, the right half of its shuffle. */
  lemma DesignAligned(tmp: seq<seq<int>>, poseShuffle: seq<int>, order: seq<int>)
    requires ShufflesOk(tmp) && IsPermutationOf(poseShuffle, Range(0, NumPoses))
    requires IsPermutationOf(order, Range(0, NumRounds))
    ensures forall i :: 0 <= i < NumCats ==> |tmp[i]| == NumObjs
    ensures var d := Design(tmp, poseShuffle, order);
      |d.condition| == |d.category| == |d.obj| == NumRounds &&
      forall j :: 0 <= j < NumRounds ==> RoundAligned(tmp, d, j)
  {
    DesignRow(tmp, poseShuffle, order, 0);
    forall j | 0 <= j < NumRounds ensures RoundAligned(tmp, Design(tmp, poseShuffle, order), j) {
      RowAligned(tmp, poseShuffle, order, j);
    }
  }

  /** Round `j` of `d` is a "further" round showing a column of `tmp` or a
      "closer" round showing the right half of one category's shuffle. */
  predicate RoundAligned(tmp: seq<seq<int>>, d: DesignDict, j: int)
    requires |tmp| == NumCats && forall i :: 0 <= i < NumCats ==> |tmp[i]| == NumObjs
    requires 0 <= j < |d.condition| == |d.category| == |d.obj|
  {
    (d.condition[j] == Further && d.category[j] == [0, 1, 2, 3] &&
     exists i :: 0 <= i < NumCats && d.obj[j] == Column(tmp, i)) ||
    (d.condition[j] == Closer &&
     exists c :: 0 <= c < NumCats && d.category[j] == [c, c, c, c] && d.obj[j] == tmp[c][4..8])
  }

  lemma RowAligned(tmp: seq<seq<int>>, poseShuffle: seq<int>, order: seq<int>, j: int)
    requires ShufflesOk(tmp) && IsPermutationOf(poseShuffle, Range(0, NumPoses))
    requires IsPermutationOf(order, Range(0, NumRounds))
    requires 0 <= j < NumRounds
    ensures forall i :: 0 <= i < NumCats ==> |tmp[i]| == NumObjs
    ensures var d := Design(tmp, poseShuffle, order);
      |d.condition| == |d.category| == |d.obj| == NumRounds && RoundAligned(tmp, d, j)
  {
    DesignRow(tmp, poseShuffle, order, j);
    var m := order[j] % 8;
    if m < 4 {
      assert Range(0, 4) == [0, 1, 2, 3];
    } else {
      assert Times(4, m - 4) == [m - 4, m - 4, m - 4, m - 4];
    }
  }

  /** A column of the design is a rearrangement of the same column before
      the shuffle. */
  lemma ShuffledColumn<U>(z: seq<Row>, order: seq<int>, f: Row -> U)
    requires IsPermutationOf(order, Range(0, |z|))
    ensures forall j :: 0 <= j < |order| ==> 0 <= order[j] < |z|
    ensures IsPermutationOf(Apply(Permute(z, order), f), Apply(z, f))
  {
    PermuteRearranges(z, order);
    ApplyKeepsPermutation(Permute(z, order), z, f);
  }

  /** Half of the 32 rounds are "further" rounds and half "closer" rounds. */
  lemma {:induction false} ConditionCounts(tmp: seq<seq<int>>, poseShuffle: seq<int>, order: seq<int>)
    requires ShufflesOk(tmp) && IsPermutationOf(poseShuffle, Range(0, NumPoses))
    requires IsPermutationOf(order, Range(0, NumRounds))
    ensures var d := Design(tmp, poseShuffle, order);
      multiset(d.condition)[Further] == 16 && multiset(d.condition)[Closer] == 16 && |d.condition| == 32
  {
    var z := Zipped(tmp, poseShuffle);
    ShuffledColumn(z, order, (w: Row) => w.condition);
    var b := ConditionBlock();
    assert Apply(z, (w: Row) => w.condition) == Copies4(b);
    TimesCount(4, Further, Further);
    TimesCount(4, Closer, Further);
    TimesCount(4, Further, Closer);
    TimesCount(4, Closer, Closer);
    assert multiset(b) == multiset(Times(4, Further)) + multiset(Times(4, Closer));
    assert multiset(Copies4(b)) == multiset(b) + multiset(b) + multiset(b) + multiset(b);
  }

  /** Before the shuffle each target value fills 8 rounds. */
  lemma {:induction false} TargetColumnCounts(t: int)
    ensures multiset(TargetColumn())[t] == if 0 <= t < 4 then 8 else 0
  {
    TimesCount(8, 0, t);
    TimesCount(8, 1, t);
    TimesCount(8, 2, t);
    TimesCount(8, 3, t);
    assert multiset(TargetColumn()) ==
      multiset(Times(8, 0)) + multiset(Times(8, 1)) + multiset(Times(8, 2)) + multiset(Times(8, 3));
  }

  /** Each of the four item positions is the target in exactly 8 rounds. */
  lemma {:induction false} TargetCounts(tmp: seq<seq<int>>, poseShuffle: seq<int>, order: seq<int>)
    requires ShufflesOk(tmp) && IsPermutationOf(poseShuffle, Range(0, NumPoses))
    requires IsPermutationOf(order, Range(0, NumRounds))
    ensures var d := Design(tmp, poseShuffle, order);
      |d.target| == 32 && forall t :: 0 <= t < 4 ==> multiset(d.target)[t] == 8
  {
    var z := Zipped(tmp, poseShuffle);
    ShuffledColumn(z, order, (w: Row) => w.target);
    assert Apply(z, (w: Row) => w.target) == TargetColumn();
    var d := Design(tmp, poseShuffle, order);
    assert multiset(d.target) == multiset(TargetColumn());
    assert |TargetColumn()| == 32;
    assert |d.target| == |multiset(d.target)| == |multiset(TargetColumn())| == 32;
    forall t | 0 <= t < 4 ensures multiset(d.target)[t] == 8 {
      TargetColumnCounts(t);
    }
  }

  /** The 32 poses are different pose numbers, each below `NumPoses`. */
  lemma {:induction false} PosesDistinct(tmp: seq<seq<int>>, poseShuffle: seq<int>, order: seq<int>)
    requires ShufflesOk(tmp) && IsPermutationOf(poseShuffle, Range(0, NumPoses))
    requires IsPermutationOf(order, Range(0, NumRounds))
    ensures var d := Design(tmp, poseShuffle, order);
      |d.pose| == NumRounds && Distinct(d.pose) && forall j :: 0 <= j < |d.pose| ==> 0 <= d.pose[j] < NumPoses
  {
    var d := Design(tmp, poseShuffle, order);
    RangeDistinct(0, NumPoses);
    PermutationKeepsDistinct(poseShuffle, Range(0, NumPoses));
    RangePermutationMembers(poseShuffle, NumPoses);
    RangeDistinct(0, NumRounds);
    PermutationKeepsDistinct(order, Range(0, NumRounds));
    PermutationSameLength(order, Range(0, NumRounds));
    PermutationSameLength(poseShuffle, Range(0, NumPoses));
    IndexPermutationInBounds(order, NumRounds);
    DesignRow(tmp, poseShuffle, order, 0);
    forall j | 0 <= j < NumRounds ensures d.pose[j] == poseShuffle[order[j]] {
      DesignRow(tmp, poseShuffle, order, j);
    }
    forall j, k | 0 <= j < k < NumRounds ensures d.pose[j] != d.pose[k] {
      assert order[j] != order[k];
    }
    forall j | 0 <= j < NumRounds ensures 0 <= d.pose[j] < NumPoses {
      assert poseShuffle[order[j]] in poseShuffle;
    }
  }

  /** A "closer" round shows four different objects, each in 0..7. */
  lemma {:induction false} CloserObjectsDistinct(tmp: seq<seq<int>>, poseShuffle: seq<int>, order: seq<int>, j: int)
    requires ShufflesOk(tmp) && IsPermutationOf(poseShuffle, Range(0, NumPoses))
    requires IsPermutationOf(order, Range(0, NumRounds))
    requires 0 <= j < NumRounds
    ensures var d := Design(tmp, poseShuffle, order);
      |d.condition| == |d.obj| == NumRounds &&
      (d.condition[j] == Closer ==>
        |d.obj[j]| == 4 && Distinct(d.obj[j]) && forall k :: 0 <= k < 4 ==> 0 <= d.obj[j][k] < NumObjs)
  {
    DesignRow(tmp, poseShuffle, order, j);
    var d := Design(tmp, poseShuffle, order);
    var m := order[j] % 8;
    if m >= 4 {
      var row := tmp[m - 4];
      RangeDistinct(0, NumObjs);
      PermutationKeepsDistinct(row, Range(0, NumObjs));
      RangePermutationMembers(row, NumObjs);
      assert d.obj[j] == row[4..8];
      forall k | 0 <= k < 4 ensures 0 <= d.obj[j][k] < NumObjs {
        assert d.obj[j][k] == row[4 + k];
        assert row[4 + k] in row;
      }
      forall a, b | 0 <= a < b < 4 ensures d.obj[j][a] != d.obj[j][b] {
        assert d.obj[j][a] == row[4 + a] && d.obj[j][b] == row[4 + b];
      }
    }
  }

  // ---------------------------------------------------------------------------
  // The round counter

  /** A stimulus object of a trial, as read from the stimulus list. */
  datatype Stim = Stim(cluster: int, obj: int, pose: int, targetStatus: string)

  /** `trialList[k]`: `None` (undefined) outside the list. */
  function TrialAt(trialList: seq<seq<Stim>>, k: int): (t: Option<seq<Stim>>)
    ensures t.Some? <==> 0 <= k < |trialList|
    ensures t.Some? ==> t.value == trialList[k]
  {
    if 0 <= k < |trialList| then Some(trialList[k]) else None
  }

  /** The round number after `newRound`: it stays put exactly on the last
      round, and a counter between -1 and the last round stays there. */
  function NextRoundNum(roundNum: int, numRounds: int): (r: int)
    ensures r == roundNum <==> roundNum == numRounds - 1
    ensures -1 <= roundNum < numRounds ==> roundNum <= r < numRounds
  {
    if roundNum == numRounds - 1 then roundNum else roundNum + 1
  }

  /** The round number after `k` calls of `newRound`. */
  function RoundAfter(k: nat, roundNum: int, numRounds: int): int
  {
    if k == 0 then roundNum else RoundAfter(k - 1, NextRoundNum(roundNum, numRounds), numRounds)
  }

  /** From the initial round -1, the rounds 0, 1, ..., numRounds - 1 are
      visited in order, one per call, and the last one is then kept. */
  lemma {:induction false} RoundsInOrder(k: nat, numRounds: nat)
    ensures RoundAfter(k, -1, numRounds) == (if k <= numRounds then k else numRounds) - 1
  {
    RoundsFrom(k, -1, numRounds);
  }

  lemma {:induction false} RoundsFrom(k: nat, r: int, numRounds: nat)
    requires -1 <= r < numRounds
    ensures RoundAfter(k, r, numRounds) == if r + k < numRounds then r + k else numRounds - 1
  {
    if k > 0 {
      RoundsFrom(k - 1, NextRoundNum(r, numRounds), numRounds);
    }
  }

  class SketchpadGame {
    const numRounds: int
    const trialList: seq<seq<Stim>>
    var roundNum: int
    /** `trialInfo.currStim`; `None` while absent. */
    var currStim: Option<seq<Stim>>
    var objects: Option<seq<Stim>>

    /** A game copy with its trial list and the round counter at -1. */
    constructor (trials: seq<seq<Stim>>)
      ensures numRounds == NumRounds && trialList == trials
      ensures roundNum == -1 && currStim.None? && objects.None?
    {
      numRounds := NumRounds;
      trialList := trials;
      roundNum := -1;
      currStim := None;
      objects := None;
    }

    /** `newRound()`: on the last round the game ends and nothing changes;
        otherwise the counter advances and the round's trial becomes the
        current stimulus and the objects. Returns whether the game ended. */
    method NewRound() returns (ended: bool)
      modifies this`roundNum, this`currStim, this`objects
      ensures ended <==> old(roundNum) == numRounds - 1
      ensures roundNum == NextRoundNum(old(roundNum), numRounds)
      ensures ended ==> currStim == old(currStim) && objects == old(objects)
      ensures !ended ==> currStim == TrialAt(trialList, roundNum) && objects == currStim
    {
      if roundNum == numRounds - 1 {
        return true;
      }
      roundNum := roundNum + 1;
      currStim := TrialAt(trialList, roundNum);
      objects := TrialAt(trialList, roundNum);
      ended := false;
    }
  }
}
