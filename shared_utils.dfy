/** The pure helpers of experiments/sharedUtils/sharedUtils.js: array
    builders, flattening, the object-location log header, the bounds check,
    and the retry loop that draws random rectangles and circles until one
    fits. Random draws are inputs. */
module SharedUtils {
  import opened Wrappers
  import opened SeqUtil
  import opened Text

  // ---------------------------------------------------------------- fillArray

  /** `fillArray(value, len)`: pushes `value` while the counter is below `len`. */
  method FillArray<T>(value: T, len: int) returns (arr: seq<T>)
    ensures |arr| == if len > 0 then len else 0
    ensures forall i :: 0 <= i < |arr| ==> arr[i] == value
  {
    arr := [];
    var i := 0;
    while i < len
      invariant 0 <= i <= (if len > 0 then len else 0)
      invariant |arr| == i
      invariant forall k :: 0 <= k < i ==> arr[k] == value
    {
      arr := arr + [value];
      i := i + 1;
    }
  }

  // --------------------------------------------------------------- makeSeries

  const SeriesBoundsError := "Upper bound should be greater than lower bound!"

  /** `makeSeries(lb, ub)`: throws unless `lb < ub`, else lb..ub inclusive. */
  method MakeSeries(lb: int, ub: int) returns (r: Result<seq<int>>)
    ensures ub <= lb ==> r == Err(SeriesBoundsError)
    ensures lb < ub ==> r.Ok? && |r.value| == ub - lb + 1
    ensures r.Ok? ==> forall k :: 0 <= k < |r.value| ==> r.value[k] == lb + k
  {
    if ub <= lb {
      return Err(SeriesBoundsError);
    }
    var series: seq<int> := [];
    var i := lb;
    while i < ub + 1
      invariant lb <= i <= ub + 1
      invariant |series| == i - lb
      invariant forall k :: 0 <= k < |series| ==> series[k] == lb + k
    {
      series := series + [i];
      i := i + 1;
    }
    return Ok(series);
  }

  // ------------------------------------------------------------------ flatten

  /** A JavaScript value that is either a leaf or an array of such values. */
  datatype Nested<T> = Leaf(value: T) | Items(children: seq<Nested<T>>)

  /** `acc.concat(part)` folded from the left over `parts`, starting from `[]`. */
  function ConcatAll<T>(parts: seq<seq<T>>): seq<T>
  {
    if parts == [] then [] else ConcatAll(parts[..|parts| - 1]) + parts[|parts| - 1]
  }

  /** The leaves of one value: itself for a leaf, `flatten` of an array. */
  function Expand<T>(val: Nested<T>): seq<T>
    decreases val
  {
    match val
    case Leaf(x) => [x]
    case Items(c) => ConcatAll(seq(|c|, i requires 0 <= i < |c| => Expand(c[i])))
  }

  /** `flatten(arr)`: `reduce` with `acc.concat(isArray(val) ? flatten(val) : val)`.
      Nothing is dropped or duplicated: the result has one element per leaf. */
  function Flatten<T>(arr: seq<Nested<T>>): (r: seq<T>)
    ensures |r| == Leaves(Items(arr))
  {
    ExpandLength(Items(arr));
    Expand(Items(arr))
  }

  /** The sum of `xs`, added from the left. */
  function Sum(xs: seq<nat>): nat
  {
    if xs == [] then 0 else Sum(xs[..|xs| - 1]) + xs[|xs| - 1]
  }

  /** The number of leaves of a value: one for a leaf, the sum over the
      elements of an array. */
  function Leaves<T>(val: Nested<T>): nat
    decreases val
  {
    match val
    case Leaf(_) => 1
    case Items(c) => Sum(seq(|c|, i requires 0 <= i < |c| => Leaves(c[i])))
  }

  /** Concatenating pieces adds up their lengths. */
  lemma {:induction false} ConcatAllLength<T>(parts: seq<seq<T>>)
    ensures |ConcatAll(parts)| == Sum(seq(|parts|, i requires 0 <= i < |parts| => |parts[i]|))
    decreases |parts|
  {
    if parts != [] {
      var n := |parts| - 1;
      ConcatAllLength(parts[..n]);
      var lens := seq(|parts|, i requires 0 <= i < |parts| => |parts[i]|);
      assert lens[..n] == seq(n, i requires 0 <= i < n => |parts[..n][i]|);
    }
  }

  lemma {:induction false} ExpandLength<T>(val: Nested<T>)
    ensures |Expand(val)| == Leaves(val)
    decreases val
  {
    match val
    case Leaf(_) =>
    case Items(c) =>
      var parts := seq(|c|, i requires 0 <= i < |c| => Expand(c[i]));
      ConcatAllLength(parts);
      forall i | 0 <= i < |c| ensures |parts[i]| == Leaves(c[i]) {
        ExpandLength(c[i]);
      }
      assert seq(|parts|, i requires 0 <= i < |parts| => |parts[i]|)
        == seq(|c|, i requires 0 <= i < |c| => Leaves(c[i]));
  }

  lemma {:induction false} ConcatAllAppend<T>(a: seq<seq<T>>, b: seq<seq<T>>)
    ensures ConcatAll(a + b) == ConcatAll(a) + ConcatAll(b)
    decreases |b|
  {
    if b == [] {
      assert a + b == a;
    } else {
      var n := |b| - 1;
      var ab := a + b;
      assert ab[..|ab| - 1] == a + b[..n];
      assert ab[|ab| - 1] == b[n];
      ConcatAllAppend(a, b[..n]);
      calc {
        ConcatAll(ab);
        ConcatAll(a + b[..n]) + b[n];
        ConcatAll(a) + ConcatAll(b[..n]) + b[n];
        ConcatAll(a) + (ConcatAll(b[..n]) + b[n]);
        ConcatAll(a) + ConcatAll(b);
      }
    }
  }

  /** `flatten` concatenates the leaves of each element in order. */
  lemma FlattenIsConcatOfExpansions<T>(arr: seq<Nested<T>>)
    ensures Flatten(arr) == ConcatAll(Apply(arr, x => Expand(x)))
  {
    var e := seq(|arr|, i requires 0 <= i < |arr| => Expand(arr[i]));
    assert e == Apply(arr, x => Expand(x));
  }

  /** Flattening distributes over array concatenation. */
  lemma FlattenAppend<T>(a: seq<Nested<T>>, b: seq<Nested<T>>)
    ensures Flatten(a + b) == Flatten(a) + Flatten(b)
  {
    FlattenIsConcatOfExpansions(a + b);
    FlattenIsConcatOfExpansions(a);
    FlattenIsConcatOfExpansions(b);
    ApplyConcat(a, b, x => Expand(x));
    ConcatAllAppend(Apply(a, x => Expand(x)), Apply(b, x => Expand(x)));
  }

  /** A one-element array flattens to that element's leaves. */
  lemma FlattenOne<T>(val: Nested<T>)
    ensures Flatten([val]) == (match val case Leaf(x) => [x] case Items(c) => Flatten(c))
  {
    FlattenIsConcatOfExpansions([val]);
    var one := Apply([val], x => Expand(x));
    assert one == [Expand(val)];
    assert one[..0] == [];
  }

  /** On an array with no nested arrays, `flatten` returns the same elements. */
  lemma {:induction false} FlattenFlat<T>(xs: seq<T>)
    ensures Flatten(Apply(xs, x => Leaf(x))) == xs
    decreases |xs|
  {
    if xs == [] {
      FlattenIsConcatOfExpansions(Apply(xs, x => Leaf(x)));
    } else {
      var n := |xs| - 1;
      assert Apply(xs, x => Leaf(x)) == Apply(xs[..n], x => Leaf(x)) + [Leaf(xs[n])];
      FlattenAppend(Apply(xs[..n], x => Leaf(x)), [Leaf(xs[n])]);
      FlattenFlat(xs[..n]);
      FlattenOne(Leaf(xs[n]));
      assert xs[..n] + [xs[n]] == xs;
    }
  }

  /** `flatten` of an array of flat arrays is their concatenation. */
  lemma {:induction false} FlattenRows<T>(rows: seq<seq<T>>)
    ensures Flatten(Apply(rows, r => Items(Apply(r, x => Leaf(x))))) == ConcatAll(rows)
    decreases |rows|
  {
    var wrap := r => Items(Apply(r, x => Leaf(x)));
    if rows == [] {
      FlattenIsConcatOfExpansions(Apply(rows, wrap));
    } else {
      var n := |rows| - 1;
      assert Apply(rows, wrap) == Apply(rows[..n], wrap) + [wrap(rows[n])];
      FlattenAppend(Apply(rows[..n], wrap), [wrap(rows[n])]);
      FlattenRows(rows[..n]);
      FlattenOne(wrap(rows[n]));
      FlattenFlat(rows[n]);
    }
  }

  // ----------------------------------------------- getObjectLocHeader(Array)

  const FieldNames: seq<string> := ["Name", "SenderLoc", "ReceiverLoc"]

  /** `'object' + i + v`. */
  function ObjectField(i: int, v: string): string
  {
    "object" + NumberString(i) + v
  }

  /** For i = 1..4, the three column names of object i. */
  function HeaderRows(): seq<seq<string>>
  {
    Apply(Range(1, 5), i => Apply(FieldNames, v => ObjectField(i, v)))
  }

  /** `getObjectLocHeader()`: each row tab-joined, then the rows tab-joined,
      which is the tab-join of the header array. */
  function GetObjectLocHeader(): (r: string)
    ensures r == Join(GetObjectLocHeaderArray(), "\t")
  {
    JoinOfJoins(HeaderRows(), "\t");
    Join(Apply(HeaderRows(), row => Join(row, "\t")), "\t")
  }

  /** `getObjectLocHeaderArray()`: the rows as nested arrays, flattened. It
      lists, for objects 1 to 4 in turn, the name, sender location and
      receiver location columns. */
  function GetObjectLocHeaderArray(): (r: seq<string>)
    ensures r == ConcatAll(HeaderRows())
    ensures |r| == 12
    ensures forall j :: 0 <= j < 12 ==> r[j] == ObjectField(j / 3 + 1, FieldNames[j % 3])
  {
    FlattenRows(HeaderRows());
    assert forall i :: 0 <= i < 4 ==> Range(1, 5)[i] == i + 1;
    ConcatFourRowsOfThree(HeaderRows());
    Flatten(Apply(HeaderRows(), r => Items(Apply(r, x => Leaf(x)))))
  }

  /** Four rows of three, concatenated, read row by row. */
  lemma ConcatFourRowsOfThree<T>(rows: seq<seq<T>>)
    requires |rows| == 4 && forall i :: 0 <= i < 4 ==> |rows[i]| == 3
    ensures |ConcatAll(rows)| == 12
    ensures forall j :: 0 <= j < 12 ==> ConcatAll(rows)[j] == rows[j / 3][j % 3]
  {
    assert ConcatAll(rows[..1]) == rows[0] by { assert rows[..1][..0] == []; }
    assert ConcatAll(rows[..2]) == rows[0] + rows[1] by { assert rows[..2][..1] == rows[..1]; }
    assert ConcatAll(rows[..3]) == rows[0] + rows[1] + rows[2] by { assert rows[..3][..2] == rows[..2]; }
    assert rows[..3] == rows[..|rows| - 1];
  }

  lemma {:induction false} JoinOfJoins(rows: seq<seq<string>>, sep: string)
    requires forall i :: 0 <= i < |rows| ==> |rows[i]| > 0
    ensures Join(Apply(rows, row => Join(row, sep)), sep) == Join(ConcatAll(rows), sep)
    ensures |rows| > 0 ==> |ConcatAll(rows)| > 0
    decreases |rows|
  {
    var joinRow := row => Join(row, sep);
    if |rows| == 1 {
      assert rows[..0] == [];
      assert ConcatAll(rows) == rows[0];
    } else if |rows| > 1 {
      var n := |rows| - 1;
      JoinOfJoins(rows[..n], sep);
      assert Apply(rows, joinRow) == Apply(rows[..n], joinRow) + [joinRow(rows[n])];
      JoinConcat(Apply(rows[..n], joinRow), [joinRow(rows[n])], sep);
      JoinConcat(ConcatAll(rows[..n]), rows[n], sep);
    }
  }

  // ------------------------------------------------------------ checkInBounds

  /** A drawn shape: the fields `x`, `y`, `w`, `h`, `d` a rectangle or circle
      may carry; `None` where the field is missing (`undefined`). */
  datatype Shape = Shape(x: Option<int>, y: Option<int>, w: Option<int>, h: Option<int>, d: Option<int>)

  /** The options object of `randomRect`/`randomCircle`. */
  datatype Options = Options(
    width: int, height: int,
    xMin: int, xMax: int, yMin: int, yMax: int,
    wMin: int, wMax: int, hMin: int, hMax: int,
    dMin: int, dMax: int)

  /** `a || b` on numbers: `a` when present and non-zero, else `b`. */
  function OrElse(a: Option<int>, b: Option<int>): (r: Option<int>)
    ensures a.Some? && a.value != 0 ==> r == a
    ensures !(a.Some? && a.value != 0) ==> r == b
  {
    if a.Some? && a.value != 0 then a else b
  }

  /** `coord + extent < limit`, false when either operand is `undefined` (NaN). */
  predicate StrictlyBelow(coord: Option<int>, extent: Option<int>, limit: int)
  {
    coord.Some? && extent.Some? && coord.value + extent.value < limit
  }

  /** `checkInBounds(object, options)`. A shape missing a coordinate, or
      missing both an extent and the diameter, never passes. */
  predicate CheckInBounds(obj: Shape, options: Options)
    ensures CheckInBounds(obj, options) ==>
      obj.x.Some? && obj.y.Some? && (obj.w.Some? || obj.d.Some?) && (obj.h.Some? || obj.d.Some?)
  {
    StrictlyBelow(obj.x, OrElse(obj.w, obj.d), options.width) &&
    StrictlyBelow(obj.y, OrElse(obj.h, obj.d), options.height)
  }

  /** The check is strict and falls back from width/height to the diameter
      exactly when the former is missing or zero. */
  lemma CheckInBoundsMeaning(obj: Shape, options: Options)
    ensures CheckInBounds(obj, options) <==>
      obj.x.Some? && obj.y.Some? &&
      (if obj.w.Some? && obj.w.value != 0 then obj.x.value + obj.w.value < options.width
       else obj.d.Some? && obj.x.value + obj.d.value < options.width) &&
      (if obj.h.Some? && obj.h.value != 0 then obj.y.value + obj.h.value < options.height
       else obj.d.Some? && obj.y.value + obj.d.value < options.height)
  {
  }

  /** A shape within bounds stays within bounds on a canvas at least as large. */
  lemma CheckInBoundsLargerCanvas(obj: Shape, options: Options, larger: Options)
    requires options.width <= larger.width && options.height <= larger.height
    ensures CheckInBounds(obj, options) ==> CheckInBounds(obj, larger)
  {
  }

  // ------------------------------------------------ randomRect / randomCircle

  /** `_.sample(range)` with the random choice given: `undefined` on an empty range. */
  function Sample(range: seq<int>, choice: nat): (r: Option<int>)
    ensures |range| == 0 <==> r.None?
    ensures r.Some? ==> r.value in range
  {
    if |range| == 0 then None else Some(range[choice % |range|])
  }

  /** The random choices one attempt of `randomRect` makes: x, y, then h, then w. */
  datatype RectDraw = RectDraw(x: nat, y: nat, h: nat, w: nat)

  /** The random choices one attempt of `randomCircle` makes: x, y, then d. */
  datatype CircleDraw = CircleDraw(x: nat, y: nat, d: nat)

  /** What a call ends with: a thrown error, a returned shape, or (because the
      draws given here are finite) no in-bounds shape among them. */
  datatype Drawn = Thrown(msg: string) | Returned(shape: Shape) | OutOfDraws

  /** `randomPoint(options)`. */
  function RandomPoint(o: Options, cx: nat, cy: nat): (p: Shape)
    ensures p.x == Sample(Range(o.xMin, o.xMax), cx) && p.y == Sample(Range(o.yMin, o.yMax), cy)
    ensures p.w.None? && p.h.None? && p.d.None?
  {
    Shape(Sample(Range(o.xMin, o.xMax), cx), Sample(Range(o.yMin, o.yMax), cy), None, None, None)
  }

  /** One attempt of `randomRect` as written: `h` is sampled from the width
      range and `w` from the height range. */
  function RectAttemptAsWritten(o: Options, dr: RectDraw): (rect: Shape)
    ensures rect.w.Some? ==> o.hMin <= rect.w.value < o.hMax
    ensures rect.h.Some? ==> o.wMin <= rect.h.value < o.wMax
    ensures rect.d.None?
  {
    var h := Sample(Range(o.wMin, o.wMax), dr.h);
    var w := Sample(Range(o.hMin, o.hMax), dr.w);
    assert h.Some? ==> o.wMin <= h.value < o.wMax by {
      if h.Some? { InRange(o.wMin, o.wMax, h.value); }
    }
    assert w.Some? ==> o.hMin <= w.value < o.hMax by {
      if w.Some? { InRange(o.hMin, o.hMax, w.value); }
    }
    RandomPoint(o, dr.x, dr.y).(h := h, w := w)
  }

  /** One attempt of `randomRect` with each extent from its own range. */
  function RectAttempt(o: Options, dr: RectDraw): (rect: Shape)
    ensures rect.w.Some? ==> o.wMin <= rect.w.value < o.wMax
    ensures rect.h.Some? ==> o.hMin <= rect.h.value < o.hMax
    ensures rect.d.None?
  {
    var w := Sample(Range(o.wMin, o.wMax), dr.w);
    var h := Sample(Range(o.hMin, o.hMax), dr.h);
    assert w.Some? ==> o.wMin <= w.value < o.wMax by {
      if w.Some? { InRange(o.wMin, o.wMax, w.value); }
    }
    assert h.Some? ==> o.hMin <= h.value < o.hMax by {
      if h.Some? { InRange(o.hMin, o.hMax, h.value); }
    }
    RandomPoint(o, dr.x, dr.y).(h := h, w := w)
  }

  const RectOptionsError := "Error, must provide options to randomRect!"
  const CircleOptionsError := "Error, must provide options to randomCircle!"

  /** `randomRect(options)` as written, retrying on the next draw until in bounds. */
  function RandomRectAsWritten(options: Option<Options>, draws: seq<RectDraw>): (r: Drawn)
    ensures options.None? <==> r == Thrown(RectOptionsError)
    ensures r.Returned? ==> CheckInBounds(r.shape, options.value)
    ensures r.Returned? ==> exists i :: 0 <= i < |draws| && r.shape == RectAttemptAsWritten(options.value, draws[i])
    decreases |draws|
  {
    match options
    case None => Thrown(RectOptionsError)
    case Some(o) =>
      if |draws| == 0 then OutOfDraws
      else
        var rect := RectAttemptAsWritten(o, draws[0]);
        if !CheckInBounds(rect, o) then RandomRectAsWritten(options, draws[1..]) else Returned(rect)
  }

  /** The swapped ranges let a rectangle through whose width lies outside
      [wMin, wMax): with wMin = 10, wMax = 11, hMin = 50, hMax = 51 the
      returned width is 50. */
  lemma RandomRectAsWrittenSwapsRanges()
    ensures var o := Options(1000, 1000, 0, 1, 0, 1, 10, 11, 50, 51, 0, 0);
            var r := RandomRectAsWritten(Some(o), [RectDraw(0, 0, 0, 0)]);
            r.Returned? && r.shape.w == Some(50) && !(o.wMin <= 50 < o.wMax)
  {
    var o := Options(1000, 1000, 0, 1, 0, 1, 10, 11, 50, 51, 0, 0);
    assert Range(0, 1) == [0];
    assert Range(10, 11) == [10];
    assert Range(50, 51) == [50];
    assert CheckInBounds(RectAttemptAsWritten(o, RectDraw(0, 0, 0, 0)), o);
  }

  /** `randomRect(options)` with width and height each drawn from its own
      range: throws on missing options, and whatever it returns is in bounds
      and has both extents present and in range. */
  function RandomRect(options: Option<Options>, draws: seq<RectDraw>): (r: Drawn)
    ensures options.None? <==> r == Thrown(RectOptionsError)
    ensures r.Returned? ==> CheckInBounds(r.shape, options.value)
    ensures r.Returned? ==> var o := options.value;
      r.shape.w.Some? && o.wMin <= r.shape.w.value < o.wMax &&
      r.shape.h.Some? && o.hMin <= r.shape.h.value < o.hMax
    decreases |draws|
  {
    match options
    case None => Thrown(RectOptionsError)
    case Some(o) =>
      if |draws| == 0 then OutOfDraws
      else
        var rect := RectAttempt(o, draws[0]);
        if !CheckInBounds(rect, o) then RandomRect(options, draws[1..]) else Returned(rect)
  }

  /** None of the first `n` attempts of `randomRect` is in bounds. */
  predicate NoRectFits(o: Options, draws: seq<RectDraw>, n: int)
    requires 0 <= n <= |draws|
  {
    forall j :: 0 <= j < n ==> !CheckInBounds(RectAttempt(o, draws[j]), o)
  }

  /** Skipping an attempt that is not in bounds shifts the count by one. */
  lemma NoRectFitsShift(o: Options, draws: seq<RectDraw>)
    requires |draws| > 0 && !CheckInBounds(RectAttempt(o, draws[0]), o)
    ensures forall n :: 0 <= n <= |draws| - 1 ==> (NoRectFits(o, draws[1..], n) <==> NoRectFits(o, draws, n + 1))
  {
    var tail := draws[1..];
    forall n | 0 <= n <= |tail| ensures NoRectFits(o, tail, n) <==> NoRectFits(o, draws, n + 1) {
      if NoRectFits(o, tail, n) {
        forall j | 0 <= j < n + 1 ensures !CheckInBounds(RectAttempt(o, draws[j]), o) {
          if j > 0 { assert draws[j] == tail[j - 1]; }
        }
      }
      if NoRectFits(o, draws, n + 1) {
        forall j | 0 <= j < n ensures !CheckInBounds(RectAttempt(o, tail[j]), o) {
          assert tail[j] == draws[j + 1];
        }
      }
    }
  }

  /** `randomRect` returns the first attempt that is in bounds. */
  lemma {:induction false} RandomRectFirstFit(o: Options, draws: seq<RectDraw>)
    ensures var r := RandomRect(Some(o), draws);
      r.Returned? ==> exists i :: (0 <= i < |draws| && r.shape == RectAttempt(o, draws[i]) && NoRectFits(o, draws, i))
    decreases |draws|
  {
    if |draws| > 0 {
      var tail := draws[1..];
      var first := RectAttempt(o, draws[0]);
      if !CheckInBounds(first, o) {
        RandomRectFirstFit(o, tail);
        var r := RandomRect(Some(o), tail);
        assert RandomRect(Some(o), draws) == r;
        NoRectFitsShift(o, draws);
        if r.Returned? {
          var i :| 0 <= i < |tail| && r.shape == RectAttempt(o, tail[i]) && NoRectFits(o, tail, i);
          assert r.shape == RectAttempt(o, draws[i + 1]);
        }
      } else {
        assert NoRectFits(o, draws, 0);
      }
    }
  }

  /** `randomRect` gives up exactly when no attempt is in bounds. */
  lemma {:induction false} RandomRectGivesUp(o: Options, draws: seq<RectDraw>)
    ensures RandomRect(Some(o), draws) == OutOfDraws <==> NoRectFits(o, draws, |draws|)
    decreases |draws|
  {
    if |draws| > 0 {
      var first := RectAttempt(o, draws[0]);
      if !CheckInBounds(first, o) {
        RandomRectGivesUp(o, draws[1..]);
        NoRectFitsShift(o, draws);
      } else {
        assert !NoRectFits(o, draws, |draws|);
      }
    }
  }

  /** One attempt of `randomCircle`: an empty diameter range falls back to `[dMin]`. */
  function CircleAttempt(o: Options, dr: CircleDraw): (c: Shape)
    ensures c.d.Some?
    ensures o.dMin < o.dMax ==> o.dMin <= c.d.value < o.dMax
    ensures o.dMax <= o.dMin ==> c.d.value == o.dMin
  {
    var dRange := Range(o.dMin, o.dMax);
    var dRange' := if |dRange| == 0 then [o.dMin] else dRange;
    InRange(o.dMin, o.dMax, Sample(dRange', dr.d).value);
    RandomPoint(o, dr.x, dr.y).(d := Sample(dRange', dr.d))
  }

  /** `randomCircle(options)`: throws on missing options; whatever it returns
      is in bounds and has a diameter. */
  function RandomCircle(options: Option<Options>, draws: seq<CircleDraw>): (r: Drawn)
    ensures options.None? <==> r == Thrown(CircleOptionsError)
    ensures r.Returned? ==> CheckInBounds(r.shape, options.value) && r.shape.d.Some?
    decreases |draws|
  {
    match options
    case None => Thrown(CircleOptionsError)
    case Some(o) =>
      if |draws| == 0 then OutOfDraws
      else
        var circle := CircleAttempt(o, draws[0]);
        if !CheckInBounds(circle, o) then RandomCircle(options, draws[1..]) else Returned(circle)
  }

  /** None of the first `n` attempts of `randomCircle` is in bounds. */
  predicate NoCircleFits(o: Options, draws: seq<CircleDraw>, n: int)
    requires 0 <= n <= |draws|
  {
    forall j :: 0 <= j < n ==> !CheckInBounds(CircleAttempt(o, draws[j]), o)
  }

  /** Skipping an attempt that is not in bounds shifts the count by one. */
  lemma NoCircleFitsShift(o: Options, draws: seq<CircleDraw>)
    requires |draws| > 0 && !CheckInBounds(CircleAttempt(o, draws[0]), o)
    ensures forall n :: 0 <= n <= |draws| - 1 ==> (NoCircleFits(o, draws[1..], n) <==> NoCircleFits(o, draws, n + 1))
  {
    var tail := draws[1..];
    forall n | 0 <= n <= |tail| ensures NoCircleFits(o, tail, n) <==> NoCircleFits(o, draws, n + 1) {
      if NoCircleFits(o, tail, n) {
        forall j | 0 <= j < n + 1 ensures !CheckInBounds(CircleAttempt(o, draws[j]), o) {
          if j > 0 { assert draws[j] == tail[j - 1]; }
        }
      }
      if NoCircleFits(o, draws, n + 1) {
        forall j | 0 <= j < n ensures !CheckInBounds(CircleAttempt(o, tail[j]), o) {
          assert tail[j] == draws[j + 1];
        }
      }
    }
  }

  /** `randomCircle` returns the first attempt that is in bounds. */
  lemma {:induction false} RandomCircleFirstFit(o: Options, draws: seq<CircleDraw>)
    ensures var r := RandomCircle(Some(o), draws);
      r.Returned? ==> exists i :: (0 <= i < |draws| && r.shape == CircleAttempt(o, draws[i]) && NoCircleFits(o, draws, i))
    decreases |draws|
  {
    if |draws| > 0 {
      var tail := draws[1..];
      var first := CircleAttempt(o, draws[0]);
      if !CheckInBounds(first, o) {
        RandomCircleFirstFit(o, tail);
        var r := RandomCircle(Some(o), tail);
        assert RandomCircle(Some(o), draws) == r;
        NoCircleFitsShift(o, draws);
        if r.Returned? {
          var i :| 0 <= i < |tail| && r.shape == CircleAttempt(o, tail[i]) && NoCircleFits(o, tail, i);
          assert r.shape == CircleAttempt(o, draws[i + 1]);
        }
      } else {
        assert NoCircleFits(o, draws, 0);
      }
    }
  }

  /** `randomCircle` gives up exactly when no attempt is in bounds. */
  lemma {:induction false} RandomCircleGivesUp(o: Options, draws: seq<CircleDraw>)
    ensures RandomCircle(Some(o), draws) == OutOfDraws <==> NoCircleFits(o, draws, |draws|)
    decreases |draws|
  {
    if |draws| > 0 {
      var first := CircleAttempt(o, draws[0]);
      if !CheckInBounds(first, o) {
        RandomCircleGivesUp(o, draws[1..]);
        NoCircleFitsShift(o, draws);
      } else {
        assert !NoCircleFits(o, draws, |draws|);
      }
    }
  }
}
