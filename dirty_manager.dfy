/**
 * The dirty-rectangle accumulator of the overlay (src/dirty-manager.js).
 * Every text the overlay draws reports its box with AddRect; at the start of
 * the next frame Clear invalidates the one bounding box of everything added
 * and resets the accumulator to an inverted bound taken from the canvas size.
 */
module DirtyRegion {

  /** A rectangle as the drawing context's clearRect takes it: origin and extent. */
  datatype Rect = Rect(x: real, y: real, width: real, height: real)

  /** The four accumulated edges. */
  datatype Bounds = Bounds(top: real, left: real, bottom: real, right: real)

  /** The source's `a < b ? a : b`: the smaller of the two. */
  function Min(a: real, b: real): (m: real)
    ensures m <= a && m <= b && (m == a || m == b)
  {
    if a < b then a else b
  }

  /** The source's `a > b ? a : b`: the larger of the two. */
  function Max(a: real, b: real): (m: real)
    ensures m >= a && m >= b && (m == a || m == b)
  {
    if a > b then a else b
  }

  /** The inverted bound a manager starts from and returns to after a clear. */
  function ResetBounds(canvasWidth: real, canvasHeight: real): Bounds {
    Bounds(canvasHeight, canvasWidth, 0.0, 0.0)
  }

  /** One addRect step: widen each edge by the rectangle's corresponding edge. */
  function Include(b: Bounds, r: Rect): Bounds {
    Bounds(Min(r.y, b.top), Min(r.x, b.left), Max(r.y + r.height, b.bottom), Max(r.x + r.width, b.right))
  }

  /** The bound after adding `rs` in order to `b`. */
  function Accumulate(b: Bounds, rs: seq<Rect>): Bounds
    decreases |rs|
  {
    if rs == [] then b else Include(Accumulate(b, rs[..|rs| - 1]), rs[|rs| - 1])
  }

  /** The rectangle clearRect is given for a bound. */
  function Area(b: Bounds): Rect {
    Rect(b.left, b.top, b.right - b.left, b.bottom - b.top)
  }

  /** `m` is the least of `start` and all of `xs`. */
  ghost predicate IsMinimum(m: real, start: real, xs: seq<real>) {
    && m <= start
    && (forall i :: 0 <= i < |xs| ==> m <= xs[i])
    && (m == start || exists i :: 0 <= i < |xs| && m == xs[i])
  }

  /** `m` is the greatest of `start` and all of `xs`. */
  ghost predicate IsMaximum(m: real, start: real, xs: seq<real>) {
    && m >= start
    && (forall i :: 0 <= i < |xs| ==> m >= xs[i])
    && (m == start || exists i :: 0 <= i < |xs| && m == xs[i])
  }

  function Lefts(rs: seq<Rect>): seq<real> { seq(|rs|, i requires 0 <= i < |rs| => rs[i].x) }
  function Tops(rs: seq<Rect>): seq<real> { seq(|rs|, i requires 0 <= i < |rs| => rs[i].y) }
  function Rights(rs: seq<Rect>): seq<real> { seq(|rs|, i requires 0 <= i < |rs| => rs[i].x + rs[i].width) }
  function Bottoms(rs: seq<Rect>): seq<real> { seq(|rs|, i requires 0 <= i < |rs| => rs[i].y + rs[i].height) }

  /**
   * The accumulated bound is the bounding box of the added rectangles joined
   * with the bound accumulation started from: each edge is attained by the
   * start or by one of the rectangles, and no rectangle lies outside it.
   */
  lemma {:induction false} AccumulateIsBoundingBox(b: Bounds, rs: seq<Rect>)
    ensures IsMinimum(Accumulate(b, rs).left, b.left, Lefts(rs))
    ensures IsMinimum(Accumulate(b, rs).top, b.top, Tops(rs))
    ensures IsMaximum(Accumulate(b, rs).right, b.right, Rights(rs))
    ensures IsMaximum(Accumulate(b, rs).bottom, b.bottom, Bottoms(rs))
    decreases |rs|
  {
    if rs != [] {
      var init := rs[..|rs| - 1];
      var last := |rs| - 1;
      AccumulateIsBoundingBox(b, init);
      var a := Accumulate(b, init);
      assert Lefts(rs) == Lefts(init) + [rs[last].x];
      assert Tops(rs) == Tops(init) + [rs[last].y];
      assert Rights(rs) == Rights(init) + [rs[last].x + rs[last].width];
      assert Bottoms(rs) == Bottoms(init) + [rs[last].y + rs[last].height];
      ExtendMinimum(a.left, b.left, Lefts(init), rs[last].x);
      ExtendMinimum(a.top, b.top, Tops(init), rs[last].y);
      ExtendMaximum(a.right, b.right, Rights(init), rs[last].x + rs[last].width);
      ExtendMaximum(a.bottom, b.bottom, Bottoms(init), rs[last].y + rs[last].height);
    }
  }

  lemma ExtendMinimum(m: real, start: real, xs: seq<real>, x: real)
    requires IsMinimum(m, start, xs)
    ensures IsMinimum(if x < m then x else m, start, xs + [x])
  {
    var ys := xs + [x];
    if x < m {
      assert ys[|xs|] == x;
    } else if m != start {
      var i :| 0 <= i < |xs| && m == xs[i];
      assert ys[i] == m;
    }
    forall i | 0 <= i < |xs| ensures ys[i] == xs[i] { }
  }

  lemma ExtendMaximum(m: real, start: real, xs: seq<real>, x: real)
    requires IsMaximum(m, start, xs)
    ensures IsMaximum(if x > m then x else m, start, xs + [x])
  {
    var ys := xs + [x];
    if x > m {
      assert ys[|xs|] == x;
    } else if m != start {
      var i :| 0 <= i < |xs| && m == xs[i];
      assert ys[i] == m;
    }
    forall i | 0 <= i < |xs| ensures ys[i] == xs[i] { }
  }

  /**
   * Once at least one rectangle of non-negative size has been added, the
   * bound is no longer inverted, whatever it started from.
   */
  lemma AccumulateIsProper(b: Bounds, rs: seq<Rect>)
    requires rs != []
    requires forall i :: 0 <= i < |rs| ==> rs[i].width >= 0.0 && rs[i].height >= 0.0
    ensures Accumulate(b, rs).left <= Accumulate(b, rs).right
    ensures Accumulate(b, rs).top <= Accumulate(b, rs).bottom
  {
    AccumulateIsBoundingBox(b, rs);
    assert Lefts(rs)[0] <= Rights(rs)[0] && Tops(rs)[0] <= Bottoms(rs)[0];
  }

  /** Accumulation is sequential: adding `ss` after `rs` is adding `rs + ss`. */
  lemma {:induction false} AccumulateAppend(b: Bounds, rs: seq<Rect>, ss: seq<Rect>)
    ensures Accumulate(Accumulate(b, rs), ss) == Accumulate(b, rs + ss)
    decreases |ss|
  {
    if ss != [] {
      var init := ss[..|ss| - 1];
      var all := rs + ss;
      AccumulateAppend(b, rs, init);
      assert all != [] && all[..|all| - 1] == rs + init && all[|all| - 1] == ss[|ss| - 1];
      calc {
        Accumulate(Accumulate(b, rs), ss);
        Include(Accumulate(Accumulate(b, rs), init), ss[|ss| - 1]);
        Include(Accumulate(b, rs + init), ss[|ss| - 1]);
        Accumulate(b, all);
      }
    } else {
      assert rs + ss == rs;
    }
  }

  /** The drawing surface the manager invalidates; its size may change between frames. */
  class Canvas {
    var width: real
    var height: real

    constructor (width: real, height: real)
      ensures this.width == width && this.height == height
    {
      this.width := width;
      this.height := height;
    }
  }

  class DirtyManager {
    const canvas: Canvas

    var top: real
    var left: real
    var bottom: real
    var right: real
    var isDirty: bool

    /** Every clearRect issued on the drawing context, in order. */
    ghost var cleared: seq<Rect>
    /** The reset bound the current accumulation started from. */
    ghost var origin: Bounds
    /** The rectangles added since that reset. */
    ghost var added: seq<Rect>

    function Box(): Bounds
      reads this
    {
      Bounds(top, left, bottom, right)
    }

    /** The four edges are the accumulation of what was added since the last reset. */
    ghost predicate Valid()
      reads this
    {
      && Box() == Accumulate(origin, added)
      && isDirty == (added != [])
    }

    constructor (canvas: Canvas)
      ensures Valid() && this.canvas == canvas
      ensures Box() == ResetBounds(canvas.width, canvas.height) && !isDirty
      ensures origin == Box() && added == [] && cleared == []
    {
      this.canvas := canvas;
      top := canvas.height;
      left := canvas.width;
      bottom := 0.0;
      right := 0.0;
      isDirty := false;
      origin := Bounds(canvas.height, canvas.width, 0.0, 0.0);
      added := [];
      cleared := [];
    }

    method AddRect(left: real, top: real, width: real, height: real)
      requires Valid()
      modifies this
      ensures Valid()
      ensures this.top == Min(top, old(this.top)) && this.left == Min(left, old(this.left))
      ensures this.bottom == Max(top + height, old(this.bottom))
      ensures this.right == Max(left + width, old(this.right))
      ensures isDirty
      ensures width >= 0.0 && height >= 0.0 ==> this.left <= this.right && this.top <= this.bottom
      ensures added == old(added) + [Rect(left, top, width, height)]
      ensures origin == old(origin) && cleared == old(cleared)
    {
      var right := left + width;
      var bottom := top + height;

      this.top := if top < this.top then top else this.top;
      this.left := if left < this.left then left else this.left;
      this.bottom := if bottom > this.bottom then bottom else this.bottom;
      this.right := if right > this.right then right else this.right;

      isDirty := true;
      added := added + [Rect(left, top, width, height)];
      assert added[..|added| - 1] == old(added);
      assert Box() == Include(old(Box()), Rect(left, top, width, height));
    }

    method Clear()
      requires Valid()
      modifies this
      ensures Valid()
      ensures !old(isDirty) ==>
        Box() == old(Box()) && !isDirty && cleared == old(cleared)
        && origin == old(origin) && added == old(added)
      ensures old(isDirty) ==>
        && cleared == old(cleared) + [Area(old(Box()))]
        && Area(old(Box())) == Area(Accumulate(old(origin), old(added)))
        && Box() == ResetBounds(canvas.width, canvas.height) && !isDirty
        && origin == Box() && added == []
    {
      if !isDirty { return; }

      cleared := cleared + [Rect(left, top, right - left, bottom - top)];

      left := canvas.width;
      top := canvas.height;
      right := 0.0;
      bottom := 0.0;

      isDirty := false;
      origin := Box();
      added := [];
    }
  }

  /** Clearing twice in a row invalidates at most once, and the second clear is free. */
  method ClearTwice(d: DirtyManager)
    requires d.Valid()
    modifies d
    ensures d.Valid() && !d.isDirty
    ensures |d.cleared| <= |old(d.cleared)| + 1
    ensures |d.cleared| == |old(d.cleared)| + (if old(d.isDirty) then 1 else 0)
  {
    d.Clear();
    d.Clear();
  }
}
