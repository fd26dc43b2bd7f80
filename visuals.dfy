// The visual elements the sparkline owns: the canvas (a WPF Grid) with its
// children, the polyline with its points, and the overlay rectangles that
// mark the watermarks and the latest level.
module Visuals {
  import opened Geometry

  /** The Sparkline property an overlay rectangle's margin is bound to. */
  datatype Tracked = LowWaterMark | HighWaterMark | LatestLevel

  /**
   * An overlay marker. Each enabling toggle allocates a new one, so markers
   * are told apart by identity; `source` is the property its binding follows.
   */
  class Rectangle {
    const source: Tracked

    constructor (source: Tracked)
      ensures this.source == source
    {
      this.source := source;
    }
  }

  /** A child of the canvas: the polyline, an overlay marker, or the dot drawn at a point. */
  datatype Child = Line | Marker(rect: Rectangle) | Dot(center: Point)

  /** The "Canvas" element of the template: a Grid whose height, margin and children the control sets. */
  class Grid {
    var height: Height
    var margin: Thickness
    var children: seq<Child>

    /** As the template provides it: automatic height, no margin, holding the polyline. */
    constructor ()
      ensures height == Auto && margin == BottomMargin(0.0) && children == [Line]
    {
      height := Auto;
      margin := BottomMargin(0.0);
      children := [Line];
    }
  }

  /** The "Polyline" element of the template. */
  class Polyline {
    var points: seq<Point>

    constructor ()
      ensures points == []
    {
      points := [];
    }
  }

  /**
   * UIElementCollection.Remove: takes out the first occurrence of `c`, if any,
   * and keeps every other child in its order.
   */
  function RemoveFirst(s: seq<Child>, c: Child): (r: seq<Child>)
    ensures multiset(r) == multiset(s) - multiset{c}
  {
    if s == [] then []
    else
      assert s == [s[0]] + s[1..];
      if s[0] == c then s[1..]
      else [s[0]] + RemoveFirst(s[1..], c)
  }

  /** `s` with every occurrence of `c` left out. */
  function Without(s: seq<Child>, c: Child): (r: seq<Child>)
    ensures c !in r
    ensures forall d :: d in r ==> d in s
    ensures c !in s ==> r == s
    ensures |r| == |s| - Count(s, c)
  {
    if s == [] then []
    else
      assert s == [s[0]] + s[1..];
      (if s[0] == c then [] else [s[0]]) + Without(s[1..], c)
  }

  /** Removing the only occurrence of a child is leaving it out. */
  lemma {:induction false} RemoveOnly(s: seq<Child>, c: Child)
    requires Count(s, c) <= 1
    ensures RemoveFirst(s, c) == Without(s, c)
  {
    if s != [] {
      assert s == [s[0]] + s[1..];
      if s[0] == c {
        CountIsMultiplicity(s[1..], c);
      } else {
        RemoveOnly(s[1..], c);
      }
    }
  }

  /** The position of the first occurrence of `c` among the children. */
  function FirstIndex(s: seq<Child>, c: Child): (i: nat)
    requires c in s
    ensures i < |s| && s[i] == c && c !in s[..i]
  {
    if s[0] == c then 0
    else
      assert s == [s[0]] + s[1..];
      var j := FirstIndex(s[1..], c);
      assert s[..j + 1] == [s[0]] + s[1..][..j];
      j + 1
  }

  /**
   * Remove keeps the other children in their order: nothing changes when
   * `c` is absent, and otherwise exactly its first occurrence is cut out.
   */
  lemma RemoveFirstKeepsOrder(s: seq<Child>, c: Child)
    ensures c !in s ==> RemoveFirst(s, c) == s
    ensures c in s ==> RemoveFirst(s, c) == s[..FirstIndex(s, c)] + s[FirstIndex(s, c) + 1..]
  {
    if c in s {
      RemoveFirstCuts(s, c, FirstIndex(s, c));
    } else {
      RemoveFirstAbsent(s, c);
    }
  }

  lemma {:induction false} RemoveFirstAbsent(s: seq<Child>, c: Child)
    requires c !in s
    ensures RemoveFirst(s, c) == s
  {
    if s != [] {
      assert s == [s[0]] + s[1..];
      RemoveFirstAbsent(s[1..], c);
    }
  }

  /** Remove cuts out position `i` when that is where `c` first occurs. */
  lemma {:induction false} RemoveFirstCuts(s: seq<Child>, c: Child, i: nat)
    requires i < |s| && s[i] == c && c !in s[..i]
    ensures RemoveFirst(s, c) == s[..i] + s[i + 1..]
  {
    if i == 0 {
      assert s[..0] + s[1..] == s[1..];
    } else {
      assert s[0] == s[..i][0];
      assert s[1..][..i - 1] == s[..i][1..];
      RemoveFirstCuts(s[1..], c, i - 1);
      assert RemoveFirst(s, c) == [s[0]] + RemoveFirst(s[1..], c);
      ConsSplice(s, i - 1);
    }
  }

  /** Cutting position j out of the tail and putting the head back is cutting position j + 1 out of `s`. */
  lemma ConsSplice(s: seq<Child>, j: nat)
    requires j + 1 < |s|
    ensures [s[0]] + (s[1..][..j] + s[1..][j + 1..]) == s[..j + 1] + s[j + 2..]
  {
    assert s[..j + 1] == [s[0]] + s[1..][..j];
    assert s[j + 2..] == s[1..][j + 1..];
  }

  /** How many times `c` occurs among the children. */
  function Count(s: seq<Child>, c: Child): (n: nat) {
    if s == [] then 0 else (if s[0] == c then 1 else 0) + Count(s[1..], c)
  }

  /** Every marker among the children is one of the markers held. */
  predicate MarkersHeld(s: seq<Child>, low: Rectangle?, high: Rectangle?, latest: Rectangle?) {
    s != [] ==>
      && (s[0].Marker? ==> s[0].rect == low || s[0].rect == high || s[0].rect == latest)
      && MarkersHeld(s[1..], low, high, latest)
  }

  /** Count is the multiplicity of the child in the multiset of children. */
  lemma {:induction false} CountIsMultiplicity(s: seq<Child>, c: Child)
    ensures Count(s, c) == multiset(s)[c]
  {
    if s != [] {
      assert s == [s[0]] + s[1..];
      CountIsMultiplicity(s[1..], c);
    }
  }

  lemma {:induction false} CountAppend(s: seq<Child>, t: seq<Child>, c: Child)
    ensures Count(s + t, c) == Count(s, c) + Count(t, c)
  {
    if s != [] {
      var st := s + t;
      assert st != [] && st[0] == s[0] && st[1..] == s[1..] + t;
      CountAppend(s[1..], t, c);
      assert Count(st, c) == (if s[0] == c then 1 else 0) + Count(s[1..] + t, c);
    } else {
      assert s + t == t;
    }
  }

  /** Leaving out a child leaves every other child as often as it was. */
  lemma {:induction false} CountWithout(s: seq<Child>, c: Child, d: Child)
    ensures Count(Without(s, c), d) == if d == c then 0 else Count(s, d)
  {
    if s != [] {
      CountWithout(s[1..], c, d);
      CountAppend(if s[0] == c then [] else [s[0]], Without(s[1..], c), d);
      if s[0] != c {
        assert [s[0]][1..] == [];
      }
    }
  }

  /** MarkersHeld states that every marker child is held. */
  lemma {:induction false} MarkersHeldIff(s: seq<Child>, low: Rectangle?, high: Rectangle?, latest: Rectangle?)
    ensures MarkersHeld(s, low, high, latest) <==>
              forall c :: c in s && c.Marker? ==> c.rect == low || c.rect == high || c.rect == latest
  {
    if s != [] {
      assert s == [s[0]] + s[1..];
      MarkersHeldIff(s[1..], low, high, latest);
    }
  }

  /**
   * The overlay part of the control's invariant: the polyline is a child
   * once, each marker the control holds is a child once and follows the
   * property of its slot, and no other marker is a child.
   */
  predicate ChildrenValid(children: seq<Child>, low: Rectangle?, high: Rectangle?, latest: Rectangle?) {
    && (low != null ==> low.source == LowWaterMark && Count(children, Marker(low)) == 1)
    && (high != null ==> high.source == HighWaterMark && Count(children, Marker(high)) == 1)
    && (latest != null ==> latest.source == LatestLevel && Count(children, Marker(latest)) == 1)
    && Count(children, Line) == 1
    && MarkersHeld(children, low, high, latest)
  }

  /** Children added after valid ones, none of them the polyline or a marker, leave them valid. */
  lemma ChildrenAppend(children: seq<Child>, more: seq<Child>, low: Rectangle?, high: Rectangle?, latest: Rectangle?)
    requires ChildrenValid(children, low, high, latest)
    requires forall c :: c in more ==> c.Dot?
    ensures ChildrenValid(children + more, low, high, latest)
  {
    forall c: Child | !c.Dot?
      ensures Count(children + more, c) == Count(children, c)
    {
      CountAppend(children, more, c);
      CountIsMultiplicity(more, c);
    }
    MarkersHeldIff(children, low, high, latest);
    MarkersHeldIff(children + more, low, high, latest);
  }

  /** A single child occurs once in itself and not otherwise. */
  lemma CountSingle(c: Child, d: Child)
    ensures Count([c], d) == if c == d then 1 else 0
  {
    assert [c][1..] == [];
  }

  /** Putting a child in front adds one occurrence of it and no other. */
  lemma CountPrepend(c: Child, s: seq<Child>, d: Child)
    ensures Count([c] + s, d) == (if c == d then 1 else 0) + Count(s, d)
  {
    assert ([c] + s)[1..] == s;
  }

  /**
   * A new marker put in front of valid children, held in a slot that was
   * empty, leaves them valid.
   */
  lemma ChildrenPrepend(children: seq<Child>, m: Rectangle, low: Rectangle?, high: Rectangle?, latest: Rectangle?,
                        low2: Rectangle?, high2: Rectangle?, latest2: Rectangle?)
    requires ChildrenValid(children, low, high, latest)
    requires m != low && m != high && m != latest
    requires low2 == low || (low == null && low2 == m && m.source == LowWaterMark)
    requires high2 == high || (high == null && high2 == m && m.source == HighWaterMark)
    requires latest2 == latest || (latest == null && latest2 == m && m.source == LatestLevel)
    requires m == low2 || m == high2 || m == latest2
    ensures ChildrenValid([Marker(m)] + children, low2, high2, latest2)
  {
    MarkersHeldIff(children, low, high, latest);
    CountIsMultiplicity(children, Marker(m));
    forall d: Child
      ensures Count([Marker(m)] + children, d) == (if Marker(m) == d then 1 else 0) + Count(children, d)
    {
      CountPrepend(Marker(m), children, d);
    }
    assert ([Marker(m)] + children)[1..] == children;
    MarkersHeldIff(children, low2, high2, latest2);
  }

  /**
   * Leaving a held marker out of valid children, and emptying its slot,
   * leaves them valid.
   */
  lemma ChildrenRemove(children: seq<Child>, m: Rectangle, low: Rectangle?, high: Rectangle?, latest: Rectangle?)
    requires ChildrenValid(children, low, high, latest)
    requires m == low || m == high || m == latest
    ensures ChildrenValid(Without(children, Marker(m)),
                          if low == m then null else low,
                          if high == m then null else high,
                          if latest == m then null else latest)
  {
    var rest := Without(children, Marker(m));
    var low2, high2, latest2 := if low == m then null else low, if high == m then null else high,
                                if latest == m then null else latest;
    forall d: Child
      ensures Count(rest, d) == if d == Marker(m) then 0 else Count(children, d)
    {
      CountWithout(children, Marker(m), d);
    }
    MarkersHeldIff(children, low, high, latest);
    MarkersHeldIff(rest, low2, high2, latest2);
  }

  /**
   * The children a reset leaves: the polyline, then the low and high
   * markers when both are held, then the latest-level marker when held.
   */
  function Layout(low: Rectangle?, high: Rectangle?, latest: Rectangle?): (children: seq<Child>)
  {
    [Line] + (if low != null && high != null then [Marker(low), Marker(high)] else [])
    + (if latest != null then [Marker(latest)] else [])
  }

  /** The children a reset leaves are valid for the markers held. */
  lemma ResetChildren(low: Rectangle?, high: Rectangle?, latest: Rectangle?)
    requires (low == null) == (high == null)
    requires low != null ==> low.source == LowWaterMark
    requires high != null ==> high.source == HighWaterMark
    requires latest != null ==> latest.source == LatestLevel
    ensures ChildrenValid(Layout(low, high, latest), low, high, latest)
  {
    var pair := if low != null && high != null then [Marker(low), Marker(high)] else [];
    var last := if latest != null then [Marker(latest)] else [];
    var s := [Line] + pair + last;
    forall d: Child
      ensures Count(s, d) == (if d == Line then 1 else 0)
                             + (if low != null && d == Marker(low) then 1 else 0)
                             + (if high != null && d == Marker(high) then 1 else 0)
                             + (if latest != null && d == Marker(latest) then 1 else 0)
    {
      CountAppend([Line] + pair, last, d);
      CountAppend([Line], pair, d);
      CountSingle(Line, d);
      if low != null {
        assert pair == [Marker(low)] + [Marker(high)];
        CountAppend([Marker(low)], [Marker(high)], d);
        CountSingle(Marker(low), d);
        CountSingle(Marker(high), d);
      }
      if latest != null {
        CountSingle(Marker(latest), d);
      }
    }
    MarkersHeldIff(s, low, high, latest);
  }

  /** The dots drawn for the points `ps`, in order. */
  function Dots(ps: seq<Point>): (ds: seq<Child>)
    ensures |ds| == |ps|
  {
    if ps == [] then [] else Dots(ps[..|ps| - 1]) + [Dot(ps[|ps| - 1])]
  }

  /** Dots are dots. */
  lemma {:induction false} DotsAreDots(ps: seq<Point>)
    ensures forall c :: c in Dots(ps) ==> c.Dot?
  {
    if ps != [] {
      DotsAreDots(ps[..|ps| - 1]);
    }
  }

  /** The points drawn for the values `ys` at ordinals start, start + 1, and so on. */
  function Plot(ys: seq<real>, start: int): (ps: seq<Point>)
    ensures |ps| == |ys|
  {
    if ys == [] then [] else Plot(ys[..|ys| - 1], start) + [GetPoint(start + |ys| - 1, ys[|ys| - 1])]
  }

  /** The y-coordinates of a sequence of points. */
  function Ys(ps: seq<Point>): (ys: seq<real>)
    ensures |ys| == |ps|
  {
    if ps == [] then [] else Ys(ps[..|ps| - 1]) + [ps[|ps| - 1].y]
  }

  /** The y-coordinates of one more point end with its y-coordinate. */
  lemma YsSnoc(ps: seq<Point>, p: Point)
    ensures Ys(ps + [p]) == Ys(ps) + [p.y]
  {
    assert (ps + [p])[..|ps|] == ps;
  }

  /**
   * The plotted points carry the values in order, at x-coordinates that
   * step by XWidth from start * XWidth.
   */
  lemma {:induction false} PlotPlacesValues(ys: seq<real>, start: int)
    ensures Ys(Plot(ys, start)) == ys
    ensures forall i :: 0 <= i < |ys| ==> Plot(ys, start)[i].x == XWidth * (start + i)
    ensures forall i :: 0 <= i < |ys| ==> Ordinal(Plot(ys, start)[i]) == start + i
  {
    if ys != [] {
      var init, y := ys[..|ys| - 1], ys[|ys| - 1];
      PlotPlacesValues(init, start);
      var p := GetPoint(start + |ys| - 1, y);
      YsSnoc(Plot(init, start), p);
      assert init + [y] == ys;
    }
  }
}
