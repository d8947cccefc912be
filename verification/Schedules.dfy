/**
 Schedules of periods over days. A grid is the function that takes the first day of a period to the
 first day of the following one; `Cut` cuts a range of days at the points of a grid. Nothing here
 depends on the calendar.
 */
module Schedules {
  import opened Basics

  type Grid = Day -> Day

  datatype BillingPeriod = BillingPeriod(first: Day, last: Day, due: Day)

  ghost predicate Advances(next: Grid) {
    forall d :: next(d) > d
  }

  // ---------- The points of a grid ----------

  function Point(next: Grid, s: Day, k: nat): Day {
    if k == 0 then s else next(Point(next, s, k - 1))
  }

  lemma {:induction false} PointsIncrease(next: Grid, s: Day, j: nat, k: nat)
    requires Advances(next)
    requires j <= k
    ensures Point(next, s, k) >= Point(next, s, j) + (k - j)
    decreases k - j
  {
    if j < k {
      PointsIncrease(next, s, j, k - 1);
    }
  }

  lemma {:induction false} PointShift(next: Grid, s: Day, j: nat, k: nat)
    ensures Point(next, Point(next, s, j), k) == Point(next, s, j + k)
    decreases k
  {
    if k > 0 {
      PointShift(next, s, j, k - 1);
    }
  }

  // ---------- Cutting a range of days at the grid points ----------

  function Cut(next: Grid, due: Day -> Day, s: Day, e: Day): (ps: seq<BillingPeriod>)
    requires Advances(next)
    ensures s <= e <==> |ps| > 0
    decreases e - s
  {
    if s > e then []
    else [BillingPeriod(s, Min(next(s) - 1, e), due(s))] + Cut(next, due, next(s), e)
  }

  lemma CutTail(next: Grid, due: Day -> Day, s: Day, e: Day)
    requires Advances(next)
    requires s <= e
    ensures Cut(next, due, s, e)[1..] == Cut(next, due, next(s), e)
  {
  }

  ghost predicate IsPeriodOf(p: BillingPeriod, next: Grid, due: Day -> Day, s: Day, e: Day, k: nat) {
    && p.first == Point(next, s, k)
    && p.last == Min(Point(next, s, k + 1) - 1, e)
    && p.due == due(Point(next, s, k))
  }

  // Period k runs from point k to the day before point k + 1, or to the end.
  lemma {:induction false} CutPeriod(next: Grid, due: Day -> Day, s: Day, e: Day, k: nat)
    requires Advances(next)
    requires k < |Cut(next, due, s, e)|
    ensures IsPeriodOf(Cut(next, due, s, e)[k], next, due, s, e, k)
    decreases k
  {
    assert Point(next, s, 1) == next(Point(next, s, 0));
    if k > 0 {
      CutPeriod(next, due, next(s), e, k - 1);
      PointShift(next, s, 1, k - 1);
      PointShift(next, s, 1, k);
    }
  }

  // There are as many periods as there are points up to the end.
  lemma {:induction false} CutLength(next: Grid, due: Day -> Day, s: Day, e: Day, k: nat)
    requires Advances(next)
    ensures k < |Cut(next, due, s, e)| <==> Point(next, s, k) <= e
    decreases k
  {
    assert Point(next, s, 1) == next(Point(next, s, 0));
    if k > 0 {
      PointsIncrease(next, s, 0, k);
      if s <= e {
        CutLength(next, due, next(s), e, k - 1);
        PointShift(next, s, 1, k - 1);
      }
    }
  }

  // Rebuilding from one of the schedule's own points gives the rest of the schedule.
  lemma {:induction false} CutResumes(next: Grid, due: Day -> Day, s: Day, e: Day, k: nat)
    requires Advances(next)
    requires k <= |Cut(next, due, s, e)|
    ensures Cut(next, due, s, e)[k..] == Cut(next, due, Point(next, s, k), e)
    decreases k
  {
    if k > 0 {
      CutTail(next, due, s, e);
      CutResumes(next, due, next(s), e, k - 1);
      assert Point(next, s, 1) == next(Point(next, s, 0));
      PointShift(next, s, 1, k - 1);
      assert Cut(next, due, s, e)[k..] == Cut(next, due, s, e)[1..][k - 1..];
    }
  }

  // The periods before one of the schedule's own points are the schedule up to that point.
  lemma {:induction false} CutPrefix(next: Grid, due: Day -> Day, s: Day, e: Day, k: nat)
    requires Advances(next)
    requires Point(next, s, k) <= e + 1
    ensures k <= |Cut(next, due, s, e)|
    ensures Cut(next, due, s, e)[..k] == Cut(next, due, s, Point(next, s, k) - 1)
    decreases k
  {
    if k > 0 {
      PointsIncrease(next, s, 0, k);
      assert Point(next, s, 1) == next(Point(next, s, 0));
      PointShift(next, s, 1, k - 1);
      PointsIncrease(next, s, 1, k);
      CutPrefix(next, due, next(s), e, k - 1);
      CutTail(next, due, s, e);
      assert Cut(next, due, s, e)[..k] == [Cut(next, due, s, e)[0]] + Cut(next, due, s, e)[1..][..k - 1];
    }
  }

  // ---------- Partitions ----------

  // The periods follow one another without gap or overlap from `from` up to the day before `until`.
  predicate Tiles(ps: seq<BillingPeriod>, from: Day, until: Day) {
    if ps == [] then from == until
    else ps[0].first == from <= ps[0].last && Tiles(ps[1..], ps[0].last + 1, until)
  }

  function TimesCovered(ps: seq<BillingPeriod>, d: Day): nat {
    if ps == [] then 0
    else (if ps[0].first <= d <= ps[0].last then 1 else 0) + TimesCovered(ps[1..], d)
  }

  lemma {:induction false} TilesCoverOnce(ps: seq<BillingPeriod>, from: Day, until: Day, d: Day)
    requires Tiles(ps, from, until)
    ensures from <= until
    ensures TimesCovered(ps, d) == if from <= d < until then 1 else 0
  {
    if ps != [] {
      TilesCoverOnce(ps[1..], ps[0].last + 1, until, d);
    }
  }

  lemma {:induction false} TilesJoin(ps: seq<BillingPeriod>, qs: seq<BillingPeriod>, from: Day, mid: Day, until: Day)
    requires Tiles(ps, from, mid) && Tiles(qs, mid, until)
    ensures Tiles(ps + qs, from, until)
  {
    if ps == [] {
      assert ps + qs == qs;
    } else {
      TilesJoin(ps[1..], qs, ps[0].last + 1, mid, until);
      assert (ps + qs)[1..] == ps[1..] + qs;
    }
  }

  lemma {:induction false} CutTiles(next: Grid, due: Day -> Day, s: Day, e: Day)
    requires Advances(next)
    requires s <= e + 1
    ensures Tiles(Cut(next, due, s, e), s, e + 1)
    decreases e - s
  {
    if s <= e {
      CutTail(next, due, s, e);
      if next(s) <= e {
        CutTiles(next, due, next(s), e);
      }
    }
  }

  // ---------- The first point after a day ----------

  function FirstPointAfter(next: Grid, s: Day, d: Day): (p: Day)
    requires Advances(next)
    ensures p > d
    decreases d - s
  {
    if s > d then s else FirstPointAfter(next, next(s), d)
  }

  // The result is a point of the schedule, and exactly the points from it on lie after the day.
  lemma {:induction false} FirstPointAfterIsLeast(next: Grid, s: Day, d: Day) returns (k: nat)
    requires Advances(next)
    ensures FirstPointAfter(next, s, d) == Point(next, s, k)
    ensures forall j: nat :: Point(next, s, j) > d <==> j >= k
    decreases d - s
  {
    k := 0;
    if s <= d {
      k := FirstPointAfterIsLeast(next, next(s), d);
      assert Point(next, s, 1) == next(Point(next, s, 0));
      PointShift(next, s, 1, k);
      k := k + 1;
    }
    forall j: nat
      ensures Point(next, s, j) > d <==> j >= k
    {
      if j >= k {
        PointsIncrease(next, s, k, j);
      } else if j > 0 {
        PointShift(next, s, 1, j - 1);
      }
    }
  }

  lemma {:induction false} FirstPointAfterMonotone(next: Grid, s: Day, d: Day, e: Day)
    requires Advances(next)
    requires d <= e
    ensures FirstPointAfter(next, s, d) <= FirstPointAfter(next, s, e)
    decreases e - s
  {
    if s <= d {
      FirstPointAfterMonotone(next, next(s), d, e);
    } else if s <= e {
      FirstPointAfterIsLater(next, next(s), e);
    }
  }

  lemma FirstPointAfterIsLater(next: Grid, s: Day, d: Day)
    requires Advances(next)
    ensures FirstPointAfter(next, s, d) >= s
    decreases d - s
  {
  }

  // Rebuilding from the first point after a day gives exactly the periods due on or after it.
  lemma ScheduleResumes(next: Grid, due: Day -> Day, s: Day, e: Day, d: Day) returns (k: nat)
    requires Advances(next)
    requires FirstPointAfter(next, s, d) <= e
    ensures k < |Cut(next, due, s, e)|
    ensures FirstPointAfter(next, s, d) == Point(next, s, k)
    ensures Cut(next, due, FirstPointAfter(next, s, d), e) == Cut(next, due, s, e)[k..]
    ensures forall j :: 0 <= j < |Cut(next, due, s, e)| ==>
              (Cut(next, due, s, e)[j].first >= FirstPointAfter(next, s, d) <==> j >= k)
  {
    k := FirstPointAfterIsLeast(next, s, d);
    CutLength(next, due, s, e, k);
    CutResumes(next, due, s, e, k);
    forall j | 0 <= j < |Cut(next, due, s, e)|
      ensures Cut(next, due, s, e)[j].first >= Point(next, s, k) <==> j >= k
    {
      CutPeriod(next, due, s, e, j);
      PointsIncrease(next, s, if j < k then j else k, if j < k then k else j);
    }
  }
}
