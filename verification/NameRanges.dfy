// The loop that runs through a range of names: where it stops, when it stops
// at all, and which names it meets.
module NameRanges {
  import opened Odometer

  datatype NameRange = NameRange(start: string, end: string, postfix: string)

  /** The name reached from `s` after `k` increments. */
  function Nth(s: string, k: nat): string {
    if k == 0 then s else Next(Nth(s, k - 1))
  }

  /** After `k` increments the loop leaves the range. */
  predicate Stops(r: NameRange, k: nat) {
    r.end == "" || Less(r.end, Nth(r.start, k))
  }

  /** The range has an end the odometer can pass. */
  predicate Terminates(r: NameRange) {
    r.end == "" || Less(r.end, Top(r.start))
  }

  lemma {:induction false} NthShape(s: string, k: nat)
    ensures SameShape(Nth(s, k), s)
  {
    hide Bottom;
    if k > 0 {
      NthShape(s, k - 1);
      NextCounts(Nth(s, k - 1));
    }
  }

  lemma {:induction false} NthAdd(s: string, j: nat, k: nat)
    ensures Nth(Nth(s, j), k) == Nth(s, j + k)
  {
    if k > 0 {
      NthAdd(s, j, k - 1);
      assert Nth(s, j + k) == Next(Nth(s, j + (k - 1)));
    }
  }

  /** Before the odometer starts over, every increment adds one. */
  lemma {:induction false} NthValue(s: string, k: nat)
    requires Value(s) + k < Count(s)
    ensures Value(Nth(s, k)) == Value(s) + k
  {
    hide Value, Count, Next;
    if k > 0 {
      NthValue(s, k - 1);
      NextCounts(Nth(s, k - 1));
      NthShape(s, k - 1);
      CountOfShape(Nth(s, k - 1), s);
    }
  }

  /** Increments, at least one, after which the odometer shows its top string. */
  function StepsToTop(s: string): (n: nat)
    ensures n >= 1
  {
    ValueBelowCount(s);
    if Value(s) == Count(s) - 1 then Count(s) else Count(s) - 1 - Value(s)
  }

  lemma {:induction false} TopReached(s: string)
    ensures Nth(s, StepsToTop(s)) == Top(s)
  {
    hide Value, Count, Top, Next, Bottom;
    ValueBelowCount(s);
    TopShowsMost(s);
    var n := StepsToTop(s);
    NthShape(s, n);
    if Value(s) == Count(s) - 1 {
      var z := Nth(s, 1);
      NextCounts(s);
      assert z == Next(Nth(s, 0));
      CountOfShape(z, s);
      NthValue(z, n - 1);
      NthAdd(s, 1, n - 1);
    } else {
      NthValue(s, n);
    }
    OrderIsValueOrder(Nth(s, n), Top(s));
  }

  /** No string of a shape is above its top string. */
  lemma {:induction false} NotAboveTop(x: string, s: string)
    requires SameShape(x, s)
    ensures x == Top(s) || Less(x, Top(s))
  {
    hide Value, Count, Top, Bottom, Less;
    TopShowsMost(s);
    ValueBelowCount(x);
    CountOfShape(x, s);
    OrderIsValueOrder(x, Top(s));
  }

  /** The loop ends exactly when the range has no end or one below the top string of its shape. */
  lemma LoopEndsExactly(r: NameRange)
    ensures (exists k :: k >= 1 && Stops(r, k)) <==> Terminates(r)
  {
    hide Less, Top, Nth, Bottom;
    if Terminates(r) {
      TopReached(r.start);
      assert Stops(r, StepsToTop(r.start));
    }
    if k :| k >= 1 && Stops(r, k) {
      if r.end != "" {
        NthShape(r.start, k);
        NotAboveTop(Nth(r.start, k), r.start);
        LessTransitive(r.end, Nth(r.start, k), Top(r.start));
      }
    }
  }

  /** The first stop from `k` on. */
  function FirstStopFrom(r: NameRange, k: nat): (n: nat)
    requires Terminates(r) && 1 <= k <= StepsToTop(r.start)
    ensures k <= n && Stops(r, n) && forall j :: k <= j < n ==> !Stops(r, j)
    decreases StepsToTop(r.start) - k
  {
    TopReached(r.start);
    if Stops(r, k) then k else FirstStopFrom(r, k + 1)
  }

  /** How many names the loop meets. */
  function Meets(r: NameRange): (n: nat)
    requires Terminates(r)
    ensures 1 <= n && Stops(r, n) && forall j :: 1 <= j < n ==> !Stops(r, j)
  {
    FirstStopFrom(r, 1)
  }

  /** Without an end the loop meets Start alone. */
  lemma MeetsWithoutEnd(r: NameRange)
    requires r.end == ""
    ensures Terminates(r) && Meets(r) == 1
  {
    hide Nth, Less;
    assert Stops(r, 1);
  }

  predicate Between(x: string, lo: string, hi: string) {
    !Less(x, lo) && !Less(hi, x)
  }

  /** From a start that is not above the end, the odometer does not start over inside the range. */
  lemma MeetsBeforeTop(r: NameRange)
    requires r.end != "" && Terminates(r) && !Less(r.end, r.start)
    ensures Value(r.start) + Meets(r) < Count(r.start)
  {
    hide Less, Nth, Top, Value, Count, Bottom;
    ValueBelowCount(r.start);
    TopReached(r.start);
    TopShowsMost(r.start);
    OrderIsValueOrder(r.start, Top(r.start));
    assert Stops(r, StepsToTop(r.start));
  }

  /**
   * With Start <= End < top, the loop meets exactly the strings of Start's
   * shape between Start and End, each once and in increasing order.
   */
  lemma RangeIsCovered(r: NameRange, x: string)
    requires r.end != "" && Terminates(r) && !Less(r.end, r.start)
    ensures (exists i :: 0 <= i < Meets(r) && Nth(r.start, i) == x) <==> SameShape(x, r.start) && Between(x, r.start, r.end)
    ensures forall i, j :: 0 <= i < j < Meets(r) ==> Less(Nth(r.start, i), Nth(r.start, j))
  {
    hide Less, Nth, Top, Value, Count, Bottom, Meets;
    var s, n := r.start, Meets(r);
    MeetsBeforeTop(r);
    forall i, j | 0 <= i < j < n
      ensures Less(Nth(s, i), Nth(s, j))
    {
      NthInOrder(s, i, j);
    }
    if i :| 0 <= i < n && Nth(s, i) == x {
      NthShape(s, i);
      MetIsBetween(r, i);
    }
    if SameShape(x, s) && Between(x, s, r.end) {
      BetweenIsMet(r, x);
    }
  }

  /** The `i`th name the loop meets, from 0 on, is `x`. */
  predicate IsMet(r: NameRange, x: string, i: nat)
    requires Terminates(r)
  {
    i < Meets(r) && Nth(r.start, i) == x
  }

  /**
   * The other ranges that end: with End below Start, the loop meets Start
   * alone, and only if Start is the top string it goes on with the strings of
   * its shape from the bottom one up to End, each once and in order.
   */
  lemma {:induction false} RangeFromAboveEnd(r: NameRange, x: string)
    requires r.end != "" && Terminates(r) && Less(r.end, r.start)
    ensures (exists i: nat :: IsMet(r, x, i)) <==>
      x == r.start || (r.start == Top(r.start) && SameShape(x, r.start) && !Less(r.end, x))
    ensures forall i, j :: 1 <= i < j < Meets(r) ==> Less(Nth(r.start, i), Nth(r.start, j))
    ensures forall i :: 1 <= i < Meets(r) ==> Nth(r.start, i) != r.start
  {
    hide Less, Nth, Top, Value, Count, Bottom, Meets, Next;
    NthZero(r.start);
    assert x == r.start ==> IsMet(r, x, 0);
    if r.start != Top(r.start) {
      StopsAfterStart(r);
      MeetsOne(r);
    } else if Stops(r, 1) {
      MeetsOne(r);
      BottomFollowsTop(r.start, x);
      LessOrGreater(Nth(r.start, 1), x);
      if SameShape(x, r.start) {
        LessTransitive(r.end, Nth(r.start, 1), x);
      }
    } else {
      RangeStartsOver(r, x);
    }
  }

  lemma MeetsOne(r: NameRange)
    requires Terminates(r) && Stops(r, 1)
    ensures Meets(r) == 1
  {
    hide Stops, Terminates;
  }

  /** Below the top string, the string after Start is beyond End as well. */
  lemma {:induction false} StopsAfterStart(r: NameRange)
    requires r.end != "" && Less(r.end, r.start) && r.start != Top(r.start)
    ensures Stops(r, 1)
  {
    hide Less, Top, Value, Count, Bottom, Next;
    var s, next := r.start, Nth(r.start, 1);
    NthZero(s);
    assert next == Next(s);
    NextCounts(s);
    ValueBelowCount(s);
    TopShowsMost(s);
    ShapeIsTransitive(s, s, Top(s));
    OrderIsValueOrder(s, Top(s));
    ShapeIsTransitive(s, s, next);
    OrderIsValueOrder(s, next);
    LessTransitive(r.end, s, next);
  }

  /** After the top string comes the lowest string of the shape. */
  lemma {:induction false} BottomFollowsTop(s: string, x: string)
    requires s == Top(s)
    ensures SameShape(Nth(s, 1), s) && Value(Nth(s, 1)) == 0
    ensures SameShape(x, s) ==> !Less(x, Nth(s, 1))
  {
    hide Less, Top, Value, Count, Bottom, Next;
    NthZero(s);
    assert Nth(s, 1) == Next(s);
    NextCounts(s);
    TopShowsMost(s);
    if SameShape(x, s) {
      ShapeIsTransitive(x, s, Nth(s, 1));
      OrderIsValueOrder(x, Nth(s, 1));
    }
  }

  lemma {:induction false} RangeStartsOver(r: NameRange, x: string)
    requires r.end != "" && Terminates(r) && Less(r.end, r.start) && r.start == Top(r.start) && !Stops(r, 1)
    ensures (exists i: nat :: IsMet(r, x, i)) <==> x == r.start || (SameShape(x, r.start) && !Less(r.end, x))
    ensures forall i, j :: 1 <= i < j < Meets(r) ==> Less(Nth(r.start, i), Nth(r.start, j))
    ensures forall i :: 1 <= i < Meets(r) ==> Nth(r.start, i) != r.start
  {
    hide Less, Nth, Top, Value, Count, Bottom, Meets, Next;
    var s := r.start;
    var q := NameRange(Nth(s, 1), r.end, r.postfix);
    BottomFollowsTop(s, x);
    CountOfShape(Nth(s, 1), s);
    OneMore(r, q);
    NthZero(s);
    RangeIsCovered(q, x);
    forall i | 1 <= i < Meets(r)
      ensures Nth(s, i) == Nth(q.start, i - 1) && Nth(s, i) != s
    {
      NthAdd(s, 1, i - 1);
      RangeIsCovered(q, s);
    }
    forall i, j | 1 <= i < j < Meets(r)
      ensures Less(Nth(s, i), Nth(s, j))
    {
      assert Nth(s, i) == Nth(q.start, i - 1) && Nth(s, j) == Nth(q.start, j - 1);
      assert Less(Nth(q.start, i - 1), Nth(q.start, j - 1));
    }
    if x == s {
      assert IsMet(r, x, 0);
    }
    if SameShape(x, s) && !Less(r.end, x) {
      ShapeIsTransitive(x, s, q.start);
      assert Between(x, q.start, q.end);
      var i :| 0 <= i < Meets(q) && Nth(q.start, i) == x;
      assert Nth(s, i + 1) == Nth(q.start, i + 1 - 1);
      assert IsMet(r, x, i + 1);
    }
    if i: nat :| IsMet(r, x, i) {
      if i > 0 {
        NthShape(q.start, i - 1);
        MetIsBetween(q, i - 1);
        assert x == Nth(q.start, i - 1);
      }
    }
  }

  /** Without its first name, a range meets one name less. */
  lemma {:induction false} OneMore(r: NameRange, q: NameRange)
    requires Terminates(r) && Terminates(q) && !Stops(r, 1)
    requires q.start == Nth(r.start, 1) && q.end == r.end
    ensures Meets(r) == Meets(q) + 1
  {
    hide Terminates, Nth;
    var m, n := Meets(q), Meets(r);
    NthAdd(r.start, 1, m);
    NthAdd(r.start, 1, n - 1);
    assert Stops(q, m) && Stops(r, m + 1);
    assert Stops(r, n) && Stops(q, n - 1);
  }

  lemma {:induction false} NthInOrder(s: string, i: nat, j: nat)
    requires i < j && Value(s) + j < Count(s)
    ensures Less(Nth(s, i), Nth(s, j))
  {
    hide *;
    NthValue(s, i);
    NthValue(s, j);
    NthShape(s, i);
    NthShape(s, j);
    ShapeIsTransitive(Nth(s, i), s, Nth(s, j));
    OrderIsValueOrder(Nth(s, i), Nth(s, j));
  }

  lemma ShapeIsTransitive(s: string, t: string, u: string)
    requires SameShape(s, t) && SameShape(u, t)
    ensures SameShape(s, u) && SameShape(t, s)
  {
    hide Bottom;
  }

  lemma {:induction false} NthZero(s: string)
    ensures Nth(s, 0) == s
  {
  }

  lemma {:induction false} MetIsBetween(r: NameRange, i: nat)
    requires r.end != "" && Terminates(r) && !Less(r.end, r.start) && i < Meets(r)
    ensures Between(Nth(r.start, i), r.start, r.end)
  {
    hide Less, Nth, Top, Value, Count, Bottom;
    NthZero(r.start);
    LessOrGreater(Nth(r.start, i), r.start);
    if i > 0 {
      MeetsBeforeTop(r);
      NthInOrder(r.start, 0, i);
      assert !Stops(r, i);
    }
  }

  lemma BetweenIsMet(r: NameRange, x: string)
    requires r.end != "" && Terminates(r) && !Less(r.end, r.start)
    requires SameShape(x, r.start) && Between(x, r.start, r.end)
    ensures exists i :: 0 <= i < Meets(r) && Nth(r.start, i) == x
  {
    hide Less, Nth, Top, Value, Count, Bottom;
    var s, n := r.start, Meets(r);
    MeetsBeforeTop(r);
    OrderIsValueOrder(x, s);
    var j := Value(x) - Value(s);
    NthShape(s, n);
    NthValue(s, n);
    ShapeIsTransitive(Nth(s, n), s, x);
    OrderIsValueOrder(x, Nth(s, n));
    LessOrGreater(r.end, x);
    LessOrGreater(x, Nth(s, n));
    if !Less(x, Nth(s, n)) {
      LessTransitive(r.end, Nth(s, n), x);
    }
    NthShape(s, j);
    NthValue(s, j);
    ShapeIsTransitive(Nth(s, j), s, x);
    OrderIsValueOrder(Nth(s, j), x);
    assert 0 <= j < n && Nth(s, j) == x;
  }
}
