// incrementString: a string as an odometer. Digits and letters turn, all
// other characters stand still and pass the carry on.
module Odometer {

  // ----- characters ---------------------------------------------------------------------------

  predicate IsDigit(c: char) { '0' <= c <= '9' }

  predicate IsLower(c: char) { 'a' <= c <= 'z' }

  predicate IsUpper(c: char) { 'A' <= c <= 'Z' }

  /** The lowest character of the wheel `c` is on; a character that does not turn is its own wheel. */
  function Low(c: char): char {
    if IsDigit(c) then '0' else if IsLower(c) then 'a' else if IsUpper(c) then 'A' else c
  }

  function High(c: char): char {
    if IsDigit(c) then '9' else if IsLower(c) then 'z' else if IsUpper(c) then 'Z' else c
  }

  // ----- strings ------------------------------------------------------------------------------

  /** The string with every wheel at its lowest character: what is the same along an odometer's run. */
  function Bottom(s: string): (b: string)
    ensures |b| == |s|
    ensures forall i :: 0 <= i < |s| ==> b[i] == Low(s[i])
  {
    seq(|s|, i requires 0 <= i < |s| => Low(s[i]))
  }

  function Top(s: string): (t: string)
    ensures |t| == |s|
    ensures forall i :: 0 <= i < |s| ==> t[i] == High(s[i])
  {
    seq(|s|, i requires 0 <= i < |s| => High(s[i]))
  }

  predicate SameShape(s: string, t: string) {
    Bottom(s) == Bottom(t)
  }

  /** `v` followed by the place of `c` on its wheel. */
  function Place(v: nat, c: char): nat {
    if IsDigit(c) then 10 * v + (c as int - '0' as int)
    else if IsLower(c) then 26 * v + (c as int - 'a' as int)
    else if IsUpper(c) then 26 * v + (c as int - 'A' as int)
    else v
  }

  /** `n` times the number of characters on the wheel of `c`. */
  function Times(n: nat, c: char): nat {
    if IsDigit(c) then 10 * n else if IsLower(c) || IsUpper(c) then 26 * n else n
  }

  /** The mixed-radix number the string shows. */
  function Value(s: string): nat {
    if s == "" then 0 else Place(Value(s[..|s| - 1]), s[|s| - 1])
  }

  /** How many strings have the shape of `s`: the product of the radices. */
  function Count(s: string): (n: nat)
    ensures n >= 1
  {
    if s == "" then 1 else Times(Count(s[..|s| - 1]), s[|s| - 1])
  }

  /** The character after `c` on its wheel. */
  function Succ(c: char): (d: char)
    requires c != High(c)
    ensures Low(d) == Low(c) && High(d) == High(c)
  {
    (c as int + 1) as char
  }

  /** The string that follows `s`. */
  function Next(s: string): string {
    if s == "" then ""
    else
      var front, c := s[..|s| - 1], s[|s| - 1];
      if c != High(c) then front + [Succ(c)] else Next(front) + [Low(c)]
  }

  /** Turns the wheel at `i`; a wheel at its end starts over and the carry goes on. */
  method TurnWheel(runes: array<char>, i: nat) returns (stop: bool)
    requires i < runes.Length
    modifies runes
    ensures stop <==> old(runes[i]) != High(old(runes[i]))
    ensures stop ==> runes[..] == old(runes[..])[i := Succ(old(runes[i]))]
    ensures !stop ==> runes[..] == old(runes[..])[i := Low(old(runes[i]))]
  {
    var c := runes[i];
    stop := '0' <= c < '9' || 'a' <= c < 'z' || 'A' <= c < 'Z';
    if stop {
      runes[i] := Succ(c);
    } else if c == '9' {
      runes[i] := '0';
    } else if c == 'z' {
      runes[i] := 'a';
    } else if c == 'Z' {
      runes[i] := 'A';
    }
    assert runes[..] == old(runes[..])[i := runes[i]];
  }

  /** Increments the runes in place, from the last one on, until one takes the carry. */
  method IncrementString(str: string) returns (r: string)
    ensures r == Next(str)
  {
    hide *;
    var runes := new char[|str|](i requires 0 <= i < |str| => str[i]);
    var i := |str| - 1;
    assert runes[..] == str;
    StartOver(str);
    while i >= 0
      invariant -1 <= i < |str| == runes.Length
      invariant runes[..] == str[..i + 1] + Bottom(str[i + 1..])
      invariant Next(str) == Next(str[..i + 1]) + Bottom(str[i + 1..])
    {
      CarryOn(str, i);
      var stop := TurnWheel(runes, i);
      if stop {
        return runes[..];
      }
      i := i - 1;
    }
    CarriedAll(str);
    r := runes[..];
  }

  lemma {:induction false} StartOver(str: string)
    ensures str[..|str|] == str && str[..|str|] + Bottom(str[|str|..]) == str
    ensures Next(str[..|str|]) + Bottom(str[|str|..]) == Next(str)
  {
    assert str[..|str|] == str;
  }

  lemma CarriedAll(str: string)
    ensures Next(str[..0]) + Bottom(str[0..]) == str[..0] + Bottom(str[0..])
  {
    assert str[..0] == "";
  }

  /** One step of the loop: the carry stops at `i`, or position `i` starts over. */
  lemma CarryOn(str: string, i: nat)
    requires i < |str|
    ensures var runes := str[..i + 1] + Bottom(str[i + 1..]); var next := Next(str[..i + 1]) + Bottom(str[i + 1..]);
      && |runes| == |str| && runes[i] == str[i]
      && (str[i] != High(str[i]) ==> runes[i := Succ(str[i])] == next)
      && (str[i] == High(str[i]) ==> next == Next(str[..i]) + Bottom(str[i..]))
      && runes[i := Low(str[i])] == str[..i] + Bottom(str[i..])
  {
    hide Next;
    var f, c, rest := str[..i], str[i], Bottom(str[i + 1..]);
    assert str[..i + 1] == f + [c];
    assert Bottom(str[i..]) == [Low(c)] + rest;
    NextOfEnd(f, c);
    ChangeAt(f, c, rest, Low(c));
    ChangeAt(Next(f), c, rest, Low(c));
    if c != High(c) {
      ChangeAt(f, c, rest, Succ(c));
    }
  }

  lemma {:induction false} NextOfEnd(f: string, c: char)
    ensures Next(f + [c]) == if c != High(c) then f + [Succ(c)] else Next(f) + [Low(c)]
  {
    hide Succ, Low, High;
    assert (f + [c])[..|f|] == f;
  }

  lemma ChangeAt(f: string, c: char, rest: string, d: char)
    ensures (f + [c] + rest)[|f| := d] == f + [d] + rest == f + ([d] + rest)
  {
  }

  /** The character takes the carry: it is a digit or letter and not the last of its kind. */
  predicate Turns(c: char) {
    '0' <= c < '9' || 'a' <= c < 'z' || 'A' <= c < 'Z'
  }

  /**
   * What the next string is, character by character: the last one that can
   * take the carry goes up by one, everything before it stays, and after it
   * nines, zs and Zs start over and all else stays. With none, `i` is -1.
   */
  lemma {:induction false} NextMeans(s: string) returns (i: int)
    ensures -1 <= i < |s| == |Next(s)|
    ensures forall j :: 0 <= j < i ==> Next(s)[j] == s[j]
    ensures i >= 0 ==> Turns(s[i]) && Next(s)[i] as int == s[i] as int + 1
    ensures forall j :: i < j < |s| ==> !Turns(s[j])
    ensures forall j :: i < j < |s| ==>
      Next(s)[j] == if s[j] == '9' then '0' else if s[j] == 'z' then 'a' else if s[j] == 'Z' then 'A' else s[j]
  {
    hide Succ, High, Low, Turns;
    if s == "" {
      i := -1;
    } else {
      var front, c := s[..|s| - 1], s[|s| - 1];
      WheelMeans(c);
      if c != High(c) {
        i := |s| - 1;
      } else {
        i := NextMeans(front);
      }
    }
  }

  lemma WheelMeans(c: char)
    ensures c != High(c) <==> Turns(c)
    ensures c != High(c) ==> Succ(c) as int == c as int + 1
    ensures c == High(c) ==> Low(c) == if c == '9' then '0' else if c == 'z' then 'a' else if c == 'Z' then 'A' else c
  {
  }

  // ----- the odometer -------------------------------------------------------------------------

  lemma {:induction false} BottomFront(s: string)
    requires s != ""
    ensures Bottom(s) == Bottom(s[..|s| - 1]) + [Low(s[|s| - 1])]
    ensures Top(s) == Top(s[..|s| - 1]) + [High(s[|s| - 1])]
  {
  }

  lemma PlaceBelow(v: nat, n: nat, c: char)
    requires v < n
    ensures Place(v, c) < Times(n, c)
    ensures c != High(c) ==> Place(v, Succ(c)) == Place(v, c) + 1 < Times(n, c)
    ensures c == High(c) ==> Place(v + 1, Low(c)) == Place(v, c) + 1
    ensures c == High(c) ==> (v + 1 < n <==> Place(v, c) + 1 < Times(n, c))
    ensures Place(0, Low(c)) == 0
  {
  }

  lemma {:induction false} ValueBelowCount(s: string)
    ensures Value(s) < Count(s)
  {
    hide Place, Times;
    if s != "" {
      ValueBelowCount(s[..|s| - 1]);
      PlaceBelow(Value(s[..|s| - 1]), Count(s[..|s| - 1]), s[|s| - 1]);
    }
  }

  /** Strings of one shape agree in front and on the wheel of the last character. */
  lemma ShapeParts(s: string, t: string)
    requires SameShape(s, t) && s != ""
    ensures |s| == |t| && SameShape(s[..|s| - 1], t[..|t| - 1])
    ensures Low(s[|s| - 1]) == Low(t[|t| - 1]) && High(s[|s| - 1]) == High(t[|t| - 1])
  {
    BottomFront(s);
    assert |Bottom(s)| == |Bottom(t)|;
    BottomFront(t);
    assert Bottom(s)[..|s| - 1] == Bottom(t)[..|s| - 1];
    assert Bottom(s)[|s| - 1] == Bottom(t)[|s| - 1];
  }

  lemma {:induction false} CountOfShape(s: string, t: string)
    requires SameShape(s, t)
    ensures |s| == |t| && Count(s) == Count(t) && Top(s) == Top(t)
  {
    if s == "" {
      assert |Bottom(t)| == 0;
    } else {
      ShapeParts(s, t);
      CountOfShape(s[..|s| - 1], t[..|t| - 1]);
      BottomFront(s);
      BottomFront(t);
    }
  }

  lemma {:induction false} EndParts(f: string, c: char)
    ensures Value(f + [c]) == Place(Value(f), c) && Count(f + [c]) == Times(Count(f), c)
    ensures Bottom(f + [c]) == Bottom(f) + [Low(c)]
    ensures Next(f + [c]) == if c != High(c) then f + [Succ(c)] else Next(f) + [Low(c)]
  {
    hide Place, Times, Succ, Low, High;
    assert (f + [c])[..|f|] == f;
  }

  lemma {:induction false} NextCountsStep(f: string, c: char)
    requires Bottom(Next(f)) == Bottom(f)
    requires Value(Next(f)) == if Value(f) + 1 < Count(f) then Value(f) + 1 else 0
    requires Value(f) < Count(f)
    ensures Bottom(Next(f + [c])) == Bottom(f + [c])
    ensures Value(Next(f + [c])) == if Value(f + [c]) + 1 < Count(f + [c]) then Value(f + [c]) + 1 else 0
  {
    hide *;
    PlaceBelow(Value(f), Count(f), c);
    EndParts(f, c);
    if c != High(c) {
      EndParts(f, Succ(c));
    } else {
      LowOfLow(c);
      EndParts(Next(f), Low(c));
    }
  }

  /** Next keeps the shape and adds one to the value, starting over from zero after the last string. */
  lemma {:induction false} NextCounts(s: string)
    ensures SameShape(Next(s), s)
    ensures Value(Next(s)) == if Value(s) + 1 < Count(s) then Value(s) + 1 else 0
  {
    hide Place, Times, Succ, Bottom, Low, High;
    if s != "" {
      var front, c := s[..|s| - 1], s[|s| - 1];
      NextCounts(front);
      ValueBelowCount(front);
      NextCountsStep(front, c);
      assert s == front + [c];
    }
  }

  lemma LowOfLow(c: char)
    ensures Low(Low(c)) == Low(c)
  {
  }

  lemma {:induction false} NextAddsOne(s: string)
    ensures Value(Next(s)) == (Value(s) + 1) % Count(s)
  {
    hide *;
    NextCounts(s);
    ValueBelowCount(s);
    Remainder(Value(s) + 1, Count(s));
  }

  lemma Remainder(a: nat, n: nat)
    requires 0 < a <= n
    ensures a % n == if a < n then a else 0
  {
  }

  /** The string of the shape of `s` that shows `v`. */
  function WithValue(s: string, v: nat): (t: string)
    ensures |t| == |s|
  {
    if s == "" then ""
    else
      var front, c := s[..|s| - 1], s[|s| - 1];
      if IsDigit(c) then WithValue(front, v / 10) + [('0' as int + v % 10) as char]
      else if IsLower(c) then WithValue(front, v / 26) + [('a' as int + v % 26) as char]
      else if IsUpper(c) then WithValue(front, v / 26) + [('A' as int + v % 26) as char]
      else WithValue(front, v) + [c]
  }

  /** The last wheel shows the remainder, the ones before it the quotient. */
  lemma LastWheel(f: string, c: char, v: nat) returns (w: nat, d: char)
    ensures WithValue(f + [c], v) == WithValue(f, w) + [d]
    ensures Low(d) == Low(c) && Place(w, d) == v
    ensures v < Times(Count(f), c) ==> w < Count(f)
  {
    hide Count, Value;
    var t := WithValue(f + [c], v);
    assert (f + [c])[..|f|] == f;
    d := t[|f|];
    if IsDigit(c) {
      w := v / 10;
    } else if IsLower(c) || IsUpper(c) {
      w := v / 26;
    } else {
      w := v;
    }
  }

  /** Every value below the count is shown by a string of the shape. */
  lemma {:induction false} WithValueShows(s: string, v: nat)
    requires v < Count(s)
    ensures SameShape(WithValue(s, v), s) && Value(WithValue(s, v)) == v
  {
    hide Bottom, WithValue, Place, Times, Low;
    if s == "" {
      assert WithValue(s, v) == "";
    } else {
      var f, c := s[..|s| - 1], s[|s| - 1];
      var w, d := LastWheel(f, c, v);
      assert s == f + [c];
      WithValueShows(f, w);
      EndParts(f, c);
      EndParts(WithValue(f, w), d);
    }
  }

  // ----- order --------------------------------------------------------------------------------

  /** The order of strings: by the first character that differs, a prefix first. */
  predicate Less(s: string, t: string) {
    if t == "" then false
    else if s == "" then true
    else s[0] < t[0] || (s[0] == t[0] && Less(s[1..], t[1..]))
  }

  /** The strings agree up to a place where the first ends, or has the lower character. */
  lemma {:induction false} LessMeans(s: string, t: string)
    ensures Less(s, t) <==> exists k :: 0 <= k <= |s| && k < |t| && s[..k] == t[..k] && (k == |s| || s[k] < t[k])
  {
    if s == "" || t == "" {
      assert s[..0] == t[..0];
    } else if s[0] != t[0] {
      assert s[..0] == t[..0];
      forall k | 0 < k <= |s| && k < |t|
        ensures s[..k] != t[..k]
      {
        assert s[..k][0] != t[..k][0];
      }
    } else {
      LessMeans(s[1..], t[1..]);
      assert s == [s[0]] + s[1..] && t == [s[0]] + t[1..];
      if k :| 0 <= k <= |s| && k < |t| && s[..k] == t[..k] && (k == |s| || s[k] < t[k]) {
        assert k > 0;
        assert s[1..][..k - 1] == s[..k][1..] && t[1..][..k - 1] == t[..k][1..];
      }
      if k :| 0 <= k <= |s[1..]| && k < |t[1..]| && s[1..][..k] == t[1..][..k] && (k == |s[1..]| || s[1..][k] < t[1..][k]) {
        assert s[..k + 1] == [s[0]] + s[1..][..k] && t[..k + 1] == [t[0]] + t[1..][..k];
      }
    }
  }

  lemma {:induction false} LessOrGreater(s: string, t: string)
    ensures Less(s, t) || s == t || Less(t, s)
    ensures !(Less(s, t) && Less(t, s)) && !Less(s, s)
  {
    if s != "" && t != "" {
      LessOrGreater(s[1..], t[1..]);
      LessOrGreater(s[1..], s[1..]);
      assert s == [s[0]] + s[1..] && t == [t[0]] + t[1..];
    } else if s != "" {
      LessOrGreater(s[1..], s[1..]);
    }
  }

  lemma {:induction false} LessTransitive(s: string, t: string, u: string)
    requires Less(s, t) && (Less(t, u) || t == u)
    ensures Less(s, u)
  {
    if t != u && s != "" && s[0] == t[0] == u[0] {
      LessTransitive(s[1..], t[1..], u[1..]);
    }
  }

  /** Strings of one length compare by their fronts, then by their last characters. */
  lemma {:induction false} LessByEnd(s: string, t: string)
    requires |s| == |t| > 0
    ensures var n := |s| - 1;
      Less(s, t) <==> Less(s[..n], t[..n]) || (s[..n] == t[..n] && s[n] < t[n])
  {
    var n := |s| - 1;
    if n > 0 {
      LessByEnd(s[1..], t[1..]);
      assert s[1..][..n - 1] == s[..n][1..] && t[1..][..n - 1] == t[..n][1..];
      assert s[..n] == [s[0]] + s[..n][1..] && t[..n] == [t[0]] + t[..n][1..];
    }
  }

  lemma PlaceOrder(v: nat, w: nat, c: char, d: char)
    requires Low(c) == Low(d)
    ensures Place(v, c) < Place(w, d) <==> v < w || (v == w && c < d)
    ensures Place(v, c) == Place(w, d) <==> v == w && c == d
  {
  }

  /** On one shape the order of strings is the order of values, and equal values are equal strings. */
  lemma {:induction false} OrderIsValueOrder(s: string, t: string)
    requires SameShape(s, t)
    ensures Less(s, t) <==> Value(s) < Value(t)
    ensures s == t <==> Value(s) == Value(t)
  {
    hide Place, Low, Bottom, Less;
    CountOfShape(s, t);
    if s == "" {
      LessOrGreater(s, t);
    } else {
      var n := |s| - 1;
      ShapeParts(s, t);
      OrderIsValueOrder(s[..n], t[..n]);
      LessByEnd(s, t);
      PlaceOrder(Value(s[..n]), Value(t[..n]), s[n], t[n]);
      assert s == s[..n] + [s[n]] && t == t[..n] + [t[n]];
    }
  }

  /** Next is a bijection on the strings of a shape. */
  lemma {:induction false} NextIsBijective(s: string)
    ensures forall t :: SameShape(s, t) && Next(s) == Next(t) ==> s == t
    ensures exists p :: SameShape(p, s) && Next(p) == s
  {
    forall t | SameShape(s, t) && Next(s) == Next(t)
      ensures s == t
    {
      NextCounts(s);
      NextCounts(t);
      ValueBelowCount(s);
      ValueBelowCount(t);
      CountOfShape(s, t);
      OrderIsValueOrder(s, t);
    }
    ValueBelowCount(s);
    var v := if Value(s) == 0 then Count(s) - 1 else Value(s) - 1;
    var p := WithValue(s, v);
    WithValueShows(s, v);
    CountOfShape(p, s);
    NextCounts(p);
    OrderIsValueOrder(Next(p), s);
    assert SameShape(p, s) && Next(p) == s;
  }

  lemma {:induction false} TopShowsMost(s: string)
    ensures SameShape(Top(s), s) && Value(Top(s)) == Count(s) - 1
  {
    if s != "" {
      TopShowsMost(s[..|s| - 1]);
      BottomFront(s);
      BottomFront(Top(s));
      assert Top(s)[..|s| - 1] == Top(s[..|s| - 1]);
    }
  }
}
