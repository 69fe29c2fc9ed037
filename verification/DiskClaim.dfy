// claimPersistentDisk: which disk of a pool a machine gets, or the index of
// the one that is made for it.
module DiskClaim {
  import opened Wrappers
  import Odometer

  const MAX_INT64: nat := 0x7fff_ffff_ffff_ffff

  // ----- the index in a disk's name -----------------------------------------------------------

  predicate AllDigits(s: string) {
    forall i :: 0 <= i < |s| ==> Odometer.IsDigit(s[i])
  }

  function Decimal(s: string): nat
    requires AllDigits(s)
  {
    if s == "" then 0 else 10 * Decimal(s[..|s| - 1]) + (s[|s| - 1] as int - '0' as int)
  }

  function Digits(n: nat): (s: string)
    ensures s != "" && AllDigits(s) && Decimal(s) == n
  {
    var last := ['0' + (n % 10) as char];
    if n < 10 then last
    else
      var front := Digits(n / 10);
      assert (front + last)[..|front|] == front;
      front + last
  }

  /** strconv.ParseInt with base 10 and 64 bits, for a text without a minus sign. */
  function ParseInt(s: string): Option<nat> {
    var digits := if s != "" && s[0] == '+' then s[1..] else s;
    if digits != "" && AllDigits(digits) && Decimal(digits) <= MAX_INT64 then Some(Decimal(digits)) else None
  }

  /** What follows the last dash. */
  function AfterDash(name: string): Option<string> {
    if name == "" then None
    else if name[|name| - 1] == '-' then Some("")
    else
      match AfterDash(name[..|name| - 1])
      case None => None
      case Some(s) => Some(s + [name[|name| - 1]])
  }

  /** The index of a disk; a name without a number after the last dash has none, which reads as zero. */
  function IndexOf(name: string): nat {
    match AfterDash(name)
    case None => 0
    case Some(s) => match ParseInt(s) case None => 0 case Some(n) => n
  }

  function DiskName(pool: string, n: nat): string {
    pool + "-" + Digits(n)
  }

  lemma {:induction false} AfterLastDash(front: string, rest: string)
    requires '-' !in rest
    ensures AfterDash(front + "-" + rest) == Some(rest)
  {
    var name := front + "-" + rest;
    if rest != "" {
      var n := |rest| - 1;
      AfterLastDash(front, rest[..n]);
      assert name[..|name| - 1] == front + "-" + rest[..n];
      assert rest == rest[..n] + [rest[n]];
    }
  }

  lemma {:induction false} NoDash(name: string)
    requires '-' !in name
    ensures AfterDash(name) == None
  {
    if name != "" {
      NoDash(name[..|name| - 1]);
    }
  }

  /**
   * The index of a disk, in the characters of its name: the decimal number
   * after the last dash, with or without a plus sign; zero without a dash, and
   * if what follows is empty, not all digits, or above the 64-bit range.
   */
  lemma IndexMeans(front: string, rest: string)
    requires '-' !in rest
    ensures IndexOf(rest) == 0
    ensures var digits := if rest != "" && rest[0] == '+' then rest[1..] else rest;
      IndexOf(front + "-" + rest) ==
      if digits != "" && (forall i :: 0 <= i < |digits| ==> digits[i] in "0123456789") && Decimal(digits) <= 0x7fff_ffff_ffff_ffff
      then Decimal(digits) else 0
  {
    hide Decimal;
    NoDash(rest);
    AfterLastDash(front, rest);
    forall c: char
      ensures Odometer.IsDigit(c) <==> c in "0123456789"
    {
      DigitChars(c);
    }
  }

  lemma DigitChars(c: char)
    ensures Odometer.IsDigit(c) <==> c in "0123456789"
  {
    if Odometer.IsDigit(c) {
      assert c == "0123456789"[c as int - '0' as int];
    }
  }

  /** Decimal notation, read and written: a digit more is ten times the number and the digit. */
  lemma {:induction false} DecimalMeans(s: string, n: nat, d: nat)
    requires AllDigits(s) && d < 10
    ensures var c := "0123456789"[d];
      && AllDigits(s + [c]) && Decimal("") == 0 && Decimal(s + [c]) == 10 * Decimal(s) + d
      && Digits(d) == [c] && (n > 0 ==> Digits(10 * n + d) == Digits(n) + [c])
  {
    var c := "0123456789"[d];
    assert c as int == '0' as int + d;
    assert (s + [c])[..|s|] == s;
    assert (10 * n + d) / 10 == n && (10 * n + d) % 10 == d;
    assert ('0' + d as char) == c;
  }

  /** The name of a disk gives its index back, so disks of a pool with different indices have different names. */
  lemma NameGivesIndex(pool: string, n: nat)
    ensures IndexOf(DiskName(pool, n)) == if n <= MAX_INT64 then n else 0
  {
    AfterLastDash(pool, Digits(n));
  }

  // ----- the choice ---------------------------------------------------------------------------

  /** A listed disk; `owners` are the machines among its owner references. */
  datatype Disk = Disk(name: string, index: nat, deleting: bool, owners: set<string>)

  datatype Choice = Claim(disk: Disk) | Create(index: nat) | Full

  predicate Eligible(d: Disk, me: string, seen: set<string>, maxDisks: int) {
    && !d.deleting
    && !(maxDisks > 0 && d.index > maxDisks)
    && forall o :: o in d.owners ==> o == me && d.name !in seen
  }

  predicate Used(disks: set<Disk>, n: nat) {
    exists d :: d in disks && d.index == n
  }

  predicate NoneEligible(disks: set<Disk>, me: string, seen: set<string>, maxDisks: int) {
    forall d :: d in disks ==> !Eligible(d, me, seen, maxDisks)
  }

  /** Claims an eligible disk of the lowest index; without one, makes the least index not in use, if the pool has room for it. */
  predicate Chooses(disks: set<Disk>, me: string, seen: set<string>, maxDisks: int, r: Choice) {
    match r
    case Claim(d) =>
      && d in disks && Eligible(d, me, seen, maxDisks)
      && forall e :: e in disks && Eligible(e, me, seen, maxDisks) ==> d.index <= e.index
    case Create(n) =>
      && NoneEligible(disks, me, seen, maxDisks)
      && n >= 1 && !Used(disks, n) && (forall k :: 1 <= k < n ==> Used(disks, k))
      && (maxDisks > 0 ==> n <= maxDisks)
    case Full =>
      && NoneEligible(disks, me, seen, maxDisks)
      && maxDisks > 0 && forall k :: 1 <= k <= maxDisks ==> Used(disks, k)
  }

  function Indices(disks: set<Disk>): (s: set<int>)
    ensures forall d :: d in disks ==> d.index in s
    ensures forall n :: n in s ==> exists d :: d in disks && d.index == n
  {
    set d | d in disks :: d.index
  }

  /**
   * What is chosen, in the fields of the disks: a claimed disk is not being
   * deleted, within the limit, and has no owner but this machine, and that
   * one only if the disk is in none of its slots; wherever there is such a
   * disk, one of no higher index is claimed; and an index is made that no
   * disk has, when all lower ones are in use.
   */
  lemma ChoiceMeans(disks: set<Disk>, me: string, seen: set<string>, maxDisks: int, r: Choice)
    requires Chooses(disks, me, seen, maxDisks, r)
    ensures r.Claim? ==>
      && r.disk in disks && !r.disk.deleting && (maxDisks > 0 ==> r.disk.index <= maxDisks)
      && r.disk.owners <= {me} && (r.disk.name in seen ==> r.disk.owners == {})
    ensures forall d | d in disks && !d.deleting && (maxDisks > 0 ==> d.index <= maxDisks)
      && d.owners <= {me} && (d.name in seen ==> d.owners == {}) :: r.Claim? && r.disk.index <= d.index
    ensures r.Create? ==> 1 <= r.index && (maxDisks > 0 ==> r.index <= maxDisks) && r.index !in Indices(disks)
    ensures r.Create? ==> forall k :: 1 <= k < r.index ==> k in Indices(disks)
    ensures r.Full? ==> maxDisks > 0 && forall k :: 1 <= k <= maxDisks ==> k in Indices(disks)
  {
    forall d | d in disks && !d.deleting && (maxDisks > 0 ==> d.index <= maxDisks) && d.owners <= {me} && (d.name in seen ==> d.owners == {})
      ensures Eligible(d, me, seen, maxDisks)
    {
    }
    if r.Create? {
      forall k | 1 <= k < r.index
        ensures k in Indices(disks)
      {
        assert Used(disks, k);
      }
    }
    if r.Full? {
      forall k | 1 <= k <= maxDisks
        ensures k in Indices(disks)
      {
        assert Used(disks, k);
      }
    }
  }

  predicate Sorted(items: seq<Disk>) {
    forall i, j :: 0 <= i < j < |items| ==> items[i].index <= items[j].index
  }

  function Elements(items: seq<Disk>): set<Disk> {
    set d | d in items
  }

  /** Fills in the indices, in place. */
  method SetIndexes(items: array<Disk>)
    modifies items
    ensures forall i :: 0 <= i < items.Length ==> items[i] == old(items[i]).(index := IndexOf(old(items[i]).name))
  {
    for i := 0 to items.Length
      invariant forall j :: 0 <= j < i ==> items[j] == old(items[j]).(index := IndexOf(old(items[j]).name))
      invariant forall j :: i <= j < items.Length ==> items[j] == old(items[j])
    {
      items[i] := items[i].(index := IndexOf(items[i].name));
    }
  }

  /** Any owner that is another machine, or this one with the disk already in a slot. */
  method IsOwned(d: Disk, me: string, seen: set<string>) returns (owned: bool)
    ensures owned <==> exists o :: o in d.owners && (o != me || d.name in seen)
  {
    owned := false;
    var todo := d.owners;
    while todo != {}
      invariant todo <= d.owners
      invariant owned <==> exists o :: o in d.owners && o !in todo && (o != me || d.name in seen)
    {
      var o :| o in todo;
      todo := todo - {o};
      if o != me || d.name in seen {
        owned := true;
      }
    }
  }

  /** The loop over the disks in order of their indices. */
  method ChooseDisk(items: seq<Disk>, me: string, seen: set<string>, maxDisks: int) returns (r: Choice)
    requires Sorted(items)
    ensures Chooses(Elements(items), me, seen, maxDisks, r)
    ensures r.Claim? ==>
      && r.disk in items && !r.disk.deleting && (maxDisks > 0 ==> r.disk.index <= maxDisks)
      && r.disk.owners <= {me} && (r.disk.name in seen ==> r.disk.owners == {})
    ensures forall d | d in items && !d.deleting && (maxDisks > 0 ==> d.index <= maxDisks)
      && d.owners <= {me} && (d.name in seen ==> d.owners == {}) :: r.Claim? && r.disk.index <= d.index
  {
    hide IndexOf, DiskName;
    InElements(items);
    var lowestFree := 1;
    for i := 0 to |items|
      invariant lowestFree >= 1
      invariant forall k :: 1 <= k < lowestFree ==> Used(Elements(items), k)
      invariant forall j :: 0 <= j < i ==> items[j].index != lowestFree
      invariant forall j :: 0 <= j < i ==> !Eligible(items[j], me, seen, maxDisks)
    {
      var disk := items[i];
      if lowestFree == disk.index {
        assert disk in Elements(items);
        lowestFree := lowestFree + 1;
      }
      if disk.deleting {
        continue;
      }
      if maxDisks > 0 && disk.index > maxDisks {
        continue;
      }
      var owned := IsOwned(disk, me, seen);
      if !owned {
        ChoiceMeans(Elements(items), me, seen, maxDisks, Claim(disk));
        return Claim(disk);
      }
    }
    if maxDisks > 0 && lowestFree > maxDisks {
      ChoiceMeans(Elements(items), me, seen, maxDisks, Full);
      return Full;
    }
    r := Create(lowestFree);
    ChoiceMeans(Elements(items), me, seen, maxDisks, r);
  }

  /** The disk in its place among disks sorted by index. */
  function Inserted(items: seq<Disk>, d: Disk): seq<Disk> {
    if items == [] || d.index < items[0].index then [d] + items else [items[0]] + Inserted(items[1..], d)
  }

  /** The first `n` disks sorted by index, one of the orders the library's sort may give. */
  function SortedTo(items: seq<Disk>, n: nat): seq<Disk>
    requires n <= |items|
  {
    if n == 0 then [] else Inserted(SortedTo(items, n - 1), items[n - 1])
  }

  lemma SortedFront(x: Disk, items: seq<Disk>)
    ensures Elements([x] + items) == Elements(items) + {x}
    ensures Sorted([x] + items) <==> Sorted(items) && forall e :: e in items ==> x.index <= e.index
  {
    hide Sorted;
    SortedByFront(x, items);
    if forall i :: 0 <= i < |items| ==> x.index <= items[i].index {
      forall e | e in items
        ensures x.index <= e.index
      {
        var k :| 0 <= k < |items| && items[k] == e;
      }
    }
  }

  lemma SortedByFront(x: Disk, items: seq<Disk>)
    ensures Sorted([x] + items) <==> Sorted(items) && forall i :: 0 <= i < |items| ==> x.index <= items[i].index
  {
    var all := [x] + items;
    forall i, j | Sorted(all) && 0 <= i < j < |items|
      ensures items[i].index <= items[j].index
    {
      assert all[i + 1] == items[i] && all[j + 1] == items[j];
    }
    forall i | Sorted(all) && 0 <= i < |items|
      ensures x.index <= items[i].index
    {
      assert all[0] == x && all[i + 1] == items[i];
    }
  }

  lemma {:induction false} InsertedIsSorted(items: seq<Disk>, d: Disk)
    requires Sorted(items)
    ensures Sorted(Inserted(items, d)) && Elements(Inserted(items, d)) == Elements(items) + {d}
  {
    hide Sorted, Elements;
    SortedFront(d, items);
    if items == [] {
      SortedNone();
    } else {
      assert items == [items[0]] + items[1..];
      SortedFront(items[0], items[1..]);
      InElements(items);
      if d.index >= items[0].index {
        InsertedIsSorted(items[1..], d);
        InElements(items[1..]);
        InElements(Inserted(items[1..], d));
        SortedFront(items[0], Inserted(items[1..], d));
      }
    }
  }

  lemma InElements(items: seq<Disk>)
    ensures forall e :: e in items <==> e in Elements(items)
  {
  }

  lemma SortedNone()
    ensures Sorted([]) && Elements([]) == {}
  {
  }

  lemma {:induction false} SortedToIsSorted(items: seq<Disk>, n: nat)
    requires n <= |items|
    ensures Sorted(SortedTo(items, n)) && Elements(SortedTo(items, n)) == Elements(items[..n])
  {
    hide Sorted;
    SortedNone();
    if n > 0 {
      SortedToIsSorted(items, n - 1);
      InsertedIsSorted(SortedTo(items, n - 1), items[n - 1]);
      assert items[..n] == items[..n - 1] + [items[n - 1]];
    }
  }

  /** The listed disks with the indices of their names. */
  function Indexed(items: seq<Disk>): set<Disk> {
    set d | d in items :: d.(index := IndexOf(d.name))
  }

  /** claimPersistentDisk from the listing to its choice: indices, order, scan. */
  method ClaimPersistentDisk(items: array<Disk>, me: string, seen: set<string>, maxDisks: int) returns (r: Choice)
    modifies items
    ensures Chooses(Indexed(old(items[..])), me, seen, maxDisks, r)
    ensures r.Claim? ==>
      && r.disk.index == IndexOf(r.disk.name) && (exists d :: d in old(items[..]) && r.disk == d.(index := r.disk.index))
      && !r.disk.deleting && (maxDisks > 0 ==> r.disk.index <= maxDisks)
      && r.disk.owners <= {me} && (r.disk.name in seen ==> r.disk.owners == {})
    ensures forall d | d in old(items[..]) && !d.deleting && (maxDisks > 0 ==> IndexOf(d.name) <= maxDisks)
      && d.owners <= {me} && (d.name in seen ==> d.owners == {}) :: r.Claim? && r.disk.index <= IndexOf(d.name)
  {
    hide Chooses, IndexOf, Sorted;
    ghost var was := items[..];
    SetIndexes(items);
    SameDisks(was, items[..]);
    var order := SortedTo(items[..], items.Length);
    SortedToIsSorted(items[..], items.Length);
    assert items[..][..items.Length] == items[..];
    r := ChooseDisk(order, me, seen, maxDisks);
    InElements(order);
    forall d | d in was
      ensures d.(index := IndexOf(d.name)) in order
    {
      assert d.(index := IndexOf(d.name)) in Indexed(was);
    }
    assert r.Claim? ==> r.disk in Indexed(was);
  }

  lemma SameDisks(was: seq<Disk>, now: seq<Disk>)
    requires |was| == |now| && forall i :: 0 <= i < |was| ==> now[i] == was[i].(index := IndexOf(was[i].name))
    ensures Elements(now) == Indexed(was)
  {
    hide IndexOf;
    forall d | d in Indexed(was)
      ensures d in Elements(now)
    {
      var e :| e in was && d == e.(index := IndexOf(e.name));
      var i :| 0 <= i < |was| && was[i] == e;
      assert now[i] == d;
    }
    forall d | d in Elements(now)
      ensures d in Indexed(was)
    {
      var i :| 0 <= i < |now| && now[i] == d;
      assert was[i] in was;
    }
  }

  /** Two choices can differ only between disks of one index. */
  lemma ChoiceIsUnique(disks: set<Disk>, me: string, seen: set<string>, maxDisks: int, r: Choice, q: Choice)
    requires Chooses(disks, me, seen, maxDisks, r) && Chooses(disks, me, seen, maxDisks, q)
    requires forall d, e :: d in disks && e in disks && d.index == e.index ==> d == e
    ensures r == q
  {
    forall n | r == Create(n) || q == Create(n)
      ensures !Used(disks, n)
    {
    }
  }

  // ----- two slots of a pool in one pass ------------------------------------------------------

  /** The pool's disks once a choice has been carried out. */
  function AfterChoice(disks: set<Disk>, pool: string, me: string, r: Choice): set<Disk> {
    match r
    case Claim(d) => disks - {d} + {d.(owners := d.owners + {me})}
    case Create(n) => disks + {Disk(DiskName(pool, n), IndexOf(DiskName(pool, n)), false, {me})}
    case Full => disks
  }

  /** The disk that goes into the slot. */
  function Got(pool: string, r: Choice): Option<string> {
    match r
    case Claim(d) => Some(d.name)
    case Create(n) => Some(DiskName(pool, n))
    case Full => None
  }

  /** Disks as listed: their indices are those of their names, and names and indices differ. */
  predicate Listing(disks: set<Disk>) {
    && (forall d :: d in disks ==> d.index == IndexOf(d.name))
    && (forall d, e :: d in disks && e in disks && d.index == e.index ==> d == e)
  }

  predicate InRange(r: Choice) {
    r.Create? ==> r.index <= MAX_INT64
  }

  lemma ClaimedAgain(disks: set<Disk>, pool: string, me: string, seen: set<string>, maxDisks: int, d: Disk, q: Choice)
    requires Listing(disks) && Chooses(disks, me, seen, maxDisks, Claim(d)) && InRange(q)
    requires Chooses(AfterChoice(disks, pool, me, Claim(d)), me, seen, maxDisks, q)
    ensures if d.name in seen then Got(pool, q) != Some(d.name) else q == Claim(d.(owners := d.owners + {me}))
  {
    hide IndexOf, DiskName;
    var after, c := AfterChoice(disks, pool, me, Claim(d)), d.(owners := d.owners + {me});
    assert c in after && me in c.owners;
    if d.name !in seen {
      assert Eligible(c, me, seen, maxDisks);
    } else {
      assert !Eligible(c, me, seen, maxDisks);
      if q.Create? {
        NameGivesIndex(pool, q.index);
        assert Used(after, c.index);
      }
    }
  }

  lemma CreatedAgain(disks: set<Disk>, pool: string, me: string, seen: set<string>, maxDisks: int, n: nat, q: Choice)
    requires n <= MAX_INT64 && Chooses(disks, me, seen, maxDisks, Create(n)) && InRange(q)
    requires Chooses(AfterChoice(disks, pool, me, Create(n)), me, seen, maxDisks, q)
    ensures var c := Disk(DiskName(pool, n), n, false, {me});
      if c.name in seen then Got(pool, q) != Some(c.name) else q == Claim(c)
  {
    hide IndexOf, DiskName;
    NameGivesIndex(pool, n);
    var after, c := AfterChoice(disks, pool, me, Create(n)), Disk(DiskName(pool, n), n, false, {me});
    assert c in after && me in c.owners;
    if q.Create? {
      NameGivesIndex(pool, q.index);
      assert Used(after, n);
    }
    if c.name !in seen {
      assert Eligible(c, me, seen, maxDisks);
    }
  }

  /**
   * `seen` is filled before the pass and not updated. With nobody else
   * changing the pool, the next open slot of the same pool is given the same
   * disk again, and the pool stays as the first slot left it; it is not
   * exactly when that disk was in one of the machine's slots before the pass.
   */
  lemma SecondSlotGetsSameDisk(disks: set<Disk>, pool: string, me: string, seen: set<string>, maxDisks: int, r: Choice, q: Choice)
    requires Listing(disks) && InRange(r) && InRange(q)
    requires Chooses(disks, me, seen, maxDisks, r)
    requires Chooses(AfterChoice(disks, pool, me, r), me, seen, maxDisks, q)
    ensures Got(pool, q) == Got(pool, r) <==> r.Full? || Got(pool, r).value !in seen
    ensures Got(pool, q) == Got(pool, r) ==> AfterChoice(AfterChoice(disks, pool, me, r), pool, me, q) == AfterChoice(disks, pool, me, r)
  {
    hide IndexOf, DiskName;
    match r
    case Full =>
      ChoiceIsUnique(disks, me, seen, maxDisks, r, q);
    case Claim(d) =>
      ClaimedAgain(disks, pool, me, seen, maxDisks, d, q);
    case Create(n) =>
      NameGivesIndex(pool, n);
      CreatedAgain(disks, pool, me, seen, maxDisks, n, q);
      assert {me} + {me} == {me};
  }

  // ----- the size of a pool -------------------------------------------------------------------

  /** What happens to a pool's disks: one is made, whatever listing the choice was based on, or one goes. */
  datatype Event = Made(listing: set<Disk>, me: string, seen: set<string>, index: nat) | Removed(name: string)

  function Existing(pool: string, events: seq<Event>): set<string> {
    if events == [] then {}
    else
      var before := Existing(pool, events[..|events| - 1]);
      match events[|events| - 1]
      case Made(_, _, _, n) => before + {DiskName(pool, n)}
      case Removed(name) => before - {name}
  }

  /** Disks are made as chosen, and only under a name that does not exist yet. */
  predicate Feasible(pool: string, maxDisks: int, events: seq<Event>) {
    forall k :: 0 <= k < |events| && events[k].Made? ==>
      && Chooses(events[k].listing, events[k].me, events[k].seen, maxDisks, Create(events[k].index))
      && DiskName(pool, events[k].index) !in Existing(pool, events[..k])
  }

  function Places(pool: string, n: nat): (s: set<string>)
    ensures |s| <= n
    ensures forall x :: x in s ==> exists k :: 1 <= k <= n && x == DiskName(pool, k)
  {
    if n == 0 then {} else Places(pool, n - 1) + {DiskName(pool, n)}
  }

  lemma {:induction false} PlaceOf(pool: string, n: nat, k: nat)
    requires 1 <= k <= n
    ensures DiskName(pool, k) in Places(pool, n)
  {
    hide DiskName;
    if k < n {
      PlaceOf(pool, n - 1, k);
    }
  }

  lemma {:induction false} ExistingInPlaces(pool: string, maxDisks: nat, events: seq<Event>)
    requires maxDisks > 0 && Feasible(pool, maxDisks, events)
    ensures Existing(pool, events) <= Places(pool, maxDisks)
  {
    hide Places, DiskName;
    if events != [] {
      var n := |events| - 1;
      assert forall k :: 0 <= k < n ==> events[..n][k] == events[k] && events[..n][..k] == events[..k];
      ExistingInPlaces(pool, maxDisks, events[..n]);
      if events[n].Made? {
        PlaceOf(pool, maxDisks, events[n].index);
      }
    }
  }

  lemma {:induction false} SubsetIsSmaller<T>(a: set<T>, b: set<T>)
    requires a <= b
    ensures |a| <= |b|
  {
    if a != {} {
      var x :| x in a;
      SubsetIsSmaller(a - {x}, b - {x});
    }
  }

  /** However stale the listings, a pool never has more made disks than its limit, and their indices are distinct. */
  lemma {:induction false} PoolKeepsItsLimit(pool: string, maxDisks: nat, events: seq<Event>)
    requires 0 < maxDisks <= MAX_INT64 && Feasible(pool, maxDisks, events)
    ensures var disks := Existing(pool, events);
      && |disks| <= maxDisks
      && (forall x :: x in disks ==> 1 <= IndexOf(x) <= maxDisks && x == DiskName(pool, IndexOf(x)))
  {
    hide IndexOf, DiskName;
    var disks, places := Existing(pool, events), Places(pool, maxDisks);
    ExistingInPlaces(pool, maxDisks, events);
    SubsetIsSmaller(disks, places);
    forall x | x in disks
      ensures 1 <= IndexOf(x) <= maxDisks && x == DiskName(pool, IndexOf(x))
    {
      assert x in places;
      var k :| 1 <= k <= maxDisks && x == DiskName(pool, k);
      NameGivesIndex(pool, k);
    }
  }
}
