/** Re-ordering loaded workloads to match a known deployment (`match_deployments` of src/workloads.rs). */
module Matching {
  import opened Workloads
  import opened KeyOrder

  // ---- A stable sort by key ----

  function InsertBy<T>(x: T, s: seq<T>, key: T -> int): seq<T> {
    if s == [] || key(x) <= key(s[0]) then [x] + s else [s[0]] + InsertBy(x, s[1..], key)
  }

  /** `slice::sort_by_key`, which is stable. */
  function SortBy<T>(xs: seq<T>, key: T -> int): seq<T> {
    if xs == [] then [] else InsertBy(xs[0], SortBy(xs[1..], key), key)
  }

  ghost predicate SortedBy<T(!new)>(s: seq<T>, key: T -> int) {
    forall i, j :: 0 <= i < j < |s| ==> key(s[i]) <= key(s[j])
  }

  function Filter<T>(s: seq<T>, p: T -> bool): seq<T> {
    if s == [] then [] else (if p(s[0]) then [s[0]] else []) + Filter(s[1..], p)
  }

  lemma {:induction false} InsertPermutes<T>(x: T, s: seq<T>, key: T -> int)
    ensures multiset(InsertBy(x, s, key)) == multiset([x] + s)
  {
    if s != [] && key(x) > key(s[0]) {
      InsertPermutes(x, s[1..], key);
      assert s == [s[0]] + s[1..];
    }
  }

  lemma {:induction false} SortPermutes<T>(xs: seq<T>, key: T -> int)
    ensures multiset(SortBy(xs, key)) == multiset(xs)
  {
    if xs != [] {
      SortPermutes(xs[1..], key);
      InsertPermutes(xs[0], SortBy(xs[1..], key), key);
      assert xs == [xs[0]] + xs[1..];
    }
  }

  lemma {:induction false} InsertSorts<T(!new)>(x: T, s: seq<T>, key: T -> int)
    requires SortedBy(s, key)
    ensures SortedBy(InsertBy(x, s, key), key)
  {
    if s != [] && key(x) > key(s[0]) {
      var rest := InsertBy(x, s[1..], key);
      InsertSorts(x, s[1..], key);
      InsertPermutes(x, s[1..], key);
      forall j | 0 <= j < |rest| ensures key(s[0]) <= key(rest[j]) {
        assert rest[j] in multiset([x] + s[1..]);
        assert rest[j] == x || rest[j] in s[1..];
      }
    }
  }

  lemma {:induction false} SortSorts<T(!new)>(xs: seq<T>, key: T -> int)
    ensures SortedBy(SortBy(xs, key), key)
  {
    if xs != [] {
      SortSorts(xs[1..], key);
      InsertSorts(xs[0], SortBy(xs[1..], key), key);
    }
  }

  lemma {:induction false} InsertIsStable<T>(x: T, s: seq<T>, key: T -> int, k: int)
    ensures Filter(InsertBy(x, s, key), y => key(y) == k) == Filter([x] + s, y => key(y) == k)
  {
    if s != [] && key(x) > key(s[0]) {
      InsertIsStable(x, s[1..], key, k);
      assert ([x] + s[1..])[1..] == s[1..];
      assert ([x] + s)[1..] == s;
    }
  }

  /** Items with equal keys keep their order. */
  lemma {:induction false} SortIsStable<T>(xs: seq<T>, key: T -> int, k: int)
    ensures Filter(SortBy(xs, key), y => key(y) == k) == Filter(xs, y => key(y) == k)
  {
    if xs != [] {
      SortIsStable(xs[1..], key, k);
      var rest := SortBy(xs[1..], key);
      InsertIsStable(xs[0], rest, key, k);
      assert ([xs[0]] + rest)[1..] == rest;
    }
  }

  lemma TailItems<T>(a: seq<T>)
    requires a != []
    ensures multiset(a[1..]) == multiset(a) - multiset{a[0]}
  {
    assert a == [a[0]] + a[1..];
  }

  ghost predicate StrictlyBy<T(!new)>(s: seq<T>, key: T -> int) {
    forall i, j :: 0 <= i < j < |s| ==> key(s[i]) < key(s[j])
  }

  lemma LeastKeyFirst<T(!new)>(a: seq<T>, b: seq<T>, key: T -> int)
    requires StrictlyBy(a, key) && SortedBy(b, key) && a != [] && b != [] && a[0] in b && b[0] in a
    ensures a[0] == b[0]
  {
    var i :| 0 <= i < |b| && b[i] == a[0];
    var j :| 0 <= j < |a| && a[j] == b[0];
  }

  lemma FirstsAgree<T(!new)>(a: seq<T>, b: seq<T>, key: T -> int)
    requires StrictlyBy(a, key) && SortedBy(b, key) && multiset(a) == multiset(b) && a != []
    ensures b != [] && a[0] == b[0]
  {
    hide StrictlyBy, SortedBy;
    SameItems(a, b);
    assert a[0] in a && b[0] in b;
    LeastKeyFirst(a, b, key);
  }

  lemma TailsSorted<T(!new)>(a: seq<T>, b: seq<T>, key: T -> int)
    requires StrictlyBy(a, key) && SortedBy(b, key) && a != [] && b != []
    ensures StrictlyBy(a[1..], key) && SortedBy(b[1..], key)
  {
  }

  lemma TailsSame<T>(a: seq<T>, b: seq<T>)
    requires a != [] && b != [] && a[0] == b[0] && multiset(a) == multiset(b)
    ensures multiset(a[1..]) == multiset(b[1..])
  {
    TailItems(a);
    TailItems(b);
  }

  lemma SameHeadAndTail<T>(a: seq<T>, b: seq<T>)
    requires a != [] && b != [] && a[0] == b[0] && a[1..] == b[1..]
    ensures a == b
  {
    assert a == [a[0]] + a[1..] && b == [b[0]] + b[1..];
  }

  /** Sorting has one result when keys are distinct. */
  lemma {:induction false} SortedIsUnique<T(!new)>(a: seq<T>, b: seq<T>, key: T -> int)
    requires StrictlyBy(a, key) && SortedBy(b, key) && multiset(a) == multiset(b)
    ensures a == b
  {
    hide StrictlyBy, SortedBy;
    if a == [] {
      SameItems(a, b);
    } else {
      FirstsAgree(a, b, key);
      TailsSame(a, b);
      TailsSorted(a, b, key);
      SortedIsUnique(a[1..], b[1..], key);
      SameHeadAndTail(a, b);
    }
  }

  lemma {:induction false} FilterAll<T>(s: seq<T>, p: T -> bool)
    requires forall x :: x in s ==> p(x)
    ensures Filter(s, p) == s && Filter(s, y => !p(y)) == []
  {
    if s != [] {
      assert s[0] in s;
      FilterAll(s[1..], p);
      assert s == [s[0]] + s[1..];
    }
  }

  lemma {:induction false} FilterSame<T>(s: seq<T>, p: T -> bool, q: T -> bool)
    requires forall x :: x in s ==> (p(x) <==> q(x))
    ensures Filter(s, p) == Filter(s, q)
  {
    if s != [] {
      assert s[0] in s;
      FilterSame(s[1..], p, q);
    }
  }

  /** A sorted sequence is its items below a bound followed by the others. */
  lemma {:induction false} SortedSplits<T(!new)>(s: seq<T>, key: T -> int, bound: int)
    requires SortedBy(s, key)
    ensures s == Filter(s, y => key(y) < bound) + Filter(s, y => !(key(y) < bound))
  {
    if s != [] {
      if key(s[0]) < bound {
        SortedSplits(s[1..], key, bound);
        assert s == [s[0]] + s[1..];
      } else {
        var above := (y: T) => !(key(y) < bound);
        FilterAll(s, above);
        FilterSame(s, y => !above(y), y => key(y) < bound);
      }
    }
  }

  lemma {:induction false} FilterIsPart<T(!new)>(s: seq<T>, p: T -> bool)
    ensures forall x :: x in Filter(s, p) <==> x in s && p(x)
  {
    if s != [] {
      FilterIsPart(s[1..], p);
      assert forall x :: x in s <==> x == s[0] || x in s[1..];
    }
  }

  // ---- The order map ----

  const UNKNOWN := 10000

  function WithNames(order: map<string, int>, names: seq<string>, base: int): map<string, int> {
    if names == [] then order
    else WithNames(order, names[..|names| - 1], base)[names[|names| - 1] := base + |names| - 1]
  }

  lemma {:induction false} NamesAreNumbered(order: map<string, int>, names: seq<string>, base: int)
    requires Distinct(names)
    ensures forall i :: 0 <= i < |names| ==>
              names[i] in WithNames(order, names, base) && WithNames(order, names, base)[names[i]] == base + i
  {
    if names != [] { NamesAreNumbered(order, names[..|names| - 1], base); }
  }

  lemma {:induction false} OtherNamesKept(order: map<string, int>, names: seq<string>, base: int, name: string)
    requires name !in names
    ensures name in WithNames(order, names, base) <==> name in order
    ensures name in order ==> WithNames(order, names, base)[name] == order[name]
  {
    if names != [] { OtherNamesKept(order, names[..|names| - 1], base, name); }
  }

  function KeyOf(order: map<string, int>, name: string): int {
    if name in order then order[name] else UNKNOWN
  }

  function Arrange<T>(xs: seq<T>, name: T -> string, order: map<string, int>): seq<T> {
    SortBy(xs, (x: T) => KeyOf(order, name(x)))
  }

  /** One old list, numbered from a base in the order map. */
  ghost predicate Numbered(order: map<string, int>, names: seq<string>, base: int) {
    forall i :: 0 <= i < |names| ==> names[i] in order && order[names[i]] == base + i
  }

  /** Any shuffle of the old list is restored exactly, whatever the keys of other lists. */
  lemma ShuffleIsRestored<T(!new)>(before: seq<T>, xs: seq<T>, name: T -> string, order: map<string, int>, base: int)
    requires multiset(xs) == multiset(before) && Numbered(order, Map(before, name), base)
    ensures Arrange(xs, name, order) == before
  {
    var key := (x: T) => KeyOf(order, name(x));
    SortPermutes(xs, key);
    SortSorts(xs, key);
    assert forall i :: 0 <= i < |before| ==> key(before[i]) == base + i by {
      assert forall i :: 0 <= i < |before| ==> Map(before, name)[i] == name(before[i]);
    }
    SortedIsUnique(before, SortBy(xs, key), key);
  }

  /** Known items come first, in the old order; unknown ones follow in the order given. */
  lemma KnownThenUnknown<T(!new)>(names: seq<string>, xs: seq<T>, name: T -> string, order: map<string, int>, base: int)
    returns (known: seq<T>)
    requires Numbered(order, names, base) && base + |names| <= UNKNOWN
    requires forall x :: x in xs ==> name(x) in names || name(x) !in order
    ensures Arrange(xs, name, order) == known + Filter(xs, x => name(x) !in order)
    ensures forall x :: x in known <==> x in xs && name(x) in names
    ensures forall i, j :: 0 <= i < j < |known| ==>
              name(known[i]) in order && name(known[j]) in order && order[name(known[i])] <= order[name(known[j])]
  {
    hide SortBy, Filter;
    var key := (x: T) => KeyOf(order, name(x));
    var sorted := SortBy(xs, key);
    SortPermutes(xs, key);
    SameItems(sorted, xs);
    SortSorts(xs, key);
    SortedSplits(sorted, key, UNKNOWN);
    known := Filter(sorted, y => key(y) < UNKNOWN);
    FilterIsPart(sorted, y => key(y) < UNKNOWN);
    assert forall i :: 0 <= i < |known| ==> known[i] in known && sorted[i] == known[i];
    UnknownAreTied(xs, names, name, order, base);
    FilterSame(sorted, y => !(key(y) < UNKNOWN), y => key(y) == UNKNOWN);
    SortIsStable(xs, key, UNKNOWN);
    FilterSame(xs, y => key(y) == UNKNOWN, x => name(x) !in order);
  }

  lemma UnknownAreTied<T(!new)>(xs: seq<T>, names: seq<string>, name: T -> string, order: map<string, int>, base: int)
    requires Numbered(order, names, base) && base + |names| <= UNKNOWN
    requires forall x :: x in xs ==> name(x) in names || name(x) !in order
    ensures forall x :: x in xs ==> KeyOf(order, name(x)) <= UNKNOWN
    ensures forall x :: x in xs ==> (KeyOf(order, name(x)) == UNKNOWN <==> name(x) !in order)
    ensures forall x :: x in xs ==> (name(x) in names <==> name(x) in order)
  {
  }

  // ---- The six lists ----

  datatype Lists = Lists(disks: seq<Disk>, volumes: seq<Volume>, qsfs: seq<QSFS>, zdbs: seq<ZDB>, vms: seq<VM>,
                         vmsLight: seq<VMLight>)

  function DiskName(d: Disk): string { d.name }
  function VolumeName(v: Volume): string { v.name }
  function QsfsName(q: QSFS): string { q.name }
  function ZdbName(z: ZDB): string { z.name }
  function VmName(vm: VM): string { vm.name }
  function VmLightName(vm: VMLight): string { vm.name }

  /** The names of one list, by the position the list has in the numbering. */
  function Names(l: Lists, k: nat): seq<string>
    requires k < 6
  {
    match k
    case 0 => Map(l.disks, DiskName)
    case 1 => Map(l.volumes, VolumeName)
    case 2 => Map(l.qsfs, QsfsName)
    case 3 => Map(l.zdbs, ZdbName)
    case 4 => Map(l.vms, VmName)
    case 5 => Map(l.vmsLight, VmLightName)
  }

  /** The first key of each list: storage is numbered through, machines from fixed offsets. */
  function Base(l: Lists, k: nat): nat
    requires k < 6
  {
    match k
    case 0 => 0
    case 1 => |l.disks|
    case 2 => |l.disks| + |l.volumes|
    case 3 => |l.disks| + |l.volumes| + |l.qsfs|
    case 4 => 1000
    case 5 => 2000
  }

  /** The storage lists are numbered on from each other, machines from a thousand and two thousand. */
  lemma NumberedThrough(l: Lists)
    ensures Base(l, 0) == 0 && forall k :: 0 <= k < 3 ==> Base(l, k + 1) == Base(l, k) + |Names(l, k)|
    ensures Base(l, 4) == 1000 && Base(l, 5) == 2000
  {
  }

  function OrderUpTo(l: Lists, k: nat): map<string, int>
    requires k <= 6
  {
    if k == 0 then map[] else WithNames(OrderUpTo(l, k - 1), Names(l, k - 1), Base(l, k - 1))
  }

  function Matched(before: Lists, given: Lists): Lists {
    var order := OrderUpTo(before, 6);
    Lists(Arrange(given.disks, DiskName, order), Arrange(given.volumes, VolumeName, order),
          Arrange(given.qsfs, QsfsName, order), Arrange(given.zdbs, ZdbName, order),
          Arrange(given.vms, VmName, order), Arrange(given.vmsLight, VmLightName, order))
  }

  ghost predicate NamesDistinct(l: Lists) {
    && (forall k :: 0 <= k < 6 ==> Distinct(Names(l, k)))
    && (forall j, k, n :: 0 <= j < 6 && 0 <= k < 6 && n in Names(l, j) && n in Names(l, k) ==> j == k)
  }

  ghost predicate Known(l: Lists, name: string) {
    exists k :: 0 <= k < 6 && name in Names(l, k)
  }

  lemma {:induction false} OrderNumbersLists(l: Lists, upTo: nat, k: nat)
    requires NamesDistinct(l) && k < upTo <= 6
    ensures Numbered(OrderUpTo(l, upTo), Names(l, k), Base(l, k))
  {
    hide Names, Base;
    var last, names := OrderUpTo(l, upTo - 1), Names(l, upTo - 1);
    NamesAreNumbered(last, names, Base(l, upTo - 1));
    if k < upTo - 1 {
      OrderNumbersLists(l, upTo - 1, k);
      forall i | 0 <= i < |Names(l, k)|
        ensures Names(l, k)[i] in OrderUpTo(l, upTo) && OrderUpTo(l, upTo)[Names(l, k)[i]] == Base(l, k) + i
      {
        assert Names(l, k)[i] in Names(l, k);
        OtherNamesKept(last, names, Base(l, upTo - 1), Names(l, k)[i]);
      }
    }
  }

  lemma {:induction false} OrderHasKnownNames(l: Lists, upTo: nat, name: string)
    requires NamesDistinct(l) && upTo <= 6
    ensures name in OrderUpTo(l, upTo) <==> exists k :: 0 <= k < upTo && name in Names(l, k)
  {
    hide Names, Base;
    if upTo > 0 {
      OrderHasKnownNames(l, upTo - 1, name);
      var last, names := OrderUpTo(l, upTo - 1), Names(l, upTo - 1);
      if name in names {
        NamesAreNumbered(last, names, Base(l, upTo - 1));
      } else {
        OtherNamesKept(last, names, Base(l, upTo - 1), name);
      }
    }
  }

  lemma ArrangePermutes<T>(xs: seq<T>, name: T -> string, order: map<string, int>)
    ensures multiset(Arrange(xs, name, order)) == multiset(xs)
  {
    SortPermutes(xs, (x: T) => KeyOf(order, name(x)));
  }

  /** Matching loses and invents nothing, whatever the names. */
  lemma MatchingPermutes(before: Lists, given: Lists)
    ensures var m := Matched(before, given);
            && multiset(m.disks) == multiset(given.disks) && multiset(m.volumes) == multiset(given.volumes)
            && multiset(m.qsfs) == multiset(given.qsfs) && multiset(m.zdbs) == multiset(given.zdbs)
            && multiset(m.vms) == multiset(given.vms) && multiset(m.vmsLight) == multiset(given.vmsLight)
  {
    hide Arrange, OrderUpTo;
    var order := OrderUpTo(before, 6);
    ArrangePermutes(given.disks, DiskName, order);
    ArrangePermutes(given.volumes, VolumeName, order);
    ArrangePermutes(given.qsfs, QsfsName, order);
    ArrangePermutes(given.zdbs, ZdbName, order);
    ArrangePermutes(given.vms, VmName, order);
    ArrangePermutes(given.vmsLight, VmLightName, order);
  }

  ghost predicate Shuffles(a: Lists, b: Lists) {
    && multiset(a.disks) == multiset(b.disks) && multiset(a.volumes) == multiset(b.volumes)
    && multiset(a.qsfs) == multiset(b.qsfs) && multiset(a.zdbs) == multiset(b.zdbs)
    && multiset(a.vms) == multiset(b.vms) && multiset(a.vmsLight) == multiset(b.vmsLight)
  }

  lemma ListIsRestored<T(!new)>(l: Lists, k: nat, items: seq<T>, given: seq<T>, name: T -> string)
    requires NamesDistinct(l) && k < 6 && Names(l, k) == Map(items, name) && multiset(given) == multiset(items)
    ensures Arrange(given, name, OrderUpTo(l, 6)) == items
  {
    hide Names, Base, OrderUpTo, Arrange;
    OrderNumbersLists(l, 6, k);
    ShuffleIsRestored(items, given, name, OrderUpTo(l, 6), Base(l, k));
  }

  /** Any shuffle of a deployment's lists is put back exactly, at any size. */
  lemma ShufflesAreRestored(before: Lists, given: Lists)
    requires NamesDistinct(before) && Shuffles(given, before)
    ensures Matched(before, given) == before
  {
    hide OrderUpTo, Arrange, NamesDistinct;
    ListIsRestored(before, 0, before.disks, given.disks, DiskName);
    ListIsRestored(before, 1, before.volumes, given.volumes, VolumeName);
    ListIsRestored(before, 2, before.qsfs, given.qsfs, QsfsName);
    ListIsRestored(before, 3, before.zdbs, given.zdbs, ZdbName);
    ListIsRestored(before, 4, before.vms, given.vms, VmName);
    ListIsRestored(before, 5, before.vmsLight, given.vmsLight, VmLightName);
  }

  ghost predicate InOldOrder<T(!new)>(xs: seq<T>, name: T -> string, names: seq<string>) {
    forall i, j, p, q | 0 <= i < j < |xs| && 0 <= p < |names| && 0 <= q < |names| ::
      names[p] == name(xs[i]) && names[q] == name(xs[j]) ==> p <= q
  }

  /** The list is its known items, in the old order, and then the unknown ones in the order given. */
  ghost predicate KnownFirst<T(!new)>(result: seq<T>, given: seq<T>, name: T -> string, names: seq<string>) {
    exists known :: && KnownPart(known, given, name, names)
                    && result == known + Filter(given, x => name(x) !in names)
  }

  ghost predicate KnownPart<T(!new)>(known: seq<T>, given: seq<T>, name: T -> string, names: seq<string>) {
    && InOldOrder(known, name, names)
    && forall x :: x in known <==> x in given && name(x) in names
  }

  ghost predicate NoForeignNames<T(!new)>(l: Lists, given: seq<T>, name: T -> string, names: seq<string>) {
    forall x :: x in given ==> name(x) in names || !Known(l, name(x))
  }

  /** One list after matching, as long as its keys stay at most 10000: unknown items go last. */
  lemma KnownComeFirst<T(!new)>(l: Lists, k: nat, given: seq<T>, name: T -> string)
    requires NamesDistinct(l) && k < 6 && Base(l, k) + |Names(l, k)| <= UNKNOWN
    requires NoForeignNames(l, given, name, Names(l, k))
    ensures KnownFirst(Arrange(given, name, OrderUpTo(l, 6)), given, name, Names(l, k))
  {
    var order, names := OrderUpTo(l, 6), Names(l, k);
    OrderNumbersLists(l, 6, k);
    forall x | x in given ensures name(x) in names <==> name(x) in order {
      OrderHasKnownNames(l, 6, name(x));
      if name(x) in names { assert Known(l, name(x)); }
    }
    hide Names, Base, OrderUpTo, NamesDistinct, Known, Arrange;
    var known := KnownThenUnknown(names, given, name, order, Base(l, k));
    FilterSame(given, x => name(x) !in names, x => name(x) !in order);
    forall i, j, p, q | 0 <= i < j < |known| && 0 <= p < |names| && 0 <= q < |names|
      && names[p] == name(known[i]) && names[q] == name(known[j])
      ensures p <= q
    {
      assert order[names[p]] <= order[names[q]];
    }
    assert KnownPart(known, given, name, names);
  }

  /** The whole deployment after matching, while keys stay below 10000. */
  lemma MatchingKeepsOldOrder(before: Lists, given: Lists)
    requires NamesDistinct(before)
    requires |before.disks| + |before.volumes| + |before.qsfs| + |before.zdbs| <= 10000
    requires |before.vms| <= 9000 && |before.vmsLight| <= 8000
    requires NoForeignNames(before, given.disks, DiskName, Names(before, 0))
    requires NoForeignNames(before, given.volumes, VolumeName, Names(before, 1))
    requires NoForeignNames(before, given.qsfs, QsfsName, Names(before, 2))
    requires NoForeignNames(before, given.zdbs, ZdbName, Names(before, 3))
    requires NoForeignNames(before, given.vms, VmName, Names(before, 4))
    requires NoForeignNames(before, given.vmsLight, VmLightName, Names(before, 5))
    ensures var m := Matched(before, given);
            && KnownFirst(m.disks, given.disks, DiskName, Names(before, 0))
            && KnownFirst(m.volumes, given.volumes, VolumeName, Names(before, 1))
            && KnownFirst(m.qsfs, given.qsfs, QsfsName, Names(before, 2))
            && KnownFirst(m.zdbs, given.zdbs, ZdbName, Names(before, 3))
            && KnownFirst(m.vms, given.vms, VmName, Names(before, 4))
            && KnownFirst(m.vmsLight, given.vmsLight, VmLightName, Names(before, 5))
  {
    hide KnownFirst, NoForeignNames, NamesDistinct, OrderUpTo, Arrange;
    KnownComeFirst(before, 0, given.disks, DiskName);
    KnownComeFirst(before, 1, given.volumes, VolumeName);
    KnownComeFirst(before, 2, given.qsfs, QsfsName);
    KnownComeFirst(before, 3, given.zdbs, ZdbName);
    KnownComeFirst(before, 4, given.vms, VmName);
    KnownComeFirst(before, 5, given.vmsLight, VmLightName);
  }

  /** The bound is exact: an unknown machine given before the i-th old one moves behind it only while the
      old one's key is below 10000. */
  lemma UnknownGoesLastIff(before: Lists, unknown: VM, i: nat)
    requires NamesDistinct(before) && i < |before.vms| && !Known(before, unknown.name)
    ensures Arrange([unknown, before.vms[i]], VmName, OrderUpTo(before, 6)) == [before.vms[i], unknown] <==> i < 9000
  {
    hide OrderUpTo, SortBy, Arrange;
    var order, vm := OrderUpTo(before, 6), before.vms[i];
    OrderNumbersLists(before, 6, 4);
    OrderHasKnownNames(before, 6, unknown.name);
    assert Names(before, 4)[i] == vm.name;
    assert vm.name in Names(before, 4);
    assert Known(before, vm.name);
    ArrangeTwo(unknown, vm, VmName, order);
  }

  lemma ArrangeTwo<T>(a: T, b: T, name: T -> string, order: map<string, int>)
    ensures Arrange([a, b], name, order) == if KeyOf(order, name(a)) <= KeyOf(order, name(b)) then [a, b] else [b, a]
  {
    var key := (x: T) => KeyOf(order, name(x));
    assert [a, b][1..] == [b] && [b][1..] == [];
    assert SortBy([b], key) == [b];
    assert SortBy([a, b], key) == InsertBy(a, [b], key);
    assert InsertBy(a, [], key) == [a];
    assert KeyOf(order, name(a)) == key(a) && KeyOf(order, name(b)) == key(b);
    assert Arrange([a, b], name, order) == SortBy([a, b], key);
  }

  lemma {:induction false} SortedStays<T(!new)>(xs: seq<T>, key: T -> int)
    requires SortedBy(xs, key)
    ensures SortBy(xs, key) == xs
  {
    if xs != [] {
      SortedStays(xs[1..], key);
      assert xs == [xs[0]] + xs[1..];
    }
  }

  /** A list handed back unchanged stays as it is exactly when its numbers rise along it - which names shared
      with a later list can break. */
  lemma UnchangedStaysIff<T(!new)>(items: seq<T>, name: T -> string, order: map<string, int>)
    ensures Arrange(items, name, order) == items
       <==> forall i, j :: 0 <= i < j < |items| ==> KeyOf(order, name(items[i])) <= KeyOf(order, name(items[j]))
  {
    var key := (x: T) => KeyOf(order, name(x));
    SortSorts(items, key);
    if forall i, j :: 0 <= i < j < |items| ==> KeyOf(order, name(items[i])) <= KeyOf(order, name(items[j])) {
      SortedStays(items, key);
    }
  }

  /** The last place a name has in a deployment: no later one in its list, and none in a later list. */
  ghost predicate LastPlace(l: Lists, name: string, k: nat, i: nat) {
    && k < 6 && i < |Names(l, k)| && Names(l, k)[i] == name
    && (forall j :: i < j < |Names(l, k)| ==> Names(l, k)[j] != name)
    && forall m :: k < m < 6 ==> name !in Names(l, m)
  }

  /** One name's last place comes behind another's. */
  ghost predicate ComesBehind(l: Lists, a: string, b: string) {
    exists k, i, m, j :: LastPlace(l, a, k, i) && LastPlace(l, b, m, j) && Base(l, k) + i > Base(l, m) + j
  }

  /** No two items of list `k` have their names' last places the other way round. */
  ghost predicate InPlace(l: Lists, k: nat)
    requires k < 6
  {
    forall i, j :: 0 <= i < j < |Names(l, k)| ==> !ComesBehind(l, Names(l, k)[i], Names(l, k)[j])
  }

  lemma {:induction false} LastNumberWins(order: map<string, int>, names: seq<string>, base: int, i: nat)
    requires i < |names| && forall j :: i < j < |names| ==> names[j] != names[i]
    ensures names[i] in WithNames(order, names, base) && WithNames(order, names, base)[names[i]] == base + i
    decreases |names|
  {
    if i < |names| - 1 { LastNumberWins(order, names[..|names| - 1], base, i); }
  }

  lemma {:induction false} LastPlaceIsNumbered(l: Lists, name: string, k: nat, i: nat, n: nat)
    requires LastPlace(l, name, k, i) && k < n <= 6
    ensures name in OrderUpTo(l, n) && OrderUpTo(l, n)[name] == Base(l, k) + i
    decreases n
  {
    hide Names, Base, WithNames;
    if n == k + 1 {
      LastNumberWins(OrderUpTo(l, k), Names(l, k), Base(l, k), i);
    } else {
      LastPlaceIsNumbered(l, name, k, i, n - 1);
      OtherNamesKept(OrderUpTo(l, n - 1), Names(l, n - 1), Base(l, n - 1), name);
    }
  }

  /** Every name has a last place. */
  lemma {:induction false} HasLastPlace(l: Lists, name: string, n: nat) returns (k: nat, i: nat)
    requires n < 6 && (forall m :: n < m < 6 ==> name !in Names(l, m))
    requires exists m :: 0 <= m <= n && name in Names(l, m)
    ensures LastPlace(l, name, k, i)
  {
    hide Names;
    if name in Names(l, n) {
      k := n;
      i := LastIndex(Names(l, n), name);
    } else {
      k, i := HasLastPlace(l, name, n - 1);
    }
  }

  lemma {:induction false} LastIndex(names: seq<string>, name: string) returns (i: nat)
    requires name in names
    ensures i < |names| && names[i] == name && forall j :: i < j < |names| ==> names[j] != name
  {
    var n := |names| - 1;
    if names[n] == name { i := n; } else { i := LastIndex(names[..n], name); }
  }

  lemma ComesBehindIff(l: Lists, a: string, b: string)
    requires exists k :: 0 <= k < 6 && a in Names(l, k)
    requires exists k :: 0 <= k < 6 && b in Names(l, k)
    ensures KeyOf(OrderUpTo(l, 6), a) > KeyOf(OrderUpTo(l, 6), b) <==> ComesBehind(l, a, b)
  {
    hide Names, Base, OrderUpTo;
    var k, i := HasLastPlace(l, a, 5);
    var m, j := HasLastPlace(l, b, 5);
    forall k, i | LastPlace(l, a, k, i) ensures KeyOf(OrderUpTo(l, 6), a) == Base(l, k) + i {
      LastPlaceIsNumbered(l, a, k, i, 6);
    }
    forall k, i | LastPlace(l, b, k, i) ensures KeyOf(OrderUpTo(l, 6), b) == Base(l, k) + i {
      LastPlaceIsNumbered(l, b, k, i, 6);
    }
  }

  lemma ListStaysIff<T(!new)>(l: Lists, k: nat, items: seq<T>, name: T -> string)
    requires k < 6 && Names(l, k) == Map(items, name)
    ensures Arrange(items, name, OrderUpTo(l, 6)) == items <==> InPlace(l, k)
  {
    hide OrderUpTo, Arrange, KeyOf, ComesBehind, Names;
    var names, order := Names(l, k), OrderUpTo(l, 6);
    UnchangedStaysIff(items, name, order);
    forall i, j | 0 <= i < j < |items|
      ensures KeyOf(order, name(items[i])) <= KeyOf(order, name(items[j])) <==> !ComesBehind(l, names[i], names[j])
    {
      assert names[i] == name(items[i]) && names[j] == name(items[j]) && names[i] in names && names[j] in names;
      ComesBehindIff(l, names[i], names[j]);
    }
  }

  /** A deployment matched against itself is left alone exactly when in every list the names' last places
      in the deployment come in the list's own order - at any size, and whatever names are shared. */
  lemma SelfMatchStaysIff(l: Lists)
    ensures Matched(l, l) == l <==> forall k :: 0 <= k < 6 ==> InPlace(l, k)
  {
    hide OrderUpTo, Arrange, InPlace;
    ListStaysIff(l, 0, l.disks, DiskName);
    ListStaysIff(l, 1, l.volumes, VolumeName);
    ListStaysIff(l, 2, l.qsfs, QsfsName);
    ListStaysIff(l, 3, l.zdbs, ZdbName);
    ListStaysIff(l, 4, l.vms, VmName);
    ListStaysIff(l, 5, l.vmsLight, VmLightName);
  }

  /** Two disks and a machine, matched against themselves: they are reordered exactly when the machine has
      the first disk's name, since the machine's number wins. */
  lemma SharedNameReordersIff(a: Disk, b: Disk, vm: VM)
    requires a.name != b.name
    ensures var l := Lists([a, b], [], [], [], [vm], []);
            Matched(l, l).disks == if vm.name == a.name then [b, a] else [a, b]
  {
    var l := Lists([a, b], [], [], [], [vm], []);
    hide Arrange, OrderUpTo;
    OrderOfSix(l);
    TwoNames(a.name, b.name);
    assert Names(l, 0) == [a.name, b.name] && Names(l, 4) == [vm.name];
    var disks := map[a.name := 0, b.name := 1];
    assert WithNames(disks, [vm.name], 1000) == disks[vm.name := 1000];
    ArrangeTwo(a, b, DiskName, OrderUpTo(l, 6));
  }

  lemma TwoNames(a: string, b: string)
    requires a != b
    ensures WithNames(map[], [a, b], 0) == map[a := 0, b := 1]
  {
    assert [a, b][..1] == [a];
    assert WithNames(map[], [a], 0) == map[a := 0];
  }

  // ---- In place ----

  class DeploymentLists {
    var disks: seq<Disk>
    var volumes: seq<Volume>
    var qsfs: seq<QSFS>
    var zdbs: seq<ZDB>
    var vms: seq<VM>
    var vmsLight: seq<VMLight>

    ghost function State(): Lists
      reads this
    {
      Lists(disks, volumes, qsfs, zdbs, vms, vmsLight)
    }

    constructor (l: Lists)
      ensures State() == l
    {
      disks, volumes, qsfs, zdbs, vms, vmsLight := l.disks, l.volumes, l.qsfs, l.zdbs, l.vms, l.vmsLight;
    }

    /** One of the numbering loops. */
    method Number<T>(order: map<string, int>, items: seq<T>, name: T -> string, base: int) returns (r: map<string, int>)
      ensures r == WithNames(order, Map(items, name), base)
    {
      r := order;
      for i := 0 to |items|
        invariant r == WithNames(order, Map(items, name)[..i], base)
      {
        r := r[name(items[i]) := i + base];
        assert Map(items, name)[..i + 1][..i] == Map(items, name)[..i];
      }
      assert Map(items, name)[..|items|] == Map(items, name);
    }

    method MatchDeployments(given: Lists)
      modifies this
      ensures State() == Matched(old(State()), given)
    {
      hide Arrange, WithNames;
      var order := Number(map[], disks, DiskName, 0);
      order := Number(order, volumes, VolumeName, |disks|);
      order := Number(order, qsfs, QsfsName, |disks| + |volumes|);
      order := Number(order, zdbs, ZdbName, |disks| + |volumes| + |qsfs|);
      order := Number(order, vms, VmName, 1000);
      order := Number(order, vmsLight, VmLightName, 2000);
      OrderOfSix(State());
      hide OrderUpTo;
      disks := Arrange(given.disks, DiskName, order);
      qsfs := Arrange(given.qsfs, QsfsName, order);
      zdbs := Arrange(given.zdbs, ZdbName, order);
      vms := Arrange(given.vms, VmName, order);
      vmsLight := Arrange(given.vmsLight, VmLightName, order);
      volumes := Arrange(given.volumes, VolumeName, order);
    }

    method Nullify()
      modifies this
      ensures State() == Lists([], [], [], [], [], [])
    {
      disks, volumes, qsfs, zdbs, vms, vmsLight := [], [], [], [], [], [];
    }
  }

  lemma OrderOfSix(l: Lists)
    ensures var storage := WithNames(WithNames(WithNames(WithNames(map[], Names(l, 0), 0), Names(l, 1), Base(l, 1)),
                                               Names(l, 2), Base(l, 2)), Names(l, 3), Base(l, 3));
            OrderUpTo(l, 6) == WithNames(WithNames(storage, Names(l, 4), 1000), Names(l, 5), 2000)
  {
    hide Names, WithNames;
    assert OrderUpTo(l, 0) == map[];
    assert OrderUpTo(l, 1) == WithNames(map[], Names(l, 0), 0);
    assert OrderUpTo(l, 2) == WithNames(OrderUpTo(l, 1), Names(l, 1), Base(l, 1));
    assert OrderUpTo(l, 4) == WithNames(WithNames(OrderUpTo(l, 2), Names(l, 2), Base(l, 2)), Names(l, 3), Base(l, 3));
  }
}
