/** Python's stable sort by an integer key, as a specification. */
module StableSort {

  function Insert<T>(x: T, s: seq<T>, key: T -> int): seq<T> {
    if s == [] || key(x) <= key(s[0]) then [x] + s else [s[0]] + Insert(x, s[1..], key)
  }

  /** `sorted(s, key=key)`: an element goes before the later ones of the same key. */
  function Sort<T>(s: seq<T>, key: T -> int): seq<T> {
    if s == [] then [] else Insert(s[0], Sort(s[1..], key), key)
  }

  ghost predicate Sorted<T>(s: seq<T>, key: T -> int) {
    forall i, j :: 0 <= i < j < |s| ==> key(s[i]) <= key(s[j])
  }

  function Filter<T>(s: seq<T>, sel: T -> bool): seq<T> {
    if s == [] then [] else if sel(s[0]) then [s[0]] + Filter(s[1..], sel) else Filter(s[1..], sel)
  }

  lemma {:induction false} FilterAppend<T>(a: seq<T>, b: seq<T>, sel: T -> bool)
    ensures Filter(a + b, sel) == Filter(a, sel) + Filter(b, sel)
  {
    if a == [] {
      assert a + b == b;
    } else {
      assert (a + b)[1..] == a[1..] + b;
      FilterAppend(a[1..], b, sel);
    }
  }

  lemma {:induction false} InsertSorted<T>(x: T, s: seq<T>, key: T -> int)
    requires Sorted(s, key)
    ensures Sorted(Insert(x, s, key), key)
    ensures |Insert(x, s, key)| == |s| + 1
    ensures Insert(x, s, key)[0] == x || (s != [] && Insert(x, s, key)[0] == s[0])
  {
    if s != [] && key(x) > key(s[0]) {
      InsertSorted(x, s[1..], key);
      var rest := Insert(x, s[1..], key);
      forall i, j | 0 <= i < j < |s| + 1 ensures key(Insert(x, s, key)[i]) <= key(Insert(x, s, key)[j]) {
        if i > 0 {
          assert key(rest[i - 1]) <= key(rest[j - 1]);
        } else {
          assert key(rest[0]) <= key(rest[j - 1]);
        }
      }
    }
  }

  /** Elements of one key: `sel` picks only elements whose key is `k`. */
  ghost predicate OneKey<T(!new)>(sel: T -> bool, key: T -> int, k: int) {
    forall x :: sel(x) ==> key(x) == k
  }

  lemma FilterOne<T>(x: T, sel: T -> bool)
    ensures Filter([x], sel) == if sel(x) then [x] else []
  {
  }

  lemma {:induction false} InsertStable<T(!new)>(x: T, s: seq<T>, key: T -> int, sel: T -> bool, k: int)
    requires OneKey(sel, key, k)
    ensures Filter(Insert(x, s, key), sel) == Filter([x], sel) + Filter(s, sel)
  {
    if s != [] && key(x) > key(s[0]) {
      InsertStable(x, s[1..], key, sel, k);
      FilterAppend([s[0]], Insert(x, s[1..], key), sel);
      FilterAppend([s[0]], s[1..], sel);
      assert [s[0]] + s[1..] == s;
      FilterOne(x, sel);
      FilterOne(s[0], sel);
    } else {
      FilterAppend([x], s, sel);
    }
  }

  lemma {:induction false} SortIsSorted<T>(s: seq<T>, key: T -> int)
    ensures Sorted(Sort(s, key), key)
  {
    if s != [] {
      SortIsSorted(s[1..], key);
      InsertSorted(s[0], Sort(s[1..], key), key);
    }
  }

  /** The sort is ordered, and stable: elements picked out by a selector that
      fixes the key keep their original order and number. */
  lemma {:induction false} SortIsStable<T(!new)>(s: seq<T>, key: T -> int, sel: T -> bool, k: int)
    requires OneKey(sel, key, k)
    ensures Sorted(Sort(s, key), key)
    ensures Filter(Sort(s, key), sel) == Filter(s, sel)
  {
    if s != [] {
      SortIsStable(s[1..], key, sel, k);
      InsertSorted(s[0], Sort(s[1..], key), key);
      InsertStable(s[0], Sort(s[1..], key), key, sel, k);
      FilterAppend([s[0]], s[1..], sel);
      assert [s[0]] + s[1..] == s;
    }
  }

  /** The sort has the same elements. */
  lemma {:induction false} SortMultiset<T>(s: seq<T>, key: T -> int)
    ensures multiset(Sort(s, key)) == multiset(s)
  {
    if s != [] {
      SortMultiset(s[1..], key);
      InsertMultiset(s[0], Sort(s[1..], key), key);
      assert s == [s[0]] + s[1..];
    }
  }

  lemma {:induction false} InsertMultiset<T>(x: T, s: seq<T>, key: T -> int)
    ensures multiset(Insert(x, s, key)) == multiset{x} + multiset(s)
  {
    if s != [] && key(x) > key(s[0]) {
      InsertMultiset(x, s[1..], key);
      assert s == [s[0]] + s[1..];
    }
  }

  // ---- where one element ends up ----

  function AtMost<T>(key: T -> int, k: int): T -> bool { (x: T) => key(x) <= k }
  function Below<T>(key: T -> int, k: int): T -> bool { (x: T) => key(x) < k }
  function Above<T>(key: T -> int, k: int): T -> bool { (x: T) => key(x) > k }
  function AtLeast<T>(key: T -> int, k: int): T -> bool { (x: T) => key(x) >= k }

  ghost predicate All<T>(s: seq<T>, sel: T -> bool) { forall i :: 0 <= i < |s| ==> sel(s[i]) }

  lemma {:induction false} FilterPicks<T>(s: seq<T>, sel: T -> bool)
    ensures All(Filter(s, sel), sel)
  {
    if s != [] {
      FilterPicks(s[1..], sel);
    }
  }

  lemma {:induction false} InsertAll<T>(x: T, s: seq<T>, key: T -> int, sel: T -> bool)
    requires sel(x) && All(s, sel)
    ensures All(Insert(x, s, key), sel)
  {
    if s != [] && key(x) > key(s[0]) {
      InsertAll(x, s[1..], key, sel);
    }
  }

  lemma {:induction false} SortAll<T>(s: seq<T>, key: T -> int, sel: T -> bool)
    requires All(s, sel)
    ensures All(Sort(s, key), sel)
  {
    if s != [] {
      SortAll(s[1..], key, sel);
      InsertAll(s[0], Sort(s[1..], key), key, sel);
    }
  }

  /** Past everything smaller. */
  lemma {:induction false} InsertPast<T>(x: T, l: seq<T>, r: seq<T>, key: T -> int)
    requires All(l, Below(key, key(x)))
    ensures Insert(x, l + r, key) == l + Insert(x, r, key)
  {
    if l == [] {
      assert l + r == r && l + Insert(x, r, key) == Insert(x, r, key);
    } else {
      assert Below(key, key(x))(l[0]);
      assert (l + r)[1..] == l[1..] + r;
      InsertPast(x, l[1..], r, key);
    }
  }

  /** In front of something no smaller. */
  lemma {:induction false} InsertWithin<T>(x: T, l: seq<T>, r: seq<T>, key: T -> int)
    requires r == [] || key(x) <= key(r[0])
    ensures Insert(x, l + r, key) == Insert(x, l, key) + r
  {
    if l == [] {
      assert l + r == r && [x] + r == Insert(x, l, key) + r;
    } else {
      assert (l + r)[1..] == l[1..] + r;
      InsertWithin(x, l[1..], r, key);
    }
  }

  lemma {:induction false} SortSplitsAt<T>(s: seq<T>, key: T -> int, k: int)
    ensures Sort(s, key) == Sort(Filter(s, Below(key, k)), key) + Sort(Filter(s, AtLeast(key, k)), key)
  {
    if s != [] {
      SortSplitsAt(s[1..], key, k);
      var l, r := Sort(Filter(s[1..], Below(key, k)), key), Sort(Filter(s[1..], AtLeast(key, k)), key);
      FilterPicks(s[1..], Below(key, k));
      FilterPicks(s[1..], AtLeast(key, k));
      SortAll(Filter(s[1..], Below(key, k)), key, Below(key, k));
      SortAll(Filter(s[1..], AtLeast(key, k)), key, AtLeast(key, k));
      if key(s[0]) < k {
        assert r != [] ==> AtLeast(key, k)(r[0]);
        InsertWithin(s[0], l, r, key);
      } else {
        assert forall i :: 0 <= i < |l| ==> Below(key, k)(l[i]);
        InsertPast(s[0], l, r, key);
      }
    }
  }

  /** What a stable sort puts in front of an element x, and what behind it. */
  function SortedFront<T>(a: seq<T>, b: seq<T>, key: T -> int, k: int): seq<T> {
    Sort(Filter(a, AtMost(key, k)) + Filter(b, Below(key, k)), key)
  }

  function SortedBack<T>(a: seq<T>, b: seq<T>, key: T -> int, k: int): seq<T> {
    Sort(Filter(a, Above(key, k)) + Filter(b, AtLeast(key, k)), key)
  }

  lemma SidesBounded<T>(a: seq<T>, b: seq<T>, key: T -> int, k: int)
    ensures All(SortedFront(a, b, key, k), AtMost(key, k)) && All(SortedBack(a, b, key, k), AtLeast(key, k))
  {
    FilterPicks(a, AtMost(key, k));
    FilterPicks(b, Below(key, k));
    FilterPicks(a, Above(key, k));
    FilterPicks(b, AtLeast(key, k));
    var f, g := Filter(a, AtMost(key, k)) + Filter(b, Below(key, k)), Filter(a, Above(key, k)) + Filter(b, AtLeast(key, k));
    forall i | 0 <= i < |f| ensures AtMost(key, k)(f[i]) {
      assert i >= |Filter(a, AtMost(key, k))| ==> Below(key, k)(f[i]);
    }
    forall i | 0 <= i < |g| ensures AtLeast(key, k)(g[i]) {
      assert i < |Filter(a, Above(key, k))| ==> Above(key, k)(g[i]);
    }
    SortAll(f, key, AtMost(key, k));
    SortAll(g, key, AtLeast(key, k));
  }

  lemma SortCons<T>(y: T, s: seq<T>, key: T -> int)
    ensures Sort([y] + s, key) == Insert(y, Sort(s, key), key)
  {
    assert ([y] + s)[1..] == s;
  }

  lemma InsertInFront<T>(y: T, l: seq<T>, x: T, r: seq<T>, key: T -> int)
    requires key(y) <= key(x)
    ensures Insert(y, l + [x] + r, key) == Insert(y, l, key) + [x] + r
  {
    assert l + [x] + r == l + ([x] + r);
    InsertWithin(y, l, [x] + r, key);
    assert Insert(y, l, key) + ([x] + r) == Insert(y, l, key) + [x] + r;
  }

  lemma InsertBehind<T>(y: T, l: seq<T>, x: T, r: seq<T>, key: T -> int)
    requires key(y) > key(x) && All(l, AtMost(key, key(x)))
    ensures Insert(y, l + [x] + r, key) == l + [x] + Insert(y, r, key)
  {
    forall i | 0 <= i < |l + [x]| ensures Below(key, key(y))((l + [x])[i]) {
      assert i < |l| ==> AtMost(key, key(x))(l[i]);
    }
    InsertPast(y, l + [x], r, key);
  }

  lemma InsertBetween<T>(x: T, l: seq<T>, r: seq<T>, key: T -> int)
    requires All(l, Below(key, key(x))) && All(r, AtLeast(key, key(x)))
    ensures Insert(x, l + r, key) == l + [x] + r
  {
    InsertPast(x, l, r, key);
    assert r != [] ==> AtLeast(key, key(x))(r[0]);
    assert l + ([x] + r) == l + [x] + r;
  }

  lemma SortAround<T>(x: T, b: seq<T>, key: T -> int)
    ensures Sort([x] + b, key) == SortedFront([], b, key, key(x)) + [x] + SortedBack([], b, key, key(x))
  {
    var k := key(x);
    var f, g := Filter(b, Below(key, k)), Filter(b, AtLeast(key, k));
    assert Filter([], AtMost(key, k)) + f == f && Filter([], Above(key, k)) + g == g;
    FilterPicks(b, Below(key, k));
    FilterPicks(b, AtLeast(key, k));
    SortAll(f, key, Below(key, k));
    SortAll(g, key, AtLeast(key, k));
    SortSplitsAt(b, key, k);
    InsertBetween(x, Sort(f, key), Sort(g, key), key);
    SortCons(x, b, key);
  }

  /** A stable sort puts an element behind the earlier ones that are no greater and the
      later ones that are smaller, and in front of all others. */
  lemma {:induction false} SortAroundOne<T>(a: seq<T>, x: T, b: seq<T>, key: T -> int)
    ensures Sort(a + [x] + b, key) == SortedFront(a, b, key, key(x)) + [x] + SortedBack(a, b, key, key(x))
    decreases |a|
  {
    if a == [] {
      assert a + [x] + b == [x] + b;
      SortAround(x, b, key);
    } else {
      var y, rest, k := a[0], a[1..], key(x);
      SortAroundOne(rest, x, b, key);
      assert a + [x] + b == [y] + (rest + [x] + b);
      SortCons(y, rest + [x] + b, key);
      SidesBounded(rest, b, key, k);
      if key(y) <= k {
        FrontCons(a, b, key, k);
        InsertInFront(y, SortedFront(rest, b, key, k), x, SortedBack(rest, b, key, k), key);
      } else {
        BackCons(a, b, key, k);
        InsertBehind(y, SortedFront(rest, b, key, k), x, SortedBack(rest, b, key, k), key);
      }
    }
  }

  lemma FrontCons<T>(a: seq<T>, b: seq<T>, key: T -> int, k: int)
    requires a != [] && key(a[0]) <= k
    ensures SortedFront(a, b, key, k) == Insert(a[0], SortedFront(a[1..], b, key, k), key)
    ensures SortedBack(a, b, key, k) == SortedBack(a[1..], b, key, k)
  {
    var f := Filter(a[1..], AtMost(key, k)) + Filter(b, Below(key, k));
    assert Filter(a, AtMost(key, k)) + Filter(b, Below(key, k)) == [a[0]] + f && ([a[0]] + f)[1..] == f;
  }

  lemma BackCons<T>(a: seq<T>, b: seq<T>, key: T -> int, k: int)
    requires a != [] && key(a[0]) > k
    ensures SortedBack(a, b, key, k) == Insert(a[0], SortedBack(a[1..], b, key, k), key)
    ensures SortedFront(a, b, key, k) == SortedFront(a[1..], b, key, k)
  {
    var g := Filter(a[1..], Above(key, k)) + Filter(b, AtLeast(key, k));
    assert Filter(a, Above(key, k)) + Filter(b, AtLeast(key, k)) == [a[0]] + g && ([a[0]] + g)[1..] == g;
  }

  lemma {:induction false} FilterMember<T>(s: seq<T>, sel: T -> bool, x: T)
    ensures x in Filter(s, sel) <==> x in s && sel(x)
  {
    if s != [] {
      FilterMember(s[1..], sel, x);
      assert s == [s[0]] + s[1..];
    }
  }

  lemma SortMember<T>(s: seq<T>, key: T -> int, x: T)
    ensures x in Sort(s, key) <==> x in s
  {
    SortMultiset(s, key);
    assert x in Sort(s, key) <==> x in multiset(Sort(s, key));
    assert x in s <==> x in multiset(s);
  }

  lemma SidesMember<T>(a: seq<T>, b: seq<T>, key: T -> int, k: int, x: T)
    ensures x in SortedFront(a, b, key, k) <==> (x in a && key(x) <= k) || (x in b && key(x) < k)
    ensures x in SortedBack(a, b, key, k) <==> (x in a && key(x) > k) || (x in b && key(x) >= k)
  {
    FilterMember(a, AtMost(key, k), x);
    FilterMember(b, Below(key, k), x);
    FilterMember(a, Above(key, k), x);
    FilterMember(b, AtLeast(key, k), x);
    SortMember(Filter(a, AtMost(key, k)) + Filter(b, Below(key, k)), key, x);
    SortMember(Filter(a, Above(key, k)) + Filter(b, AtLeast(key, k)), key, x);
  }

  lemma NothingBack<T>(a: seq<T>, b: seq<T>, key: T -> int, k: int)
    ensures SortedBack(a, b, key, k) == [] <==>
              (forall i :: 0 <= i < |a| ==> key(a[i]) <= k) && (forall i :: 0 <= i < |b| ==> key(b[i]) < k)
  {
    var r := SortedBack(a, b, key, k);
    if r != [] {
      assert r[0] in r;
      SidesMember(a, b, key, k, r[0]);
    } else {
      forall i | 0 <= i < |a| ensures key(a[i]) <= k { SidesMember(a, b, key, k, a[i]); }
      forall i | 0 <= i < |b| ensures key(b[i]) < k { SidesMember(a, b, key, k, b[i]); }
    }
  }
}
