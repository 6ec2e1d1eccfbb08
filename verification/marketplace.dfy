/** The insurer comparison list (`src/pages/Marketplace.jsx`): a copy of the
    fixed insurer table sorted with `Array.prototype.sort`, which is stable,
    under a comparator chosen by the sort key. The sort is modelled as a
    stable insertion sort: each insurer is placed before the first one the
    comparator ranks strictly after it. */
module Marketplace {
  import opened Wrappers
  import opened Text

  datatype Insurer = Insurer(
    name: string,
    price: int,
    rating: real,
    reviews: string,
    payoutSpeed: string,
    bestFor: string,
    popular: bool,
    link: string)

  const Insurers: seq<Insurer> := [
    Insurer("Leadway Assurance", 15000, 4.8, "2.4k", "24 Hours", "Comprehensive Auto", true, "https://www.leadway.com/"),
    Insurer("AXA Mansard", 18500, 4.7, "3.1k", "48 Hours", "Health & Life", false, "https://www.axamansard.com/"),
    Insurer("AIICO Insurance", 12000, 4.5, "1.8k", "3-5 Days", "Budget Options", false, "https://www.aiicoplc.com/"),
    Insurer("Mutual Benefits", 9500, 4.2, "950", "5 Days", "Micro-Insurance", false, "https://www.mutualbenefitsassurance.com/")
  ]

  /** The number the comparator subtracts for an insurer: the price for
      `'cheapest'`, the leading integer of the payout speed for `'fastest'`
      (`None` for `NaN`), nothing for any other key. */
  function KeyOf(sort: string, x: Insurer): Option<int> {
    if sort == "cheapest" then Some(x.price)
    else if sort == "fastest" then ParseLeadingInt(x.payoutSpeed)
    else None
  }

  /** The comparator's sign-carrying result. A `NaN` difference, and every
      key other than the two named ones, compares as equal (0). */
  function Compare(key: Insurer -> Option<int>, a: Insurer, b: Insurer): (r: int)
    ensures key(a).None? || key(b).None? ==> r == 0
    ensures key(a).Some? && key(b).Some? ==>
      && (r < 0 <==> key(a).value < key(b).value)
      && (r == 0 <==> key(a).value == key(b).value)
  {
    match (key(a), key(b))
    case (Some(ka), Some(kb)) => ka - kb
    case _ => 0
  }

  /** `x` inserted before the first element of `ys` that compares strictly
      after it. */
  function Insert(key: Insurer -> Option<int>, ys: seq<Insurer>, x: Insurer): (r: seq<Insurer>)
    ensures |r| == |ys| + 1
    decreases |ys|
  {
    if ys == [] then [x]
    else if Compare(key, ys[0], x) > 0 then [x] + ys
    else [ys[0]] + Insert(key, ys[1..], x)
  }

  /** The sorted copy: every element inserted in turn, so the result is a
      permutation of the input. */
  function Sort(key: Insurer -> Option<int>, xs: seq<Insurer>): (r: seq<Insurer>)
    ensures |r| == |xs|
    decreases |xs|
  {
    if xs == [] then []
    else Insert(key, Sort(key, xs[..|xs| - 1]), xs[|xs| - 1])
  }

  /** Inserting adds exactly the one element. */
  lemma {:induction false} InsertPermutes(key: Insurer -> Option<int>, ys: seq<Insurer>, x: Insurer)
    ensures multiset(Insert(key, ys, x)) == multiset(ys) + multiset{x}
    decreases |ys|
  {
    if ys != [] && Compare(key, ys[0], x) <= 0 {
      InsertPermutes(key, ys[1..], x);
      assert ys == [ys[0]] + ys[1..];
    }
  }

  /** The sorted copy is a permutation of the input: nothing is lost,
      duplicated or invented. */
  lemma {:induction false} SortPermutes(key: Insurer -> Option<int>, xs: seq<Insurer>)
    ensures multiset(Sort(key, xs)) == multiset(xs)
    decreases |xs|
  {
    if xs != [] {
      var init := xs[..|xs| - 1];
      SortPermutes(key, init);
      InsertPermutes(key, Sort(key, init), xs[|xs| - 1]);
      assert xs == init + [xs[|xs| - 1]];
    }
  }

  /** The comparator key of the screen's sort selection. */
  function SortKey(sort: string): Insurer -> Option<int> {
    x => KeyOf(sort, x)
  }

  /** `sortedInsurers` for the screen's current sort selection. */
  function SortedInsurers(sort: string): (r: seq<Insurer>)
    ensures multiset(r) == multiset(Insurers)
  {
    SortPermutes(SortKey(sort), Insurers);
    Sort(SortKey(sort), Insurers)
  }

  // ---------------------------------------------------------------------------
  // A comparator that always answers 0 keeps the input order

  lemma {:induction false} InsertUnkeyed(key: Insurer -> Option<int>, ys: seq<Insurer>, x: Insurer)
    requires forall y :: key(y).None?
    ensures Insert(key, ys, x) == ys + [x]
    decreases |ys|
  {
    if ys != [] {
      InsertUnkeyed(key, ys[1..], x);
      assert ys == [ys[0]] + ys[1..];
    }
  }

  /** With no keys to subtract, the stable sort is the identity. */
  lemma {:induction false} SortUnkeyedKeepsOrder(key: Insurer -> Option<int>, xs: seq<Insurer>)
    requires forall y :: key(y).None?
    ensures Sort(key, xs) == xs
    decreases |xs|
  {
    if xs != [] {
      SortUnkeyedKeepsOrder(key, xs[..|xs| - 1]);
      InsertUnkeyed(key, xs[..|xs| - 1], xs[|xs| - 1]);
      assert xs == xs[..|xs| - 1] + [xs[|xs| - 1]];
    }
  }

  // ---------------------------------------------------------------------------
  // With every key defined, the result is ordered by key and stable

  /** Every insurer of `xs` has a numeric key. */
  predicate Keyed(key: Insurer -> Option<int>, xs: seq<Insurer>) {
    forall i | 0 <= i < |xs| :: key(xs[i]).Some?
  }

  /** Keys never decrease along `ys`. */
  predicate SortedByKey(key: Insurer -> Option<int>, ys: seq<Insurer>)
    requires Keyed(key, ys)
  {
    forall i, j | 0 <= i < j < |ys| :: key(ys[i]).value <= key(ys[j]).value
  }

  /** The insurers of `xs` whose key is `k`, in their order in `xs`. */
  function WithKey(key: Insurer -> Option<int>, k: int, xs: seq<Insurer>): seq<Insurer>
    decreases |xs|
  {
    if xs == [] then []
    else (if key(xs[0]) == Some(k) then [xs[0]] else []) + WithKey(key, k, xs[1..])
  }

  lemma KeyedByMultiset(key: Insurer -> Option<int>, xs: seq<Insurer>, ys: seq<Insurer>)
    requires Keyed(key, xs) && multiset(ys) == multiset(xs)
    ensures Keyed(key, ys)
  {
    forall i | 0 <= i < |ys| ensures key(ys[i]).Some? {
      assert ys[i] in multiset(ys);
      assert ys[i] in xs;
    }
  }

  /** Every key along `ys` is at least `b`. */
  predicate KeysAtLeast(key: Insurer -> Option<int>, b: int, ys: seq<Insurer>)
    requires Keyed(key, ys)
  {
    forall i | 0 <= i < |ys| :: key(ys[i]).value >= b
  }

  lemma KeysAtLeastByMultiset(key: Insurer -> Option<int>, b: int, xs: seq<Insurer>, ys: seq<Insurer>)
    requires Keyed(key, xs) && KeysAtLeast(key, b, xs) && multiset(ys) == multiset(xs)
    ensures Keyed(key, ys) && KeysAtLeast(key, b, ys)
  {
    KeyedByMultiset(key, xs, ys);
    forall i | 0 <= i < |ys| ensures key(ys[i]).value >= b {
      assert ys[i] in multiset(ys);
      assert ys[i] in xs;
    }
  }

  /** A sorted list stays sorted when an element no larger than all of it is
      put in front. */
  lemma SortedCons(key: Insurer -> Option<int>, y: Insurer, ys: seq<Insurer>)
    requires Keyed(key, ys) && key(y).Some? && SortedByKey(key, ys)
    requires KeysAtLeast(key, key(y).value, ys)
    ensures Keyed(key, [y] + ys) && SortedByKey(key, [y] + ys)
  {
    var r := [y] + ys;
    forall i | 0 <= i < |r| ensures key(r[i]).Some? {
      if i > 0 { assert r[i] == ys[i - 1]; }
    }
    forall i, j | 0 <= i < j < |r| ensures key(r[i]).value <= key(r[j]).value {
      assert r[j] == ys[j - 1];
      if i > 0 { assert r[i] == ys[i - 1]; }
    }
  }

  lemma {:induction false} InsertSorted(key: Insurer -> Option<int>, ys: seq<Insurer>, x: Insurer)
    requires Keyed(key, ys) && key(x).Some? && SortedByKey(key, ys)
    ensures Keyed(key, Insert(key, ys, x))
    ensures SortedByKey(key, Insert(key, ys, x))
    decreases |ys|
  {
    if ys == [] {
      assert Insert(key, ys, x) == [x];
    } else if Compare(key, ys[0], x) > 0 {
      assert KeysAtLeast(key, key(x).value, ys);
      SortedCons(key, x, ys);
    } else {
      var tail := ys[1..];
      var rest := Insert(key, tail, x);
      var b := key(ys[0]).value;
      SortedTail(key, ys);
      InsertSorted(key, tail, x);
      assert Keyed(key, rest) && KeysAtLeast(key, b, rest) by {
        InsertPermutes(key, tail, x);
        assert multiset(rest) == multiset(tail + [x]);
        assert Keyed(key, tail + [x]) && KeysAtLeast(key, b, tail + [x]) by {
          forall i | 0 <= i < |tail + [x]| ensures key((tail + [x])[i]).Some? && key((tail + [x])[i]).value >= b {
            if i < |tail| {
              assert (tail + [x])[i] == ys[i + 1];
            }
          }
        }
        KeysAtLeastByMultiset(key, b, tail + [x], rest);
      }
      SortedCons(key, ys[0], rest);
      assert Insert(key, ys, x) == [ys[0]] + rest;
    }
  }

  /** When every element has a key, the result is ordered by key. */
  lemma {:induction false} SortOrdersByKey(key: Insurer -> Option<int>, xs: seq<Insurer>)
    requires Keyed(key, xs)
    ensures Keyed(key, Sort(key, xs))
    ensures SortedByKey(key, Sort(key, xs))
    decreases |xs|
  {
    if xs != [] {
      var init := xs[..|xs| - 1];
      SortOrdersByKey(key, init);
      InsertSorted(key, Sort(key, init), xs[|xs| - 1]);
    }
  }

  lemma {:induction false} WithKeyAppend(key: Insurer -> Option<int>, k: int, a: seq<Insurer>, b: seq<Insurer>)
    ensures WithKey(key, k, a + b) == WithKey(key, k, a) + WithKey(key, k, b)
    decreases |a|
  {
    if a != [] {
      assert (a + b)[1..] == a[1..] + b;
      WithKeyAppend(key, k, a[1..], b);
    } else {
      assert a + b == b;
    }
  }

  /** Every key along `ys` is above `k`. */
  predicate KeysAbove(key: Insurer -> Option<int>, k: int, ys: seq<Insurer>)
    requires Keyed(key, ys)
  {
    forall i | 0 <= i < |ys| :: key(ys[i]).value > k
  }

  lemma {:induction false} WithKeyNoneAbove(key: Insurer -> Option<int>, k: int, ys: seq<Insurer>)
    requires Keyed(key, ys) && KeysAbove(key, k, ys)
    ensures WithKey(key, k, ys) == []
    decreases |ys|
  {
    if ys != [] {
      assert Keyed(key, ys[1..]) && KeysAbove(key, k, ys[1..]);
      WithKeyNoneAbove(key, k, ys[1..]);
    }
  }

  lemma WithKeyCons(key: Insurer -> Option<int>, k: int, y: Insurer, ys: seq<Insurer>)
    ensures WithKey(key, k, [y] + ys) == (if key(y) == Some(k) then [y] else []) + WithKey(key, k, ys)
  {
    assert ([y] + ys)[1..] == ys;
  }

  lemma {:induction false} InsertStable(key: Insurer -> Option<int>, k: int, ys: seq<Insurer>, x: Insurer)
    requires Keyed(key, ys) && key(x).Some? && SortedByKey(key, ys)
    ensures WithKey(key, k, Insert(key, ys, x))
      == WithKey(key, k, ys) + (if key(x) == Some(k) then [x] else [])
    decreases |ys|
  {
    if ys == [] {
      WithKeyCons(key, k, x, []);
      assert Insert(key, ys, x) == [x] + [];
    } else if Compare(key, ys[0], x) > 0 {
      InsertStableFront(key, k, ys, x);
    } else {
      var tail := ys[1..];
      assert Keyed(key, tail) && SortedByKey(key, tail);
      InsertStable(key, k, tail, x);
      InsertStablePast(key, k, ys[0], tail, x);
      assert [ys[0]] + tail == ys;
    }
  }

  /** The step of `InsertStable` where `x` goes in front: every element after
      it has a larger key, so none of them shares its key. */
  lemma InsertStableFront(key: Insurer -> Option<int>, k: int, ys: seq<Insurer>, x: Insurer)
    requires Keyed(key, ys) && key(x).Some? && SortedByKey(key, ys)
    requires ys != [] && Compare(key, ys[0], x) > 0
    ensures WithKey(key, k, Insert(key, ys, x))
      == WithKey(key, k, ys) + (if key(x) == Some(k) then [x] else [])
  {
    assert Insert(key, ys, x) == [x] + ys;
    WithKeyCons(key, k, x, ys);
    if key(x) == Some(k) {
      assert KeysAbove(key, k, ys) by {
        forall i | 0 <= i < |ys| ensures key(ys[i]).value > k {
          assert key(ys[0]).value <= key(ys[i]).value;
        }
      }
      WithKeyNoneAbove(key, k, ys);
    }
  }

  /** The step of `InsertStable` where `x` moves past the head `y`. */
  lemma InsertStablePast(key: Insurer -> Option<int>, k: int, y: Insurer, tail: seq<Insurer>, x: Insurer)
    requires Compare(key, y, x) <= 0
    requires WithKey(key, k, Insert(key, tail, x))
      == WithKey(key, k, tail) + (if key(x) == Some(k) then [x] else [])
    ensures WithKey(key, k, Insert(key, [y] + tail, x))
      == WithKey(key, k, [y] + tail) + (if key(x) == Some(k) then [x] else [])
  {
    var tag := if key(x) == Some(k) then [x] else [];
    var mark := if key(y) == Some(k) then [y] else [];
    InsertPast(key, y, tail, x);
    WithKeyCons(key, k, y, Insert(key, tail, x));
    WithKeyCons(key, k, y, tail);
    Reassociate(WithKey(key, k, Insert(key, [y] + tail, x)), WithKey(key, k, Insert(key, tail, x)),
      WithKey(key, k, [y] + tail), mark, WithKey(key, k, tail), tag);
  }

  /** Stability: among insurers with equal keys, the sorted list keeps the
      order they had in the input. */
  lemma {:induction false} SortIsStable(key: Insurer -> Option<int>, k: int, xs: seq<Insurer>)
    requires Keyed(key, xs)
    ensures WithKey(key, k, Sort(key, xs)) == WithKey(key, k, xs)
    decreases |xs|
  {
    if xs != [] {
      var init := xs[..|xs| - 1];
      var last := xs[|xs| - 1];
      var tag := if key(last) == Some(k) then [last] else [];
      assert xs == init + [last];
      assert Keyed(key, init);
      SortIsStable(key, k, init);
      SortOrdersByKey(key, init);
      assert Sort(key, xs) == Insert(key, Sort(key, init), last);
      InsertStable(key, k, Sort(key, init), last);
      WithKeyAppend(key, k, init, [last]);
      assert WithKey(key, k, [last]) == tag by {
        assert [last][1..] == [];
      }
    }
  }

  // ---------------------------------------------------------------------------
  // Ordered and stable determine the result

  /** The insurers `WithKey` picks are insurers of `xs` with key `k`. */
  lemma {:induction false} WithKeyMember(key: Insurer -> Option<int>, k: int, xs: seq<Insurer>, x: Insurer)
    requires x in WithKey(key, k, xs)
    ensures x in xs && key(x) == Some(k)
    decreases |xs|
  {
    if xs != [] && x in WithKey(key, k, xs[1..]) {
      WithKeyMember(key, k, xs[1..], x);
    }
  }

  /** A keyed list is empty exactly when no key picks anything from it. */
  lemma KeyedEmpty(key: Insurer -> Option<int>, xs: seq<Insurer>)
    requires Keyed(key, xs)
    ensures xs == [] <==> forall k :: WithKey(key, k, xs) == []
  {
    if xs == [] {
      forall k ensures WithKey(key, k, xs) == [] { }
    } else {
      WithKeyOfHead(key, xs);
      assert WithKey(key, key(xs[0]).value, xs) != [];
    }
  }

  /** In a sorted keyed list, every key that picks something is at least
      the key of the head. */
  lemma KeyAtLeastHead(key: Insurer -> Option<int>, k: int, ys: seq<Insurer>)
    requires ys != [] && Keyed(key, ys) && SortedByKey(key, ys)
    requires WithKey(key, k, ys) != []
    ensures key(ys[0]).value <= k
  {
    var x := WithKey(key, k, ys)[0];
    WithKeyMember(key, k, ys, x);
    var i :| 0 <= i < |ys| && ys[i] == x;
    if i > 0 {
      assert key(ys[0]).value <= key(ys[i]).value;
    }
  }

  /** Two sorted keyed lists that agree on every key's sub-list start with
      the same insurer. */
  lemma SameHead(key: Insurer -> Option<int>, xs: seq<Insurer>, ys: seq<Insurer>)
    requires xs != [] && ys != []
    requires Keyed(key, xs) && SortedByKey(key, xs) && Keyed(key, ys) && SortedByKey(key, ys)
    requires forall k :: WithKey(key, k, xs) == WithKey(key, k, ys)
    ensures xs[0] == ys[0]
  {
    var m, n := key(xs[0]).value, key(ys[0]).value;
    assert n <= m by {
      WithKeyOfHead(key, xs);
      assert WithKey(key, m, ys) == WithKey(key, m, xs);
      KeyAtLeastHead(key, m, ys);
    }
    assert m <= n by {
      WithKeyOfHead(key, ys);
      assert WithKey(key, n, xs) == WithKey(key, n, ys);
      KeyAtLeastHead(key, n, xs);
    }
    WithKeyOfHead(key, xs);
    WithKeyOfHead(key, ys);
    assert WithKey(key, m, xs) == WithKey(key, m, ys);
    SameFront(xs[0], ys[0], WithKey(key, m, xs[1..]), WithKey(key, m, ys[1..]));
  }

  lemma SameFront(a: Insurer, b: Insurer, r: seq<Insurer>, t: seq<Insurer>)
    requires [a] + r == [b] + t
    ensures a == b
  {
    assert ([a] + r)[0] == a && ([b] + t)[0] == b;
  }

  /** The head's own key picks the head first. */
  lemma WithKeyOfHead(key: Insurer -> Option<int>, xs: seq<Insurer>)
    requires xs != [] && key(xs[0]).Some?
    ensures WithKey(key, key(xs[0]).value, xs) == [xs[0]] + WithKey(key, key(xs[0]).value, xs[1..])
  {
  }

  /** A sorted list's tail is sorted. */
  lemma SortedTail(key: Insurer -> Option<int>, xs: seq<Insurer>)
    requires xs != [] && Keyed(key, xs) && SortedByKey(key, xs)
    ensures Keyed(key, xs[1..]) && SortedByKey(key, xs[1..])
  {
    var t := xs[1..];
    assert forall i | 0 <= i < |t| :: t[i] == xs[i + 1];
  }

  /** Sorted by key and stable together determine a list: two sorted keyed
      lists with the same sub-list for every key are equal. */
  lemma {:induction false} SortedStableUnique(key: Insurer -> Option<int>, xs: seq<Insurer>, ys: seq<Insurer>)
    requires Keyed(key, xs) && SortedByKey(key, xs) && Keyed(key, ys) && SortedByKey(key, ys)
    requires forall k :: WithKey(key, k, xs) == WithKey(key, k, ys)
    ensures xs == ys
    decreases |xs|
  {
    KeyedEmpty(key, xs);
    KeyedEmpty(key, ys);
    if xs != [] && ys != [] {
      SameHead(key, xs, ys);
      var x := xs[0];
      forall k ensures WithKey(key, k, xs[1..]) == WithKey(key, k, ys[1..]) {
        var mark := if key(x) == Some(k) then [x] else [];
        assert WithKey(key, k, xs) == mark + WithKey(key, k, xs[1..]);
        assert WithKey(key, k, ys) == mark + WithKey(key, k, ys[1..]);
        assert WithKey(key, k, xs[1..]) == (mark + WithKey(key, k, xs[1..]))[|mark|..];
        assert WithKey(key, k, ys[1..]) == (mark + WithKey(key, k, ys[1..]))[|mark|..];
      }
      SortedTail(key, xs);
      SortedTail(key, ys);
      SortedStableUnique(key, xs[1..], ys[1..]);
      assert xs == [x] + xs[1..];
      assert ys == [x] + ys[1..];
    }
  }

  /** The modelled sort is the only arrangement that is ordered by key and
      keeps ties in input order: any such arrangement of `xs` equals it, so
      the order shown does not depend on the engine's sorting algorithm. */
  lemma StableSortIsUnique(key: Insurer -> Option<int>, xs: seq<Insurer>, ys: seq<Insurer>)
    requires Keyed(key, xs) && Keyed(key, ys) && SortedByKey(key, ys)
    requires forall k :: WithKey(key, k, ys) == WithKey(key, k, xs)
    ensures ys == Sort(key, xs)
  {
    SortOrdersByKey(key, xs);
    forall k ensures WithKey(key, k, Sort(key, xs)) == WithKey(key, k, ys) {
      SortIsStable(key, k, xs);
    }
    SortedStableUnique(key, Sort(key, xs), ys);
  }

  /** `'cheapest'` lists any table by non-decreasing price, insurers of the
      same price in table order; `'fastest'` does the same by payout speed
      whenever every speed starts with a number. */
  lemma SortedInsurersOrdered(sort: string, xs: seq<Insurer>, k: int)
    requires sort == "cheapest" || (sort == "fastest" && forall i | 0 <= i < |xs| :: ParseLeadingInt(xs[i].payoutSpeed).Some?)
    ensures Keyed(SortKey(sort), Sort(SortKey(sort), xs))
    ensures SortedByKey(SortKey(sort), Sort(SortKey(sort), xs))
    ensures WithKey(SortKey(sort), k, Sort(SortKey(sort), xs)) == WithKey(SortKey(sort), k, xs)
  {
    assert Keyed(SortKey(sort), xs);
    SortOrdersByKey(SortKey(sort), xs);
    SortIsStable(SortKey(sort), k, xs);
  }

  // ---------------------------------------------------------------------------
  // The three orders the screen shows

  /** `x` goes in front when the head ranks strictly after it. */
  lemma InsertFront(key: Insurer -> Option<int>, y: Insurer, ys: seq<Insurer>, x: Insurer)
    requires Compare(key, y, x) > 0
    ensures Insert(key, [y] + ys, x) == [x, y] + ys
  {
  }

  /** `x` moves past a head that does not rank after it. */
  lemma InsertPast(key: Insurer -> Option<int>, y: Insurer, ys: seq<Insurer>, x: Insurer)
    requires Compare(key, y, x) <= 0
    ensures Insert(key, [y] + ys, x) == [y] + Insert(key, ys, x)
  {
    assert ([y] + ys)[1..] == ys;
  }

  /** The last element of `xs` is inserted into the sorted rest. */
  lemma SortStep(key: Insurer -> Option<int>, xs: seq<Insurer>, x: Insurer)
    ensures Sort(key, xs + [x]) == Insert(key, Sort(key, xs), x)
  {
    assert (xs + [x])[..|xs + [x]| - 1] == xs;
  }

  lemma SortOfTwo(key: Insurer -> Option<int>, a: Insurer, b: Insurer)
    requires Compare(key, a, b) <= 0
    ensures Sort(key, [a, b]) == [a, b]
  {
    SortStep(key, [], a);
    assert [] + [a] == [a];
    SortStep(key, [a], b);
    assert [a] + [b] == [a, b];
    InsertPast(key, a, [], b);
  }

  lemma SortOfThree(key: Insurer -> Option<int>, a: Insurer, b: Insurer, c: Insurer)
    requires Compare(key, a, b) <= 0 && Compare(key, a, c) > 0
    ensures Sort(key, [a, b, c]) == [c, a, b]
  {
    SortOfTwo(key, a, b);
    SortStep(key, [a, b], c);
    assert [a, b] + [c] == [a, b, c];
    InsertFront(key, a, [b], c);
  }

  /** Sorting four entries `[a, b, c, d]` when the comparator keeps `b`
      after `a` and moves `c` in front of both: the order then depends only
      on where `d` lands. */
  lemma SortOfFour(key: Insurer -> Option<int>, a: Insurer, b: Insurer, c: Insurer, d: Insurer)
    requires Compare(key, a, b) <= 0 && Compare(key, a, c) > 0
    ensures Sort(key, [a, b, c, d]) == Insert(key, [c, a, b], d)
  {
    SortOfThree(key, a, b, c);
    SortStep(key, [a, b, c], d);
    assert [a, b, c] + [d] == [a, b, c, d];
  }

  /** The prices the `'cheapest'` comparator subtracts. */
  lemma CheapestKeys()
    ensures SortKey("cheapest")(Insurers[0]) == Some(15000)
    ensures SortKey("cheapest")(Insurers[1]) == Some(18500)
    ensures SortKey("cheapest")(Insurers[2]) == Some(12000)
    ensures SortKey("cheapest")(Insurers[3]) == Some(9500)
  {
  }

  /** Four entries whose keys are 15000, 18500, 12000 and 9500 sort as the
      fourth, third, first, second. */
  lemma CheapestShape(key: Insurer -> Option<int>, a: Insurer, b: Insurer, c: Insurer, d: Insurer)
    requires key(a) == Some(15000) && key(b) == Some(18500)
    requires key(c) == Some(12000) && key(d) == Some(9500)
    ensures Sort(key, [a, b, c, d]) == [d, c, a, b]
  {
    SortOfFour(key, a, b, c, d);
    InsertFront(key, c, [a, b], d);
  }

  /** `'cheapest'`: Mutual Benefits, AIICO, Leadway, AXA. */
  lemma CheapestOrder()
    ensures SortedInsurers("cheapest") == [Insurers[3], Insurers[2], Insurers[0], Insurers[1]]
  {
    var a, b, c, d := Insurers[0], Insurers[1], Insurers[2], Insurers[3];
    CheapestKeys();
    CheapestShape(SortKey("cheapest"), a, b, c, d);
    assert Insurers == [a, b, c, d];
  }

  lemma LeadwaySpeed()
    ensures ParseLeadingInt("24 Hours") == Some(24)
  {
    assert NatToDecimal(24) == NatToDecimal(2) + [DigitChar(4)];
    assert "24 Hours" == IntToDecimal(24) + " Hours";
    DecimalRoundTrip(24, " Hours");
  }

  lemma AxaSpeed()
    ensures ParseLeadingInt("48 Hours") == Some(48)
  {
    assert NatToDecimal(48) == NatToDecimal(4) + [DigitChar(8)];
    assert "48 Hours" == IntToDecimal(48) + " Hours";
    DecimalRoundTrip(48, " Hours");
  }

  /** `"3-5 Days"` reads as 3: parsing stops at the dash. */
  lemma AiicoSpeed()
    ensures ParseLeadingInt("3-5 Days") == Some(3)
  {
    assert "3-5 Days" == IntToDecimal(3) + "-5 Days";
    DecimalRoundTrip(3, "-5 Days");
  }

  lemma MutualSpeed()
    ensures ParseLeadingInt("5 Days") == Some(5)
  {
    assert "5 Days" == IntToDecimal(5) + " Days";
    DecimalRoundTrip(5, " Days");
  }

  /** The payout speeds read as 24, 48, 3 and 5, hours and days alike: the
      units are ignored. */
  lemma FastestKeys()
    ensures SortKey("fastest")(Insurers[0]) == Some(24)
    ensures SortKey("fastest")(Insurers[1]) == Some(48)
    ensures SortKey("fastest")(Insurers[2]) == Some(3)
    ensures SortKey("fastest")(Insurers[3]) == Some(5)
  {
    assert Insurers[0].payoutSpeed == "24 Hours" && Insurers[1].payoutSpeed == "48 Hours";
    assert Insurers[2].payoutSpeed == "3-5 Days" && Insurers[3].payoutSpeed == "5 Days";
    assert SortKey("fastest")(Insurers[0]) == Some(24) by { LeadwaySpeed(); }
    assert SortKey("fastest")(Insurers[1]) == Some(48) by { AxaSpeed(); }
    assert SortKey("fastest")(Insurers[2]) == Some(3) by { AiicoSpeed(); }
    assert SortKey("fastest")(Insurers[3]) == Some(5) by { MutualSpeed(); }
  }

  /** Four entries whose keys are 24, 48, 3 and 5 sort as the third, fourth,
      first, second. */
  lemma FastestShape(key: Insurer -> Option<int>, a: Insurer, b: Insurer, c: Insurer, d: Insurer)
    requires key(a) == Some(24) && key(b) == Some(48)
    requires key(c) == Some(3) && key(d) == Some(5)
    ensures Sort(key, [a, b, c, d]) == [c, d, a, b]
  {
    SortOfFour(key, a, b, c, d);
    InsertFront(key, a, [b], d);
    InsertPast(key, c, [a, b], d);
  }

  /** `'fastest'`: AIICO, Mutual Benefits, Leadway, AXA. */
  lemma FastestOrder()
    ensures SortedInsurers("fastest") == [Insurers[2], Insurers[3], Insurers[0], Insurers[1]]
  {
    var a, b, c, d := Insurers[0], Insurers[1], Insurers[2], Insurers[3];
    FastestKeys();
    FastestShape(SortKey("fastest"), a, b, c, d);
    assert Insurers == [a, b, c, d];
  }

  /** `'popular'`, and any other selection, shows the table as declared. */
  lemma PopularOrder(sort: string)
    requires sort != "cheapest" && sort != "fastest"
    ensures SortedInsurers(sort) == Insurers
  {
    SortUnkeyedKeepsOrder(SortKey(sort), Insurers);
  }
}
