/**
 * `items.sort(key=lambda x: x.get('date_obj', datetime.min), reverse=True)`.
 *
 * Python's sort is stable, also with `reverse=True`: items with equal keys
 * keep their listing order.  The result of such a sort is fixed by three
 * facts: it is ordered by non-increasing key, it holds the same items, and
 * for every key the items with that key appear in their original order.
 * `SortByDateDesc` is a stable insertion sort; the lemmas below prove the
 * three facts of it and that they determine the result, so it stands for
 * any stable sort, the one the interpreter runs included.
 */
module Sorting {
  import opened Content

  /** Ordered by non-increasing sort key. */
  predicate SortedDesc(s: seq<Item>) {
    forall i, j | 0 <= i < j < |s| :: SortKey(s[i]) >= SortKey(s[j])
  }

  /** The items of `s` whose key is `k`, in their order in `s`. */
  function WithKey(s: seq<Item>, k: Instant): (r: seq<Item>)
    ensures |r| <= |s|
    decreases |s|
  {
    if s == [] then []
    else WithKey(s[..|s| - 1], k) + (if SortKey(s[|s| - 1]) == k then [s[|s| - 1]] else [])
  }

  /** Places `x` after every item whose key is at least its own. */
  function Insert(s: seq<Item>, x: Item): (r: seq<Item>)
    ensures multiset(r) == multiset(s) + multiset{x}
    decreases |s|
  {
    if s == [] || SortKey(s[|s| - 1]) >= SortKey(x) then s + [x]
    else
      var init := s[..|s| - 1];
      assert s == init + [s[|s| - 1]];
      Insert(init, x) + [s[|s| - 1]]
  }

  /** The stable sort by descending `date_obj`. */
  function SortByDateDesc(s: seq<Item>): (r: seq<Item>)
    ensures multiset(r) == multiset(s)
    ensures SortedDesc(r)
    decreases |s|
  {
    if s == [] then []
    else
      var init := s[..|s| - 1];
      assert s == init + [s[|s| - 1]];
      InsertSorted(SortByDateDesc(init), s[|s| - 1]);
      Insert(SortByDateDesc(init), s[|s| - 1])
  }

  /** Every item of `s` has a key of at least `b`. */
  predicate AllAtLeast(s: seq<Item>, b: Instant) {
    forall i | 0 <= i < |s| :: SortKey(s[i]) >= b
  }

  lemma AllAtLeastSnoc(s: seq<Item>, y: Item, b: Instant)
    requires AllAtLeast(s, b) && SortKey(y) >= b
    ensures AllAtLeast(s + [y], b)
  {
    assert forall i | 0 <= i < |s| :: (s + [y])[i] == s[i];
  }

  lemma SortedSnoc(s: seq<Item>, y: Item)
    requires SortedDesc(s) && AllAtLeast(s, SortKey(y))
    ensures SortedDesc(s + [y])
  {
    assert forall i | 0 <= i < |s| :: (s + [y])[i] == s[i];
  }

  /** Inserting keeps a lower bound that `x` also meets. */
  lemma {:induction false} InsertAtLeast(s: seq<Item>, x: Item, b: Instant)
    requires AllAtLeast(s, b) && SortKey(x) >= b
    ensures AllAtLeast(Insert(s, x), b)
    decreases |s|
  {
    if s == [] || SortKey(s[|s| - 1]) >= SortKey(x) {
      AllAtLeastSnoc(s, x, b);
    } else {
      var init := s[..|s| - 1];
      InsertAtLeast(init, x, b);
      AllAtLeastSnoc(Insert(init, x), s[|s| - 1], b);
    }
  }

  lemma {:induction false} InsertSorted(s: seq<Item>, x: Item)
    requires SortedDesc(s)
    ensures SortedDesc(Insert(s, x))
    decreases |s|
  {
    if s == [] || SortKey(s[|s| - 1]) >= SortKey(x) {
      SortedSnoc(s, x);
    } else {
      var init, last := s[..|s| - 1], s[|s| - 1];
      InsertSorted(init, x);
      InsertAtLeast(init, x, SortKey(last));
      SortedSnoc(Insert(init, x), last);
    }
  }

  lemma WithKeySnoc(s: seq<Item>, y: Item, k: Instant)
    ensures WithKey(s + [y], k) == WithKey(s, k) + (if SortKey(y) == k then [y] else [])
  {
    assert (s + [y])[..|s|] == s;
  }

  /** Inserting `x` puts it after every item with its own key. */
  lemma {:induction false} InsertWithKey(s: seq<Item>, x: Item, k: Instant)
    ensures WithKey(Insert(s, x), k) == WithKey(s, k) + (if SortKey(x) == k then [x] else [])
    decreases |s|
  {
    if s == [] || SortKey(s[|s| - 1]) >= SortKey(x) {
      WithKeySnoc(s, x, k);
    } else {
      var init, last := s[..|s| - 1], s[|s| - 1];
      assert s == init + [last];
      assert Insert(s, x) == Insert(init, x) + [last];
      InsertWithKey(init, x, k);
      WithKeySnoc(Insert(init, x), last, k);
      WithKeySnoc(init, last, k);
      if SortKey(x) == k {
        assert SortKey(last) != k;
      } else {
        assert WithKey(init, k) + [] == WithKey(init, k);
      }
    }
  }

  /** Stability: the items of each key keep their listing order. */
  lemma {:induction false} SortByDateDescStable(s: seq<Item>, k: Instant)
    ensures WithKey(SortByDateDesc(s), k) == WithKey(s, k)
    decreases |s|
  {
    if s != [] {
      var init, last := s[..|s| - 1], s[|s| - 1];
      SortByDateDescStable(init, k);
      InsertWithKey(SortByDateDesc(init), last, k);
    }
  }

  /** Items without a `date_obj` count as `datetime.min`: nothing after one of them has a later date. */
  lemma DatelessSortLast(s: seq<Item>, i: int, j: int)
    requires 0 <= i < j < |SortByDateDesc(s)|
    requires SortByDateDesc(s)[i].dateObj.None?
    ensures SortKey(SortByDateDesc(s)[j]) == MinInstant
  {
  }

  lemma {:induction false} WithKeyMembers(s: seq<Item>, k: Instant, y: Item)
    requires y in WithKey(s, k)
    ensures SortKey(y) == k && y in s
    decreases |s|
  {
    var init, last := s[..|s| - 1], s[|s| - 1];
    assert s == init + [last];
    if y in WithKey(init, k) {
      WithKeyMembers(init, k, y);
    }
  }

  lemma {:induction false} WithKeyHasEach(s: seq<Item>, i: int)
    requires 0 <= i < |s|
    ensures WithKey(s, SortKey(s[i])) != []
    decreases |s|
  {
    if i < |s| - 1 {
      assert s[..|s| - 1][i] == s[i];
      WithKeyHasEach(s[..|s| - 1], i);
    }
  }

  /** The last item of a sorted sequence has its least key. */
  lemma LastKeyLeast(s: seq<Item>, y: Item)
    requires SortedDesc(s) && y in s
    ensures SortKey(y) >= SortKey(s[|s| - 1])
  {
  }

  /** Same items key by key. */
  ghost predicate SameGroups(t: seq<Item>, r: seq<Item>) {
    forall k :: WithKey(t, k) == WithKey(r, k)
  }

  lemma SameGroupsEmpty(t: seq<Item>, r: seq<Item>)
    requires SameGroups(t, r) && t == []
    ensures r == []
  {
    if r != [] {
      WithKeyHasEach(r, 0);
    }
  }

  /** Sorted sequences with the same groups end with the same item. */
  lemma SameGroupsSameLast(t: seq<Item>, r: seq<Item>)
    requires SortedDesc(t) && SortedDesc(r) && SameGroups(t, r)
    requires t != [] && r != []
    ensures SortKey(t[|t| - 1]) == SortKey(r[|r| - 1])
  {
    var lt, lr := t[|t| - 1], r[|r| - 1];
    WithKeyHasEach(t, |t| - 1);
    WithKeyHasEach(r, |r| - 1);
    assert WithKey(r, SortKey(lt)) == WithKey(t, SortKey(lt));
    var yt := WithKey(r, SortKey(lt))[0];
    WithKeyMembers(r, SortKey(lt), yt);
    LastKeyLeast(r, yt);
    assert WithKey(t, SortKey(lr)) == WithKey(r, SortKey(lr));
    var yr := WithKey(t, SortKey(lr))[0];
    WithKeyMembers(t, SortKey(lr), yr);
    LastKeyLeast(t, yr);
  }

  /** Removing the common last item keeps the groups equal. */
  lemma SameGroupsDropLast(t: seq<Item>, r: seq<Item>)
    requires SameGroups(t, r) && t != [] && r != []
    requires SortKey(t[|t| - 1]) == SortKey(r[|r| - 1])
    ensures t[|t| - 1] == r[|r| - 1]
    ensures SameGroups(t[..|t| - 1], r[..|r| - 1])
  {
    var lt, lr := t[|t| - 1], r[|r| - 1];
    var t', r' := t[..|t| - 1], r[..|r| - 1];
    assert t == t' + [lt] && r == r' + [lr];
    forall k
      ensures WithKey(t', k) == WithKey(r', k)
    {
      WithKeySnoc(t', lt, k);
      WithKeySnoc(r', lr, k);
      var g := WithKey(t, k);
      assert g == WithKey(r, k);
      if SortKey(lt) == k {
        assert WithKey(t', k) == g[..|g| - 1] == WithKey(r', k);
      } else {
        assert WithKey(t', k) + [] == WithKey(t', k) && WithKey(r', k) + [] == WithKey(r', k);
      }
    }
    var m := SortKey(lt);
    WithKeySnoc(t', lt, m);
    WithKeySnoc(r', lr, m);
    var g := WithKey(t, m);
    assert g == WithKey(r, m);
    assert lt == g[|g| - 1] == lr;
  }

  /**
   * Two sorted sequences that agree, key by key, on the order of their
   * items are equal.
   */
  lemma {:induction false} SameGroupsSortedEqual(t: seq<Item>, r: seq<Item>)
    requires SortedDesc(t) && SortedDesc(r) && SameGroups(t, r)
    ensures t == r
    decreases |t|
  {
    if t == [] {
      SameGroupsEmpty(t, r);
    } else if r == [] {
      SameGroupsEmpty(r, t);
    } else {
      SameGroupsSameLast(t, r);
      SameGroupsDropLast(t, r);
      SameGroupsSortedEqual(t[..|t| - 1], r[..|r| - 1]);
      assert t == t[..|t| - 1] + [t[|t| - 1]];
      assert r == r[..|r| - 1] + [r[|r| - 1]];
    }
  }

  /**
   * Any ordering of the items that is sorted by non-increasing date and
   * keeps equal dates in listing order is exactly `SortByDateDesc`.
   */
  lemma StableSortUnique(s: seq<Item>, t: seq<Item>)
    requires SortedDesc(t)
    requires forall k :: WithKey(t, k) == WithKey(s, k)
    ensures t == SortByDateDesc(s)
  {
    forall k
      ensures WithKey(t, k) == WithKey(SortByDateDesc(s), k)
    {
      SortByDateDescStable(s, k);
    }
    SameGroupsSortedEqual(t, SortByDateDesc(s));
  }

  /** Two items: the later-keyed one first, listing order on equal keys. */
  lemma SortTwo(x: Item, y: Item)
    ensures SortByDateDesc([x, y]) == if SortKey(x) < SortKey(y) then [y, x] else [x, y]
  {
    assert [x, y][..1] == [x] && [x][..0] == [];
    assert SortByDateDesc([x]) == [x];
  }
}
