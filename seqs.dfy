/** Sequence operations shared by the handlers and the pages: the first row
    a query matches, filtering, grouping by a key in order of first
    occurrence (what a JavaScript object used as a dictionary does), a stable
    sort by an integer key (SQL `ORDER BY` and `Array.prototype.sort` with a
    numeric comparator) and `LIMIT`. */
module Seqs {
  import opened Common

  // ---------------------------------------------------------------------
  // Search

  /** The first position whose element satisfies `p` (`rows[0]` of a query). */
  function FirstIndex<T>(s: seq<T>, p: T -> bool): (r: Option<nat>)
    ensures r.Some? ==> r.value < |s| && p(s[r.value])
    ensures r.Some? ==> forall j | 0 <= j < r.value :: !p(s[j])
    ensures r.None? ==> forall j | 0 <= j < |s| :: !p(s[j])
  {
    if |s| == 0 then None
    else if p(s[0]) then Some(0)
    else
      match FirstIndex(s[1..], p)
      case None => None
      case Some(i) => Some(i + 1)
  }

  // ---------------------------------------------------------------------
  // Filtering

  /** The elements of `s` that satisfy `keep`, in their order in `s`. */
  function Where<T>(s: seq<T>, keep: T -> bool): (r: seq<T>)
    ensures |r| <= |s|
    ensures forall i | 0 <= i < |r| :: r[i] in s && keep(r[i])
    ensures forall i | 0 <= i < |s| :: keep(s[i]) ==> s[i] in r
    ensures forall x | x in multiset(r) :: multiset(r)[x] == multiset(s)[x]
  {
    if |s| == 0 then []
    else
      assert s == [s[0]] + s[1..];
      (if keep(s[0]) then [s[0]] else []) + Where(s[1..], keep)
  }

  /** No two elements of `s` share a key (a `unique()` column). */
  predicate UniqueBy<T, K(==)>(s: seq<T>, key: T -> K) {
    forall i, j | 0 <= i < j < |s| :: key(s[i]) != key(s[j])
  }

  /** Appending an element whose key no element has keeps the keys distinct. */
  lemma AppendKeepsUnique<T, K>(s: seq<T>, x: T, key: T -> K)
    requires UniqueBy(s, key)
    requires forall i | 0 <= i < |s| :: key(s[i]) != key(x)
    ensures UniqueBy(s + [x], key)
  {
  }

  /** Deleting rows never creates a duplicate. */
  lemma {:induction false} WhereKeepsUnique<T, K>(s: seq<T>, keep: T -> bool, key: T -> K)
    requires UniqueBy(s, key)
    ensures UniqueBy(Where(s, keep), key)
  {
    if |s| > 0 {
      var rest := Where(s[1..], keep);
      WhereKeepsUnique(s[1..], keep, key);
      if keep(s[0]) {
        assert Where(s, keep) == [s[0]] + rest;
        forall j | 0 <= j < |rest| ensures key(s[0]) != key(rest[j]) {
          var m :| 0 <= m < |s[1..]| && s[1..][m] == rest[j];
          assert s[m + 1] == rest[j];
        }
      }
    }
  }

  /** The elements of `s` whose key is `k`, in their order in `s`. */
  function SelectKey<T, K(==)>(s: seq<T>, key: T -> K, k: K): (r: seq<T>)
    ensures |r| <= |s|
  {
    if |s| == 0 then []
    else (if key(s[0]) == k then [s[0]] else []) + SelectKey(s[1..], key, k)
  }

  /** Unfolds `SelectKey` on a sequence with a known first element. */
  lemma SelectKeyCons<T, K>(y: T, u: seq<T>, key: T -> K, k: K)
    ensures SelectKey([y] + u, key, k) == (if key(y) == k then [y] else []) + SelectKey(u, key, k)
  {
    assert ([y] + u)[0] == y && ([y] + u)[1..] == u;
  }

  /** `SelectKey` keeps exactly the elements whose key is `k`. */
  lemma {:induction false} SelectKeyMembers<T, K>(s: seq<T>, key: T -> K, k: K)
    ensures forall i | 0 <= i < |SelectKey(s, key, k)| :: SelectKey(s, key, k)[i] in s && key(SelectKey(s, key, k)[i]) == k
    ensures forall i | 0 <= i < |s| :: key(s[i]) == k ==> s[i] in SelectKey(s, key, k)
  {
    if |s| > 0 {
      SelectKeyMembers(s[1..], key, k);
      assert s == [s[0]] + s[1..];
    }
  }

  lemma {:induction false} SelectKeySnoc<T, K>(s: seq<T>, key: T -> K, k: K, x: T)
    ensures SelectKey(s + [x], key, k) == SelectKey(s, key, k) + (if key(x) == k then [x] else [])
  {
    if |s| == 0 {
      assert s + [x] == [x] + [];
      SelectKeyCons(x, [], key, k);
    } else {
      assert s + [x] == [s[0]] + (s[1..] + [x]);
      assert s == [s[0]] + s[1..];
      SelectKeySnoc(s[1..], key, k, x);
      SelectKeyCons(s[0], s[1..] + [x], key, k);
      SelectKeyCons(s[0], s[1..], key, k);
    }
  }

  // ---------------------------------------------------------------------
  // Grouping

  predicate Distinct<K(==)>(ks: seq<K>) {
    forall i, j | 0 <= i < j < |ks| :: ks[i] != ks[j]
  }

  /** The keys of `s`, each once, in order of first occurrence. */
  function DistinctKeys<T, K(==)>(s: seq<T>, key: T -> K): (ks: seq<K>)
    ensures Distinct(ks)
    ensures forall i | 0 <= i < |s| :: key(s[i]) in ks
    ensures |ks| <= |s|
  {
    if |s| == 0 then []
    else
      var init := s[..|s| - 1];
      var ks := DistinctKeys(init, key);
      var k := key(s[|s| - 1]);
      assert forall i | 0 <= i < |s| - 1 :: s[i] == init[i];
      if k in ks then ks else ks + [k]
  }

  /** Every listed key is the key of some element; `i` is one. */
  lemma {:induction false} KeyOccurs<T, K>(s: seq<T>, key: T -> K, k: K) returns (i: nat)
    requires k in DistinctKeys(s, key)
    ensures i < |s| && key(s[i]) == k
  {
    var init := s[..|s| - 1];
    var last := key(s[|s| - 1]);
    assert DistinctKeys(s, key) == if last in DistinctKeys(init, key) then DistinctKeys(init, key) else DistinctKeys(init, key) + [last];
    if k == last {
      i := |s| - 1;
    } else {
      i := KeyOccurs(init, key, k);
      assert s[i] == init[i];
    }
  }

  lemma {:induction false} SelectAbsentKey<T, K>(s: seq<T>, key: T -> K, k: K)
    requires k !in DistinctKeys(s, key)
    ensures SelectKey(s, key, k) == []
  {
    forall i | 0 <= i < |s| ensures key(s[i]) != k {
    }
    SelectNoKey(s, key, k);
  }

  lemma {:induction false} SelectNoKey<T, K>(s: seq<T>, key: T -> K, k: K)
    requires forall i | 0 <= i < |s| :: key(s[i]) != k
    ensures SelectKey(s, key, k) == []
  {
    if |s| > 0 {
      assert forall i | 0 <= i < |s[1..]| :: s[1..][i] == s[i + 1];
      SelectNoKey(s[1..], key, k);
    }
  }

  lemma DistinctKeysSnoc<T, K>(s: seq<T>, key: T -> K, x: T)
    ensures DistinctKeys(s + [x], key)
            == if key(x) in DistinctKeys(s, key) then DistinctKeys(s, key) else DistinctKeys(s, key) + [key(x)]
  {
    assert (s + [x])[..|s + [x]| - 1] == s;
  }

  /** The total size of the groups for the keys `ks`. */
  function GroupSizes<T, K(==)>(s: seq<T>, key: T -> K, ks: seq<K>): nat
  {
    if |ks| == 0 then 0 else |SelectKey(s, key, ks[0])| + GroupSizes(s, key, ks[1..])
  }

  lemma {:induction false} GroupSizesSnocKey<T, K>(s: seq<T>, key: T -> K, ks: seq<K>, k: K)
    ensures GroupSizes(s, key, ks + [k]) == GroupSizes(s, key, ks) + |SelectKey(s, key, k)|
  {
    if |ks| > 0 {
      assert (ks + [k])[1..] == ks[1..] + [k];
      GroupSizesSnocKey(s, key, ks[1..], k);
    }
  }

  lemma {:induction false} GroupSizesSnocItem<T, K>(s: seq<T>, key: T -> K, ks: seq<K>, x: T)
    requires Distinct(ks)
    ensures GroupSizes(s + [x], key, ks) == GroupSizes(s, key, ks) + (if key(x) in ks then 1 else 0)
  {
    if |ks| > 0 {
      SelectKeySnoc(s, key, ks[0], x);
      GroupSizesSnocItem(s, key, ks[1..], x);
      assert key(x) in ks <==> key(x) == ks[0] || key(x) in ks[1..];
    }
  }

  /** Grouping loses and duplicates nothing: the group sizes add up to the
      number of elements. */
  lemma {:induction false} GroupSizesSum<T, K>(s: seq<T>, key: T -> K)
    ensures GroupSizes(s, key, DistinctKeys(s, key)) == |s|
  {
    if |s| > 0 {
      var init := s[..|s| - 1];
      var x := s[|s| - 1];
      assert s == init + [x];
      var ks := DistinctKeys(init, key);
      GroupSizesSum(init, key);
      GroupSizesSnocItem(init, key, ks, x);
      if key(x) !in ks {
        GroupSizesSnocKey(s, key, ks, key(x));
        SelectKeySnoc(init, key, key(x), x);
        SelectAbsentKey(init, key, key(x));
      }
    }
  }

  /** The groups' sizes count the elements whose key is one of `ks`. */
  lemma {:induction false} GroupSizesCons<T, K>(x: T, s: seq<T>, key: T -> K, ks: seq<K>)
    requires Distinct(ks)
    ensures GroupSizes([x] + s, key, ks) == GroupSizes(s, key, ks) + (if key(x) in ks then 1 else 0)
  {
    if |ks| > 0 {
      assert ([x] + s)[0] == x && ([x] + s)[1..] == s;
      GroupSizesCons(x, s, key, ks[1..]);
      assert key(x) in ks <==> key(x) == ks[0] || key(x) in ks[1..];
    }
  }

  lemma {:induction false} GroupSizesWhere<T, K>(s: seq<T>, key: T -> K, ks: seq<K>, keep: T -> bool)
    requires Distinct(ks)
    requires forall x :: keep(x) <==> key(x) in ks
    ensures GroupSizes(s, key, ks) == |Where(s, keep)|
  {
    if |s| == 0 {
      GroupSizesEmpty(s, key, ks);
    } else {
      assert s == [s[0]] + s[1..];
      GroupSizesCons(s[0], s[1..], key, ks);
      GroupSizesWhere(s[1..], key, ks, keep);
    }
  }

  lemma {:induction false} GroupSizesEmpty<T, K>(s: seq<T>, key: T -> K, ks: seq<K>)
    requires |s| == 0
    ensures GroupSizes(s, key, ks) == 0
  {
    if |ks| > 0 {
      GroupSizesEmpty(s, key, ks[1..]);
    }
  }

  /** Keys are listed in order of first occurrence: the element at `p` has
      the earlier key and comes before every element with the later one. */
  lemma {:induction false} DistinctKeysFirstOccurrence<T, K>(s: seq<T>, key: T -> K, i: nat, j: nat)
    returns (p: nat)
    requires i < j < |DistinctKeys(s, key)|
    ensures p < |s| && key(s[p]) == DistinctKeys(s, key)[i]
    ensures forall q | 0 <= q <= p :: key(s[q]) != DistinctKeys(s, key)[j]
  {
    var init := s[..|s| - 1];
    var ks := DistinctKeys(init, key);
    var last := key(s[|s| - 1]);
    assert DistinctKeys(s, key) == if last in ks then ks else ks + [last];
    assert forall q | 0 <= q < |init| :: s[q] == init[q];
    if j < |ks| {
      p := DistinctKeysFirstOccurrence(init, key, i, j);
    } else {
      assert DistinctKeys(s, key)[j] == last && last !in ks;
      p := KeyOccurs(init, key, ks[i]);
    }
  }

  /** The dictionary `reduce` builds from `s`: the last element is pushed
      onto the array of its key, made empty when the key is new. */
  function GroupMap<T, K(==)>(s: seq<T>, key: T -> K): (g: map<K, seq<T>>)
  {
    if |s| == 0 then map[]
    else
      var g := GroupMap(s[..|s| - 1], key);
      var k := key(s[|s| - 1]);
      g[k := (if k in g then g[k] else []) + [s[|s| - 1]]]
  }

  /** The dictionary holds exactly the keys seen, each with its elements in
      their order in `s`. */
  lemma {:induction false} GroupMapAt<T, K>(s: seq<T>, key: T -> K, k: K)
    ensures k in GroupMap(s, key) <==> k in DistinctKeys(s, key)
    ensures k in GroupMap(s, key) ==> GroupMap(s, key)[k] == SelectKey(s, key, k)
  {
    if |s| > 0 {
      var init := s[..|s| - 1];
      var x := s[|s| - 1];
      assert s == init + [x];
      GroupMapAt(init, key, k);
      DistinctKeysSnoc(init, key, x);
      SelectKeySnoc(init, key, k, x);
      if key(x) == k && k !in DistinctKeys(init, key) {
        SelectAbsentKey(init, key, k);
      }
    }
  }

  /** Pushing `s[i]` takes the dictionary of `s[..i]` to that of
      `s[..i + 1]`. */
  lemma GroupMapStep<T, K>(s: seq<T>, key: T -> K, i: nat)
    requires i < |s|
    ensures var k := key(s[i]);
            var g := GroupMap(s[..i], key);
            && GroupMap(s[..i + 1], key) == g[k := (if k in g then g[k] else []) + [s[i]]]
            && DistinctKeys(s[..i + 1], key)
               == if k in g then DistinctKeys(s[..i], key) else DistinctKeys(s[..i], key) + [k]
  {
    assert s[..i + 1] == s[..i] + [s[i]];
    assert s[..i + 1][..i] == s[..i];
    DistinctKeysSnoc(s[..i], key, s[i]);
    GroupMapAt(s[..i], key, key(s[i]));
  }

  /** `reduce` into a dictionary of arrays: each element is pushed onto the
      array of its key, a key's array being made when the key is first
      seen. `keys` lists the dictionary's keys in insertion order. */
  method GroupBy<T, K(==)>(s: seq<T>, key: T -> K) returns (keys: seq<K>, groups: map<K, seq<T>>)
    ensures keys == DistinctKeys(s, key) && groups == GroupMap(s, key)
  {
    keys := [];
    groups := map[];
    var i := 0;
    while i < |s|
      invariant 0 <= i <= |s|
      invariant keys == DistinctKeys(s[..i], key) && groups == GroupMap(s[..i], key)
    {
      var x := s[i];
      var k := key(x);
      GroupMapStep(s, key, i);
      ghost var before := groups;
      ghost var pushed := (if k in before then before[k] else []) + [x];
      if k !in groups {
        keys := keys + [k];
        groups := groups[k := []];
      }
      groups := groups[k := groups[k] + [x]];
      assert groups == before[k := pushed];
      i := i + 1;
    }
    assert s[..i] == s;
  }

  /** The positions in `s` of the elements whose key is `k`, in increasing
      order. */
  function Positions<T, K(==)>(s: seq<T>, key: T -> K, k: K): (idx: seq<nat>)
    ensures forall p | 0 <= p < |idx| :: idx[p] < |s|
  {
    if |s| == 0 then []
    else Positions(s[..|s| - 1], key, k) + (if key(s[|s| - 1]) == k then [|s| - 1] else [])
  }

  lemma {:induction false} PositionsIncrease<T, K>(s: seq<T>, key: T -> K, k: K)
    ensures forall p, q | 0 <= p < q < |Positions(s, key, k)| :: Positions(s, key, k)[p] < Positions(s, key, k)[q]
  {
    if |s| > 0 {
      PositionsIncrease(s[..|s| - 1], key, k);
    }
  }

  /** The positions hold, one for one, the elements `SelectKey` picks. */
  lemma {:induction false} PositionsPick<T, K>(s: seq<T>, key: T -> K, k: K)
    ensures |Positions(s, key, k)| == |SelectKey(s, key, k)|
    ensures forall p | 0 <= p < |Positions(s, key, k)| :: s[Positions(s, key, k)[p]] == SelectKey(s, key, k)[p]
  {
    if |s| > 0 {
      var init := s[..|s| - 1];
      var x := s[|s| - 1];
      assert s == init + [x];
      PositionsPick(init, key, k);
      SelectKeySnoc(init, key, k, x);
      var rest := Positions(init, key, k);
      forall p | 0 <= p < |rest| ensures s[rest[p]] == init[rest[p]] {
      }
    }
  }

  /** Every element whose key is `k` has its position listed. */
  lemma {:induction false} PositionsComplete<T, K>(s: seq<T>, key: T -> K, k: K, j: nat)
    requires j < |s| && key(s[j]) == k
    ensures j in Positions(s, key, k)
  {
    var init := s[..|s| - 1];
    if j < |init| {
      assert init[j] == s[j];
      PositionsComplete(init, key, k, j);
    }
  }

  /** A filter is the selection of the elements whose test gives `true`. */
  lemma {:induction false} WhereIsSelectKey<T>(s: seq<T>, keep: T -> bool)
    ensures Where(s, keep) == SelectKey(s, keep, true)
  {
    if |s| > 0 {
      WhereIsSelectKey(s[1..], keep);
      assert s == [s[0]] + s[1..];
      SelectKeyCons(s[0], s[1..], keep, true);
    }
  }

  /** `filter` keeps the input order: its result is read off `s` at
      increasing positions, and those are exactly the positions whose
      element passes the test. */
  lemma WhereInOrder<T>(s: seq<T>, keep: T -> bool) returns (idx: seq<nat>)
    ensures |idx| == |Where(s, keep)|
    ensures forall p | 0 <= p < |idx| :: idx[p] < |s| && s[idx[p]] == Where(s, keep)[p]
    ensures forall p, q | 0 <= p < q < |idx| :: idx[p] < idx[q]
    ensures forall j | 0 <= j < |s| && keep(s[j]) :: j in idx
  {
    WhereIsSelectKey(s, keep);
    idx := Positions(s, keep, true);
    PositionsIncrease(s, keep, true);
    PositionsPick(s, keep, true);
    forall j | 0 <= j < |s| && keep(s[j]) ensures j in idx {
      PositionsComplete(s, keep, true, j);
    }
  }

  /** A key with the elements that have it. */
  datatype Group<K, T> = Group(heading: K, items: seq<T>)

  /** The groups for the keys `ks`, in that order: `Object.entries` of the
      dictionary `reduce` builds when `ks` are its keys, and
      `ks.map(k => ({k, items: s.filter(x => key(x) === k)}))` in general. */
  function Groups<T, K(==)>(s: seq<T>, key: T -> K, ks: seq<K>): (gs: seq<Group<K, T>>)
    ensures |gs| == |ks|
  {
    if |ks| == 0 then [] else [Group(ks[0], SelectKey(s, key, ks[0]))] + Groups(s, key, ks[1..])
  }

  lemma {:induction false} GroupsAt<T, K>(s: seq<T>, key: T -> K, ks: seq<K>, i: nat)
    requires i < |ks|
    ensures Groups(s, key, ks)[i] == Group(ks[i], SelectKey(s, key, ks[i]))
  {
    if i > 0 {
      GroupsAt(s, key, ks[1..], i - 1);
    }
  }

  lemma {:induction false} GroupsSnoc<T, K>(s: seq<T>, key: T -> K, ks: seq<K>, k: K)
    ensures Groups(s, key, ks + [k]) == Groups(s, key, ks) + [Group(k, SelectKey(s, key, k))]
  {
    if |ks| == 0 {
      assert ks + [k] == [k];
    } else {
      assert (ks + [k])[0] == ks[0] && (ks + [k])[1..] == ks[1..] + [k];
      GroupsSnoc(s, key, ks[1..], k);
    }
  }

  function GroupLength<K, T>(g: Group<K, T>): nat { |g.items| }

  /** The groups hold as many elements as `GroupSizes` counts. */
  lemma {:induction false} GroupsTotal<T, K>(s: seq<T>, key: T -> K, ks: seq<K>)
    ensures SumOf(Groups(s, key, ks), GroupLength) == GroupSizes(s, key, ks)
  {
    if |ks| > 0 {
      var gs := Groups(s, key, ks);
      assert gs[1..] == Groups(s, key, ks[1..]);
      GroupsTotal(s, key, ks[1..]);
    }
  }

  /** Only a key in `ks` has a group, and then exactly one. */
  lemma GroupsFind<T, K>(s: seq<T>, key: T -> K, ks: seq<K>, k: K) returns (i: nat)
    requires k in ks
    ensures i < |ks| && Groups(s, key, ks)[i].heading == k
  {
    i :| 0 <= i < |ks| && ks[i] == k;
    GroupsAt(s, key, ks, i);
  }

  // ---------------------------------------------------------------------
  // Stable sort by an integer key

  predicate SortedBy<T>(s: seq<T>, key: T -> int) {
    forall i, j | 0 <= i < j < |s| :: key(s[i]) <= key(s[j])
  }

  /** Puts `x` in front of the first element whose key is not smaller. */
  function Insert<T>(x: T, s: seq<T>, key: T -> int): (r: seq<T>)
    ensures |r| == |s| + 1
    ensures multiset(r) == multiset(s) + multiset{x}
  {
    if |s| == 0 then [x]
    else if key(x) <= key(s[0]) then [x] + s
    else
      assert s == [s[0]] + s[1..];
      [s[0]] + Insert(x, s[1..], key)
  }

  lemma {:induction false} InsertSorted<T>(x: T, s: seq<T>, key: T -> int)
    requires SortedBy(s, key)
    ensures SortedBy(Insert(x, s, key), key)
  {
    if |s| > 0 && key(x) > key(s[0]) {
      var t := Insert(x, s[1..], key);
      InsertSorted(x, s[1..], key);
      forall y | y in t ensures key(s[0]) <= key(y) {
        assert y in multiset(t);
        if y != x {
          assert y in multiset(s[1..]);
        }
      }
      assert Insert(x, s, key) == [s[0]] + t;
    }
  }

  /** Insertion sort: ascending by `key`, ties in input order. */
  function SortBy<T>(s: seq<T>, key: T -> int): (r: seq<T>)
    ensures |r| == |s|
    ensures multiset(r) == multiset(s)
    ensures SortedBy(r, key)
  {
    if |s| == 0 then []
    else
      assert s == [s[0]] + s[1..];
      var t := SortBy(s[1..], key);
      InsertSorted(s[0], t, key);
      Insert(s[0], t, key)
  }

  /** The sum of `f` over a sequence. */
  function SumOf<T>(s: seq<T>, f: T -> nat): nat {
    if |s| == 0 then 0 else f(s[0]) + SumOf(s[1..], f)
  }

  lemma {:induction false} SumOfInsert<T>(x: T, s: seq<T>, key: T -> int, f: T -> nat)
    ensures SumOf(Insert(x, s, key), f) == f(x) + SumOf(s, f)
  {
    if |s| > 0 && key(x) > key(s[0]) {
      var r := [s[0]] + Insert(x, s[1..], key);
      assert r[0] == s[0] && r[1..] == Insert(x, s[1..], key);
      SumOfInsert(x, s[1..], key, f);
    } else if |s| > 0 {
      var r := [x] + s;
      assert r[0] == x && r[1..] == s;
    }
  }

  /** Sorting keeps every sum. */
  lemma {:induction false} SumOfSortBy<T>(s: seq<T>, key: T -> int, f: T -> nat)
    ensures SumOf(SortBy(s, key), f) == SumOf(s, f)
  {
    if |s| > 0 {
      SumOfSortBy(s[1..], key, f);
      SumOfInsert(s[0], SortBy(s[1..], key), key, f);
    }
  }

  /** Sorting neither adds nor drops an element. */
  lemma SortByMembers<T>(s: seq<T>, key: T -> int, x: T)
    ensures x in SortBy(s, key) <==> x in s
  {
    assert x in SortBy(s, key) <==> x in multiset(SortBy(s, key));
  }

  /** An element with a larger key is put after the first one. */
  lemma InsertPast<T>(x: T, t: seq<T>, key: T -> int)
    requires |t| > 0 && key(x) > key(t[0])
    ensures Insert(x, t, key) == [t[0]] + Insert(x, t[1..], key)
  {
  }

  lemma {:induction false} InsertSelectKey<T>(x: T, t: seq<T>, key: T -> int, v: int)
    ensures SelectKey(Insert(x, t, key), key, v) == (if key(x) == v then [x] else []) + SelectKey(t, key, v)
  {
    if |t| == 0 {
      SelectKeyCons(x, [], key, v);
    } else if key(x) <= key(t[0]) {
      SelectKeyCons(x, t, key, v);
    } else {
      var tail := Insert(x, t[1..], key);
      var rest := SelectKey(t[1..], key, v);
      InsertPast(x, t, key);
      InsertSelectKey(x, t[1..], key, v);
      SelectKeyCons(t[0], tail, key, v);
      SelectKeyCons(t[0], t[1..], key, v);
      assert [t[0]] + t[1..] == t;
      if key(x) == v {
        // t[0] has a smaller key, so it is not selected
        assert SelectKey(tail, key, v) == [x] + rest;
        assert SelectKey(t, key, v) == [] + rest;
      } else if key(t[0]) == v {
        assert SelectKey(tail, key, v) == [] + rest;
        assert [] + rest == rest;
      } else {
        assert SelectKey(tail, key, v) == [] + rest;
        assert [] + rest == rest;
      }
    }
  }

  /** The sort is stable: the elements that share a key keep their relative
      order. */
  lemma {:induction false} SortStable<T>(s: seq<T>, key: T -> int, v: int)
    ensures SelectKey(SortBy(s, key), key, v) == SelectKey(s, key, v)
  {
    if |s| > 0 {
      SortStable(s[1..], key, v);
      InsertSelectKey(s[0], SortBy(s[1..], key), key, v);
    }
  }

  /** A sorted sequence split anywhere: the halves make up the whole and the
      front is no larger than the back. */
  lemma SortedSplit<T>(t: seq<T>, key: T -> int, n: nat)
    requires n <= |t| && SortedBy(t, key)
    ensures multiset(t[..n]) + multiset(t[n..]) == multiset(t)
    ensures forall i, j | 0 <= i < n <= j < |t| :: key(t[i]) <= key(t[j])
  {
    assert t[..n] + t[n..] == t;
  }

  /** `LIMIT n` after `ORDER BY`: the first `n` rows of the sorted table are
      the `n` smallest, and together with the rows left out they are the
      whole table. */
  lemma SortedPrefixSmallest<T>(s: seq<T>, key: T -> int, n: nat)
    requires n <= |s|
    ensures multiset(SortBy(s, key)[..n]) + multiset(SortBy(s, key)[n..]) == multiset(s)
    ensures forall i, j | 0 <= i < n <= j < |s| :: key(SortBy(s, key)[i]) <= key(SortBy(s, key)[j])
  {
    SortedSplit(SortBy(s, key), key, n);
  }

  // ---------------------------------------------------------------------
  // Distinct sequences and their multisets

  lemma {:induction false} DistinctCounts<K>(ks: seq<K>, v: K)
    requires Distinct(ks)
    ensures multiset(ks)[v] <= 1
  {
    if |ks| > 0 {
      assert ks == [ks[0]] + ks[1..];
      DistinctCounts(ks[1..], v);
      if ks[0] == v {
        assert v !in ks[1..];
      }
    }
  }

  /** A rearrangement of a sequence without repetitions has none either. */
  lemma PermutationOfDistinct<K>(ks: seq<K>, t: seq<K>)
    requires Distinct(ks) && multiset(t) == multiset(ks)
    ensures Distinct(t)
  {
    forall i, j | 0 <= i < j < |t| ensures t[i] != t[j] {
      if t[i] == t[j] {
        assert t == t[..j] + t[j..];
        assert t[i] in multiset(t[..j]);
        assert t[j] in multiset(t[j..]);
        assert multiset(t)[t[i]] == multiset(t[..j])[t[i]] + multiset(t[j..])[t[i]];
        DistinctCounts(ks, t[i]);
      }
    }
  }
}
