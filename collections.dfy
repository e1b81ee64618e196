/** The dictionary and list idioms the scripts share: a dict that remembers the first
    element seen for each key, defaultdict(list) grouping, and sorted(..., key=...). */
module Collections {
  import opened Wrappers

  /** The keys that occur in xs. */
  function Keys<T, K(==)>(xs: seq<T>, key: T -> K): set<K> {
    set i | 0 <= i < |xs| :: key(xs[i])
  }

  /** A prefix one longer is the prefix and the next element. */
  lemma TakeSnoc<T>(xs: seq<T>, i: nat)
    requires i < |xs|
    ensures xs[..i + 1] == xs[..i] + [xs[i]]
  {
  }

  lemma KeysSnoc<T, K>(xs: seq<T>, x: T, key: T -> K)
    ensures Keys(xs + [x], key) == Keys(xs, key) + {key(x)}
  {
    var ys := xs + [x];
    forall k | k in Keys(ys, key) ensures k in Keys(xs, key) + {key(x)} {
      var i :| 0 <= i < |ys| && key(ys[i]) == k;
      if i < |xs| { assert ys[i] == xs[i]; }
    }
    forall k | k in Keys(xs, key) ensures k in Keys(ys, key) {
      var i :| 0 <= i < |xs| && key(xs[i]) == k;
      assert ys[i] == xs[i];
    }
    assert key(ys[|xs|]) == key(x);
  }

  /** The index of the first element of xs with key k. */
  function FirstIndex<T, K(==)>(xs: seq<T>, key: T -> K, k: K): (i: nat)
    requires k in Keys(xs, key)
    ensures i < |xs| && key(xs[i]) == k
    ensures forall j :: 0 <= j < i ==> key(xs[j]) != k
    decreases |xs|
  {
    var init := xs[..|xs| - 1];
    KeysSnoc(init, xs[|xs| - 1], key);
    assert xs == init + [xs[|xs| - 1]];
    if k in Keys(init, key) then
      var i := FirstIndex(init, key, k);
      assert xs[i] == init[i];
      i
    else
      assert forall j :: 0 <= j < |init| ==> key(xs[j]) != k by {
        forall j | 0 <= j < |init| ensures key(xs[j]) != k {
          assert xs[j] == init[j];
        }
      }
      |xs| - 1
  }

  /** list.index(x): the position of the first element equal to x. */
  function IndexOf<T(==)>(xs: seq<T>, x: T): (i: nat)
    requires x in xs
    ensures i < |xs| && xs[i] == x
    ensures forall j :: 0 <= j < i ==> xs[j] != x
    decreases |xs|
  {
    if xs[0] == x then 0
    else
      assert x in xs[1..] by { var k :| 0 <= k < |xs| && xs[k] == x; assert xs[1..][k - 1] == x; }
      1 + IndexOf(xs[1..], x)
  }

  lemma KeysMember<T, K>(xs: seq<T>, key: T -> K, j: int)
    requires 0 <= j < |xs|
    ensures key(xs[j]) in Keys(xs, key)
  {
  }

  /** The first index of a key that occurs in a prefix is the same in the whole list. */
  lemma FirstIndexPrefix<T, K>(xs: seq<T>, n: nat, key: T -> K, k: K)
    requires n <= |xs| && k in Keys(xs[..n], key)
    ensures k in Keys(xs, key)
    ensures FirstIndex(xs[..n], key, k) == FirstIndex(xs, key, k)
  {
    var i0 := FirstIndex(xs[..n], key, k);
    assert xs[..n][i0] == xs[i0];
    KeysMember(xs, key, i0);
    var i1 := FirstIndex(xs, key, k);
    assert i1 <= i0;
    assert xs[..n][i1] == xs[i1];
  }

  /** The elements that first introduce each key, in first-seen order: what a loop
      `if key(x) not in d: d[key(x)] = create(x)` creates. */
  function DedupBy<T, K(==)>(xs: seq<T>, key: T -> K): seq<T>
    decreases |xs|
  {
    if xs == [] then []
    else
      var init := xs[..|xs| - 1];
      var last := xs[|xs| - 1];
      if key(last) in Keys(init, key) then DedupBy(init, key) else DedupBy(init, key) + [last]
  }

  lemma DedupBySnoc<T, K>(xs: seq<T>, x: T, key: T -> K)
    ensures DedupBy(xs + [x], key) ==
            if key(x) in Keys(xs, key) then DedupBy(xs, key) else DedupBy(xs, key) + [x]
  {
    assert (xs + [x])[..|xs|] == xs;
  }

  /** Every key of xs is created, and nothing else. */
  lemma {:induction false} DedupByKeys<T, K>(xs: seq<T>, key: T -> K)
    ensures Keys(DedupBy(xs, key), key) == Keys(xs, key)
    decreases |xs|
  {
    if xs != [] {
      var init := xs[..|xs| - 1];
      var last := xs[|xs| - 1];
      assert xs == init + [last];
      DedupByKeys(init, key);
      KeysSnoc(init, last, key);
      if key(last) !in Keys(init, key) {
        KeysSnoc(DedupBy(init, key), last, key);
      }
    }
  }

  /** Each key is created exactly once, by the first element carrying it, and the
      creations follow the order in which the keys first occur. */
  lemma {:induction false} DedupByFirstSeen<T, K>(xs: seq<T>, key: T -> K)
    ensures forall i :: 0 <= i < |DedupBy(xs, key)| ==>
              var d := DedupBy(xs, key);
              key(d[i]) in Keys(xs, key) && d[i] == xs[FirstIndex(xs, key, key(d[i]))]
    ensures forall i, j :: 0 <= i < j < |DedupBy(xs, key)| ==>
              var d := DedupBy(xs, key);
              key(d[i]) in Keys(xs, key) && key(d[j]) in Keys(xs, key) &&
              FirstIndex(xs, key, key(d[i])) < FirstIndex(xs, key, key(d[j]))
    decreases |xs|
  {
    if xs != [] {
      var init := xs[..|xs| - 1];
      var last := xs[|xs| - 1];
      assert xs == init + [last];
      DedupByFirstSeen(init, key);
      DedupByKeys(init, key);
      KeysSnoc(init, last, key);
      var d0 := DedupBy(init, key);
      var d := DedupBy(xs, key);
      forall i | 0 <= i < |d0|
        ensures key(d0[i]) in Keys(init, key)
        ensures FirstIndex(xs, key, key(d0[i])) == FirstIndex(init, key, key(d0[i]))
      {
        assert key(d0[i]) in Keys(d0, key);
      }
      if key(last) !in Keys(init, key) {
        assert d == d0 + [last];
        assert FirstIndex(xs, key, key(last)) == |init|;
        forall i | 0 <= i < |d0| ensures FirstIndex(xs, key, key(d0[i])) < |init| { }
      }
    }
  }

  /** The keys of xs in the order they first occur. */
  function FirstSeenKeys<T, K(==)>(xs: seq<T>, key: T -> K): seq<K> {
    var d := DedupBy(xs, key);
    seq(|d|, j requires 0 <= j < |d| => key(d[j]))
  }

  /** Every key occurs once, the keys are exactly those of xs, and they are ordered by
      their first occurrence. */
  lemma FirstSeenKeysProperties<T, K>(xs: seq<T>, key: T -> K)
    ensures forall i, j :: 0 <= i < j < |FirstSeenKeys(xs, key)| ==>
              FirstSeenKeys(xs, key)[i] != FirstSeenKeys(xs, key)[j]
    ensures forall k :: k in FirstSeenKeys(xs, key) ==> k in Keys(xs, key)
    ensures forall k :: k in Keys(xs, key) ==> k in FirstSeenKeys(xs, key)
    ensures forall i, j :: 0 <= i < j < |FirstSeenKeys(xs, key)| ==>
              FirstSeenKeys(xs, key)[i] in Keys(xs, key) && FirstSeenKeys(xs, key)[j] in Keys(xs, key) &&
              FirstIndex(xs, key, FirstSeenKeys(xs, key)[i]) < FirstIndex(xs, key, FirstSeenKeys(xs, key)[j])
  {
    var d := DedupBy(xs, key);
    var ks := FirstSeenKeys(xs, key);
    DedupByFirstSeen(xs, key);
    forall k | k in ks ensures k in Keys(xs, key) {
      var j :| 0 <= j < |ks| && ks[j] == k;
    }
    forall k | k in Keys(xs, key) ensures k in ks {
      assert k in Keys(d, key) by {
        DedupByKeys(xs, key);
      }
      var j :| 0 <= j < |d| && key(d[j]) == k;
      assert ks[j] == k;
    }
  }

  /** The elements of xs with key k, in their original order. */
  function Filter<T, K(==)>(xs: seq<T>, key: T -> K, k: K): (r: seq<T>)
    ensures |r| <= |xs|
    decreases |xs|
  {
    if xs == [] then []
    else
      var init := xs[..|xs| - 1];
      var last := xs[|xs| - 1];
      if key(last) == k then Filter(init, key, k) + [last] else Filter(init, key, k)
  }

  lemma FilterSnoc<T, K>(xs: seq<T>, x: T, key: T -> K, k: K)
    ensures Filter(xs + [x], key, k) ==
            if key(x) == k then Filter(xs, key, k) + [x] else Filter(xs, key, k)
  {
    assert (xs + [x])[..|xs|] == xs;
  }

  /** Filter keeps exactly the elements with key k. */
  lemma {:induction false} FilterMembers<T, K>(xs: seq<T>, key: T -> K, k: K)
    ensures forall x :: x in Filter(xs, key, k) ==> x in xs && key(x) == k
    ensures forall x :: x in xs && key(x) == k ==> x in Filter(xs, key, k)
    decreases |xs|
  {
    if xs != [] {
      var init := xs[..|xs| - 1];
      assert xs == init + [xs[|xs| - 1]];
      FilterMembers(init, key, k);
    }
  }

  lemma {:induction false} FilterAbsent<T, K>(xs: seq<T>, key: T -> K, k: K)
    requires k !in Keys(xs, key)
    ensures Filter(xs, key, k) == []
    decreases |xs|
  {
    if xs != [] {
      var init := xs[..|xs| - 1];
      KeysSnoc(init, xs[|xs| - 1], key);
      assert xs == init + [xs[|xs| - 1]];
      FilterAbsent(init, key, k);
    }
  }

  /** A group of a defaultdict(list): a key and the elements appended under it. */
  datatype Group<K, T> = Group(key: K, members: seq<T>)

  /** `for x in xs: d[key(x)].append(x)` on a defaultdict(list): one group per key in
      first-seen order, each holding the elements with that key in list order. */
  function Grouped<T, K(==)>(xs: seq<T>, key: T -> K): seq<Group<K, T>> {
    var d := DedupBy(xs, key);
    seq(|d|, j requires 0 <= j < |d| => Group(key(d[j]), Filter(xs, key, key(d[j]))))
  }

  /** Appending one element extends its key's group, or opens a new last group. */
  lemma GroupedSnoc<T, K>(xs: seq<T>, x: T, key: T -> K)
    ensures var g := Grouped(xs, key);
            var g' := Grouped(xs + [x], key);
            if key(x) in Keys(xs, key) then
              |g'| == |g| &&
              forall j :: 0 <= j < |g| ==>
                g'[j] == if g[j].key == key(x) then Group(g[j].key, g[j].members + [x]) else g[j]
            else
              g' == g + [Group(key(x), [x])]
  {
    DedupBySnoc(xs, x, key);
    var d := DedupBy(xs, key);
    forall j | 0 <= j < |d|
      ensures Filter(xs + [x], key, key(d[j])) ==
              if key(d[j]) == key(x) then Filter(xs, key, key(d[j])) + [x] else Filter(xs, key, key(d[j]))
    {
      FilterSnoc(xs, x, key, key(d[j]));
    }
    if key(x) !in Keys(xs, key) {
      FilterSnoc(xs, x, key, key(x));
      FilterAbsent(xs, key, key(x));
      DedupByKeys(xs, key);
      forall j | 0 <= j < |d| ensures key(d[j]) != key(x) {
        assert key(d[j]) in Keys(d, key);
      }
      var g := Grouped(xs, key);
      var g' := Grouped(xs + [x], key);
      assert |g'| == |g| + 1;
      forall j | 0 <= j < |g'| ensures g'[j] == (g + [Group(key(x), [x])])[j] {
        if j < |g| {
          assert g'[j] == Group(key(d[j]), Filter(xs + [x], key, key(d[j])));
        }
      }
    }
  }

  /** The group keys are the keys of xs, each once, in first-seen order. */
  lemma GroupedKeys<T, K>(xs: seq<T>, key: T -> K)
    ensures |Grouped(xs, key)| == |FirstSeenKeys(xs, key)|
    ensures forall j :: 0 <= j < |Grouped(xs, key)| ==> Grouped(xs, key)[j].key == FirstSeenKeys(xs, key)[j]
    ensures forall i, j :: 0 <= i < j < |Grouped(xs, key)| ==>
              Grouped(xs, key)[i].key != Grouped(xs, key)[j].key
  {
    FirstSeenKeysProperties(xs, key);
  }

  /** Every key of xs has a group, and every group's key is a key of xs. */
  lemma GroupedCovers<T, K>(xs: seq<T>, key: T -> K)
    ensures forall k :: k in Keys(xs, key) ==> exists j :: 0 <= j < |Grouped(xs, key)| && Grouped(xs, key)[j].key == k
    ensures forall j :: 0 <= j < |Grouped(xs, key)| ==> Grouped(xs, key)[j].key in Keys(xs, key)
  {
    var g := Grouped(xs, key);
    var ks := FirstSeenKeys(xs, key);
    GroupedKeys(xs, key);
    FirstSeenKeysProperties(xs, key);
    forall k | k in Keys(xs, key) ensures exists j :: 0 <= j < |g| && g[j].key == k {
      var j :| 0 <= j < |ks| && ks[j] == k;
      assert g[j].key == k;
    }
    forall j | 0 <= j < |g| ensures g[j].key in Keys(xs, key) {
      assert ks[j] in ks;
    }
  }

  /** A group holds exactly the elements with its key, so no group is empty. */
  lemma GroupedMembers<T, K>(xs: seq<T>, key: T -> K)
    ensures forall j :: 0 <= j < |Grouped(xs, key)| ==> Grouped(xs, key)[j].members != []
    ensures forall j, x :: 0 <= j < |Grouped(xs, key)| && x in Grouped(xs, key)[j].members ==>
              x in xs && key(x) == Grouped(xs, key)[j].key
    ensures forall j, x :: 0 <= j < |Grouped(xs, key)| && x in xs && key(x) == Grouped(xs, key)[j].key ==>
              x in Grouped(xs, key)[j].members
  {
    var g := Grouped(xs, key);
    GroupedCovers(xs, key);
    forall j | 0 <= j < |g|
      ensures forall x :: x in g[j].members ==> x in xs && key(x) == g[j].key
      ensures forall x :: x in xs && key(x) == g[j].key ==> x in g[j].members
      ensures g[j].members != []
    {
      var k := g[j].key;
      FilterMembers(xs, key, k);
      var i := FirstIndex(xs, key, k);
      assert xs[i] in g[j].members;
    }
  }

  /** The number of elements held by all the groups together. */
  function MemberCount<K, T>(groups: seq<Group<K, T>>): nat {
    if groups == [] then 0 else MemberCount(groups[..|groups| - 1]) + |groups[|groups| - 1].members|
  }

  lemma MemberCountSnoc<K, T>(groups: seq<Group<K, T>>, g: Group<K, T>)
    ensures MemberCount(groups + [g]) == MemberCount(groups) + |g.members|
  {
    assert (groups + [g])[..|groups|] == groups;
  }

  /** Growing one group by one element grows the count by one. */
  lemma {:induction false} MemberCountGrow<K, T>(groups: seq<Group<K, T>>, groups': seq<Group<K, T>>, j0: nat)
    requires |groups'| == |groups| && j0 < |groups|
    requires forall j :: 0 <= j < |groups| && j != j0 ==> groups'[j] == groups[j]
    requires |groups'[j0].members| == |groups[j0].members| + 1
    ensures MemberCount(groups') == MemberCount(groups) + 1
    decreases |groups|
  {
    var n := |groups|;
    if j0 == n - 1 {
      assert groups'[..n - 1] == groups[..n - 1];
    } else {
      MemberCountGrow(groups[..n - 1], groups'[..n - 1], j0);
    }
  }

  /** One more element grows the groups' count by one. */
  lemma GroupedGrows<T, K>(xs: seq<T>, x: T, key: T -> K)
    ensures MemberCount(Grouped(xs + [x], key)) == MemberCount(Grouped(xs, key)) + 1
  {
    GroupedSnoc(xs, x, key);
    var g := Grouped(xs, key);
    if key(x) in Keys(xs, key) {
      GroupedCovers(xs, key);
      GroupedKeys(xs, key);
      var j0 :| 0 <= j0 < |g| && g[j0].key == key(x);
      MemberCountGrow(g, Grouped(xs + [x], key), j0);
    } else {
      MemberCountSnoc(g, Group(key(x), [x]));
    }
  }

  /** Grouping loses and duplicates nothing: the groups hold |xs| elements in all. */
  lemma {:induction false} GroupedCount<T, K>(xs: seq<T>, key: T -> K)
    ensures MemberCount(Grouped(xs, key)) == |xs|
    decreases |xs|
  {
    if xs != [] {
      var init, x := xs[..|xs| - 1], xs[|xs| - 1];
      assert xs == init + [x];
      GroupedCount(init, key);
      GroupedGrows(init, x, key);
    }
  }

  /** The groups' members, one group after another. */
  function Flattened<K, T>(groups: seq<Group<K, T>>): seq<T> {
    if groups == [] then [] else Flattened(groups[..|groups| - 1]) + groups[|groups| - 1].members
  }

  lemma FlattenedSnoc<K, T>(groups: seq<Group<K, T>>, g: Group<K, T>)
    ensures Flattened(groups + [g]) == Flattened(groups) + g.members
  {
    assert (groups + [g])[..|groups|] == groups;
  }

  /** Appending x to one group adds x to the flattened members and changes nothing else. */
  lemma {:induction false} FlattenedGrow<K, T>(groups: seq<Group<K, T>>, groups': seq<Group<K, T>>, j0: nat, x: T)
    requires |groups'| == |groups| && j0 < |groups|
    requires forall j :: 0 <= j < |groups| && j != j0 ==> groups'[j] == groups[j]
    requires groups'[j0].members == groups[j0].members + [x]
    ensures multiset(Flattened(groups')) == multiset(Flattened(groups)) + multiset{x}
    decreases |groups|
  {
    var n := |groups|;
    if j0 == n - 1 {
      assert groups'[..n - 1] == groups[..n - 1];
    } else {
      FlattenedGrow(groups[..n - 1], groups'[..n - 1], j0, x);
      assert groups'[n - 1] == groups[n - 1];
    }
  }

  /** One more element adds exactly that element to the grouped members. */
  lemma GroupedFlattenedSnoc<T, K>(xs: seq<T>, x: T, key: T -> K)
    ensures multiset(Flattened(Grouped(xs + [x], key))) == multiset(Flattened(Grouped(xs, key))) + multiset{x}
  {
    GroupedSnoc(xs, x, key);
    var g := Grouped(xs, key);
    if key(x) in Keys(xs, key) {
      GroupedCovers(xs, key);
      var j0 :| 0 <= j0 < |g| && g[j0].key == key(x);
      GroupedKeys(xs, key);
      FlattenedGrow(g, Grouped(xs + [x], key), j0, x);
    } else {
      FlattenedSnoc(g, Group(key(x), [x]));
    }
  }

  /** Grouping only reorders: the groups read one after another are a permutation of xs. */
  lemma {:induction false} GroupedPermutes<T, K>(xs: seq<T>, key: T -> K)
    ensures multiset(Flattened(Grouped(xs, key))) == multiset(xs)
    decreases |xs|
  {
    if xs != [] {
      var init, x := xs[..|xs| - 1], xs[|xs| - 1];
      assert xs == init + [x];
      GroupedPermutes(init, key);
      GroupedFlattenedSnoc(init, x, key);
    }
  }

  /** defaultdict(list) grouping, as the scripts' `for step in steps: d[key].append(step)`. */
  method GroupBy<T, K(==)>(xs: seq<T>, key: T -> K) returns (groups: seq<Group<K, T>>)
    ensures groups == Grouped(xs, key)
  {
    groups := [];
    var index: map<K, nat> := map[];
    for i := 0 to |xs|
      invariant groups == Grouped(xs[..i], key)
      invariant index.Keys == Keys(xs[..i], key)
      invariant forall k :: k in index ==> index[k] < |groups| && groups[index[k]].key == k
    {
      var x := xs[i];
      assert xs[..i + 1] == xs[..i] + [x];
      GroupedSnoc(xs[..i], x, key);
      GroupedKeys(xs[..i], key);
      KeysSnoc(xs[..i], x, key);
      var k := key(x);
      if k in index {
        var g := index[k];
        groups := groups[g := Group(k, groups[g].members + [x])];
      } else {
        index := index[k := |groups|];
        groups := groups + [Group(k, [x])];
      }
    }
    assert xs[..|xs|] == xs;
  }

  /** Strictly increasing by key. */
  predicate StrictlyAscending<T>(xs: seq<T>, key: T -> int) {
    forall i, j :: 0 <= i < j < |xs| ==> key(xs[i]) < key(xs[j])
  }

  predicate Ascending<T>(xs: seq<T>, key: T -> int) {
    forall i, j :: 0 <= i < j < |xs| ==> key(xs[i]) <= key(xs[j])
  }

  /** Places x after every element whose key is not larger (keeps ties stable). */
  function Insert<T>(s: seq<T>, x: T, key: T -> int): seq<T>
    decreases |s|
  {
    if s == [] || key(s[|s| - 1]) <= key(x) then s + [x]
    else Insert(s[..|s| - 1], x, key) + [s[|s| - 1]]
  }

  /** Python's stable sorted(xs, key=key), by insertion. */
  function SortBy<T>(xs: seq<T>, key: T -> int): seq<T>
    decreases |xs|
  {
    if xs == [] then [] else Insert(SortBy(xs[..|xs| - 1], key), xs[|xs| - 1], key)
  }

  /** Insert adds x to the elements and keeps the rest. */
  lemma {:induction false} InsertPermutes<T>(s: seq<T>, x: T, key: T -> int)
    ensures multiset(Insert(s, x, key)) == multiset(s) + multiset{x}
    decreases |s|
  {
    if s != [] && key(s[|s| - 1]) > key(x) {
      var init := s[..|s| - 1];
      assert s == init + [s[|s| - 1]];
      InsertPermutes(init, x, key);
    }
  }

  /** Insert into an ascending list gives an ascending list. */
  lemma {:induction false} InsertSorted<T>(s: seq<T>, x: T, key: T -> int)
    requires Ascending(s, key)
    ensures Ascending(Insert(s, x, key), key)
    decreases |s|
  {
    if s != [] && key(s[|s| - 1]) > key(x) {
      var init := s[..|s| - 1];
      var last := s[|s| - 1];
      assert s == init + [last];
      InsertSorted(init, x, key);
      InsertPermutes(init, x, key);
      var r := Insert(init, x, key);
      forall i | 0 <= i < |r| ensures key(r[i]) <= key(last) {
        assert r[i] in multiset(r);
        if r[i] != x {
          assert r[i] in multiset(init);
          var k :| 0 <= k < |init| && init[k] == r[i];
          assert s[k] == r[i];
        }
      }
      AscendingSnoc(r, last, key);
    }
  }

  lemma AscendingSnoc<T>(r: seq<T>, last: T, key: T -> int)
    requires Ascending(r, key)
    requires forall i :: 0 <= i < |r| ==> key(r[i]) <= key(last)
    ensures Ascending(r + [last], key)
  {
    var t := r + [last];
    forall i, j | 0 <= i < j < |t| ensures key(t[i]) <= key(t[j]) {
      assert t[i] == r[i];
    }
  }

  /** sorted() returns an ascending permutation of its input. */
  lemma {:induction false} SortByIsSortedPermutation<T>(xs: seq<T>, key: T -> int)
    ensures Ascending(SortBy(xs, key), key)
    ensures multiset(SortBy(xs, key)) == multiset(xs)
    decreases |xs|
  {
    if xs != [] {
      var init := xs[..|xs| - 1];
      assert xs == init + [xs[|xs| - 1]];
      SortByIsSortedPermutation(init, key);
      InsertSorted(SortBy(init, key), xs[|xs| - 1], key);
      InsertPermutes(SortBy(init, key), xs[|xs| - 1], key);
    }
  }

  /** Sorting a list that is already strictly ascending leaves it as it is. */
  lemma {:induction false} SortByAscendingIdentity<T>(xs: seq<T>, key: T -> int)
    requires StrictlyAscending(xs, key)
    ensures SortBy(xs, key) == xs
    decreases |xs|
  {
    if xs != [] {
      var init := xs[..|xs| - 1];
      assert StrictlyAscending(init, key);
      SortByAscendingIdentity(init, key);
      assert xs == init + [xs[|xs| - 1]];
    }
  }

  /** The values of the Some entries, in order: what a loop keeps when it appends only
      the inputs that parse. */
  function Somes<T>(xs: seq<Option<T>>): seq<T>
    decreases |xs|
  {
    if xs == [] then []
    else
      var init := xs[..|xs| - 1];
      match xs[|xs| - 1]
      case None => Somes(init)
      case Some(v) => Somes(init) + [v]
  }

  /** The positions of the Some entries, in order. */
  ghost function SomeIndices<T>(xs: seq<Option<T>>): seq<nat>
    decreases |xs|
  {
    if xs == [] then []
    else
      var init := xs[..|xs| - 1];
      if xs[|xs| - 1].Some? then SomeIndices(init) + [|xs| - 1] else SomeIndices(init)
  }

  lemma SomesSnoc<T>(xs: seq<Option<T>>, x: Option<T>)
    ensures Somes(xs + [x]) == if x.Some? then Somes(xs) + [x.value] else Somes(xs)
  {
    assert (xs + [x])[..|xs|] == xs;
  }

  /** Every kept value comes from its own position, and the positions ascend. */
  lemma {:induction false} SomesOrigin<T>(xs: seq<Option<T>>)
    ensures |SomeIndices(xs)| == |Somes(xs)|
    ensures forall j :: 0 <= j < |SomeIndices(xs)| ==>
              SomeIndices(xs)[j] < |xs| && xs[SomeIndices(xs)[j]] == Some(Somes(xs)[j])
    ensures forall i, j :: 0 <= i < j < |SomeIndices(xs)| ==> SomeIndices(xs)[i] < SomeIndices(xs)[j]
    decreases |xs|
  {
    if xs != [] {
      var n := |xs|;
      var init := xs[..n - 1];
      SomesOrigin(init);
      var idx := SomeIndices(init);
      var vs := Somes(init);
      if xs[n - 1].Some? {
        var idx' := idx + [n - 1];
        var vs' := vs + [xs[n - 1].value];
        assert SomeIndices(xs) == idx' && Somes(xs) == vs';
        forall j | 0 <= j < |idx'| ensures idx'[j] < n && xs[idx'[j]] == Some(vs'[j]) {
          if j < |idx| { assert idx'[j] == idx[j] && vs'[j] == vs[j] && xs[idx[j]] == init[idx[j]]; }
        }
      } else {
        forall j | 0 <= j < |idx| ensures xs[idx[j]] == init[idx[j]] { }
      }
    }
  }

  /** Every Some entry's value is kept. */
  lemma {:induction false} SomesComplete<T>(xs: seq<Option<T>>)
    ensures forall j :: 0 <= j < |xs| && xs[j].Some? ==> xs[j].value in Somes(xs)
    decreases |xs|
  {
    if xs != [] {
      var n := |xs|;
      var init := xs[..n - 1];
      SomesComplete(init);
      assert forall j :: 0 <= j < n - 1 ==> init[j] == xs[j];
    }
  }

  /** When every entry is Some, Somes keeps them all, in place. */
  lemma {:induction false} SomesAllSome<T>(xs: seq<Option<T>>)
    requires forall j :: 0 <= j < |xs| ==> xs[j].Some?
    ensures |Somes(xs)| == |xs| && forall j :: 0 <= j < |xs| ==> Somes(xs)[j] == xs[j].value
    decreases |xs|
  {
    if xs != [] {
      var init := xs[..|xs| - 1];
      SomesAllSome(init);
    }
  }

  /** Keys that count positions from 1 strictly ascend. */
  lemma AscendingByPosition<T>(xs: seq<T>, key: T -> int)
    requires forall j :: 0 <= j < |xs| ==> key(xs[j]) == j + 1
    ensures StrictlyAscending(xs, key)
  {
  }

  lemma StrictlyAscendingSnoc<T>(xs: seq<T>, last: T, key: T -> int)
    requires StrictlyAscending(xs, key)
    requires forall i :: 0 <= i < |xs| ==> key(xs[i]) < key(last)
    ensures StrictlyAscending(xs + [last], key)
  {
    var ys := xs + [last];
    forall i, j | 0 <= i < j < |ys| ensures key(ys[i]) < key(ys[j]) {
      assert ys[i] == xs[i];
    }
  }

  /** Prefix the items of a successful result. */
  function Prepend<T>(front: seq<T>, r: Result<seq<T>>): (r': Result<seq<T>>)
    ensures r.Err? ==> r' == r
    ensures r.Ok? ==> r' == Ok(front + r.value)
  {
    match r
    case Ok(rest) => Ok(front + rest)
    case Err(e) => Err(e)
  }

  lemma PrependEmpty<T>(r: Result<seq<T>>)
    ensures Prepend([], r) == r
  {
    if r.Ok? {
      assert [] + r.value == r.value;
    }
  }

  lemma PrependTwice<T>(a: seq<T>, b: seq<T>, r: Result<seq<T>>)
    ensures Prepend(a, Prepend(b, r)) == Prepend(a + b, r)
  {
    if r.Ok? {
      assert a + (b + r.value) == a + b + r.value;
    }
  }

  // ----- dict assignment in a loop -----

  /** The dict after `d[keys[i]] = vals[i]` for i = 0 .. n-1, in that order. */
  function Assigned<K, V>(d: map<K, V>, keys: seq<K>, vals: seq<V>, n: nat): map<K, V>
    requires n <= |keys| && n <= |vals|
  {
    if n == 0 then d else Assigned(d, keys, vals, n - 1)[keys[n - 1] := vals[n - 1]]
  }

  /** With distinct keys, the first n assignments add exactly keys[..n], key j holds
      value j, and every other key keeps what it held. */
  lemma {:induction false} AssignedLookup<K, V>(d: map<K, V>, keys: seq<K>, vals: seq<V>, n: nat)
    requires n <= |keys| && n <= |vals|
    requires forall i, j :: 0 <= i < j < |keys| ==> keys[i] != keys[j]
    ensures forall k :: k in Assigned(d, keys, vals, n) <==> k in d || k in keys[..n]
    ensures forall j :: 0 <= j < n ==> Assigned(d, keys, vals, n)[keys[j]] == vals[j]
    ensures forall k :: k in d && k !in keys[..n] ==> Assigned(d, keys, vals, n)[k] == d[k]
  {
    if n > 0 {
      AssignedLookup(d, keys, vals, n - 1);
      assert keys[..n] == keys[..n - 1] + [keys[n - 1]];
      forall j | 0 <= j < n - 1 ensures Assigned(d, keys, vals, n)[keys[j]] == vals[j] {
        assert keys[j] != keys[n - 1];
      }
    }
  }

  /** `for key in keys: d[key] = <next answer>`: each value is stored as soon as it is
      read, so when the values run out the loop ends with EndOfInput and the dict keeps
      the keys stored so far. */
  method AssignEach<K, V>(d: map<K, V>, keys: seq<K>, vals: seq<V>) returns (d': map<K, V>, r: Result<()>)
    ensures r == (if |vals| < |keys| then Err(EndOfInput) else Ok(()))
    ensures d' == Assigned(d, keys, vals, if |vals| < |keys| then |vals| else |keys|)
  {
    d' := d;
    for i := 0 to |keys|
      invariant i <= |vals|
      invariant d' == Assigned(d, keys, vals, i)
    {
      if i == |vals| {
        return d', Err(EndOfInput);
      }
      d' := d'[keys[i] := vals[i]];
    }
    r := Ok(());
  }
}
