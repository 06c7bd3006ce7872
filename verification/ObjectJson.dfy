// The items of a JSON object: an array with tombstones.
module ObjectJson {
  // The array only grows at its end; a chained hash table indexes it.

  type Key = string

  // next is the position of the next item of the bucket, -1 at the end of the chain, and -2 in an
  // erased item, whose key and value are gone.
  datatype Item = Item(key: Key, value: int, next: int) {
    predicate Live() { next > -2 }
  }

  type HashCode = Key -> nat

  // hashcode & (size - 1), for a size that is a power of two.
  function Bucket(h: HashCode, size: nat, key: Key): (b: nat)
    requires size > 0
    ensures b < size
  {
    h(key) % size
  }

  // ----- Chains -----

  predicate InBucket(h: HashCode, items: seq<Item>, size: nat, b: nat, i: nat)
    requires size > 0 && i < |items|
  {
    items[i].Live() && Bucket(h, size, items[i].key) == b
  }

  // The first live item of a bucket from a position, or -1.
  function FirstIn(h: HashCode, items: seq<Item>, size: nat, b: nat, from: nat): (r: int)
    requires size > 0
    ensures -1 <= r < |items| && (r >= 0 ==> r >= from && InBucket(h, items, size, b, r))
    ensures forall i: nat :: from <= i < |items| && (r == -1 || i < r) ==> !InBucket(h, items, size, b, i)
    decreases |items| - from
  {
    if from >= |items| then -1
    else if InBucket(h, items, size, b, from) then from
    else FirstIn(h, items, size, b, from + 1)
  }

  // It is determined by those properties.
  lemma FirstInIs(h: HashCode, items: seq<Item>, size: nat, b: nat, from: nat, r: int)
    requires size > 0 && -1 <= r < |items| && (r >= 0 ==> r >= from && InBucket(h, items, size, b, r))
    requires forall i: nat :: from <= i < |items| && (r == -1 || i < r) ==> !InBucket(h, items, size, b, i)
    ensures FirstIn(h, items, size, b, from) == r
  {
    var f := FirstIn(h, items, size, b, from);
    assert f >= 0 ==> InBucket(h, items, size, b, f);
  }

  // How many live items of a bucket there are from a position.
  function CountIn(h: HashCode, items: seq<Item>, size: nat, b: nat, from: nat): nat
    requires size > 0
    decreases |items| - from
  {
    if from >= |items| then 0
    else (if InBucket(h, items, size, b, from) then 1 else 0) + CountIn(h, items, size, b, from + 1)
  }

  lemma {:induction false} CountFirst(h: HashCode, items: seq<Item>, size: nat, b: nat, from: nat)
    requires size > 0
    ensures var p := FirstIn(h, items, size, b, from);
            CountIn(h, items, size, b, from) == if p < 0 then 0 else 1 + CountIn(h, items, size, b, p + 1)
    decreases |items| - from
  {
    if from < |items| && !InBucket(h, items, size, b, from) {
      CountFirst(h, items, size, b, from + 1);
    }
  }

  ghost predicate HeadOk(h: HashCode, items: seq<Item>, hash: seq<int>, b: nat)
    requires b < |hash|
  {
    hash[b] == FirstIn(h, items, |hash|, b, 0)
  }

  ghost predicate NextOk(h: HashCode, items: seq<Item>, size: nat, i: nat)
    requires size > 0 && i < |items|
  {
    items[i].Live() ==> items[i].next == FirstIn(h, items, size, Bucket(h, size, items[i].key), i + 1)
  }

  ghost predicate KeysDistinct(items: seq<Item>) {
    forall i, j :: 0 <= i < j < |items| && items[i].Live() && items[j].Live() ==> items[i].key != items[j].key
  }

  ghost predicate PowerOfTwo(n: nat) { n == 1 || (n > 1 && n % 2 == 0 && PowerOfTwo(n / 2)) }

  // Each bucket's chain goes through its live items in the order of the array, and ends.
  ghost predicate Indexed(h: HashCode, items: seq<Item>, hash: seq<int>) {
    && (hash == [] ==> items == [])
    && (hash != [] ==>
          && PowerOfTwo(|hash|) && (forall b: nat :: b < |hash| ==> HeadOk(h, items, hash, b))
          && forall i: nat :: i < |items| ==> NextOk(h, items, |hash|, i))
    && KeysDistinct(items)
  }

  ghost predicate ForwardAt(items: seq<Item>, i: nat)
    requires i < |items|
  {
    items[i].Live() ==> items[i].next == -1 || i < items[i].next < |items|
  }

  ghost predicate Forward(items: seq<Item>) { forall i: nat :: i < |items| ==> ForwardAt(items, i) }

  lemma IndexedForward(h: HashCode, items: seq<Item>, hash: seq<int>)
    requires hash != [] && Indexed(h, items, hash)
    ensures Forward(items)
  {
    hide FirstIn, KeysDistinct;
    forall i: nat | i < |items| ensures ForwardAt(items, i) {
      assert NextOk(h, items, |hash|, i);
    }
  }

  // The chain a walk from position p follows.
  ghost function Chain(items: seq<Item>, p: int): (c: seq<int>)
    requires Forward(items) && -1 <= p < |items|
    decreases if p < 0 then 0 else 1 + |items| - p
  {
    if p < 0 then []
    else if !items[p].Live() then [p]
    else assert ForwardAt(items, p); [p] + Chain(items, items[p].next)
  }

  // Every live item lies on the chain of its bucket and on no other; erased items lie on none.
  lemma {:induction false} ChainIs(h: HashCode, items: seq<Item>, hash: seq<int>, b: nat, from: nat)
    requires hash != [] && Indexed(h, items, hash) && Forward(items) && b < |hash| && from <= |items|
    ensures var c := Chain(items, FirstIn(h, items, |hash|, b, from));
            && (forall i: nat :: i in c <==> from <= i < |items| && InBucket(h, items, |hash|, b, i))
            && (forall j, k :: 0 <= j < k < |c| ==> c[j] < c[k]) && (forall j :: 0 <= j < |c| ==> c[j] >= from)
    decreases |items| - from
  {
    hide FirstIn, Forward, HeadOk, KeysDistinct, PowerOfTwo;
    var p := FirstIn(h, items, |hash|, b, from);
    if p >= 0 {
      NextOf(h, items, hash, p);
      ChainIs(h, items, hash, b, p + 1);
      ChainStep(items, p);
    } else {
      assert Chain(items, p) == [];
    }
  }

  lemma NextOf(h: HashCode, items: seq<Item>, hash: seq<int>, p: nat)
    requires hash != [] && Indexed(h, items, hash) && p < |items| && items[p].Live()
    ensures items[p].next == FirstIn(h, items, |hash|, Bucket(h, |hash|, items[p].key), p + 1)
  {
    assert NextOk(h, items, |hash|, p);
  }

  lemma ChainStep(items: seq<Item>, p: nat)
    requires Forward(items) && p < |items| && items[p].Live()
    ensures -1 <= items[p].next < |items| && Chain(items, p) == [p] + Chain(items, items[p].next)
  {
    assert ForwardAt(items, p);
  }

  // ----- The insertion-ordered map -----

  type Entry = (Key, int)

  function Entries(items: seq<Item>): seq<Entry> {
    if items == [] then []
    else Entries(items[..|items| - 1]) +
         (if items[|items| - 1].Live() then [(items[|items| - 1].key, items[|items| - 1].value)] else [])
  }

  lemma {:induction false} EntriesConcat(a: seq<Item>, b: seq<Item>)
    ensures Entries(a + b) == Entries(a) + Entries(b)
  {
    if b == [] {
      assert a + b == a;
    } else {
      assert (a + b)[..|a + b| - 1] == a + b[..|b| - 1];
      EntriesConcat(a, b[..|b| - 1]);
    }
  }

  lemma EntriesOne(x: Item)
    ensures Entries([x]) == if x.Live() then [(x.key, x.value)] else []
  {
    assert [x][..0] == [];
  }

  // Items that differ only where both are erased, or in their links.
  ghost predicate SameItems(x: seq<Item>, y: seq<Item>) {
    |x| == |y| && forall i :: 0 <= i < |x| ==> SameItem(x[i], y[i])
  }

  predicate SameItem(x: Item, y: Item) { (x.Live() <==> y.Live()) && (x.Live() ==> y.key == x.key && y.value == x.value) }

  lemma {:induction false} SameEntries(x: seq<Item>, y: seq<Item>)
    requires SameItems(x, y)
    ensures Entries(x) == Entries(y)
  {
    if x != [] {
      assert SameItem(x[|x| - 1], y[|y| - 1]);
      SameEntries(x[..|x| - 1], y[..|y| - 1]);
    }
  }

  lemma SameFirst(h: HashCode, x: seq<Item>, y: seq<Item>, size: nat, b: nat, from: nat)
    requires SameItems(x, y) && size > 0
    ensures FirstIn(h, x, size, b, from) == FirstIn(h, y, size, b, from)
  {
    hide FirstIn;
    var r := FirstIn(h, x, size, b, from);
    assert forall i: nat :: i < |x| ==> SameItem(x[i], y[i]);
    forall i: nat | i < |x| ensures InBucket(h, y, size, b, i) == InBucket(h, x, size, b, i) {
      assert SameItem(x[i], y[i]);
    }
    FirstInIs(h, y, size, b, from, r);
  }

  // ----- What the updates do to the chains -----

  // One more item at the end.
  lemma AppendFirst(h: HashCode, items: seq<Item>, x: Item, size: nat, b: nat, from: nat)
    requires size > 0 && x.Live() && from <= |items|
    ensures FirstIn(h, items + [x], size, b, from) ==
            (var r := FirstIn(h, items, size, b, from);
             if r == -1 && Bucket(h, size, x.key) == b then |items| else r)
  {
    hide FirstIn;
    var r, items' := FirstIn(h, items, size, b, from), items + [x];
    forall i: nat | i < |items| ensures InBucket(h, items', size, b, i) == InBucket(h, items, size, b, i) {
    }
    assert InBucket(h, items', size, b, |items|) == (Bucket(h, size, x.key) == b);
    FirstInIs(h, items', size, b, from, if r == -1 && Bucket(h, size, x.key) == b then |items| else r);
  }

  // One item erased.
  lemma EraseFirst(h: HashCode, items: seq<Item>, items': seq<Item>, p: nat, size: nat, b: nat, from: nat)
    requires size > 0 && p < |items| == |items'| && items[p].Live() && !items'[p].Live()
    requires forall i :: 0 <= i < |items| && i != p ==> SameItem(items[i], items'[i])
    ensures FirstIn(h, items', size, b, from) ==
            (var r := FirstIn(h, items, size, b, from); if r == p then FirstIn(h, items, size, b, p + 1) else r)
  {
    hide FirstIn;
    var r := FirstIn(h, items, size, b, from);
    forall i: nat | i < |items| ensures InBucket(h, items', size, b, i) == (i != p && InBucket(h, items, size, b, i)) {
      assert i != p ==> SameItem(items[i], items'[i]);
    }
    FirstInIs(h, items', size, b, from, if r == p then FirstIn(h, items, size, b, p + 1) else r);
  }

  // A place that holds a position: the head of a bucket, or the link of an item.
  datatype Link = Head(b: nat) | After(i: nat)

  ghost predicate LinkIn(items: seq<Item>, hash: seq<int>, l: Link) {
    match l case Head(b) => b < |hash| case After(i) => i < |items|
  }

  ghost function Target(items: seq<Item>, hash: seq<int>, l: Link): int
    requires LinkIn(items, hash, l)
  {
    match l case Head(b) => hash[b] case After(i) => items[i].next
  }

  ghost function ItemsWith(items: seq<Item>, l: Link, p: int): (r: seq<Item>)
    requires l.After? ==> l.i < |items|
    ensures |r| == |items|
  {
    if l.After? then items[l.i := items[l.i].(next := p)] else items
  }

  ghost function HashWith(hash: seq<int>, l: Link, p: int): (r: seq<int>)
    requires l.Head? ==> l.b < |hash|
    ensures |r| == |hash|
  {
    if l.Head? then hash[l.b := p] else hash
  }

  // The link belongs to bucket b and leads to the first item of the bucket from position q.
  ghost predicate LinkOf(h: HashCode, items: seq<Item>, hash: seq<int>, b: nat, l: Link, q: nat)
    requires hash != []
  {
    && LinkIn(items, hash, l) && b < |hash| && (match l case Head(c) => c == b && q == 0 case After(i) => q == i + 1 && InBucket(h, items, |hash|, b, i))
  }

  lemma TargetIs(h: HashCode, items: seq<Item>, hash: seq<int>, b: nat, l: Link, q: nat)
    requires hash != [] && Indexed(h, items, hash) && LinkOf(h, items, hash, b, l, q)
    ensures Target(items, hash, l) == FirstIn(h, items, |hash|, b, q)
  {
    hide FirstIn, KeysDistinct, PowerOfTwo;
    match l {
      case Head(c) => assert HeadOk(h, items, hash, c);
      case After(i) => assert NextOk(h, items, |hash|, i);
    }
  }

  // Appending an item behind the last of its bucket.
  lemma AppendIndexed(h: HashCode, items: seq<Item>, hash: seq<int>, l: Link, q: nat, x: Item)
    requires hash != [] && Indexed(h, items, hash) && x.next == -1
    requires LinkOf(h, items, hash, Bucket(h, |hash|, x.key), l, q) && Target(items, hash, l) == -1
    requires forall i :: 0 <= i < |items| && items[i].Live() ==> items[i].key != x.key
    ensures Indexed(h, ItemsWith(items, l, |items|) + [x], HashWith(hash, l, |items|))
    ensures Entries(ItemsWith(items, l, |items|) + [x]) == Entries(items) + [(x.key, x.value)]
  {
    hide FirstIn, PowerOfTwo, Entries, HeadOk, NextOk, InBucket, KeysDistinct;
    var n, m := |items|, |hash|;
    var mid, hash' := ItemsWith(items, l, n), HashWith(hash, l, n);
    forall b: nat | b < m ensures HeadOk(h, mid + [x], hash', b) {
      AppendHead(h, items, hash, l, q, x, b);
    }
    forall i: nat | i < n + 1 ensures NextOk(h, mid + [x], m, i) {
      AppendNext(h, items, hash, l, q, x, i);
    }
    LinkSame(h, items, hash, l, q, Bucket(h, m, x.key), n);
    AppendDistinct(items, mid, x);
    SameEntries(items, mid);
    EntriesConcat(mid, [x]);
    EntriesOne(x);
  }

  lemma LinkSame(h: HashCode, items: seq<Item>, hash: seq<int>, l: Link, q: nat, b: nat, p: int)
    requires hash != [] && LinkOf(h, items, hash, b, l, q) && p > -2
    ensures SameItems(items, ItemsWith(items, l, p))
  {
  }

  lemma AppendDistinct(items: seq<Item>, mid: seq<Item>, x: Item)
    requires KeysDistinct(items) && SameItems(items, mid) && forall i :: 0 <= i < |items| && items[i].Live() ==> items[i].key != x.key
    ensures KeysDistinct(mid + [x])
  {
    assert forall i :: 0 <= i < |items| ==> SameItem(items[i], mid[i]);
  }

  lemma AppendHead(h: HashCode, items: seq<Item>, hash: seq<int>, l: Link, q: nat, x: Item, b: nat)
    requires hash != [] && Indexed(h, items, hash) && x.next == -1 && b < |hash|
    requires LinkOf(h, items, hash, Bucket(h, |hash|, x.key), l, q) && Target(items, hash, l) == -1
    ensures HeadOk(h, ItemsWith(items, l, |items|) + [x], HashWith(hash, l, |items|), b)
  {
    hide FirstIn, PowerOfTwo, NextOk, KeysDistinct;
    var n, k, m := |items|, Bucket(h, |hash|, x.key), |hash|;
    var mid := ItemsWith(items, l, n);
    assert HeadOk(h, items, hash, b);
    TargetIs(h, items, hash, k, l, q);
    EndLink(h, items, hash, k, l, q);
    LinkSame(h, items, hash, l, q, k, n);
    SameFirst(h, items, mid, m, b, 0);
    AppendFirst(h, mid, x, m, b, 0);
  }

  lemma AppendNext(h: HashCode, items: seq<Item>, hash: seq<int>, l: Link, q: nat, x: Item, i: nat)
    requires hash != [] && Indexed(h, items, hash) && x.next == -1 && i < |items| + 1
    requires LinkOf(h, items, hash, Bucket(h, |hash|, x.key), l, q) && Target(items, hash, l) == -1
    ensures NextOk(h, ItemsWith(items, l, |items|) + [x], |hash|, i)
  {
    hide FirstIn, PowerOfTwo, HeadOk, KeysDistinct;
    var n, k, m := |items|, Bucket(h, |hash|, x.key), |hash|;
    var mid := ItemsWith(items, l, n);
    TargetIs(h, items, hash, k, l, q);
    EndLink(h, items, hash, k, l, q);
    LinkSame(h, items, hash, l, q, k, n);
    if i < n {
      assert NextOk(h, items, m, i) && SameItem(items[i], mid[i]);
      assert items[i].Live() ==> InBucket(h, items, m, Bucket(h, m, items[i].key), i);
      SameFirst(h, items, mid, m, Bucket(h, m, items[i].key), i + 1);
      AppendFirst(h, mid, x, m, Bucket(h, m, items[i].key), i + 1);
    } else {
      NothingBehind(h, mid + [x], m, k);
    }
  }

  lemma NothingBehind(h: HashCode, items: seq<Item>, size: nat, b: nat)
    requires size > 0
    ensures FirstIn(h, items, size, b, |items|) == -1
  {
  }

  // Only one link of a bucket is the end of its chain.
  lemma EndLink(h: HashCode, items: seq<Item>, hash: seq<int>, k: nat, l: Link, q: nat)
    requires hash != [] && LinkOf(h, items, hash, k, l, q) && FirstIn(h, items, |hash|, k, q) == -1
    ensures FirstIn(h, items, |hash|, k, 0) == -1 <==> l.Head?
    ensures forall i: nat :: i < |items| && InBucket(h, items, |hash|, k, i) ==> (FirstIn(h, items, |hash|, k, i + 1) == -1 <==> l == After(i))
  {
    hide FirstIn;
    if l.After? {
      assert FirstIn(h, items, |hash|, k, 0) != -1;
      forall i: nat | i < |items| && InBucket(h, items, |hash|, k, i) && i != l.i
        ensures i < l.i && FirstIn(h, items, |hash|, k, i + 1) != -1
      {
      }
    }
  }

  // Only one link of a bucket leads to a given item.
  lemma OneLink(h: HashCode, items: seq<Item>, hash: seq<int>, k: nat, l: Link, q: nat, p: nat)
    requires hash != [] && LinkOf(h, items, hash, k, l, q) && FirstIn(h, items, |hash|, k, q) == p
    ensures FirstIn(h, items, |hash|, k, 0) == p <==> l.Head?
    ensures forall i: nat :: i < |items| && InBucket(h, items, |hash|, k, i) ==> (FirstIn(h, items, |hash|, k, i + 1) == p <==> l == After(i))
  {
    hide FirstIn;
    if l.After? {
      assert FirstIn(h, items, |hash|, k, 0) <= l.i;
      forall i: nat | i < |items| && InBucket(h, items, |hash|, k, i) && i != l.i
        ensures FirstIn(h, items, |hash|, k, i + 1) != p
      {
        if i < l.i {
          assert FirstIn(h, items, |hash|, k, i + 1) <= l.i;
        }
      }
    } else {
      forall i: nat | i < |items| && InBucket(h, items, |hash|, k, i) ensures FirstIn(h, items, |hash|, k, i + 1) != p {
        assert i >= p;
      }
    }
  }

  // Taking item p out of its chain and erasing it.
  lemma EraseIndexed(h: HashCode, items: seq<Item>, hash: seq<int>, l: Link, q: nat, p: nat, items': seq<Item>)
    requires hash != [] && Indexed(h, items, hash) && p < |items| && items[p].Live()
    requires LinkOf(h, items, hash, Bucket(h, |hash|, items[p].key), l, q) && Target(items, hash, l) == p
    requires items' == ItemsWith(items, l, items[p].next)[p := items[p].(next := -2)]
    ensures Indexed(h, items', HashWith(hash, l, items[p].next))
    ensures Entries(items') == Entries(items[..p]) + Entries(items[p + 1..])
    ensures Entries(items) == Entries(items[..p]) + [(items[p].key, items[p].value)] + Entries(items[p + 1..])
  {
    hide FirstIn, PowerOfTwo, Entries, HeadOk, NextOk, InBucket, KeysDistinct;
    forall i | 0 <= i < |items| && i != p ensures SameItem(items[i], items'[i]) {
      EraseSame(h, items, hash, l, q, p, items');
    }
    forall b: nat | b < |hash| ensures HeadOk(h, items', HashWith(hash, l, items[p].next), b) {
      EraseHead(h, items, hash, l, q, p, items', b);
    }
    forall i: nat | i < |items'| ensures NextOk(h, items', |hash|, i) {
      EraseNext(h, items, hash, l, q, p, items', i);
    }
    EraseDistinct(items, items', p);
    EraseEntries(items, items', p);
  }

  ghost predicate Unlinks(h: HashCode, items: seq<Item>, hash: seq<int>, l: Link, q: nat, p: nat, items': seq<Item>) {
    && hash != [] && Indexed(h, items, hash) && p < |items| && items[p].Live()
    && LinkOf(h, items, hash, Bucket(h, |hash|, items[p].key), l, q) && Target(items, hash, l) == p
    && items' == ItemsWith(items, l, items[p].next)[p := items[p].(next := -2)]
  }

  lemma EraseSame(h: HashCode, items: seq<Item>, hash: seq<int>, l: Link, q: nat, p: nat, items': seq<Item>)
    requires Unlinks(h, items, hash, l, q, p, items')
    ensures |items'| == |items|
    ensures forall i :: 0 <= i < |items| && i != p ==> SameItem(items[i], items'[i])
    ensures !items'[p].Live()
  {
    hide FirstIn, PowerOfTwo, HeadOk, KeysDistinct;
    NextOf(h, items, hash, p);
  }

  lemma EraseDistinct(items: seq<Item>, items': seq<Item>, p: nat)
    requires KeysDistinct(items) && p < |items| == |items'| && !items'[p].Live()
    requires forall i :: 0 <= i < |items| && i != p ==> SameItem(items[i], items'[i])
    ensures KeysDistinct(items')
  {
  }

  lemma EraseHead(h: HashCode, items: seq<Item>, hash: seq<int>, l: Link, q: nat, p: nat, items': seq<Item>, b: nat)
    requires Unlinks(h, items, hash, l, q, p, items') && b < |hash|
    ensures HeadOk(h, items', HashWith(hash, l, items[p].next), b)
  {
    hide FirstIn, PowerOfTwo, NextOk, KeysDistinct;
    var k, m := Bucket(h, |hash|, items[p].key), |hash|;
    TargetIs(h, items, hash, k, l, q);
    NextOf(h, items, hash, p);
    OneLink(h, items, hash, k, l, q, p);
    EraseSame(h, items, hash, l, q, p, items');
    assert HeadOk(h, items, hash, b);
    EraseFirst(h, items, items', p, m, b, 0);
  }

  lemma EraseNext(h: HashCode, items: seq<Item>, hash: seq<int>, l: Link, q: nat, p: nat, items': seq<Item>, i: nat)
    requires Unlinks(h, items, hash, l, q, p, items') && i < |items|
    ensures NextOk(h, items', |hash|, i)
  {
    hide FirstIn, PowerOfTwo, HeadOk, KeysDistinct, Indexed, Unlinks;
    EraseSame(h, items, hash, l, q, p, items');
    if i != p && items'[i].Live() {
      EraseLink(h, items, hash, l, q, p, items', i);
    }
  }

  // The link of another item, if it led to the erased one, now leads to the one after.
  lemma EraseLink(h: HashCode, items: seq<Item>, hash: seq<int>, l: Link, q: nat, p: nat, items': seq<Item>, i: nat)
    requires Unlinks(h, items, hash, l, q, p, items') && i < |items| && i != p && items[i].Live()
    ensures items'[i].key == items[i].key
    ensures items'[i].next == FirstIn(h, items', |hash|, Bucket(h, |hash|, items[i].key), i + 1)
  {
    hide FirstIn, PowerOfTwo, HeadOk, NextOk, KeysDistinct;
    var k, m := Bucket(h, |hash|, items[p].key), |hash|;
    var b := Bucket(h, m, items[i].key);
    TargetIs(h, items, hash, k, l, q);
    NextOf(h, items, hash, p);
    NextOf(h, items, hash, i);
    OneLink(h, items, hash, k, l, q, p);
    EraseSame(h, items, hash, l, q, p, items');
    EraseFirst(h, items, items', p, m, b, i + 1);
    assert InBucket(h, items, m, b, i);
    if FirstIn(h, items, m, b, i + 1) == p {
      assert InBucket(h, items, m, b, p);
      assert l == After(i);
    } else {
      assert l != After(i);
    }
  }

  lemma EraseEntries(items: seq<Item>, items': seq<Item>, p: nat)
    requires p < |items| == |items'| && items[p].Live() && !items'[p].Live()
    requires forall i :: 0 <= i < |items| && i != p ==> SameItem(items[i], items'[i])
    ensures Entries(items') == Entries(items[..p]) + Entries(items[p + 1..])
    ensures Entries(items) == Entries(items[..p]) + [(items[p].key, items[p].value)] + Entries(items[p + 1..])
  {
    hide Entries;
    SameEntries(items[..p], items'[..p]);
    SameEntries(items[p + 1..], items'[p + 1..]);
    assert items == items[..p] + [items[p]] + items[p + 1..];
    assert items' == items'[..p] + [items'[p]] + items'[p + 1..];
    EntriesConcat(items[..p] + [items[p]], items[p + 1..]);
    EntriesConcat(items[..p], [items[p]]);
    EntriesConcat(items'[..p] + [items'[p]], items'[p + 1..]);
    EntriesConcat(items'[..p], [items'[p]]);
    EntriesOne(items[p]);
    EntriesOne(items'[p]);
    assert Entries(items[..p]) + [] == Entries(items[..p]);
  }

  // ----- Growing and rehashing -----

  lemma NoneIn(h: HashCode, items: seq<Item>, key: Key, size: nat, q: nat, p: int)
    requires size > 0 && q <= |items| && p == FirstIn(h, items, size, Bucket(h, size, key), q)
    requires forall i :: 0 <= i < q && items[i].Live() ==> items[i].key != key
    ensures forall i :: 0 <= i < |items| && (p == -1 || i < p) && items[i].Live() ==> items[i].key != key
  {
    hide FirstIn;
    forall i | q <= i < |items| && (p == -1 || i < p) && items[i].Live() ensures items[i].key != key {
      assert !InBucket(h, items, size, Bucket(h, size, key), i);
    }
  }

  lemma SameIndexed(h: HashCode, x: seq<Item>, y: seq<Item>, hash: seq<int>)
    requires Indexed(h, x, hash) && SameItems(x, y) && forall i :: 0 <= i < |x| && x[i].Live() ==> y[i].next == x[i].next
    ensures Indexed(h, y, hash)
  {
    hide FirstIn, PowerOfTwo;
    assert forall i :: 0 <= i < |x| ==> SameItem(x[i], y[i]);
    if hash != [] {
      forall b: nat | b < |hash| ensures HeadOk(h, y, hash, b) {
        assert HeadOk(h, x, hash, b);
        SameFirst(h, x, y, |hash|, b, 0);
      }
      forall i: nat | i < |y| ensures NextOk(h, y, |hash|, i) {
        assert NextOk(h, x, |hash|, i);
        SameFirst(h, x, y, |hash|, Bucket(h, |hash|, x[i].key), i + 1);
      }
    }
  }

  // The chains rebuilt from position i to the end.
  ghost predicate Rebuilt(h: HashCode, items: seq<Item>, hash: seq<int>, i: nat) {
    && hash != [] && (forall b: nat :: b < |hash| ==> hash[b] == FirstIn(h, items, |hash|, b, i))
    && forall j: nat :: i <= j < |items| ==> NextOk(h, items, |hash|, j)
  }

  lemma RebuiltStep(h: HashCode, items: seq<Item>, hash: seq<int>, i: nat)
    requires Rebuilt(h, items, hash, i + 1) && i < |items|
    ensures !items[i].Live() ==> Rebuilt(h, items, hash, i)
    ensures items[i].Live() ==>
              var b := Bucket(h, |hash|, items[i].key);
              Rebuilt(h, items[i := items[i].(next := hash[b])], hash[b := i], i)
  {
    hide FirstIn;
    var m := |hash|;
    forall b: nat | b < m ensures FirstIn(h, items, m, b, i) == if InBucket(h, items, m, b, i) then i else FirstIn(h, items, m, b, i + 1) {
      FirstInIs(h, items, m, b, i, if InBucket(h, items, m, b, i) then i else FirstIn(h, items, m, b, i + 1));
    }
    if !items[i].Live() {
      forall j: nat | i <= j < |items| ensures NextOk(h, items, m, j) {
      }
    } else {
      var k := Bucket(h, m, items[i].key);
      var items', hash' := items[i := items[i].(next := hash[k])], hash[k := i];
      assert hash[k] > -2;
      assert SameItems(items, items');
      forall b: nat | b < m ensures hash'[b] == FirstIn(h, items', m, b, i) {
        SameFirst(h, items, items', m, b, i);
      }
      forall j: nat | i <= j < |items'| ensures NextOk(h, items', m, j) {
        assert j > i ==> NextOk(h, items, m, j);
        SameFirst(h, items, items', m, Bucket(h, m, items[j].key), j + 1);
      }
    }
  }

  lemma RebuiltIndexed(h: HashCode, items: seq<Item>, hash: seq<int>)
    requires Rebuilt(h, items, hash, 0) && PowerOfTwo(|hash|) && KeysDistinct(items)
    ensures Indexed(h, items, hash)
  {
    hide FirstIn;
    forall b: nat | b < |hash| ensures HeadOk(h, items, hash, b) {
    }
  }

  // ----- The object -----

  ghost predicate HasKey(e: seq<Entry>, key: Key) { exists k :: 0 <= k < |e| && e[k].0 == key }

  function Without(e: seq<Entry>, key: Key): (r: seq<Entry>)
    ensures |r| <= |e| && !HasKey(r, key)
    ensures forall x :: x in r <==> x in e && x.0 != key
  {
    if e == [] then []
    else if e[|e| - 1].0 == key then Without(e[..|e| - 1], key)
    else
      assert e == e[..|e| - 1] + [e[|e| - 1]];
      Without(e[..|e| - 1], key) + [e[|e| - 1]]
  }

  lemma {:induction false} WithoutConcat(a: seq<Entry>, b: seq<Entry>, key: Key)
    ensures Without(a + b, key) == Without(a, key) + Without(b, key)
  {
    if b == [] {
      assert a + b == a;
    } else {
      assert (a + b)[..|a + b| - 1] == a + b[..|b| - 1];
      WithoutConcat(a, b[..|b| - 1], key);
    }
  }

  lemma {:induction false} WithoutNone(e: seq<Entry>, key: Key)
    requires !HasKey(e, key)
    ensures Without(e, key) == e
  {
    if e != [] {
      assert forall k :: 0 <= k < |e| - 1 ==> e[..|e| - 1][k] == e[k];
      WithoutNone(e[..|e| - 1], key);
      assert e == e[..|e| - 1] + [e[|e| - 1]];
    }
  }

  ghost predicate Has(items: seq<Item>, i: int, key: Key) {
    0 <= i < |items| && items[i].Live() && items[i].key == key
  }

  lemma {:induction false} KeyOfItem(items: seq<Item>, key: Key)
    ensures HasKey(Entries(items), key) <==> exists i :: Has(items, i, key)
  {
    if items != [] {
      var d, x := items[..|items| - 1], items[|items| - 1];
      KeyOfItem(d, key);
      assert forall i :: Has(d, i, key) ==> Has(items, i, key);
      assert forall i :: Has(items, i, key) ==> i == |items| - 1 || Has(d, i, key);
      if HasKey(Entries(d), key) {
        var k :| 0 <= k < |Entries(d)| && Entries(d)[k].0 == key;
        assert Entries(items)[k] == Entries(d)[k];
      }
      if x.Live() {
        assert Entries(items)[|Entries(d)|] == (x.key, x.value);
      }
      if HasKey(Entries(items), key) && !HasKey(Entries(d), key) {
        var k :| 0 <= k < |Entries(items)| && Entries(items)[k].0 == key;
        assert k == |Entries(d)|;
        assert Has(items, |items| - 1, key);
      }
      assert Has(items, |items| - 1, key) <==> x.Live() && x.key == key;
    }
  }

  // Taking out an item takes out its key.
  lemma ErasedKey(items: seq<Item>, p: nat)
    requires KeysDistinct(items) && p < |items| && items[p].Live()
    ensures var x, y := Entries(items[..p]), Entries(items[p + 1..]);
            Entries(items) == x + [(items[p].key, items[p].value)] + y ==> Without(Entries(items), items[p].key) == x + y
  {
    hide Entries;
    var x, y, m, key := Entries(items[..p]), Entries(items[p + 1..]), (items[p].key, items[p].value), items[p].key;
    KeyOfItem(items[..p], key);
    KeyOfItem(items[p + 1..], key);
    WithoutNone(x, key);
    WithoutNone(y, key);
    WithoutConcat(x + [m], y, key);
    WithoutConcat(x, [m], key);
    assert [m][..0] == [];
    assert Without([m], key) == [];
  }

  class ObjectJson {
    const hashcode: HashCode
    var os: array<Item>
    var n: int
    var hash: seq<int>
    var size: int

    ghost function Items(): seq<Item>
      requires 0 <= n <= os.Length
      reads this, os
    {
      os[..n]
    }

    ghost predicate Valid()
      reads this, os
    {
      0 <= n <= os.Length && Indexed(hashcode, Items(), hash) && size == |Entries(Items())|
    }

    // The live pairs in the order of their insertion.
    ghost function Pairs(): seq<Entry>
      requires 0 <= n <= os.Length
      reads this, os
    {
      Entries(Items())
    }

    constructor (hashcode: HashCode)
      ensures Valid() && Pairs() == [] && hash == [] && n == 0 && this.hashcode == hashcode && fresh(os)
    {
      this.hashcode := hashcode;
      os := new Item[0];
      n, hash, size := 0, [], 0;
    }

    // The number of buckets an insertion uses, and of items it passes when its key is new.
    function Buckets(): (m: nat)
      reads this
      ensures m > 0
    {
      if hash == [] then 8 else |hash|
    }

    ghost function ChainTo(key: Key): nat
      requires 0 <= n <= os.Length
      reads this, os
    {
      CountIn(hashcode, Items(), Buckets(), Bucket(hashcode, Buckets(), key), 0)
    }

    ghost predicate Holds(p: int, key: Key)
      requires 0 <= n <= os.Length
      reads this, os
    {
      0 <= p < n && os[p].Live() && os[p].key == key
    }

    // The position of the live item with the key, or -1 if there is none.
    method Find(key: Key) returns (p: int)
      requires Valid()
      ensures p == -1 || Holds(p, key)
      ensures p == -1 <==> !HasKey(Pairs(), key)
    {
      hide FirstIn, KeysDistinct, HasKey, Entries;
      KeyOfItem(Items(), key);
      if |hash| == 0 {
        return -1;
      }
      var b := Bucket(hashcode, |hash|, key);
      assert HeadOk(hashcode, Items(), hash, b);
      p := hash[b];
      ghost var q := 0;
      while p >= 0
        invariant 0 <= q <= n && -1 <= p < n && p == FirstIn(hashcode, Items(), |hash|, b, q)
        invariant forall i :: 0 <= i < q && Items()[i].Live() ==> Items()[i].key != key
        decreases n - q
      {
        NoneIn(hashcode, Items(), key, |hash|, q, p);
        assert InBucket(hashcode, Items(), |hash|, b, p);
        if os[p].key == key {
          assert Has(Items(), p, key);
          return p;
        }
        NextOf(hashcode, Items(), hash, p);
        q := p + 1;
        p := os[p].next;
      }
      NoneIn(hashcode, Items(), key, |hash|, q, p);
      p := -1;
    }

    // The place that leads to the live item with the key, or the end of its bucket's chain, and how
    // many items were passed.
    method Walk(key: Key) returns (l: Link, p: int, chain: nat, ghost q: nat)
      requires Valid() && hash != []
      ensures LinkOf(hashcode, Items(), hash, Bucket(hashcode, |hash|, key), l, q) && p == Target(Items(), hash, l)
      ensures p == -1 || Holds(p, key)
      ensures p == -1 ==> forall i :: !Holds(i, key)
      ensures p == -1 ==> chain == CountIn(hashcode, Items(), |hash|, Bucket(hashcode, |hash|, key), 0)
    {
      hide FirstIn, KeysDistinct, CountIn;
      var b := Bucket(hashcode, |hash|, key);
      assert HeadOk(hashcode, Items(), hash, b);
      l, p, chain, q := Head(b), hash[b], 0, 0;
      while p >= 0 && os[p].key != key
        invariant 0 <= q <= n && -1 <= p < n && p == FirstIn(hashcode, Items(), |hash|, b, q)
        invariant LinkOf(hashcode, Items(), hash, b, l, q) && p == Target(Items(), hash, l)
        invariant chain + CountIn(hashcode, Items(), |hash|, b, q) == CountIn(hashcode, Items(), |hash|, b, 0)
        invariant forall i :: 0 <= i < q && Items()[i].Live() ==> Items()[i].key != key
        decreases n - q
      {
        NoneIn(hashcode, Items(), key, |hash|, q, p);
        assert InBucket(hashcode, Items(), |hash|, b, p);
        NextOf(hashcode, Items(), hash, p);
        CountFirst(hashcode, Items(), |hash|, b, q);
        l, q := After(p), p + 1;
        p := os[p].next;
        chain := chain + 1;
      }
      CountFirst(hashcode, Items(), |hash|, b, q);
      if p >= 0 {
        assert InBucket(hashcode, Items(), |hash|, b, p);
      } else {
        NoneIn(hashcode, Items(), key, |hash|, q, p);
      }
    }

    method SetLink(l: Link, p: int)
      requires 0 <= n <= os.Length && LinkIn(Items(), hash, l)
      modifies this`hash, os
      ensures Items() == ItemsWith(old(Items()), l, p) && hash == HashWith(old(hash), l, p)
      ensures forall i :: n <= i < os.Length ==> os[i] == old(os[i])
    {
      match l {
        case Head(b) => hash := hash[b := p];
        case After(i) => os[i] := os[i].(next := p);
      }
    }

    // Twice the capacity, or 8; the items are copied, of erased ones only the mark.
    method Grow()
      requires 0 <= n <= os.Length
      modifies this`os
      ensures 0 <= n < os.Length && fresh(os) && SameItems(old(Items()), Items())
      ensures os.Length == if old(os.Length) > 0 then 2 * old(os.Length) else 8
      ensures forall i :: 0 <= i < n && old(os[i].Live()) ==> os[i].next == old(os[i].next)
    {
      var from := os;
      var capacity := if from.Length > 0 then from.Length * 2 else 8;
      var copy := new Item[capacity](_ => Item("", 0, -2));
      var i := 0;
      while i < n
        invariant 0 <= i <= n <= from.Length == old(os.Length) && n < copy.Length && os == from == old(os) && n == old(n)
        invariant from[..] == old(os[..])
        invariant forall j :: 0 <= j < i ==> copy[j] == if from[j].next == -2 then Item("", 0, -2) else from[j]
        invariant forall j :: i <= j < copy.Length ==> copy[j] == Item("", 0, -2)
      {
        if from[i].next != -2 {
          copy[i] := from[i];
        }
        i := i + 1;
      }
      os := copy;
      forall j | 0 <= j < n ensures SameItem(old(Items())[j], Items()[j]) {
      }
    }

    // Twice as many buckets, and the chains rebuilt from the last item to the first.
    method Rehash()
      requires Valid() && hash != []
      modifies this`hash, os
      ensures Valid() && |hash| == 2 * |old(hash)| && n == old(n) && size == old(size)
      ensures Pairs() == old(Pairs()) && SameItems(old(Items()), Items())
    {
      hide FirstIn, Indexed, Rebuilt, Entries, SameItems;
      DoublePower(hashcode, Items(), hash);
      hash := seq(|hash| * 2, _ => -1);
      ghost var items := Items();
      NothingRebuilt(hashcode, items, hash);
      SameRefl(items);
      var i := n;
      while i > 0
        invariant 0 <= i <= n <= os.Length && n == old(n) && |hash| == 2 * |old(hash)| && os == old(os) && size == old(size)
        invariant Rebuilt(hashcode, Items(), hash, i) && SameItems(items, Items()) && hash != []
      {
        i := i - 1;
        ghost var before, hash0 := Items(), hash;
        RebuiltStep(hashcode, Items(), hash, i);
        if os[i].Live() {
          var b := Bucket(hashcode, |hash|, os[i].key);
          HeadAtLeast(hashcode, Items(), hash, i + 1, b);
          os[i] := os[i].(next := hash[b]);
          hash := hash[b := i];
          assert Items() == before[i := before[i].(next := hash0[b])];
          SameStep(items, before, i, hash0[b]);
        }
      }
      SameDistinct(items, Items());
      RebuiltIndexed(hashcode, Items(), hash);
      SameEntries(items, Items());
    }

    // The position of the key; if it is new the pair is appended, and the table is enlarged when the
    // chain has more than four items.
    method FindInsert(key: Key, value: int) returns (p: int)
      requires Valid()
      modifies this, os
      ensures Valid() && Holds(p, key) && hash != [] && (os == old(os) || fresh(os))
      ensures Pairs() == Inserted(old(Pairs()), key, value)
      ensures if HasKey(old(Pairs()), key) then n == old(n) && Items() == old(Items()) else p == old(n) == n - 1
      ensures |hash| == if HasKey(old(Pairs()), key) || old(ChainTo(key)) <= 4 then old(Buckets()) else 2 * old(Buckets())
    {
      hide FirstIn, Indexed, Entries, SameItems, LinkOf, HasKey, CountIn;
      KeyOfItem(Items(), key);
      if hash == [] {
        hash := seq(8, _ => -1);
        EmptyIndexed(hashcode, Items(), hash, old(hash));
      }
      var l, at, chain, q := Walk(key);
      if at >= 0 {
        assert Has(old(Items()), at, key);
        return at;
      }
      forall i ensures !Has(Items(), i, key) {
        assert !Holds(i, key);
      }
      Append(l, key, value, q);
      if chain > 4 {
        ghost var before := Items();
        Rehash();
        SameAt(before, Items(), n - 1);
      }
      p := n - 1;
    }

    method Append(l: Link, key: Key, value: int, ghost q: nat)
      requires Valid() && hash != [] && LinkOf(hashcode, Items(), hash, Bucket(hashcode, |hash|, key), l, q)
      requires Target(Items(), hash, l) == -1 && forall i :: !Holds(i, key)
      modifies this, os
      ensures Valid() && |hash| == |old(hash)| && n == old(n) + 1 && Holds(n - 1, key) && Pairs() == old(Pairs()) + [(key, value)]
      ensures os == old(os) || fresh(os)
    {
      hide FirstIn, Indexed, Entries;
      ghost var items, x := Items(), Item(key, value, -1);
      assert forall i :: 0 <= i < |items| && items[i].Live() ==> Holds(i, items[i].key);
      AppendIndexed(hashcode, items, hash, l, q, x);
      SetLink(l, n);
      ghost var mid := Items();
      if n == os.Length {
        Grow();
        GrownIndexed(hashcode, mid, Items(), x, hash);
      }
      ghost var now := Items();
      os[n] := Item(key, value, -1);
      n := n + 1;
      size := size + 1;
      assert Items() == now + [x];
    }

    // The value of the key, which is added with a null value if it is new.
    method GetInsert(key: Key) returns (value: int)
      requires Valid()
      modifies this, os
      ensures Valid() && hash != [] && (os == old(os) || fresh(os))
      ensures Pairs() == Inserted(old(Pairs()), key, NULL) && (key, value) in Pairs()
    {
      hide FirstIn, Indexed, Entries, HasKey;
      var p := FindInsert(key, NULL);
      value := os[p].value;
      PairAt(Items(), p);
    }

    // Erases the item at a position.
    method EraseAt(p: int)
      requires Valid() && 0 <= p < n && os[p].Live()
      modifies this`hash, this`size, os
      ensures Valid() && n == old(n) && !os[p].Live()
      ensures Pairs() == Without(old(Pairs()), old(os[p].key)) && size == old(size) - 1
    {
      hide FirstIn, KeysDistinct, Entries, Without, Indexed, HeadOk, LinkOf;
      ghost var items := Items();
      HashThere(hashcode, items, hash);
      var b := Bucket(hashcode, |hash|, os[p].key);
      HeadLink(hashcode, items, hash, b);
      var l, at := Head(b), hash[b];
      ghost var q := 0;
      assert InBucket(hashcode, items, |hash|, b, p);
      while at >= 0 && at != p
        invariant 0 <= q <= p && -1 <= at < n && at == FirstIn(hashcode, items, |hash|, b, q)
        invariant LinkOf(hashcode, items, hash, b, l, q) && LinkIn(items, hash, l) && at == Target(items, hash, l)
        decreases n - q
        modifies {}
      {
        BeforeErased(hashcode, items, hash, b, q, p, at);
        l, q := After(at), at + 1;
        at := os[at].next;
      }
      Found(hashcode, items, |hash|, b, q, p);
      Unlink(l, p, q);
    }

    // Takes the item out of its chain through the link that leads to it.
    method Unlink(l: Link, p: int, ghost q: nat)
      requires Valid() && 0 <= p < n && os[p].Live() && hash != []
      requires LinkOf(hashcode, Items(), hash, Bucket(hashcode, |hash|, os[p].key), l, q) && Target(Items(), hash, l) == p
      modifies this`hash, this`size, os
      ensures Valid() && n == old(n) && !os[p].Live() && hash != []
      ensures Pairs() == Without(old(Pairs()), old(os[p].key)) && size == old(size) - 1
    {
      hide FirstIn, Indexed, Entries, LinkOf, Without;
      ghost var items := Items();
      NotOwnLink(hashcode, items, hash, l, q, p);
      ghost var items' := ItemsWith(items, l, items[p].next)[p := items[p].(next := -2)];
      EraseIndexed(hashcode, items, hash, l, q, p, items');
      Distinct(hashcode, items, hash);
      ErasedKey(items, p);
      SetLink(l, os[p].next);
      os[p] := os[p].(next := -2);
      size := size - 1;
      assert Items() == items';
    }

    // Erases the key; the head of the bucket is read without asking whether the table is there.
    method EraseKey(key: Key) returns (r: Erasure)
      requires Valid()
      modifies this`hash, this`size, os
      ensures Valid() && n == old(n)
      ensures r == OutOfBounds <==> old(hash) == []
      ensures old(hash) == [] ==> hash == [] && Items() == old(Items())
      ensures Pairs() == Without(old(Pairs()), key)
      ensures old(hash) != [] ==> hash != [] && r == Erased(if HasKey(old(Pairs()), key) then 1 else 0)
    {
      hide FirstIn, Indexed, Entries, LinkOf, HasKey, Without;
      KeyOfItem(Items(), key);
      if hash == [] {
        NoItems(hashcode, Items(), hash);
        WithoutNone(Pairs(), key);
        return OutOfBounds;
      }
      var l, p, chain, q := Walk(key);
      if p >= 0 {
        assert Has(Items(), p, key);
        Unlink(l, p, q);
        r := Erased(1);
      } else {
        forall i ensures !Has(Items(), i, key) {
          assert !Holds(i, key);
        }
        WithoutNone(Pairs(), key);
        r := Erased(0);
      }
    }

    // Any run of operations does to the pairs what it does to an insertion-ordered map, and answers like
    // it. It ends where a key is erased before the table has been allocated.
    method RunOps(ops: seq<Op>) returns (answers: seq<Answer>)
      requires Valid()
      modifies this, os
      ensures Valid() && |answers| <= |ops| && Pairs() == Applied(old(Pairs()), ops[..|answers|])
      ensures forall i :: 0 <= i < |answers| ==> Answers(Applied(old(Pairs()), ops[..i]), ops[i], answers[i])
      ensures forall i :: 0 <= i < |answers| ==> !Unallocated(old(hash), ops, i)
      ensures |answers| < |ops| ==> Unallocated(old(hash), ops, |answers|)
    {
      hide FirstIn, Indexed, Entries, HasKey, Without, Applied, Answers, Inserted;
      answers := [];
      var i := 0;
      AppliedNone(Pairs(), ops);
      while i < |ops|
        invariant 0 <= i == |answers| <= |ops| && Valid() && Pairs() == Applied(old(Pairs()), ops[..i])
        invariant forall j :: 0 <= j < i ==> Answers(Applied(old(Pairs()), ops[..j]), ops[j], answers[j])
        invariant forall j :: 0 <= j < i ==> !Unallocated(old(hash), ops, j)
        invariant hash == [] <==> old(hash) == [] && forall j :: 0 <= j < i ==> !ops[j].Insert? && !ops[j].Get?
        invariant os == old(os) || fresh(os)
      {
        AppliedNext(old(Pairs()), ops, i);
        var answer, ok := OneOp(ops[i]);
        if !ok {
          return;
        }
        answers := answers + [answer];
        i := i + 1;
      }
      assert ops[..|ops|] == ops;
    }

    method OneOp(op: Op) returns (answer: Answer, ok: bool)
      requires Valid()
      modifies this, os
      ensures Valid() && (os == old(os) || fresh(os)) && (ok <==> !(op.Erase? && old(hash) == []))
      ensures if ok then Pairs() == Apply(old(Pairs()), op) && Answers(old(Pairs()), op, answer) else Pairs() == old(Pairs())
      ensures hash == [] <==> old(hash) == [] && !op.Insert? && !op.Get?
    {
      hide FirstIn, Indexed, Entries, HasKey, Without;
      ok, answer := true, None;
      match op {
        case Insert(key, value) =>
          var p := FindInsert(key, value);
          PairAt(Items(), p);
          answer := Value(os[p].value);
        case Get(key) =>
          var v := GetInsert(key);
          answer := Value(v);
        case Find(key) =>
          var p := Find(key);
          if p >= 0 {
            PairAt(Items(), p);
            answer := Value(os[p].value);
          }
        case Erase(key) =>
          var r := EraseKey(key);
          if r == OutOfBounds {
            ok := false;
          } else {
            answer := Count(r.count);
          }
      }
    }
  }

  // A new object: erasing any key reads a table that is not there.
  method EraseFromNew(hashcode: HashCode, key: Key) returns (r: Erasure)
    ensures r == OutOfBounds
  {
    var o := new ObjectJson(hashcode);
    r := o.EraseKey(key);
  }

  // The null value a new key is given by a lookup that inserts.
  const NULL := 0

  datatype Erasure = Erased(count: nat) | OutOfBounds

  ghost function Inserted(e: seq<Entry>, key: Key, value: int): seq<Entry> {
    if HasKey(e, key) then e else e + [(key, value)]
  }

  datatype Op = Insert(key: Key, value: int) | Get(key: Key) | Find(key: Key) | Erase(key: Key)

  datatype Answer = None | Value(value: int) | Count(count: nat)

  // The answer of an insertion-ordered map: the value that the key has then, or how many keys are erased.
  ghost predicate Answers(e: seq<Entry>, op: Op, r: Answer) {
    match op
    case Insert(key, _) => r.Value? && (key, r.value) in Apply(e, op)
    case Get(key) => r.Value? && (key, r.value) in Apply(e, op)
    case Find(key) => if HasKey(e, key) then r.Value? && (key, r.value) in e else r == None
    case Erase(key) => r == Count(if HasKey(e, key) then 1 else 0)
  }

  // The first operation that needs the table is an erasure.
  predicate Unallocated(table: seq<int>, ops: seq<Op>, i: nat)
    requires i < |ops|
  {
    table == [] && ops[i].Erase? && forall j :: 0 <= j < i ==> !ops[j].Insert? && !ops[j].Get?
  }

  ghost function Apply(e: seq<Entry>, op: Op): seq<Entry> {
    match op
    case Insert(key, value) => Inserted(e, key, value)
    case Get(key) => Inserted(e, key, NULL)
    case Find(_) => e
    case Erase(key) => Without(e, key)
  }

  ghost function Applied(e: seq<Entry>, ops: seq<Op>): seq<Entry> {
    if ops == [] then e else Apply(Applied(e, ops[..|ops| - 1]), ops[|ops| - 1])
  }

  lemma AppliedNone(e: seq<Entry>, ops: seq<Op>)
    ensures Applied(e, ops[..0]) == e
  {
  }

  lemma AppliedNext(e: seq<Entry>, ops: seq<Op>, i: nat)
    requires i < |ops|
    ensures Applied(e, ops[..i + 1]) == Apply(Applied(e, ops[..i]), ops[i])
  {
    assert ops[..i + 1][..i] == ops[..i];
  }

  // The pairs of a run are the map of its operations: one value a key, the first inserted since the
  // last erasure of the key.
  ghost function ValueAfter(e: seq<Entry>, ops: seq<Op>, key: Key): (r: set<int>) {
    if ops == [] then Values(e, key)
    else
      var before := ValueAfter(e, ops[..|ops| - 1], key);
      match ops[|ops| - 1]
      case Insert(k, v) => if k == key && before == {} then {v} else before
      case Get(k) => if k == key && before == {} then {NULL} else before
      case Find(_) => before
      case Erase(k) => if k == key then {} else before
  }

  ghost function Values(e: seq<Entry>, key: Key): set<int> { set x | x in e && x.0 == key :: x.1 }

  lemma ValuesOf(e: seq<Entry>, key: Key)
    ensures HasKey(e, key) <==> Values(e, key) != {}
    ensures !HasKey(Without(e, key), key)
  {
    if HasKey(e, key) {
      var k :| 0 <= k < |e| && e[k].0 == key;
      assert e[k] in e;
      assert e[k].1 in Values(e, key);
    }
  }

  lemma {:induction false} RunIsMap(e: seq<Entry>, ops: seq<Op>, key: Key)
    ensures Values(Applied(e, ops), key) == ValueAfter(e, ops, key)
  {
    if ops != [] {
      RunIsMap(e, ops[..|ops| - 1], key);
      var b := Applied(e, ops[..|ops| - 1]);
      ValuesOf(b, key);
      match ops[|ops| - 1] {
        case Insert(k, v) =>
        case Get(k) =>
        case Find(_) =>
        case Erase(k) =>
      }
    }
  }

  // ----- Lemmas for the methods -----

  lemma EmptyIndexed(h: HashCode, items: seq<Item>, hash: seq<int>, hash0: seq<int>)
    requires hash0 == [] && Indexed(h, items, hash0) && hash == seq(8, _ => -1)
    ensures Indexed(h, items, hash)
  {
    assert PowerOfTwo(1) && PowerOfTwo(2) && PowerOfTwo(4) && PowerOfTwo(8);
  }

  lemma DoublePower(h: HashCode, items: seq<Item>, hash: seq<int>)
    requires hash != [] && Indexed(h, items, hash)
    ensures PowerOfTwo(|hash| * 2) && KeysDistinct(items)
  {
  }

  lemma NothingRebuilt(h: HashCode, items: seq<Item>, hash: seq<int>)
    requires hash != [] && forall b :: 0 <= b < |hash| ==> hash[b] == -1
    ensures Rebuilt(h, items, hash, |items|)
  {
  }

  lemma SameRefl(items: seq<Item>)
    ensures SameItems(items, items)
  {
  }

  lemma SameStep(x: seq<Item>, y: seq<Item>, i: nat, p: int)
    requires SameItems(x, y) && i < |y| && y[i].Live() && p > -2
    ensures SameItems(x, y[i := y[i].(next := p)])
  {
    forall j | 0 <= j < |x| ensures SameItem(x[j], y[i := y[i].(next := p)][j]) {
      assert SameItem(x[j], y[j]);
    }
  }

  lemma SameDistinct(x: seq<Item>, y: seq<Item>)
    requires SameItems(x, y) && KeysDistinct(x)
    ensures KeysDistinct(y)
  {
    assert forall i :: 0 <= i < |x| ==> SameItem(x[i], y[i]);
  }

  lemma HeadAtLeast(h: HashCode, items: seq<Item>, hash: seq<int>, i: nat, b: nat)
    requires Rebuilt(h, items, hash, i) && b < |hash|
    ensures hash[b] > -2
  {
  }

  lemma SameAt(x: seq<Item>, y: seq<Item>, i: nat)
    requires SameItems(x, y) && i < |x|
    ensures SameItem(x[i], y[i])
  {
  }

  lemma GrownIndexed(h: HashCode, mid: seq<Item>, now: seq<Item>, x: Item, hash: seq<int>)
    requires Indexed(h, mid + [x], hash) && SameItems(mid, now)
    requires forall i :: 0 <= i < |mid| && mid[i].Live() ==> now[i].next == mid[i].next
    ensures Indexed(h, now + [x], hash) && Entries(now + [x]) == Entries(mid + [x])
  {
    hide Indexed, Entries;
    forall i | 0 <= i < |mid| + 1 ensures SameItem((mid + [x])[i], (now + [x])[i]) {
      assert i < |mid| ==> SameItem(mid[i], now[i]);
    }
    SameIndexed(h, mid + [x], now + [x], hash);
    SameEntries(mid + [x], now + [x]);
  }

  lemma HashThere(h: HashCode, items: seq<Item>, hash: seq<int>)
    requires Indexed(h, items, hash) && items != []
    ensures hash != []
  {
  }

  lemma NotOwnLink(h: HashCode, items: seq<Item>, hash: seq<int>, l: Link, q: nat, p: nat)
    requires hash != [] && Indexed(h, items, hash) && p < |items| && items[p].Live()
    requires LinkOf(h, items, hash, Bucket(h, |hash|, items[p].key), l, q) && Target(items, hash, l) == p
    ensures l != After(p) && LinkIn(items, hash, l)
  {
    hide KeysDistinct;
    TargetIs(h, items, hash, Bucket(h, |hash|, items[p].key), l, q);
  }

  lemma PairAt(items: seq<Item>, p: nat)
    requires p < |items| && items[p].Live()
    ensures (items[p].key, items[p].value) in Entries(items)
  {
    assert items == items[..p] + [items[p]] + items[p + 1..];
    EntriesConcat(items[..p] + [items[p]], items[p + 1..]);
    EntriesConcat(items[..p], [items[p]]);
    EntriesOne(items[p]);
  }

  lemma NoItems(h: HashCode, items: seq<Item>, hash: seq<int>)
    requires hash == [] && Indexed(h, items, hash)
    ensures items == []
  {
  }

  lemma Distinct(h: HashCode, items: seq<Item>, hash: seq<int>)
    requires Indexed(h, items, hash)
    ensures KeysDistinct(items)
  {
  }

  lemma HeadLink(h: HashCode, items: seq<Item>, hash: seq<int>, b: nat)
    requires Indexed(h, items, hash) && hash != [] && b < |hash|
    ensures hash[b] == FirstIn(h, items, |hash|, b, 0) && LinkOf(h, items, hash, b, Head(b), 0)
  {
    assert HeadOk(h, items, hash, b);
  }

  // A walk that has not met item p of the bucket goes on to an item before it.
  lemma BeforeErased(h: HashCode, items: seq<Item>, hash: seq<int>, b: nat, q: nat, p: nat, at: nat)
    requires Indexed(h, items, hash) && hash != [] && q <= p < |items| && at != p
    requires InBucket(h, items, |hash|, b, p) && at == FirstIn(h, items, |hash|, b, q)
    ensures q <= at < p && items[at].next == FirstIn(h, items, |hash|, b, at + 1)
    ensures LinkOf(h, items, hash, b, After(at), at + 1) && LinkIn(items, hash, After(at))
  {
    hide FirstIn, KeysDistinct, Indexed;
    NextOf(h, items, hash, at);
  }

  lemma Found(h: HashCode, items: seq<Item>, size: nat, b: nat, q: nat, p: nat)
    requires size > 0 && q <= p < |items| && InBucket(h, items, size, b, p)
    ensures FirstIn(h, items, size, b, q) >= 0
  {
    hide FirstIn;
  }
}
