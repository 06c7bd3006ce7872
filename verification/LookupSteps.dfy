// The lookup of a data node, read by read.
module LookupSteps {
  // The search of find_payload as a machine that asks for one slot at a time, so that the slots may
  // change between two of its reads.

  import opened GappedArray

  // What is read next: the key of a slot, or at the end its payload.
  datatype Search =
    | First(m: int)              // key_slots_[m], where the model predicts
    | Left(m: int, bound: int)   // key_slots_[m - bound], the bound doubled each time
    | Right(m: int, bound: int)  // key_slots_[m + bound]
    | Binary(l: int, r: int)     // key_slots_[l + (r - l) / 2]
    | Compare(pos: int)          // key_slots_[pos], against the key
    | Load(pos: int)             // payload_slots_[pos]
    | Found(payload: int)
    | Missing
  {
    predicate Done() { Found? || Missing? }

    // The slot that is read.
    function Asks(): int {
      match this
      case First(m) => m
      case Left(m, bound) => m - bound
      case Right(m, bound) => m + bound
      case Binary(l, r) => l + (r - l) / 2
      case Compare(pos) => pos
      case Load(pos) => pos
      case _ => 0
    }
  }

  // What is read of a slot.
  function Reads(q: Search, s: Slot): int { if q.Load? then s.payload else s.key }

  function Start(prediction: int, capacity: int): (q: Search)
    requires capacity > 0
    ensures InBounds(q, capacity)
    ensures q.First? && 0 <= q.m < capacity && (q.m == prediction || (prediction < 0 && q.m == 0) || (prediction >= capacity && q.m == capacity - 1))
  {
    var m := if prediction < capacity - 1 then prediction else capacity - 1;
    First(if m < 0 then 0 else m)
  }

  // Tests that need no read are passed at once.

  function GoLeft(m: int, bound: int): Search { if bound < m then Left(m, bound) else GoBinary(0, m - bound / 2) }

  function GoRight(m: int, bound: int, capacity: int): Search {
    if bound < capacity - m then Right(m, bound) else GoBinary(m + bound / 2, capacity)
  }

  function GoBinary(l: int, r: int): Search { if l < r then Binary(l, r) else GoCompare(l - 1) }

  function GoCompare(pos: int): Search { if pos < 0 then Missing else Compare(pos) }

  // The search after a read of the value x.
  function Feed(q: Search, key: int, capacity: int, x: int): Search {
    match q
    case First(m) => if x > key then GoLeft(m, 1) else GoRight(m, 1, capacity)
    case Left(m, bound) => if x > key then GoLeft(m, bound * 2) else GoBinary(m - bound, m - bound / 2)
    case Right(m, bound) => if x <= key then GoRight(m, bound * 2, capacity) else GoBinary(m + bound / 2, m + bound)
    case Binary(l, r) => if x <= key then GoBinary(l + (r - l) / 2 + 1, r) else GoBinary(l, l + (r - l) / 2)
    case Compare(pos) => if x == key then Load(pos) else Missing
    case Load(pos) => Found(x)
    case _ => q
  }

  // ----- Whatever is read, the search stays in bounds and ends -----

  predicate InBounds(q: Search, capacity: int) {
    match q
    case First(m) => 0 <= m < capacity
    case Left(m, bound) => 1 <= bound < m < capacity
    case Right(m, bound) => 0 <= m && 1 <= bound && m + bound < capacity
    case Binary(l, r) => 0 <= l < r <= capacity
    case Compare(pos) => 0 <= pos < capacity
    case Load(pos) => 0 <= pos < capacity
    case _ => true
  }

  // How much is left to do.
  function Remaining(q: Search, capacity: int): int {
    match q
    case First(m) => 2 * capacity + 5
    case Left(m, bound) => capacity + 3 + (m - bound)
    case Right(m, bound) => capacity + 3 + (capacity - m - bound)
    case Binary(l, r) => r - l + 2
    case Compare(pos) => 2
    case Load(pos) => 1
    case _ => 0
  }

  lemma BinaryInBounds(l: int, r: int, capacity: int)
    requires 0 <= l <= r <= capacity
    ensures InBounds(GoBinary(l, r), capacity) && 0 <= Remaining(GoBinary(l, r), capacity) <= r - l + 2
  {
  }

  lemma LeftInBounds(m: int, bound: int, capacity: int)
    requires 0 <= m < capacity && 1 <= bound && bound / 2 <= m
    ensures InBounds(GoLeft(m, bound), capacity)
    ensures 0 <= Remaining(GoLeft(m, bound), capacity) <= capacity + 2 + (if bound < m then 1 + m - bound else 0)
  {
    hide GoBinary;
    BinaryInBounds(0, m - bound / 2, capacity);
  }

  lemma RightInBounds(m: int, bound: int, capacity: int)
    requires 0 <= m < capacity && 1 <= bound && m + bound / 2 <= capacity
    ensures InBounds(GoRight(m, bound, capacity), capacity)
    ensures 0 <= Remaining(GoRight(m, bound, capacity), capacity) <= capacity + 2 + (if bound < capacity - m then 1 + capacity - m - bound else 0)
  {
    hide GoBinary;
    BinaryInBounds(m + bound / 2, capacity, capacity);
  }

  lemma FeedInBounds(q: Search, key: int, capacity: int, x: int)
    requires InBounds(q, capacity)
    ensures InBounds(Feed(q, key, capacity, x), capacity)
    ensures !q.Done() ==> 0 <= q.Asks() < capacity && 0 <= Remaining(Feed(q, key, capacity, x), capacity) < Remaining(q, capacity)
  {
    hide GoBinary, GoLeft, GoRight;
    match q {
      case First(m) =>
        LeftInBounds(m, 1, capacity);
        RightInBounds(m, 1, capacity);
      case Left(m, bound) =>
        LeftInBounds(m, bound * 2, capacity);
        BinaryInBounds(m - bound, m - bound / 2, capacity);
      case Right(m, bound) =>
        RightInBounds(m, bound * 2, capacity);
        BinaryInBounds(m + bound / 2, m + bound, capacity);
      case Binary(l, r) =>
        BinaryInBounds(l + (r - l) / 2 + 1, r, capacity);
        BinaryInBounds(l, l + (r - l) / 2, capacity);
      case _ =>
    }
  }

  // ----- Alone on a gapped array it gives the map's answer -----

  ghost predicate UpTo(v: seq<Slot>, key: int, l: int) { l <= |v| && forall i :: 0 <= i < l ==> v[i].key <= key }

  ghost predicate From(v: seq<Slot>, key: int, r: int) { 0 <= r && forall i :: r <= i < |v| ==> v[i].key > key }

  // What the reads so far have established.
  ghost predicate Knows(q: Search, v: seq<Slot>, key: int) {
    match q
    case First(m) => true
    case Left(m, bound) => From(v, key, m - bound / 2)
    case Right(m, bound) => UpTo(v, key, m + bound / 2 + 1)
    case Binary(l, r) => UpTo(v, key, l) && From(v, key, r)
    case Compare(pos) => UpTo(v, key, pos + 1) && From(v, key, pos + 1)
    case Load(pos) => UpTo(v, key, pos + 1) && From(v, key, pos + 1) && 0 <= pos < |v| && v[pos].key == key
    case Found(payload) => key in ToMap(Entries(v)) && payload == ToMap(Entries(v))[key]
    case Missing => key !in ToMap(Entries(v))
  }

  lemma SlotsSorted(v: seq<Slot>, i: int)
    requires Gapped(v) && 0 <= i < |v|
    ensures forall j :: 0 <= j <= i ==> v[j].key <= v[i].key
    ensures forall j :: i <= j < |v| ==> v[i].key <= v[j].key
  {
    hide GappedTo;
    forall j | 0 <= j <= i ensures v[j].key <= v[i].key {
      KeysGrow(v, END_SENTINEL, j, i);
    }
    forall j | i <= j < |v| ensures v[i].key <= v[j].key {
      KeysGrow(v, END_SENTINEL, i, j);
    }
  }

  // One read, of a slot that has not changed.
  lemma FeedKnows(q: Search, v: seq<Slot>, key: int)
    requires Gapped(v) && key < END_SENTINEL && InBounds(q, |v|) && !q.Done() && Knows(q, v, key)
    ensures 0 <= q.Asks() < |v| && Knows(Feed(q, key, |v|, Reads(q, v[q.Asks()])), v, key)
  {
    hide Gapped, ToMap, Entries;
    var i := q.Asks();
    var x := Reads(q, v[i]);
    SlotsSorted(v, i);
    if q.Compare? || q.Load? {
      Decided(v, key, i);
    } else {
      assert x > key ==> From(v, key, i);
      assert x <= key ==> UpTo(v, key, i + 1);
      EndOfSearch(q, v, key, x);
    }
  }

  // The slot before the first greater key decides.
  lemma Decided(v: seq<Slot>, key: int, pos: int)
    requires Gapped(v) && key < END_SENTINEL && 0 <= pos < |v| && UpTo(v, key, pos + 1) && From(v, key, pos + 1)
    ensures key in ToMap(Entries(v)) <==> v[pos].key == key
    ensures key in ToMap(Entries(v)) ==> ToMap(Entries(v))[key] == v[pos].payload
  {
    hide GappedTo, ToMap, Entries;
    LookupAt(v, key);
    assert FirstGreater(v, key) == pos + 1;
  }

  lemma NothingBefore(v: seq<Slot>, key: int)
    requires Gapped(v) && key < END_SENTINEL && From(v, key, 0)
    ensures key !in ToMap(Entries(v))
  {
    hide GappedTo, ToMap, Entries;
    LookupAt(v, key);
    assert FirstGreater(v, key) == 0;
  }

  lemma EndOfSearch(q: Search, v: seq<Slot>, key: int, x: int)
    requires Gapped(v) && key < END_SENTINEL && InBounds(q, |v|) && Knows(q, v, key) && (q.First? || q.Left? || q.Right? || q.Binary?)
    requires 0 <= q.Asks() < |v| && x == v[q.Asks()].key
    requires (x > key ==> From(v, key, q.Asks())) && (x <= key ==> UpTo(v, key, q.Asks() + 1))
    ensures Knows(Feed(q, key, |v|, x), v, key)
  {
    hide Gapped, ToMap, Entries;
    if Feed(q, key, |v|, x).Missing? {
      NothingBefore(v, key);
    }
  }

  // The search with nobody in its way.
  function Alone(q: Search, v: seq<Slot>, key: int): (a: Search)
    requires InBounds(q, |v|)
    ensures a.Done()
    decreases Remaining(q, |v|)
  {
    if q.Done() then q
    else
      FeedInBounds(q, key, |v|, Reads(q, v[if 0 <= q.Asks() < |v| then q.Asks() else 0]));
      Alone(Feed(q, key, |v|, Reads(q, v[q.Asks()])), v, key)
  }

  lemma {:induction false} AloneIsLookup(q: Search, v: seq<Slot>, key: int)
    requires Gapped(v) && key < END_SENTINEL && InBounds(q, |v|) && Knows(q, v, key)
    ensures Knows(Alone(q, v, key), v, key)
    decreases Remaining(q, |v|)
  {
    hide Gapped, Knows, InBounds, Feed, Remaining;
    if !q.Done() {
      FeedKnows(q, v, key);
      FeedInBounds(q, key, |v|, Reads(q, v[q.Asks()]));
      AloneIsLookup(Feed(q, key, |v|, Reads(q, v[q.Asks()])), v, key);
    }
  }

  // Whatever the model predicts, the search alone finds the key exactly if the map has it, with its
  // payload.
  lemma LookupAlone(v: seq<Slot>, key: int, prediction: int)
    requires Gapped(v) && key < END_SENTINEL && |v| > 0
    ensures var a, m := Alone(Start(prediction, |v|), v, key), ToMap(Entries(v));
            (a.Found? <==> key in m) && (a.Found? ==> a.payload == m[key])
  {
    hide Gapped, ToMap, Entries, Alone;
    AloneIsLookup(Start(prediction, |v|), v, key);
  }
}
