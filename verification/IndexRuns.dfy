// Runs of the whole index.
module IndexRuns {
  // Model nodes above each other with data nodes below them: every key is sent down from the top. A data
  // node is the map it stands for, and an operation does to it what it does to a map.

  import opened GappedArray
  import opened DataNode
  import opened FanoutTree
  import opened FanoutChoice
  import opened Directory
  import opened DirectoryRuns
  import opened LeafSplit

  // The children of a model node are named by their places in `sub`; nodes that have been replaced stay
  // there, but no pointer leads to them.
  datatype Tree = Leaf(content: map<int, int>) | Model(d: Dir, sub: seq<Tree>)

  function To(d: Dir, key: real): Child
    requires |d.c| > 0
  {
    d.c[Bucket(d.a, d.b, |d.c|, key)]
  }

  ghost predicate Ok(t: Tree) { t.Model? ==> NodeOk(t.d, |t.sub|) && forall x :: 0 <= x < |t.sub| ==> Ok(t.sub[x]) }

  ghost predicate NodeOk(d: Dir, n: nat) { Sound(d) && |d.c| > 0 && forall j :: 0 <= j < |d.c| ==> d.c[j].id < n }

  // What a traversal from the top finds.
  ghost function Lookup(t: Tree, key: int): Option
    requires Ok(t)
  {
    if t.Leaf? then Get(t.content, key) else Lookup(t.sub[To(t.d, key as real).id], key)
  }

  // The index stands for the map.
  ghost predicate Agrees(t: Tree, m: map<int, int>)
    requires Ok(t)
  {
    forall key: int :: Lookup(t, key) == Get(m, key)
  }

  // ----- Operations -----

  ghost function Operated(t: Tree, op: Op): Tree
    requires Ok(t)
  {
    if t.Leaf? then Leaf(MapAfter(t.content, op))
    else var x := To(t.d, op.key as real).id; t.(sub := t.sub[x := Operated(t.sub[x], op)])
  }

  ghost function Answered(t: Tree, op: Op): Answer
    requires Ok(t)
  {
    if t.Leaf? then MapAnswer(t.content, op) else Answered(t.sub[To(t.d, op.key as real).id], op)
  }

  // What an operation does to its own key, and how it is answered.
  function After(found: Option, op: Op): Option {
    match op
    case Find(_) => found
    case Put(_, x) => if found.Some? then found else Some(x)
    case Set(_, x) => if found.Some? then Some(x) else None
    case Remove(_) => None
  }

  function Reply(found: Option, op: Op): Answer {
    match op
    case Find(_) => if found.Some? then Payload(found.payload) else Missing
    case Put(_, _) => Done(found.None?)
    case Set(_, _) => Done(found.Some?)
    case Remove(_) => Done(found.Some?)
  }

  lemma MapOperated(m: map<int, int>, op: Op, key: int)
    ensures Get(MapAfter(m, op), key) == if key == op.key then After(Get(m, key), op) else Get(m, key)
    ensures MapAnswer(m, op) == Reply(Get(m, op.key), op)
  {
  }

  lemma {:induction false} OperatedAt(t: Tree, op: Op, key: int)
    requires Ok(t)
    ensures Ok(Operated(t, op))
    ensures Lookup(Operated(t, op), key) == if key == op.key then After(Lookup(t, key), op) else Lookup(t, key)
    ensures Answered(t, op) == Reply(Lookup(t, op.key), op)
    decreases t
  {
    hide NodeOk, To, Get, MapAfter, MapAnswer, After, Reply;
    if t.Leaf? {
      MapOperated(t.content, op, key);
    } else {
      ChildIn(t.d, |t.sub|, op.key as real);
      ChildIn(t.d, |t.sub|, key as real);
      OperatedAt(t.sub[To(t.d, op.key as real).id], op, key);
    }
  }

  lemma ChildIn(d: Dir, n: nat, key: real)
    requires NodeOk(d, n)
    ensures |d.c| > 0 && To(d, key).id < n
  {
  }

  // ----- Restructurings -----

  datatype Move =
    | Copy(i: nat)                                            // a data node, at another density
    | Widen(i: nat, e: nat)                                   // a model node, by a factor of 2^e
    | Sideways(i: nat, used: seq<FTNode>, kids: seq<Child>)   // a data node split into the slots it has
    | Downwards(i: nat, below: Dir, used: seq<FTNode>, kids: seq<Child>, contents: seq<map<int, int>>)

  // A child of the node is replaced, in all its slots, by new nodes, which take the next places in `sub`:
  // by what ResizeFromExisting, Expand, SplitSideways and SplitInTwo, and SplitDownwards build. A split that
  // expands the parent first is two moves.
  ghost predicate Moved(d: Dir, sub: seq<Tree>, d': Dir, sub': seq<Tree>, x: Move) {
    x.i < |d.c| && d.c[x.i].id < |sub| &&
    var child := sub[d.c[x.i].id];
    match x
    case Copy(i) => child.Leaf? && Changes(d, Replacement(i, |sub|), d') && sub' == sub + [child]
    case Widen(i, e) =>
      && child.Model? && Changes(d, Replacement(i, |sub|), d') && |sub'| == |sub| + 1 && sub'[..|sub|] == sub
      && sub'[|sub|].Model? && Changes(child.d, Expansion(e), sub'[|sub|].d) && sub'[|sub|].sub == child.sub
    case Sideways(i, used, kids) =>
      && child.Leaf? && Changes(d, Division(i, used, kids), d') && (forall k :: 0 <= k < |kids| ==> kids[k].id == |sub| + k)
      && sub' == sub + Leaves(SharesOf(child.content, kids))
    case Downwards(i, e, used, kids, contents) =>
      && child.Leaf? && Changes(d, Replacement(i, |sub|), d') && e.a > 0.0 && |e.c| == Pow2(e.g) && BuiltFor(e, used, kids)
      && (forall k :: 0 <= k < |kids| ==> kids[k].id == k) && Divides(Table(e.c, e.a, e.b), kids, child.content, contents)
      && sub' == sub + [Model(e, Leaves(contents))]
  }

  function Leaves(contents: seq<map<int, int>>): (r: seq<Tree>)
    ensures |r| == |contents| && forall k :: 0 <= k < |r| ==> r[k] == Leaf(contents[k])
  {
    seq(|contents|, k requires 0 <= k < |contents| => Leaf(contents[k]))
  }

  // A move at the node itself or at one further down.
  ghost predicate Reshaped(t: Tree, t': Tree)
    decreases t
  {
    t.Model? && t'.Model? && ((exists x :: Moved(t.d, t.sub, t'.d, t'.sub, x)) || exists y :: 0 <= y < |t.sub| && Below(t, t', y))
  }

  ghost predicate Below(t: Tree, t': Tree, y: nat)
    requires t.Model? && t'.Model? && y < |t.sub|
    decreases t, 0
  {
    t'.d == t.d && |t'.sub| == |t.sub| && t'.sub == t.sub[y := t'.sub[y]] && Reshaped(t.sub[y], t'.sub[y])
  }

  // ----- Where a key is sent afterwards -----

  lemma ReplacementRoutes(d: Dir, i: nat, id: nat, d': Dir, key: real)
    requires |d.c| > 0 && Changes(d, Replacement(i, id), d')
    ensures |d'.c| > 0 && To(d', key) == if To(d, key) == d.c[i] then d.c[i].(id := id) else To(d, key)
  {
    hide Bucket;
  }

  lemma ExpansionRoutes(d: Dir, e: nat, d': Dir, key: real)
    requires Sound(d) && |d.c| > 0 && Changes(d, Expansion(e), d')
    ensures |d'.c| > 0 && To(d', key) == To(d, key)
  {
    hide Bucket, Blocks, Spans, Expanded, Times, Pow2;
    ExpandKeepsAll(d.c, d.g, e, d.a, d.b);
    ExpandKeepsRouting(d.c, d.g, e, d.a, d.b, key);
  }

  lemma DivisionRoutes(d: Dir, i: nat, used: seq<FTNode>, kids: seq<Child>, d': Dir, key: real) returns (k: nat)
    requires Sound(d) && |d.c| > 0 && Changes(d, Division(i, used, kids), d')
    ensures |d'.c| > 0
    ensures To(d, key) == d.c[i] ==> k < |kids| && To(d', key) == kids[k] && Directory.Share(kids, k, key)
    ensures To(d, key) != d.c[i] ==> To(d', key) == To(d, key)
  {
    hide Bucket, Blocks, Spans, BlockStart, TilesFrom, KidsOk, KidSpans, FilledPart, Directory.Share, Pow2;
    k := 0;
    var slot := Bucket(d.a, d.b, |d.c|, key);
    BlockIs(d.c, d.g, i);
    if BlockStart(d.c, d.g, i) <= slot < BlockStart(d.c, d.g, i) + Pow2(d.g - d.c[i].depth) {
      k := SplitRoutes(d.c, d'.c, d.g, i, used, kids, d.a, d.b, key);
    } else {
      OutsideBlock(d.c, d.g, d.a, d.b, i, slot);
    }
  }

  // Every slot of a node that has been built leads to one of its new children.
  lemma BuiltFrom(e: Dir, used: seq<FTNode>, kids: seq<Child>, j: nat) returns (k: nat)
    requires |e.c| == Pow2(e.g) && BuiltFor(e, used, kids) && j < |e.c|
    ensures k < |kids| && e.c[j] == kids[k]
  {
    hide Pow2, KidSpans, TilesFrom, Start, Repeats;
    k := PartOf(used, e.g, 0, j);
    assert FilledPart(e.c, 0, e.g, used[k], kids[k]);
  }

  lemma DivisionIn(d: Dir, i: nat, used: seq<FTNode>, kids: seq<Child>, d': Dir, j: nat)
    requires Sound(d) && |d.c| > 0 && Changes(d, Division(i, used, kids), d') && j < |d'.c|
    ensures |d'.c| == |d.c| && (d'.c[j] == d.c[j] || d'.c[j] in kids)
  {
    hide Bucket, Blocks, Spans, BlockStart, TilesFrom, KidsOk, KidSpans, FilledPart, Pow2;
    var s, m := BlockStart(d.c, d.g, i), d.g - d.c[i].depth;
    if s <= j < s + Pow2(m) {
      var k := PartOf(used, m, 0, j - s);
      assert FilledPart(d'.c, s, m, used[k], kids[k]);
      PartHolds(d'.c, s, m, used[k], kids[k], j);
    }
  }

  lemma PartHolds(c: seq<Child>, s: nat, m: nat, n: FTNode, kid: Child, j: nat)
    requires FilledPart(c, s, m, n, kid) && j < |c| && s + Start(n, m) <= j < s + Start(n, m) + Repeats(n, m)
    ensures c[j] == kid
  {
  }

  // ----- What the methods leave is a move -----

  // What ResizeFromExisting and ReplaceChild leave.
  lemma CopyMoves(t: Tree, i: nat, d': Dir)
    requires t.Model? && i < |t.d.c| && t.d.c[i].id < |t.sub| && t.sub[t.d.c[i].id].Leaf? && Changes(t.d, Replacement(i, |t.sub|), d')
    ensures Reshaped(t, Model(d', t.sub + [t.sub[t.d.c[i].id]]))
  {
    assert Moved(t.d, t.sub, d', t.sub + [t.sub[t.d.c[i].id]], Copy(i));
  }

  // What ExpandParent leaves.
  lemma ExpansionMoves(t: Tree, i: nat, e: nat, wide: Dir, d': Dir)
    requires t.Model? && i < |t.d.c| && t.d.c[i].id < |t.sub| && t.sub[t.d.c[i].id].Model?
    requires Changes(t.sub[t.d.c[i].id].d, Expansion(e), wide) && Changes(t.d, Replacement(i, |t.sub|), d')
    ensures Reshaped(t, Model(d', t.sub + [Model(wide, t.sub[t.d.c[i].id].sub)]))
  {
    hide Changes;
    var sub' := t.sub + [Model(wide, t.sub[t.d.c[i].id].sub)];
    assert sub'[..|t.sub|] == t.sub;
    assert Moved(t.d, t.sub, d', sub', Widen(i, e));
  }

  // What SplitInPlace and HalvesInPlace leave.
  lemma SplitMoves(t: Tree, i: nat, used: seq<FTNode>, kids: seq<Child>, d': Dir)
    requires t.Model? && i < |t.d.c| && t.d.c[i].id < |t.sub| && t.sub[t.d.c[i].id].Leaf?
    requires Changes(t.d, Division(i, used, kids), d') && forall k :: 0 <= k < |kids| ==> kids[k].id == |t.sub| + k
    ensures Reshaped(t, Model(d', t.sub + Leaves(SharesOf(t.sub[t.d.c[i].id].content, kids))))
  {
    hide Changes;
    assert Moved(t.d, t.sub, d', t.sub + Leaves(SharesOf(t.sub[t.d.c[i].id].content, kids)), Sideways(i, used, kids));
  }

  // What HangBelow leaves.
  lemma HangingMoves(t: Tree, i: nat, below: Dir, used: seq<FTNode>, kids: seq<Child>, contents: seq<map<int, int>>, d': Dir)
    requires t.Model? && i < |t.d.c| && t.d.c[i].id < |t.sub| && t.sub[t.d.c[i].id].Leaf? && Changes(t.d, Replacement(i, |t.sub|), d')
    requires below.a > 0.0 && |below.c| == Pow2(below.g) && BuiltFor(below, used, kids) && forall k :: 0 <= k < |kids| ==> kids[k].id == k
    requires Divides(Table(below.c, below.a, below.b), kids, t.sub[t.d.c[i].id].content, contents)
    ensures Reshaped(t, Model(d', t.sub + [Model(below, Leaves(contents))]))
  {
    hide Changes, BuiltFor, Divides, Pow2;
    assert Moved(t.d, t.sub, d', t.sub + [Model(below, Leaves(contents))], Downwards(i, below, used, kids, contents));
  }

  // And so it is further down.
  lemma InsideMoves(t: Tree, y: nat, u: Tree)
    requires t.Model? && y < |t.sub| && Reshaped(t.sub[y], u)
    ensures Reshaped(t, t.(sub := t.sub[y := u]))
  {
    hide Moved;
    var t' := t.(sub := t.sub[y := u]);
    assert t.sub[y := t'.sub[y]] == t'.sub;
    assert Below(t, t', y);
  }

  // ----- A move changes no lookup -----

  lemma Widened(t: Tree, e: nat, d': Dir, key: int)
    requires Ok(t) && t.Model? && Changes(t.d, Expansion(e), d')
    ensures Ok(Model(d', t.sub)) && Lookup(Model(d', t.sub), key) == Lookup(t, key)
  {
    hide Bucket, Blocks, Spans, Expanded, Times, Pow2, To;
    ChangeKeeps(t.d, Expansion(e), d');
    ExpansionRoutes(t.d, e, d', key as real);
    forall j | 0 <= j < |d'.c| ensures d'.c[j].id < |t.sub| {
      ExpandedFrom(t.d.c, t.d.g, e, j);
    }
  }

  lemma Hung(e: Dir, used: seq<FTNode>, kids: seq<Child>, content: map<int, int>, contents: seq<map<int, int>>, key: int)
    requires e.a > 0.0 && |e.c| == Pow2(e.g) && BuiltFor(e, used, kids) && (forall k :: 0 <= k < |kids| ==> kids[k].id == k)
    requires Divides(Table(e.c, e.a, e.b), kids, content, contents)
    ensures Ok(Model(e, Leaves(contents))) && Lookup(Model(e, Leaves(contents)), key) == Get(content, key)
  {
    hide Bucket, Pow2, BuiltFor, Sound;
    assert Directory.Built(e);
    BuiltIsSound(e);
    forall j | 0 <= j < |e.c| ensures e.c[j].id < |contents| {
      var k := BuiltFrom(e, used, kids, j);
    }
    var y := Table(e.c, e.a, e.b);
    assert y.To(key as real) == To(e, key as real);
    var k := BuiltFrom(e, used, kids, Bucket(e.a, e.b, |e.c|, key as real));
    if key in content {
      var i :| 0 <= i < |kids| && HeldAt(y, kids, contents, key, content[key], i);
    }
  }

  lemma OldKept(d: Dir, sub: seq<Tree>, sub': seq<Tree>)
    requires (forall x :: 0 <= x < |sub| ==> Ok(sub[x])) && |sub| <= |sub'| && sub'[..|sub|] == sub
    requires forall x :: |sub| <= x < |sub'| ==> Ok(sub'[x])
    ensures forall x :: 0 <= x < |sub'| ==> Ok(sub'[x])
    ensures forall x :: 0 <= x < |sub| ==> sub'[x] == sub[x]
  {
    forall x | 0 <= x < |sub| ensures sub'[x] == sub[x] {
      assert sub'[x] == sub'[..|sub|][x];
    }
  }

  // A child that another takes the place of, which finds what it found.
  lemma TakesPlace(d: Dir, sub: seq<Tree>, d': Dir, sub': seq<Tree>, i: nat, key: int)
    requires Ok(Model(d, sub)) && i < |d.c| && Changes(d, Replacement(i, |sub|), d') && |sub'| == |sub| + 1 && sub'[..|sub|] == sub
    requires Ok(sub'[|sub|]) && d.c[i].id < |sub| && Ok(sub[d.c[i].id]) && Lookup(sub'[|sub|], key) == Lookup(sub[d.c[i].id], key)
    ensures Ok(Model(d', sub')) && Lookup(Model(d', sub'), key) == Lookup(Model(d, sub), key)
  {
    hide Bucket, Blocks, Spans, To, Sound;
    ChangeKeeps(d, Replacement(i, |sub|), d');
    OldKept(d, sub, sub');
    ReplacementRoutes(d, i, |sub|, d', key as real);
    ChildIn(d, |sub|, key as real);
    assert Ok(Model(d', sub')) by {
      forall j | 0 <= j < |d'.c| ensures d'.c[j].id < |sub'| { }
    }
  }

  lemma Divided(d: Dir, sub: seq<Tree>, d': Dir, sub': seq<Tree>, i: nat, used: seq<FTNode>, kids: seq<Child>, key: int)
    requires Ok(Model(d, sub)) && Moved(d, sub, d', sub', Sideways(i, used, kids))
    ensures Ok(Model(d', sub')) && Lookup(Model(d', sub'), key) == Lookup(Model(d, sub), key)
  {
    hide Bucket, Blocks, Spans, To, Sound, Changes;
    var content := sub[d.c[i].id].content;
    assert sub'[..|sub|] == sub;
    ChangeKeeps(d, Division(i, used, kids), d');
    OldKept(d, sub, sub');
    forall j | 0 <= j < |d'.c| ensures d'.c[j].id < |sub'| {
      DivisionIn(d, i, used, kids, d', j);
    }
    ChildIn(d, |sub|, key as real);
    var k := DivisionRoutes(d, i, used, kids, d', key as real);
    assert To(d, key as real) == d.c[i] ==> sub'[kids[k].id] == Leaf(Contents(content, kids, k));
  }

  lemma MoveKeeps(d: Dir, sub: seq<Tree>, d': Dir, sub': seq<Tree>, x: Move, key: int)
    requires Ok(Model(d, sub)) && Moved(d, sub, d', sub', x)
    ensures Ok(Model(d', sub')) && Lookup(Model(d', sub'), key) == Lookup(Model(d, sub), key)
  {
    hide Bucket, Blocks, Spans, To, Sound, Changes, Divides, BuiltFor, Pow2;
    var child := sub[d.c[x.i].id];
    assert Ok(child);
    match x {
      case Copy(i) =>
        TakesPlace(d, sub, d', sub', i, key);
      case Widen(i, e) =>
        Widened(child, e, sub'[|sub|].d, key);
        TakesPlace(d, sub, d', sub', i, key);
      case Sideways(i, used, kids) =>
        Divided(d, sub, d', sub', i, used, kids, key);
      case Downwards(i, e, used, kids, contents) =>
        Hung(e, used, kids, child.content, contents, key);
        assert Lookup(child, key) == Get(child.content, key);
        TakesPlace(d, sub, d', sub', i, key);
    }
  }

  // Copies, expansions and splits anywhere in the index change no lookup.
  lemma {:induction false} ReshapeKeeps(t: Tree, t': Tree, key: int)
    requires Ok(t) && Reshaped(t, t')
    ensures Ok(t') && Lookup(t', key) == Lookup(t, key)
    decreases t
  {
    hide To, NodeOk, Moved;
    if x :| Moved(t.d, t.sub, t'.d, t'.sub, x) {
      assert t == Model(t.d, t.sub) && t' == Model(t'.d, t'.sub);
      MoveKeeps(t.d, t.sub, t'.d, t'.sub, x, key);
    } else {
      var y :| 0 <= y < |t.sub| && Below(t, t', y);
      ReshapeKeeps(t.sub[y], t'.sub[y], key);
      ChildIn(t.d, |t.sub|, key as real);
    }
  }

  // ----- Bulk load -----

  lemma {:induction false} TileOf(used: seq<FTNode>, lo: int, hi: int, i: int) returns (k: nat)
    requires KeysTile(used, lo, hi) && lo <= i < hi
    ensures k < |used| && used[k].leftBoundary <= i < used[k].rightBoundary
    decreases |used|
  {
    if i < used[0].rightBoundary {
      k := 0;
    } else {
      var x := TileOf(used[1..], used[0].rightBoundary, hi, i);
      k := x + 1;
    }
  }

  function Keys(values: seq<Entry>): (keys: seq<int>)
    ensures |keys| == |values| && forall i :: 0 <= i < |keys| ==> keys[i] == values[i].0
  {
    seq(|values|, i requires 0 <= i < |values| => values[i].0)
  }

  // What is known of a model node that has been loaded, with the nodes below it.
  ghost predicate Loaded(e: Dir, sub: seq<Tree>, values: seq<Entry>, used: seq<FTNode>, kids: seq<Child>, a0: real, b0: real, marks: seq<bool>) {
    && a0 > 0.0 && e.a == Times(a0, e.g) && e.b == Times(b0, e.g) && |e.c| == Pow2(e.g) && BuiltFor(e, used, kids)
    && |marks| == |values| && KeysTile(used, 0, |values|) && |sub| == |used| == |kids|
    && forall k :: 0 <= k < |used| ==> kids[k].id == k && PartLoaded(sub[k], values, used[k], a0, b0, marks)
  }

  ghost predicate PartLoaded(t: Tree, values: seq<Entry>, n: FTNode, a0: real, b0: real, marks: seq<bool>)
    requires a0 > 0.0 && |marks| == |values|
  {
    && NodeBounds(n, Keys(values), marks, a0, b0) && 0 <= n.leftBoundary <= n.rightBoundary <= |values|
    && Ok(t) && Agrees(t, ToMap(values[n.leftBoundary..n.rightBoundary]))
  }

  // If the nodes below stand for their parts of the values, the model node stands for all of them: so a
  // recursive bulk load stands for its values.
  lemma BulkLoadAgrees(e: Dir, sub: seq<Tree>, values: seq<Entry>, used: seq<FTNode>, kids: seq<Child>, a0: real, b0: real, marks: seq<bool>)
    requires Ordered(values) && Loaded(e, sub, values, used, kids, a0, b0, marks)
    ensures Ok(Model(e, sub)) && Agrees(Model(e, sub), ToMap(values))
  {
    hide Bucket, Pow2, BuiltFor, Sound, Times, KeysTile, PartLoaded, ToMap, Agrees, Get;
    TimesPositive(a0, e.g);
    assert Directory.Built(e);
    BuiltIsSound(e);
    forall j | 0 <= j < |e.c| ensures e.c[j].id < |sub| {
      var k := BuiltFrom(e, used, kids, j);
    }
    forall k | 0 <= k < |sub| ensures Ok(sub[k]) {
      PartOk(sub[k], values, used[k], a0, b0, marks);
    }
    assert Agrees(Model(e, sub), ToMap(values)) by {
      forall key: int ensures Lookup(Model(e, sub), key) == Get(ToMap(values), key) {
        LoadedAt(e, sub, values, used, kids, a0, b0, marks, key);
      }
      AgreesIs(Model(e, sub), ToMap(values));
    }
  }

  lemma PartOk(t: Tree, values: seq<Entry>, n: FTNode, a0: real, b0: real, marks: seq<bool>)
    requires a0 > 0.0 && |marks| == |values| && PartLoaded(t, values, n, a0, b0, marks)
    ensures Ok(t)
  {
  }

  lemma AgreesIs(t: Tree, m: map<int, int>)
    requires Ok(t) && forall key: int :: Lookup(t, key) == Get(m, key)
    ensures Agrees(t, m)
  {
  }

  lemma LoadedAt(e: Dir, sub: seq<Tree>, values: seq<Entry>, used: seq<FTNode>, kids: seq<Child>, a0: real, b0: real, marks: seq<bool>, key: int)
    requires Ordered(values) && Loaded(e, sub, values, used, kids, a0, b0, marks) && Ok(Model(e, sub))
    ensures Lookup(Model(e, sub), key) == Get(ToMap(values), key)
  {
    hide Bucket, Pow2, Sound, Times, KeysTile, NodeBounds, ToMap, BuiltFor, Ordered;
    var k := BuiltFrom(e, used, kids, Bucket(e.a, e.b, |e.c|, key as real));
    MapHolds(values);
    if key in ToMap(values) {
      var i :| 0 <= i < |values| && values[i].0 == key;
      k := TileOf(used, 0, |values|, i);
      LoadedRoutes(e, values, used, kids, a0, b0, marks, k, i);
    }
    assert PartLoaded(sub[k], values, used[k], a0, b0, marks);
    SliceHas(values, used[k].leftBoundary, used[k].rightBoundary, key);
  }

  lemma LoadedRoutes(e: Dir, values: seq<Entry>, used: seq<FTNode>, kids: seq<Child>, a0: real, b0: real, marks: seq<bool>, k: nat, i: nat)
    requires a0 > 0.0 && e.a == Times(a0, e.g) && e.b == Times(b0, e.g) && |e.c| == Pow2(e.g) && BuiltFor(e, used, kids)
    requires Ordered(values) && |marks| == |values| && k < |used| && NodeBounds(used[k], Keys(values), marks, a0, b0)
    requires i < |values| && used[k].leftBoundary <= i < used[k].rightBoundary
    ensures k < |kids| && |e.c| > 0 && To(e, values[i].0 as real) == kids[k]
  {
    hide Bucket, Pow2, TilesFrom, KidSpans, FilledPart, NodeBounds, Times, TilesFrom;
    BulkLoadRoutes(e.c, e.g, used, kids, a0, b0, Keys(values), marks, k, i);
  }

  // A slice of ordered entries has the key if it holds it, with the same payload.
  lemma SliceHas(values: seq<Entry>, left: nat, right: nat, key: int)
    requires Ordered(values) && left <= right <= |values|
    ensures key in ToMap(values[left..right]) ==> key in ToMap(values) && ToMap(values[left..right])[key] == ToMap(values)[key]
    ensures (exists i :: left <= i < right && values[i].0 == key) ==> key in ToMap(values[left..right])
  {
    hide ToMap;
    var part := values[left..right];
    assert values == values[..left] + part + values[right..];
    MiddleOfMap(values[..left], part, values[right..], key);
    MapHolds(part);
    if i :| left <= i < right && values[i].0 == key {
      assert part[i - left] == values[i];
    }
  }

  // ----- Runs -----

  // All states of a run are Ok (IndexIsMap).

  datatype Event = Operation(op: Op) | Restructuring

  ghost predicate Happens(r: Tree, before: seq<Answer>, e: Event, t: Tree, answers: seq<Answer>)
    requires Ok(r)
  {
    match e
    case Operation(op) => t == Operated(r, op) && answers == before + [Answered(r, op)]
    case Restructuring => Reshaped(r, t) && answers == before
  }

  ghost predicate Run(init: Tree, evs: seq<Event>, t: Tree, answers: seq<Answer>)
    decreases |evs|, 0
  {
    if evs == [] then t == init && answers == [] else RunThen(init, evs[..|evs| - 1], evs[|evs| - 1], t, answers)
  }

  ghost predicate RunThen(init: Tree, evs: seq<Event>, e: Event, t: Tree, answers: seq<Answer>)
    decreases |evs|, 1
  {
    exists r, before :: Run(init, evs, r, before) && Ok(r) && Happens(r, before, e, t, answers)
  }

  // The operations of a run, without the restructurings.
  function Ops(evs: seq<Event>): seq<Op> {
    if evs == [] then []
    else Ops(evs[..|evs| - 1]) + if evs[|evs| - 1].Operation? then [evs[|evs| - 1].op] else []
  }

  lemma HappensKeeps(r: Tree, before: seq<Answer>, e: Event, t: Tree, answers: seq<Answer>, m: map<int, int>)
    requires Ok(r) && Agrees(r, m) && Happens(r, before, e, t, answers)
    ensures Ok(t) && Agrees(t, if e.Operation? then MapAfter(m, e.op) else m)
    ensures answers == if e.Operation? then before + [MapAnswer(m, e.op)] else before
  {
    hide Ok, Lookup, Operated, Answered, Reshaped, MapAfter, MapAnswer, After, Reply, Get;
    if e.Operation? {
      MapOperated(m, e.op, e.op.key);
      OperatedAt(r, e.op, e.op.key);
      forall key: int ensures Lookup(t, key) == Get(MapAfter(m, e.op), key) {
        OperatedAt(r, e.op, key);
        MapOperated(m, e.op, key);
      }
    } else {
      ReshapeKeeps(r, t, 0);
      forall key: int ensures Lookup(t, key) == Get(m, key) {
        ReshapeKeeps(r, t, key);
      }
    }
  }

  // Whatever is copied, expanded and split in between, the index answers any run of operations as a
  // finite map does.
  lemma {:induction false} IndexIsMap(init: Tree, m: map<int, int>, evs: seq<Event>, t: Tree, answers: seq<Answer>)
    requires Ok(init) && Agrees(init, m) && Run(init, evs, t, answers)
    ensures Ok(t) && Agrees(t, MapRun(m, Ops(evs))) && answers == MapAnswers(m, Ops(evs))
    decreases |evs|
  {
    hide Ok, Agrees, Happens, MapAfter, MapAnswer;
    if evs != [] {
      var n := |evs| - 1;
      assert RunThen(init, evs[..n], evs[n], t, answers);
      var r, before :| Run(init, evs[..n], r, before) && Ok(r) && Happens(r, before, evs[n], t, answers);
      IndexIsMap(init, m, evs[..n], r, before);
      HappensKeeps(r, before, evs[n], t, answers, MapRun(m, Ops(evs[..n])));
      if evs[n].Operation? {
        assert Ops(evs)[..|Ops(evs)| - 1] == Ops(evs[..n]);
      } else {
        assert Ops(evs) == Ops(evs[..n]);
      }
    }
  }
}
