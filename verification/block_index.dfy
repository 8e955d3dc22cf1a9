/** Indexes over bundles of blocks: which block numbers carry which keys. */
module BlockIndexing {
  import opened Chain

  type Index = map<string, set<nat>>

  /** A block as an indexer is told about it. */
  datatype Item = Item(num: nat, keys: seq<string>)

  function LowBoundary(i: nat, mod: nat): (r: nat)
    requires mod > 0
    ensures r <= i < r + mod && r % mod == 0
  {
    MultipleHasNoRemainder(i / mod, mod);
    i - i % mod
  }

  lemma MultipleHasNoRemainder(q: nat, mod: nat)
    requires mod > 0
    ensures (mod * q) % mod == 0
  {
    var r := mod * q;
    NoMultipleBetween(q - r / mod, mod, r % mod);
  }

  /** A boundary at or below `i` is not above the low boundary of `i`. */
  lemma BoundaryAbove(low: nat, i: nat, mod: nat)
    requires mod > 0 && low % mod == 0 && low <= i
    ensures low <= LowBoundary(i, mod)
  {
    var a, b := low / mod, i / mod;
    assert low == mod * a && i == mod * b + i % mod;
    if b < a {
      Times(mod, b + 1, a);
    } else {
      Times(mod, a, b);
    }
  }

  lemma Times(mod: nat, x: nat, y: nat)
    requires x <= y
    ensures mod * x <= mod * y
  {
  }

  lemma NextBoundary(low: nat, mod: nat)
    requires mod > 0 && low % mod == 0
    ensures (low + mod) % mod == 0
  {
    MultipleHasNoRemainder(low / mod + 1, mod);
    assert mod * (low / mod + 1) == low + mod;
  }

  lemma NoMultipleBetween(d: int, mod: nat, rest: nat)
    requires mod * d == rest < mod
    ensures rest == 0
  {
    assert d >= 1 ==> mod * d >= mod;
  }

  lemma BoundariesApart(a: nat, b: nat, mod: nat)
    requires mod > 0 && a % mod == 0 && b % mod == 0 && a < b
    ensures a + mod <= b
  {
    var x, y := a / mod, b / mod;
    assert a == mod * x && b == mod * y;
    if y <= x {
      Times(mod, y, x);
    } else {
      Times(mod, x + 1, y);
    }
  }

  lemma BoundaryIs(low: nat, n: nat, mod: nat)
    requires mod > 0 && low % mod == 0 && low <= n < low + mod
    ensures LowBoundary(n, mod) == low
  {
    BoundaryAbove(low, n, mod);
    if low < LowBoundary(n, mod) {
      BoundariesApart(low, LowBoundary(n, mod), mod);
    }
  }

  function KeysAt(kv: Index, n: nat): set<string> { set k <- kv | n in kv[k] }

  function KeysOf(stream: seq<Item>, n: nat): set<string> {
    set i, k | 0 <= i < |stream| && stream[i].num == n && k in stream[i].keys :: k
  }

  predicate InOrder(stream: seq<Item>) { forall i, j | 0 <= i < j < |stream| :: stream[i].num < stream[j].num }

  /** Between `low` and `high` the index says of every number just what the stream said. */
  ghost predicate Covers(kv: Index, stream: seq<Item>, low: nat, high: nat) {
    && (forall n | low <= n < high :: KeysAt(kv, n) == KeysOf(stream, n))
    && (forall k <- kv, n <- kv[k] :: n < high)
  }

  function Plus(kv: Index, key: string, n: nat): Index { kv[key := (if key in kv then kv[key] else {}) + {n}] }

  function PlusAll(kv: Index, keys: seq<string>, n: nat): Index {
    if keys == [] then kv else Plus(PlusAll(kv, keys[..|keys| - 1], n), keys[|keys| - 1], n)
  }

  lemma PlusKeys(kv: Index, key: string, n: nat, m: nat)
    ensures KeysAt(Plus(kv, key, n), m) == KeysAt(kv, m) + (if m == n then {key} else {})
  {
    forall k ensures k in KeysAt(Plus(kv, key, n), m) <==> k in KeysAt(kv, m) || (m == n && k == key) {
    }
  }

  lemma {:induction false} PlusAllKeys(kv: Index, keys: seq<string>, n: nat, m: nat)
    ensures KeysAt(PlusAll(kv, keys, n), m) == KeysAt(kv, m) + (if m == n then set k <- keys else {})
    ensures forall k, x | k in PlusAll(kv, keys, n) && x in PlusAll(kv, keys, n)[k] :: x == n || (k in kv && x in kv[k])
    decreases |keys|
  {
    if keys != [] {
      var l := |keys| - 1;
      PlusAllKeys(kv, keys[..l], n, m);
      PlusKeys(PlusAll(kv, keys[..l], n), keys[l], n, m);
      assert keys == keys[..l] + [keys[l]];
      assert (set k <- keys) == (set k <- keys[..l]) + {keys[l]};
    }
  }

  lemma KeysOfOne(stream: seq<Item>, item: Item, n: nat)
    ensures KeysOf(stream + [item], n) == KeysOf(stream, n) + (if n == item.num then set k <- item.keys else {})
  {
    var longer := stream + [item];
    assert longer[|stream|] == item;
    forall k ensures k in KeysOf(longer, n) <==> k in KeysOf(stream, n) || (n == item.num && k in item.keys) {
      if k in KeysOf(stream, n) {
        var i :| 0 <= i < |stream| && stream[i].num == n && k in stream[i].keys;
        assert longer[i] == stream[i];
      }
    }
  }

  lemma CoversOne(kv: Index, stream: seq<Item>, item: Item, low: nat, high: nat)
    requires Covers(kv, stream, low, high) && item.num < high
    ensures Covers(PlusAll(kv, item.keys, item.num), stream + [item], low, high)
  {
    forall n | low <= n < high ensures KeysAt(PlusAll(kv, item.keys, item.num), n) == KeysOf(stream + [item], n) {
      PlusAllKeys(kv, item.keys, item.num, n);
      KeysOfOne(stream, item, n);
    }
    PlusAllKeys(kv, item.keys, item.num, 0);
  }

  /** What is said later about higher numbers does not touch the range. */
  lemma CoversStays(kv: Index, stream: seq<Item>, item: Item, low: nat, high: nat)
    requires Covers(kv, stream, low, high) && high <= item.num
    ensures Covers(kv, stream + [item], low, high)
  {
    forall n | low <= n < high ensures KeysAt(kv, n) == KeysOf(stream + [item], n) {
      KeysOfOne(stream, item, n);
    }
  }

  lemma CoversNothing(stream: seq<Item>, low: nat, high: nat)
    requires forall i | 0 <= i < |stream| :: stream[i].num < low
    ensures Covers(map[], stream, low, high)
  {
    forall n | low <= n < high ensures KeysAt(map[], n) == KeysOf(stream, n) {
      assert forall i | 0 <= i < |stream| :: stream[i].num != n;
    }
  }

  // Which index files there are

  /** The size of index files, the first streamable number, and where indexing is told to start. */
  datatype IndexPlan = IndexPlan(size: nat, first: nat, start: Option<nat>) {
    predicate Ok() { size > 0 && (start.Some? ==> start.value % size == 0) }

    /** Where the first index begins when `n` is the number that starts it, if it can. */
    function Opens(n: nat): Option<nat>
      requires Ok()
    {
      if n % size == 0 then Some(n) else if n == first then Some(LowBoundary(n, size)) else start
    }
  }

  ghost predicate NotStarted(plan: IndexPlan, stream: seq<Item>)
    requires plan.Ok()
  {
    forall h | 0 <= h < |stream| :: plan.Opens(stream[h].num).None?
  }

  /** Item `k` is the first that an index can start with, and that index begins at `low`. */
  ghost predicate StartsAt(plan: IndexPlan, stream: seq<Item>, k: nat, low: nat)
    requires plan.Ok()
  {
    k < |stream| && plan.Opens(stream[k].num) == Some(low) && forall h | 0 <= h < k :: plan.Opens(stream[h].num).None?
  }

  /** From the start on, the stream had a number in the range that begins at `l` and then one beyond it. */
  ghost predicate EnteredAndLeft(plan: IndexPlan, stream: seq<Item>, k: nat, low: nat, l: nat)
    requires plan.Ok()
  {
    exists i, j | k <= i < j < |stream| ::
      low <= stream[i].num && LowBoundary(stream[i].num, plan.size) == l && l + plan.size <= stream[j].num
  }

  ghost predicate Beyond(stream: seq<Item>, k: nat, high: nat) {
    exists j | k <= j < |stream| :: high <= stream[j].num
  }

  ghost predicate FiledFrom(plan: IndexPlan, stream: seq<Item>, k: nat, low: nat, l: nat)
    requires plan.Ok()
  {
    && StartsAt(plan, stream, k, low)
    && ((l == low && Beyond(stream, k, low + plan.size)) || EnteredAndLeft(plan, stream, k, low, l))
  }

  /** The range that begins at `l` is to have a file: the stream started in it or entered it, and has left it. */
  ghost predicate Filed(plan: IndexPlan, stream: seq<Item>, l: nat)
    requires plan.Ok()
  {
    exists k, low :: FiledFrom(plan, stream, k, low, l)
  }

  ghost predicate FillingFrom(plan: IndexPlan, stream: seq<Item>, k: nat, low: nat, l: nat)
    requires plan.Ok()
  {
    && StartsAt(plan, stream, k, low)
    && var last := stream[|stream| - 1].num; l == if last < low + plan.size then low else LowBoundary(last, plan.size)
  }

  /** The index being filled begins at `l`. */
  ghost predicate Filling(plan: IndexPlan, stream: seq<Item>, l: nat)
    requires plan.Ok()
  {
    exists k, low :: FillingFrom(plan, stream, k, low, l)
  }

  lemma OneStart(plan: IndexPlan, stream: seq<Item>, k: nat, low: nat, k': nat, low': nat)
    requires plan.Ok() && StartsAt(plan, stream, k, low) && StartsAt(plan, stream, k', low')
    ensures k == k' && low == low'
  {
  }

  lemma StartAligned(plan: IndexPlan, stream: seq<Item>, k: nat, low: nat)
    requires plan.Ok() && StartsAt(plan, stream, k, low)
    ensures low % plan.size == 0
  {
  }

  lemma NoneFiled(plan: IndexPlan, stream: seq<Item>)
    requires plan.Ok() && NotStarted(plan, stream)
    ensures forall l :: !Filed(plan, stream, l)
  {
    forall k, low, l ensures !FiledFrom(plan, stream, k, low, l) {
    }
  }

  lemma NotYet(plan: IndexPlan, stream: seq<Item>, item: Item)
    requires plan.Ok() && NotStarted(plan, stream) && plan.Opens(item.num).None?
    ensures NotStarted(plan, stream + [item])
  {
  }

  /** Whether `l` has a file, when the start is known. */
  lemma FiledIs(plan: IndexPlan, stream: seq<Item>, k: nat, low: nat, l: nat)
    requires plan.Ok() && StartsAt(plan, stream, k, low) && InOrder(stream)
    ensures Filed(plan, stream, l) <==>
      (l == low && low + plan.size <= stream[|stream| - 1].num) || EnteredAndLeft(plan, stream, k, low, l)
  {
    hide EnteredAndLeft, StartsAt, LowBoundary;
    StartInside(plan, stream, k, low);
    BeyondIs(stream, k, low + plan.size);
    if Filed(plan, stream, l) {
      var k': nat, low': nat :| FiledFrom(plan, stream, k', low', l);
      OneStart(plan, stream, k, low, k', low');
    }
    if (l == low && low + plan.size <= stream[|stream| - 1].num) || EnteredAndLeft(plan, stream, k, low, l) {
      assert FiledFrom(plan, stream, k, low, l);
    }
  }

  lemma StartInside(plan: IndexPlan, stream: seq<Item>, k: nat, low: nat)
    requires plan.Ok() && StartsAt(plan, stream, k, low)
    ensures k < |stream|
  {
  }

  lemma BeyondIs(stream: seq<Item>, k: nat, high: nat)
    requires k < |stream| && InOrder(stream)
    ensures Beyond(stream, k, high) <==> high <= stream[|stream| - 1].num
  {
    var last := |stream| - 1;
    if high <= stream[last].num {
      assert k <= last < |stream|;
    }
  }

  /** The item that starts the first index. */
  lemma StartsNow(plan: IndexPlan, stream: seq<Item>, item: Item, low: nat)
    requires plan.Ok() && NotStarted(plan, stream) && plan.Opens(item.num) == Some(low) && InOrder(stream + [item])
    ensures var longer, left := stream + [item], low + plan.size <= item.num;
      && Filling(plan, longer, if left then LowBoundary(item.num, plan.size) else low)
      && forall l :: Filed(plan, longer, l) <==> l == low && left
  {
    hide LowBoundary;
    var longer, k := stream + [item], |stream|;
    assert StartsAt(plan, longer, k, low);
    assert FillingFrom(plan, longer, k, low, if low + plan.size <= item.num then LowBoundary(item.num, plan.size) else low);
    forall l ensures Filed(plan, longer, l) <==> l == low && low + plan.size <= item.num {
      FiledIs(plan, longer, k, low, l);
    }
  }

  /** The range being filled has no file yet. */
  lemma FillingNotFiled(plan: IndexPlan, stream: seq<Item>, l: nat)
    requires plan.Ok() && Filling(plan, stream, l) && InOrder(stream)
    ensures !Filed(plan, stream, l) && l % plan.size == 0
  {
    hide LowBoundary;
    var k: nat, low: nat :| FillingFrom(plan, stream, k, low, l);
    FiledIs(plan, stream, k, low, l);
    StartAligned(plan, stream, k, low);
    NotLeft(plan, stream, k, low, l);
  }

  lemma NotLeft(plan: IndexPlan, stream: seq<Item>, k: nat, low: nat, l: nat)
    requires plan.Ok() && FillingFrom(plan, stream, k, low, l) && InOrder(stream)
    ensures !EnteredAndLeft(plan, stream, k, low, l)
  {
  }

  /** One more item: the range being filled is left, or not. */
  lemma FilesOneMore(plan: IndexPlan, stream: seq<Item>, item: Item, cur: nat)
    requires plan.Ok() && Filling(plan, stream, cur) && InOrder(stream + [item])
    ensures var longer, left := stream + [item], cur + plan.size <= item.num;
      && Filling(plan, longer, if left then LowBoundary(item.num, plan.size) else cur)
      && forall l :: Filed(plan, longer, l) <==> Filed(plan, stream, l) || (l == cur && left)
  {
    hide LowBoundary, EnteredAndLeft, StartsAt, InOrder;
    var longer := stream + [item];
    var k: nat, low: nat :| FillingFrom(plan, stream, k, low, cur);
    StartAligned(plan, stream, k, low);
    StartStays(plan, stream, item, k, low);
    NextFilling(plan, stream, item, k, low, cur);
    forall l ensures Filed(plan, longer, l) <==> Filed(plan, stream, l) || (l == cur && cur + plan.size <= item.num) {
      FiledIs(plan, stream, k, low, l);
      FiledIs(plan, longer, k, low, l);
      LeavesOneMore(plan, stream, item, k, low, cur, l);
    }
  }

  lemma StartStays(plan: IndexPlan, stream: seq<Item>, item: Item, k: nat, low: nat)
    requires plan.Ok() && StartsAt(plan, stream, k, low) && InOrder(stream + [item])
    ensures StartsAt(plan, stream + [item], k, low) && k < |stream| && InOrder(stream)
    ensures stream[|stream| - 1].num < item.num
  {
    var longer := stream + [item];
    assert forall i | 0 <= i < |stream| :: longer[i] == stream[i];
    assert longer[|stream|] == item;
  }

  lemma NextFilling(plan: IndexPlan, stream: seq<Item>, item: Item, k: nat, low: nat, cur: nat)
    requires plan.Ok() && FillingFrom(plan, stream, k, low, cur) && StartsAt(plan, stream + [item], k, low)
    requires low % plan.size == 0 && stream[|stream| - 1].num < item.num
    ensures FillingFrom(plan, stream + [item], k, low, if cur + plan.size <= item.num then LowBoundary(item.num, plan.size) else cur)
  {
    var last, n := stream[|stream| - 1].num, item.num;
    if low + plan.size <= last && n < cur + plan.size {
      BoundaryIs(cur, n, plan.size);
    }
  }

  lemma LeavesOneMore(plan: IndexPlan, stream: seq<Item>, item: Item, k: nat, low: nat, cur: nat, l: nat)
    requires plan.Ok() && FillingFrom(plan, stream, k, low, cur) && k < |stream|
    requires low % plan.size == 0 && InOrder(stream) && stream[|stream| - 1].num < item.num
    ensures var last := stream[|stream| - 1].num;
      (l == low && low + plan.size <= item.num) || EnteredAndLeft(plan, stream + [item], k, low, l) <==>
      (l == low && low + plan.size <= last) || EnteredAndLeft(plan, stream, k, low, l) || (l == cur && cur + plan.size <= item.num)
  {
    hide LowBoundary, EnteredAndLeft, InOrder;
    var last := stream[|stream| - 1].num;
    if EnteredAndLeft(plan, stream, k, low, l) {
      EntersStill(plan, stream, item, k, low, l);
    }
    if l == cur && cur + plan.size <= item.num && low + plan.size <= last {
      LeavesLast(plan, stream, item, k, low);
    }
    if EnteredAndLeft(plan, stream + [item], k, low, l) && !EnteredAndLeft(plan, stream, k, low, l) {
      LastRange(plan, stream, item, k, low, l);
      if last < low + plan.size {
        BoundaryIs(low, last, plan.size);
      }
    }
  }

  /** The range of the last item, left by one more. */
  lemma LeavesLast(plan: IndexPlan, stream: seq<Item>, item: Item, k: nat, low: nat)
    requires plan.Ok() && k < |stream| && low <= stream[|stream| - 1].num
    ensures var cur := LowBoundary(stream[|stream| - 1].num, plan.size);
      cur + plan.size <= item.num ==> EnteredAndLeft(plan, stream + [item], k, low, cur)
  {
    var longer, m := stream + [item], |stream| - 1;
    assert longer[m] == stream[m] && longer[m + 1] == item;
  }

  /** A range left only by the new item is that of the last one before. */
  lemma LastRange(plan: IndexPlan, stream: seq<Item>, item: Item, k: nat, low: nat, l: nat)
    requires plan.Ok() && k < |stream| && InOrder(stream)
    requires EnteredAndLeft(plan, stream + [item], k, low, l) && !EnteredAndLeft(plan, stream, k, low, l)
    ensures var last := stream[|stream| - 1].num;
      low <= last && LowBoundary(last, plan.size) == l && l + plan.size <= item.num
  {
    hide LowBoundary;
    var longer, m := stream + [item], |stream| - 1;
    assert forall x | 0 <= x <= m :: longer[x] == stream[x];
    var i: nat, j: nat :| k <= i < j < |longer| && low <= longer[i].num
      && LowBoundary(longer[i].num, plan.size) == l && l + plan.size <= longer[j].num;
    assert i <= m;
    assert j == m + 1 && longer[j] == item;
    assert stream[i].num <= stream[m].num;
    assert i < m ==> stream[m].num < l + plan.size;
    BoundaryIs(l, stream[m].num, plan.size);
  }

  lemma EntersStill(plan: IndexPlan, stream: seq<Item>, item: Item, k: nat, low: nat, l: nat)
    requires plan.Ok() && EnteredAndLeft(plan, stream, k, low, l)
    ensures EnteredAndLeft(plan, stream + [item], k, low, l)
  {
    var longer := stream + [item];
    var i: nat, j: nat :| k <= i < j < |stream| && low <= stream[i].num
      && LowBoundary(stream[i].num, plan.size) == l && l + plan.size <= stream[j].num;
    assert longer[i] == stream[i] && longer[j] == stream[j];
  }

  /** One more item, whether it starts the first index or goes on with one: `low` is where that index begins. */
  lemma OneMore(plan: IndexPlan, stream: seq<Item>, item: Item, low: nat)
    requires plan.Ok() && InOrder(stream + [item])
    requires Filling(plan, stream, low) || (NotStarted(plan, stream) && plan.Opens(item.num) == Some(low))
    ensures var longer, left := stream + [item], low + plan.size <= item.num;
      && Filling(plan, longer, if left then LowBoundary(item.num, plan.size) else low)
      && (forall l :: Filed(plan, longer, l) <==> Filed(plan, stream, l) || (l == low && left))
      && !Filed(plan, stream, low)
  {
    hide LowBoundary, Filling, Filed, InOrder;
    Shorter(stream, item);
    if Filling(plan, stream, low) {
      FilesOneMore(plan, stream, item, low);
      FillingNotFiled(plan, stream, low);
    } else {
      StartsNow(plan, stream, item, low);
      NoneFiled(plan, stream);
    }
  }

  lemma Shorter(stream: seq<Item>, item: Item)
    requires InOrder(stream + [item])
    ensures InOrder(stream)
  {
    assert forall i | 0 <= i < |stream| :: (stream + [item])[i] == stream[i];
  }

  /** `store` holds exactly the files that are due, but for those lost. */
  ghost predicate Holds(plan: IndexPlan, stream: seq<Item>, store: IndexStore, lost: set<nat>)
    requires plan.Ok()
  {
    && (forall f: (nat, nat) :: f in store <==> f.0 == plan.size && Filed(plan, stream, f.1) && f.1 !in lost)
    && (forall l <- lost :: Filed(plan, stream, l))
  }

  lemma FilesGrow(plan: IndexPlan, stream: seq<Item>, item: Item, low: nat, was: IndexStore, now: IndexStore,
                  missing: set<nat>, lost: set<nat>)
    requires plan.Ok() && Holds(plan, stream, was, missing) && !Filed(plan, stream, low)
    requires forall l :: Filed(plan, stream + [item], l) <==> Filed(plan, stream, l) || (l == low && low + plan.size <= item.num)
    requires if low + plan.size <= item.num then
               || (now.Keys == was.Keys + {(plan.size, low)} && lost == missing)
               || (now.Keys == was.Keys && lost == missing + {low})
             else now.Keys == was.Keys && lost == missing
    ensures Holds(plan, stream + [item], now, lost)
  {
    hide Filed;
    forall f: (nat, nat) ensures f in now <==> f.0 == plan.size && Filed(plan, stream + [item], f.1) && f.1 !in lost {
      assert f == (f.0, f.1);
      assert f in now <==> f in now.Keys;
      assert f in was <==> f in was.Keys;
    }
  }

  /**
   A stream that starts on a boundary, on the first streamable number, or where indexing was told to start: every
   range that it entered and left is filed. Nothing else ever is but the range it was told to start with.
   */
  lemma RangesFiled(plan: IndexPlan, stream: seq<Item>, i: nat, j: nat)
    requires plan.Ok() && InOrder(stream) && i < j < |stream|
    requires stream[0].num % plan.size == 0 || stream[0].num == plan.first || (plan.start.Some? && plan.start.value <= stream[0].num)
    ensures var low := LowBoundary(stream[i].num, plan.size);
      low + plan.size <= stream[j].num ==> Filed(plan, stream, low)
  {
    hide LowBoundary;
    var n := stream[0].num;
    var low := if n % plan.size == 0 then n else if n == plan.first then LowBoundary(n, plan.size) else plan.start.value;
    assert StartsAt(plan, stream, 0, low);
    var l := LowBoundary(stream[i].num, plan.size);
    assert low <= n <= stream[i].num;
    if l + plan.size <= stream[j].num {
      assert EnteredAndLeft(plan, stream, 0, low, l);
      assert FiledFrom(plan, stream, 0, low, l);
    }
  }

  lemma OnlyRangesFiled(plan: IndexPlan, stream: seq<Item>, l: nat)
    requires plan.Ok() && InOrder(stream) && Filed(plan, stream, l)
    ensures l % plan.size == 0 && exists x <- stream :: l + plan.size <= x.num
    ensures plan.start == Some(l) || exists x <- stream :: LowBoundary(x.num, plan.size) == l
  {
    hide LowBoundary;
    var k: nat, low: nat :| FiledFrom(plan, stream, k, low, l);
    StartAligned(plan, stream, k, low);
    if EnteredAndLeft(plan, stream, k, low, l) {
      var i: nat, j: nat :| k <= i < j < |stream| && low <= stream[i].num
        && LowBoundary(stream[i].num, plan.size) == l && l + plan.size <= stream[j].num;
      assert stream[i] in stream && stream[j] in stream;
    } else {
      var j: nat :| k <= j < |stream| && low + plan.size <= stream[j].num;
      assert stream[j] in stream && stream[k] in stream;
      if stream[k].num % plan.size == 0 {
        BoundaryIs(low, stream[k].num, plan.size);
      }
    }
  }

  class BlockIndex {
    const lowBlockNum: nat
    const indexSize: nat
    var kv: Index

    constructor (lowBlockNum: nat, indexSize: nat)
      ensures this.lowBlockNum == lowBlockNum && this.indexSize == indexSize && kv == map[]
    {
      this.lowBlockNum, this.indexSize := lowBlockNum, indexSize;
      kv := map[];
    }

    method Add(key: string, blockNum: nat)
      modifies this
      ensures kv == Plus(old(kv), key, blockNum)
    {
      if key !in kv {
        assert {} + {blockNum} == {blockNum};
        kv := kv[key := {blockNum}];
        return;
      }
      kv := kv[key := kv[key] + {blockNum}];
    }
  }

  /** Index files are stored by their size and their first number. */
  type IndexStore = map<(nat, nat), Index>

  ghost predicate StoreCovers(store: IndexStore, stream: seq<Item>) {
    forall f <- store :: f.0 > 0 && f.1 % f.0 == 0 && Covers(store[f], stream, f.1, f.1 + f.0)
  }

  class BlockIndexer {
    var currentIndex: BlockIndex?
    const indexSize: nat
    const firstStreamable: nat
    const definedStartBlock: Option<nat>
    var store: IndexStore
    /** What it was told so far, and where the ranges begin whose files could not be written. */
    ghost var fed: seq<Item>
    ghost var lost: set<nat>

    ghost predicate Valid()
      reads this, currentIndex
    {
      Sound() && (currentIndex != null ==> Current()) && Stored(Last())
    }

    ghost predicate Sound()
      reads this
    {
      && indexSize > 0 && (definedStartBlock.Some? ==> definedStartBlock.value % indexSize == 0)
      && InOrder(fed) && (forall i | 0 <= i < |fed| :: firstStreamable <= fed[i].num)
      && (definedStartBlock.Some? && fed != [] ==> currentIndex != null)
    }

    /** The index being filled covers its range of all that was told. */
    ghost predicate Current()
      requires currentIndex != null
      reads this, currentIndex
    {
      var low, high := currentIndex.lowBlockNum, currentIndex.lowBlockNum + indexSize;
      && currentIndex.indexSize == indexSize > 0 && low % indexSize == 0
      && Covers(currentIndex.kv, fed, low, high) && forall i | 0 <= i < |fed| :: fed[i].num < high
    }

    /** Every file written covers its range of all that was told, and no later number falls in it. */
    ghost predicate Stored(next: nat)
      reads this
    {
      StoreCovers(store, fed) && forall f <- store :: f.1 + f.0 <= next
    }

    ghost function Plan(): IndexPlan { IndexPlan(indexSize, firstStreamable, definedStartBlock) }

    /** The files are exactly those of the ranges that the stream has left, but for what could not be written. */
    ghost predicate InFiles()
      reads this, currentIndex
    {
      && Plan().Ok() && InOrder(fed)
      && (if currentIndex == null then NotStarted(Plan(), fed) else Filling(Plan(), fed, currentIndex.lowBlockNum))
      && Holds(Plan(), fed, store, lost)
    }

    ghost function Last(): nat
      reads this
    {
      if fed == [] then 0 else fed[|fed| - 1].num
    }

    constructor (indexSize: nat, firstStreamable: nat, definedStartBlock: Option<nat>)
      requires indexSize > 0 && (definedStartBlock.Some? ==> definedStartBlock.value % indexSize == 0)
      ensures Valid() && InFiles() && fed == [] && store == map[] && currentIndex == null && lost == {}
      ensures this.indexSize == indexSize && this.firstStreamable == firstStreamable && this.definedStartBlock == definedStartBlock
    {
      this.indexSize, this.firstStreamable, this.definedStartBlock := indexSize, firstStreamable, definedStartBlock;
      currentIndex, store, fed, lost := null, map[], [], {};
      new;
      NoneFiled(Plan(), []);
    }

    /** `succeeds` is the store's answer after its last attempt. */
    method WriteIndex(succeeds: bool) returns (ok: bool)
      requires currentIndex != null
      modifies this`store
      ensures ok == succeeds
      ensures store == if succeeds then old(store)[(indexSize, currentIndex.lowBlockNum) := currentIndex.kv] else old(store)
    {
      if succeeds {
        store := store[(indexSize, currentIndex.lowBlockNum) := currentIndex.kv];
      }
      return succeeds;
    }

    /**
     The next block: every file ever written covers its range of all that was told, whatever is told later, and
     there is a file for exactly each range left. `succeeds` is the store's answer if the block leaves one.
     */
    method Add(keys: seq<string>, blockNum: nat, succeeds: bool)
      requires Valid() && InFiles() && firstStreamable <= blockNum && forall i | 0 <= i < |fed| :: fed[i].num < blockNum
      modifies this, currentIndex
      ensures Valid() && InFiles() && fed == old(fed) + [Item(blockNum, keys)]
      ensures currentIndex == old(currentIndex) || (currentIndex != null && fresh(currentIndex))
      ensures forall f <- old(store) :: f in store && store[f] == old(store)[f]
      ensures succeeds ==> lost == old(lost)
    {
      hide Covers, StoreCovers, Filed, Filling, NotStarted, LowBoundary, InOrder;
      ghost var item := Item(blockNum, keys);
      Later(fed, item);
      if currentIndex == null {
        Begin(blockNum);
        if currentIndex == null {
          NotYet(Plan(), fed, item);
          NoneFiled(Plan(), fed);
          NoneFiled(Plan(), fed + [item]);
          Skip(keys, blockNum);
          return;
        }
      }
      ghost var was, missing, low := store, lost, currentIndex.lowBlockNum;
      OneMore(Plan(), fed, item, low);
      if blockNum >= currentIndex.lowBlockNum + indexSize {
        Roll(blockNum, succeeds);
      }
      FilesGrow(Plan(), fed, item, low, was, store, missing, lost);
      Tell(keys, blockNum);
    }

    lemma Later(stream: seq<Item>, item: Item)
      requires InOrder(stream) && forall i | 0 <= i < |stream| :: stream[i].num < item.num
      ensures InOrder(stream + [item])
    {
    }

    /** Told before any index can be started: the number is in none. */
    ghost method Skip(keys: seq<string>, blockNum: nat)
      requires Valid() && currentIndex == null && definedStartBlock.None? && firstStreamable <= blockNum
      requires forall i | 0 <= i < |fed| :: fed[i].num < blockNum
      modifies this`fed
      ensures Valid() && fed == old(fed) + [Item(blockNum, keys)]
    {
      hide Covers, StoreCovers;
      StoreStays(store, fed, Item(blockNum, keys));
      fed := fed + [Item(blockNum, keys)];
    }

    method Tell(keys: seq<string>, blockNum: nat)
      requires Sound() && currentIndex != null && Current() && Stored(blockNum) && firstStreamable <= blockNum
      requires blockNum < currentIndex.lowBlockNum + indexSize && forall i | 0 <= i < |fed| :: fed[i].num < blockNum
      modifies this`fed, currentIndex
      ensures Valid() && fed == old(fed) + [Item(blockNum, keys)]
    {
      hide Covers, StoreCovers;
      ghost var item := Item(blockNum, keys);
      StoreStays(store, fed, item);
      CoversOne(currentIndex.kv, fed, item, currentIndex.lowBlockNum, currentIndex.lowBlockNum + indexSize);
      AddKeys(keys, blockNum);
      fed := fed + [item];
    }

    /** The first index starts at a boundary, or where it is known that nothing comes before. */
    method Begin(blockNum: nat)
      requires Valid() && currentIndex == null && firstStreamable <= blockNum
      requires forall i | 0 <= i < |fed| :: fed[i].num < blockNum
      modifies this`currentIndex
      ensures Valid() && (currentIndex != null ==> fresh(currentIndex)) && (definedStartBlock.Some? ==> currentIndex != null)
      ensures Plan().Opens(blockNum) == if currentIndex == null then None else Some(currentIndex.lowBlockNum)
    {
      hide Covers, StoreCovers;
      if blockNum % indexSize == 0 {
        currentIndex := new BlockIndex(blockNum, indexSize);
      } else if blockNum == firstStreamable {
        var lb := LowBoundary(blockNum, indexSize);
        currentIndex := new BlockIndex(lb, indexSize);
      } else if definedStartBlock.Some? {
        currentIndex := new BlockIndex(definedStartBlock.value, indexSize);
      } else {
        return;
      }
      CoversNothing(fed, currentIndex.lowBlockNum, currentIndex.lowBlockNum + indexSize);
    }

    /** A number above the index's range: the index is written, and a new one started. */
    method Roll(blockNum: nat, succeeds: bool)
      requires Sound() && currentIndex != null && Current() && Stored(blockNum)
      requires currentIndex.lowBlockNum + indexSize <= blockNum && forall i | 0 <= i < |fed| :: fed[i].num < blockNum
      modifies this`currentIndex, this`store, this`lost
      ensures var low := old(currentIndex.lowBlockNum);
        && store == (if succeeds then old(store)[(indexSize, low) := old(currentIndex.kv)] else old(store))
        && lost == (if succeeds then old(lost) else old(lost) + {low})
      ensures Sound() && currentIndex != null && fresh(currentIndex) && Current() && Stored(blockNum)
      ensures currentIndex.lowBlockNum == LowBoundary(blockNum, indexSize) && blockNum < currentIndex.lowBlockNum + indexSize
    {
      hide Covers;
      var ok := WriteIndex(succeeds);
      if !ok {
        lost := lost + {currentIndex.lowBlockNum};
      }
      var lb := LowBoundary(blockNum, indexSize);
      NextBoundary(currentIndex.lowBlockNum, indexSize);
      BoundaryAbove(currentIndex.lowBlockNum + indexSize, blockNum, indexSize);
      currentIndex := new BlockIndex(lb, indexSize);
      CoversNothing(fed, lb, lb + indexSize);
    }

    method AddKeys(keys: seq<string>, blockNum: nat)
      requires currentIndex != null
      modifies currentIndex
      ensures currentIndex.kv == PlusAll(old(currentIndex.kv), keys, blockNum)
    {
      for j := 0 to |keys|
        invariant currentIndex.kv == PlusAll(old(currentIndex.kv), keys[..j], blockNum)
      {
        currentIndex.Add(keys[j], blockNum);
        assert keys[..j + 1][..j] == keys[..j];
      }
      assert keys[..|keys|] == keys;
    }

    lemma StoreStays(store: IndexStore, fed: seq<Item>, item: Item)
      requires StoreCovers(store, fed) && forall f <- store :: f.1 + f.0 <= item.num
      ensures StoreCovers(store, fed + [item])
    {
      forall f <- store ensures Covers(store[f], fed + [item], f.1, f.1 + f.0) {
        CoversStays(store[f], fed, item, f.1, f.1 + f.0);
      }
    }
  }
}
