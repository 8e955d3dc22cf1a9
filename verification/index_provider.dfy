/** Looking block numbers up in index files. */
module IndexProviding {
  import opened Chain
  import opened ResumeModel
  import opened BlockIndexing
  import opened ResolverModel

  predicate Increasing(s: seq<nat>) { forall i, j | 0 <= i < j < |s| :: s[i] < s[j] }

  /** The user's filter looks at each number by itself: it lists those whose keys it wants. */
  ghost predicate Pointwise(filter: Index -> seq<nat>, wants: set<string> -> bool) {
    forall kv: Index :: Increasing(filter(kv)) && forall n: nat :: n in filter(kv) <==> wants(KeysAt(kv, n))
  }

  // One such filter

  predicate KeyMatches(key: string, prefix: string, suffix: string) {
    (prefix == "" || prefix <= key) && (suffix == "" || HasSuffix(key, suffix))
  }

  /** A key matches when it begins with the prefix and ends with the suffix. */
  lemma KeyMatchesMeans(key: string, prefix: string, suffix: string)
    ensures KeyMatches(key, prefix, suffix) <==> (exists x :: key == prefix + x) && exists y :: key == y + suffix
  {
    assert key == "" + key && key == key + "";
    if KeyMatches(key, prefix, suffix) {
      assert prefix != "" ==> key == prefix + key[|prefix|..];
      assert suffix != "" ==> key == key[..|key| - |suffix|] + suffix;
    }
    if y :| key == y + suffix {
      assert key[|key| - |suffix|..] == suffix;
    }
  }

  /** The union of the numbers of all keys that match; nothing when there is none, or nothing to match. */
  method GetByPrefixAndSuffix(kv: Index, prefix: string, suffix: string) returns (r: Option<set<nat>>)
    ensures r.Some? <==> (prefix != "" || suffix != "") && exists k <- kv :: KeyMatches(k, prefix, suffix)
    ensures r.Some? ==> forall n :: n in r.value <==> exists k <- KeysAt(kv, n) :: KeyMatches(k, prefix, suffix)
  {
    if prefix == "" && suffix == "" {
      return None;
    }
    r := None;
    var left := kv.Keys;
    while left != {}
      invariant left <= kv.Keys
      invariant r.Some? <==> exists k <- kv :: k !in left && KeyMatches(k, prefix, suffix)
      invariant r.Some? ==> forall n :: n in r.value <==> exists k <- KeysAt(kv, n) :: k !in left && KeyMatches(k, prefix, suffix)
      decreases left
    {
      var k :| k in left;
      ghost var before, was := left, r;
      left := left - {k};
      if KeyMatches(k, prefix, suffix) {
        r := Some((if r.Some? then r.value else {}) + kv[k]);
        forall n ensures n in r.value <==> exists x <- KeysAt(kv, n) :: x !in left && KeyMatches(x, prefix, suffix) {
          assert was.None? ==> forall x <- KeysAt(kv, n) :: x in before || !KeyMatches(x, prefix, suffix);
        }
      }
    }
  }

  lemma {:induction false} HasMaximum(s: set<nat>) returns (m: nat)
    requires s != {}
    ensures m in s && forall n <- s :: n <= m
    decreases |s|
  {
    var first :| first in s;
    var rest := s - {first};
    assert s == rest + {first};
    if rest == {} {
      m := first;
    } else {
      var other := HasMaximum(rest);
      m := if other > first then other else first;
    }
  }

  ghost function Sorted(s: set<nat>): (r: seq<nat>)
    ensures Increasing(r) && forall n :: n in r <==> n in s
  {
    if s == {} then []
    else
      var m := HasMaximumIn(s);
      Sorted(s - {m}) + [m]
  }

  ghost function HasMaximumIn(s: set<nat>): (m: nat)
    requires s != {}
    ensures m in s && forall n <- s :: n <= m
  {
    assert exists m :: m in s && forall n <- s :: n <= m by { var m := HasMaximum(s); }
    var m :| m in s && forall n <- s :: n <= m;
    m
  }

  ghost function AllNumbers(kv: Index): set<nat> { set k, n | k in kv && n in kv[k] :: n }

  ghost function MatchingNumbers(kv: Index, prefix: string, suffix: string): seq<nat> {
    Sorted(set n | n in AllNumbers(kv) && exists k <- KeysAt(kv, n) :: KeyMatches(k, prefix, suffix))
  }

  /** Listing what matches a prefix and a suffix is a pointwise filter. */
  lemma PrefixAndSuffixIsPointwise(prefix: string, suffix: string)
    ensures Pointwise(kv => MatchingNumbers(kv, prefix, suffix), keys => exists k <- keys :: KeyMatches(k, prefix, suffix))
  {
  }

  // The provider

  class IndexProvider {
    const store: IndexStore
    const possibleIndexSizes: seq<nat>
    const filterFunc: Index -> seq<nat>
    const firstStreamable: nat
    var loadedLowBoundary: nat
    var loadedExclusiveHighBoundary: nat
    var matchingBlocks: seq<nat>
    /** What the indexes are about, and what the filter wants. */
    ghost const stream: seq<Item>
    ghost const wants: set<string> -> bool

    ghost predicate Valid()
      reads this
    {
      && StoreCovers(store, stream) && Pointwise(filterFunc, wants)
      && (loadedExclusiveHighBoundary > 0 ==> Loaded(loadedExclusiveHighBoundary - loadedLowBoundary))
    }

    ghost predicate Loaded(size: int)
      reads this
    {
      size > 0 && (size, loadedLowBoundary) in store && matchingBlocks == filterFunc(store[(size, loadedLowBoundary)])
    }

    constructor (store: IndexStore, possibleIndexSizes: seq<nat>, filterFunc: Index -> seq<nat>, firstStreamable: nat,
                 ghost stream: seq<Item>, ghost wants: set<string> -> bool)
      requires StoreCovers(store, stream) && Pointwise(filterFunc, wants)
      ensures Valid() && this.store == store && this.possibleIndexSizes == possibleIndexSizes
      ensures this.firstStreamable == firstStreamable && this.stream == stream && this.wants == wants
    {
      this.store, this.possibleIndexSizes, this.filterFunc := store, possibleIndexSizes, filterFunc;
      this.firstStreamable, this.stream, this.wants := firstStreamable, stream, wants;
      loadedLowBoundary, loadedExclusiveHighBoundary, matchingBlocks := 0, 0, [];
    }

    /** The block is of interest: the stream has it, from the first streamable block on, with keys that are wanted. */
    ghost predicate Matches(n: nat) { firstStreamable <= n && wants(KeysOf(stream, n)) }

    /** The first possible size with a file that holds the bundle. */
    method FindIndexContaining(blockNum: nat, bundleSize: nat) returns (r: Option<(nat, nat)>)
      requires bundleSize > 0
      ensures r.Some? ==> r.value in store && r.value.0 in possibleIndexSizes && bundleSize <= r.value.0
      ensures r.Some? ==> r.value.1 == LowBoundary(blockNum, r.value.0)
      ensures r.None? ==> forall size <- possibleIndexSizes | bundleSize <= size :: (size, LowBoundary(blockNum, size)) !in store
    {
      for i := 0 to |possibleIndexSizes|
        invariant forall j | 0 <= j < i && bundleSize <= possibleIndexSizes[j] ::
          (possibleIndexSizes[j], LowBoundary(blockNum, possibleIndexSizes[j])) !in store
      {
        var size := possibleIndexSizes[i];
        if size < bundleSize {
          continue;
        }
        var base := LowBoundary(blockNum, size);
        if (size, base) in store {
          return Some((size, base));
        }
      }
      return None;
    }

    method LoadRange(blockNum: nat, bundleSize: nat) returns (ok: bool)
      requires Valid() && bundleSize > 0 && blockNum % bundleSize == 0
      requires forall size <- possibleIndexSizes :: size % bundleSize == 0
      modifies this
      ensures Valid() && (ok ==> Holds(blockNum, bundleSize))
      ensures !ok ==> forall size <- possibleIndexSizes | bundleSize <= size :: (size, LowBoundary(blockNum, size)) !in store
    {
      if loadedLowBoundary <= blockNum && blockNum + bundleSize <= loadedExclusiveHighBoundary {
        return true;
      }
      var found := FindIndexContaining(blockNum, bundleSize);
      if found.None? {
        return false;
      }
      var (size, base) := found.value;
      BundleInRange(blockNum, bundleSize, size);
      matchingBlocks := filterFunc(store[(size, base)]);
      loadedLowBoundary := base;
      loadedExclusiveHighBoundary := base + size;
      return true;
    }

    ghost predicate Holds(blockNum: nat, bundleSize: nat)
      reads this
    {
      loadedLowBoundary <= blockNum && blockNum + bundleSize <= loadedExclusiveHighBoundary
    }

    /**
     The numbers wanted in a bundle, whichever range was loaded before; the number just after the bundle
     may come along.
     */
    method BlocksInRange(baseBlock: nat, bundleSize: nat) returns (r: Result<seq<nat>>)
      requires Valid() && bundleSize > 0 && forall size <- possibleIndexSizes :: size % bundleSize == 0
      modifies this
      ensures Valid()
      ensures r.Ok? ==> Increasing(r.value) && (forall n <- r.value :: baseBlock <= n <= baseBlock + bundleSize)
      ensures r.Ok? ==> forall n | baseBlock <= n < baseBlock + bundleSize :: n in r.value <==> Matches(n)
      ensures r.Ok? ==> baseBlock % bundleSize == 0 && exists f <- store :: f.1 <= baseBlock && baseBlock + bundleSize <= f.1 + f.0
      ensures r.Err? && baseBlock % bundleSize == 0 ==>
        forall size <- possibleIndexSizes | bundleSize <= size :: (size, LowBoundary(baseBlock, size)) !in store
    {
      if baseBlock % bundleSize != 0 {
        return Err("blocks_in_range called not on boundary");
      }
      var ok := LoadRange(baseBlock, bundleSize);
      if !ok {
        return Err("cannot load range");
      }
      var exclusiveUpperBound := baseBlock + bundleSize;
      var low := baseBlock;
      if low < firstStreamable {
        low := firstStreamable;
      }
      var out := Clip(matchingBlocks, low, exclusiveUpperBound);
      InLoaded(baseBlock, bundleSize, out, low);
      return Ok(out);
    }

    static method Clip(blocks: seq<nat>, low: nat, high: nat) returns (out: seq<nat>)
      requires Increasing(blocks)
      ensures Increasing(out) && forall n :: n in out <==> n in blocks && low <= n <= high
    {
      out := [];
      for i := 0 to |blocks|
        invariant Increasing(out) && forall n :: n in out <==> n in blocks[..i] && low <= n <= high
      {
        assert blocks[..i + 1] == blocks[..i] + [blocks[i]];
        if blocks[i] < low {
          continue;
        }
        if blocks[i] > high {
          forall n | n in blocks && low <= n <= high ensures n in blocks[..i] {
            var j :| 0 <= j < |blocks| && blocks[j] == n;
            assert j < i;
          }
          return;
        }
        assert forall j | 0 <= j < |out| :: out[j] in out;
        assert forall n <- out :: n < blocks[i] by {
          forall n <- out ensures n < blocks[i] {
            var j :| 0 <= j < i && blocks[..i][j] == n;
            assert blocks[j] == n;
          }
        }
        out := out + [blocks[i]];
      }
      assert blocks[..|blocks|] == blocks;
    }

    lemma InLoaded(baseBlock: nat, bundleSize: nat, out: seq<nat>, low: nat)
      requires Valid() && Holds(baseBlock, bundleSize) && bundleSize > 0
      requires low == if baseBlock < firstStreamable then firstStreamable else baseBlock
      requires forall n :: n in out <==> n in matchingBlocks && low <= n <= baseBlock + bundleSize
      ensures forall n | baseBlock <= n < baseBlock + bundleSize :: n in out <==> Matches(n)
      ensures exists f <- store :: f.1 <= baseBlock && baseBlock + bundleSize <= f.1 + f.0
    {
      var f := (loadedExclusiveHighBoundary - loadedLowBoundary, loadedLowBoundary);
      assert f in store && Covers(store[f], stream, f.1, f.1 + f.0);
      forall n | baseBlock <= n < baseBlock + bundleSize ensures n in out <==> Matches(n) {
        assert KeysAt(store[f], n) == KeysOf(stream, n);
        assert n in filterFunc(store[f]) <==> wants(KeysAt(store[f], n));
      }
    }
  }

  /**
   An indexer that was told a whole stream, whichever of its writes succeed, and a provider over the files
   it wrote: whatever is looked up is what the stream says, and it is given exactly when the range that holds
   the bundle has been filed and not `lost`; nothing is lost when every write succeeds.
   */
  method IndexAndLookUp(stream: seq<Item>, indexSize: nat, firstStreamable: nat, definedStartBlock: Option<nat>,
                        succeeds: nat -> bool, filter: Index -> seq<nat>, ghost wants: set<string> -> bool,
                        base: nat, bundleSize: nat) returns (r: Result<seq<nat>>, ghost lost: set<nat>)
    requires indexSize > 0 && (definedStartBlock.Some? ==> definedStartBlock.value % indexSize == 0)
    requires InOrder(stream) && forall i | 0 <= i < |stream| :: firstStreamable <= stream[i].num
    requires Pointwise(filter, wants) && bundleSize > 0 && indexSize % bundleSize == 0
    ensures r.Ok? ==> Increasing(r.value)
    ensures r.Ok? ==> forall n | base <= n < base + bundleSize ::
      n in r.value <==> firstStreamable <= n && wants(KeysOf(stream, n))
    ensures (forall i | 0 <= i < |stream| :: succeeds(i)) ==> lost == {}
    ensures r.Ok? <==>
      var low := LowBoundary(base, indexSize);
      base % bundleSize == 0 && low !in lost && Filed(IndexPlan(indexSize, firstStreamable, definedStartBlock), stream, low)
  {
    hide Pointwise, KeysOf, Filed, Filling, NotStarted, LowBoundary;
    var indexer := new BlockIndexer(indexSize, firstStreamable, definedStartBlock);
    for i := 0 to |stream|
      invariant indexer.Valid() && indexer.InFiles() && indexer.fed == stream[..i]
      invariant indexer.Plan() == IndexPlan(indexSize, firstStreamable, definedStartBlock)
      invariant (forall j | 0 <= j < i :: succeeds(j)) ==> indexer.lost == {}
      invariant fresh(indexer) && (indexer.currentIndex != null ==> fresh(indexer.currentIndex))
    {
      assert stream[..i + 1] == stream[..i] + [Item(stream[i].num, stream[i].keys)];
      indexer.Add(stream[i].keys, stream[i].num, succeeds(i));
    }
    assert stream[..|stream|] == stream;
    lost := indexer.lost;
    var provider := new IndexProvider(indexer.store, [indexSize], filter, firstStreamable, stream, wants);
    assert indexSize in provider.possibleIndexSizes;
    SizeFits(indexSize, bundleSize);
    r := provider.BlocksInRange(base, bundleSize);
    if r.Ok? {
      var f :| f in indexer.store && f.1 <= base && base + bundleSize <= f.1 + f.0;
      BoundaryIs(f.1, base, f.0);
    }
  }

  lemma SizeFits(size: nat, bundleSize: nat)
    requires size > 0 && bundleSize > 0 && size % bundleSize == 0
    ensures bundleSize <= size
  {
  }

  lemma BundleInRange(blockNum: nat, bundleSize: nat, size: nat)
    requires bundleSize > 0 && size > 0 && blockNum % bundleSize == 0 && size % bundleSize == 0
    ensures blockNum + bundleSize <= LowBoundary(blockNum, size) + size
  {
    var high := LowBoundary(blockNum, size) + size;
    var q, k, b := high / size, size / bundleSize, blockNum / bundleSize;
    NextBoundary(LowBoundary(blockNum, size), size);
    assert high == size * q && size == bundleSize * k && blockNum == bundleSize * b;
    Associates(bundleSize, k, q);
    if k * q <= b {
      Times(bundleSize, k * q, b);
    } else {
      Times(bundleSize, b + 1, k * q);
    }
  }

  lemma Associates(a: nat, b: nat, c: nat)
    ensures a * b * c == a * (b * c)
  {
  }
}
