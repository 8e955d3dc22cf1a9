/** Reading bundles of blocks by index: which bundles are read, and which blocks of them are handed on. */
module FileReading {
  import opened Chain
  import opened BlockIndexing
  import opened IndexProviding

  /** Block `i` is the first at or above one of the wanted numbers. */
  ghost predicate FirstAtOrAbove(wanted: seq<nat>, blocks: seq<nat>, i: nat)
    requires i < |blocks|
  {
    exists w <- wanted :: w <= blocks[i] && (i == 0 || blocks[i - 1] < w)
  }

  class IncomingBlocksFile {
    const baseNum: nat
    /** None when there is no filtering. */
    var filteredBlocks: Option<seq<nat>>

    constructor (baseNum: nat, filteredBlocks: Option<seq<nat>>)
      ensures this.baseNum == baseNum && this.filteredBlocks == filteredBlocks
    {
      this.baseNum, this.filteredBlocks := baseNum, filteredBlocks;
    }

    /** Takes the wanted numbers at or below the block's off the front; the block passes when there was one. */
    method PassesFilter(blockNum: nat) returns (found: bool)
      modifies this
      ensures old(filteredBlocks).None? ==> found && filteredBlocks.None?
      ensures old(filteredBlocks).Some? ==>
        filteredBlocks.Some? && TakenOff(old(filteredBlocks).value, filteredBlocks.value, blockNum, found)
    {
      if filteredBlocks.None? {
        return true;
      }
      ghost var was := filteredBlocks.value;
      found := false;
      while true
        invariant filteredBlocks.Some? && |filteredBlocks.value| <= |was|
        invariant filteredBlocks.value == was[|was| - |filteredBlocks.value|..]
        invariant forall i | 0 <= i < |was| - |filteredBlocks.value| :: was[i] <= blockNum
        invariant found <==> |filteredBlocks.value| < |was|
        decreases |filteredBlocks.value|
      {
        if |filteredBlocks.value| == 0 {
          return;
        }
        if blockNum >= filteredBlocks.value[0] {
          filteredBlocks := Some(filteredBlocks.value[1..]);
          found := true;
          continue;
        }
        return;
      }
    }

    /**
     The blocks of a bundle's file that are handed on, among those not below the start and the bundle:
     all without a filter, otherwise exactly the first at or above each wanted number.
     */
    method ReadBlocks(startBlockNum: nat, blocks: seq<nat>) returns (passed: seq<nat>)
      requires (filteredBlocks.Some? ==> Increasing(filteredBlocks.value)) && Increasing(blocks)
      modifies this
      ensures var kept := NotBelow(blocks, if startBlockNum < baseNum then baseNum else startBlockNum);
        Selected(old(filteredBlocks), kept, |kept|, passed)
    {
      hide FirstAtOrAbove, Reached, Left, TakenOff, NotBelow, Selected;
      ghost var low := if startBlockNum < baseNum then baseNum else startBlockNum;
      ghost var kept, wanted, k: nat := NotBelow(blocks, low), filteredBlocks, 0;
      ghost var a, d: nat := |blocks| - |kept|, 0;
      NotBelowIs(blocks, low);
      NoneSelected(wanted, kept);
      passed := [];
      if wanted.Some? {
        NoneTaken(wanted.value, kept);
      }
      for i := 0 to |blocks|
        invariant filteredBlocks.Some? <==> wanted.Some?
        invariant wanted.Some? ==> Left(wanted.value, filteredBlocks.value, k) && k <= |wanted.value|
        invariant d == (if i < a then 0 else i - a) && Selected(wanted, kept, d, passed)
        invariant wanted.Some? ==> Reached(wanted.value, kept, d, k)
      {
        if blocks[i] < startBlockNum {
          continue;
        }
        if blocks[i] < baseNum {
          continue;
        }
        assert i >= a && blocks[i] == kept[d];
        ghost var before := filteredBlocks;
        var passes := PassesFilter(blocks[i]);
        if wanted.Some? {
          k := Taken(wanted.value, before.value, filteredBlocks.value, kept, d, k, passes);
        }
        SelectOne(wanted, kept, d, passed, passes);
        d := d + 1;
        if passes {
          passed := passed + [blocks[i]];
        }
      }
    }
  }

  /** The first `i` blocks have been decided: those handed on are the ones to be handed on. */
  ghost predicate Selected(wanted: Option<seq<nat>>, blocks: seq<nat>, i: nat, passed: seq<nat>) {
    && i <= |blocks| && Increasing(passed) && (forall n <- passed :: n in blocks[..i])
    && forall j | 0 <= j < i :: blocks[j] in passed <==> wanted.None? || FirstAtOrAbove(wanted.value, blocks, j)
  }

  lemma NoneSelected(wanted: Option<seq<nat>>, blocks: seq<nat>)
    ensures Selected(wanted, blocks, 0, [])
  {
  }

  lemma SelectedAll(wanted: Option<seq<nat>>, blocks: seq<nat>, passed: seq<nat>)
    requires Selected(wanted, blocks, |blocks|, passed)
    ensures Increasing(passed) && forall n <- passed :: n in blocks
  {
    assert blocks[..|blocks|] == blocks;
  }

  lemma SelectOne(wanted: Option<seq<nat>>, blocks: seq<nat>, i: nat, passed: seq<nat>, passes: bool)
    requires Increasing(blocks) && i < |blocks| && Selected(wanted, blocks, i, passed)
    requires passes <==> wanted.None? || FirstAtOrAbove(wanted.value, blocks, i)
    ensures Selected(wanted, blocks, i + 1, if passes then passed + [blocks[i]] else passed)
  {
    hide FirstAtOrAbove;
    EarlierStay(passed, blocks, i);
    assert blocks[..i + 1] == blocks[..i] + [blocks[i]];
  }

  function NotBelow(blocks: seq<nat>, low: nat): seq<nat> {
    if blocks == [] || low <= blocks[0] then blocks else NotBelow(blocks[1..], low)
  }

  lemma {:induction false} NotBelowIs(blocks: seq<nat>, low: nat)
    requires Increasing(blocks)
    ensures var kept := NotBelow(blocks, low); var a := |blocks| - |kept|;
      && a >= 0 && kept == blocks[a..] && Increasing(kept)
      && (forall i | 0 <= i < a :: blocks[i] < low) && (forall i | a <= i < |blocks| :: low <= blocks[i])
    decreases |blocks|
  {
    if blocks != [] && blocks[0] < low {
      NotBelowIs(blocks[1..], low);
      assert forall i | 0 < i < |blocks| :: blocks[i] == blocks[1..][i - 1];
    }
  }

  lemma {:induction false} NotBelowHas(blocks: seq<nat>, low: nat, n: nat)
    requires Increasing(blocks)
    ensures n in NotBelow(blocks, low) <==> n in blocks && low <= n
    decreases |blocks|
  {
    if blocks != [] {
      assert blocks == [blocks[0]] + blocks[1..];
      if blocks[0] < low {
        NotBelowHas(blocks[1..], low, n);
      }
    }
  }

  /** `now` is `was` without the numbers at or below `n` in front; `some` says whether there were any. */
  ghost predicate TakenOff(was: seq<nat>, now: seq<nat>, n: nat, some: bool) {
    && |now| <= |was| && now == was[|was| - |now|..] && (some <==> |now| < |was|)
    && (forall i | 0 <= i < |was| - |now| :: was[i] <= n) && (now != [] ==> n < now[0])
  }

  /** What is left of the wanted numbers after `k` of them were taken. */
  ghost predicate Left(wanted: seq<nat>, left: seq<nat>, k: nat) { k <= |wanted| && left == wanted[k..] }

  /** The first `k` wanted numbers are those the blocks before `i` have reached. */
  ghost predicate Reached(wanted: seq<nat>, blocks: seq<nat>, i: nat, k: nat)
    requires k <= |wanted| && i <= |blocks|
  {
    && (forall x | 0 <= x < k :: i > 0 && wanted[x] <= blocks[i - 1])
    && (forall x | k <= x < |wanted| :: i == 0 || blocks[i - 1] < wanted[x])
  }

  lemma NoneTaken(wanted: seq<nat>, blocks: seq<nat>)
    ensures Left(wanted, wanted, 0) && Reached(wanted, blocks, 0, 0)
  {
  }

  lemma Taken(wanted: seq<nat>, before: seq<nat>, after: seq<nat>, blocks: seq<nat>, i: nat, k: nat, some: bool) returns (l: nat)
    requires Increasing(wanted) && Increasing(blocks) && i < |blocks|
    requires k <= |wanted| && Left(wanted, before, k) && Reached(wanted, blocks, i, k) && TakenOff(before, after, blocks[i], some)
    ensures l <= |wanted| && Left(wanted, after, l) && Reached(wanted, blocks, i + 1, l)
    ensures some <==> FirstAtOrAbove(wanted, blocks, i)
  {
    l := k + |before| - |after|;
    forall x | 0 <= x < l ensures wanted[x] <= blocks[i] {
      if x >= k {
        assert wanted[x] == before[x - k];
      } else {
        assert i > 0 && wanted[x] <= blocks[i - 1] < blocks[i];
      }
    }
    forall x | l <= x < |wanted| ensures blocks[i] < wanted[x] {
      assert after[0] == wanted[l];
    }
    TakenMeansFirst(wanted, blocks, i, k, l);
  }

  lemma TakenMeansFirst(wanted: seq<nat>, blocks: seq<nat>, i: nat, k: nat, l: nat)
    requires k <= l <= |wanted| && i < |blocks| && Reached(wanted, blocks, i, k) && Reached(wanted, blocks, i + 1, l)
    ensures l > k <==> FirstAtOrAbove(wanted, blocks, i)
  {
    if l > k {
      assert wanted[k] in wanted;
    }
    if FirstAtOrAbove(wanted, blocks, i) {
      var w :| w in wanted && w <= blocks[i] && (i == 0 || blocks[i - 1] < w);
      var x :| 0 <= x < |wanted| && wanted[x] == w;
    }
  }

  lemma EarlierStay(passed: seq<nat>, blocks: seq<nat>, i: nat)
    requires Increasing(blocks) && i < |blocks| && forall n <- passed :: n in blocks[..i]
    ensures blocks[i] !in passed && forall j | 0 <= j < |passed| :: passed[j] < blocks[i]
  {
    forall n <- passed ensures n < blocks[i] {
      var j :| 0 <= j < i && blocks[..i][j] == n;
      assert blocks[j] == n;
    }
    assert forall j | 0 <= j < |passed| :: passed[j] in passed;
  }

  lemma NoneBetween(s: seq<nat>, i: nat, m: nat)
    requires Increasing(s) && i < |s| && (i == 0 || s[i - 1] < m) && m < s[i]
    ensures m !in s
  {
    assert forall j | 0 <= j < i :: s[j] <= s[i - 1];
  }

  // Which bundles are read

  predicate NotDecreasing(s: seq<nat>) { forall i, j | 0 <= i < j < |s| :: s[i] <= s[j] }

  method Sort(s: seq<nat>) returns (r: seq<nat>)
    ensures NotDecreasing(r) && forall n :: n in r <==> n in s
  {
    r := [];
    for i := 0 to |s|
      invariant NotDecreasing(r) && forall n :: n in r <==> n in s[..i]
    {
      assert s[..i + 1] == s[..i] + [s[i]];
      r := Insert(r, s[i]);
    }
    assert s[..|s|] == s;
  }

  method Insert(s: seq<nat>, x: nat) returns (r: seq<nat>)
    requires NotDecreasing(s)
    ensures NotDecreasing(r) && forall n :: n in r <==> n in s || n == x
  {
    var j := |s|;
    while j > 0 && x < s[j - 1]
      invariant 0 <= j <= |s| && (j < |s| ==> x < s[j])
    {
      j := j - 1;
    }
    assert s == s[..j] + s[j..];
    r := Inserted(s, x, j);
    InsertedInOrder(s, x, j);
  }

  function Inserted(s: seq<nat>, x: nat, j: nat): (r: seq<nat>)
    requires j <= |s|
    ensures |r| == |s| + 1 && forall i | 0 <= i < |r| :: r[i] == if i < j then s[i] else if i == j then x else s[i - 1]
  {
    s[..j] + [x] + s[j..]
  }

  lemma InsertedInOrder(s: seq<nat>, x: nat, j: nat)
    requires NotDecreasing(s) && j <= |s| && (j > 0 ==> s[j - 1] <= x) && (j < |s| ==> x < s[j])
    ensures NotDecreasing(Inserted(s, x, j))
  {
    hide Inserted;
    var r := Inserted(s, x, j);
    forall a, b | 0 <= a < b < |r| ensures r[a] <= r[b] {
      assert r[a] == (if a < j then s[a] else if a == j then x else s[a - 1]);
      assert r[b] == (if b < j then s[b] else if b == j then x else s[b - 1]);
      if b < j {
        assert s[a] <= s[b];
      } else if a > j {
        assert s[a - 1] <= s[b - 1];
      } else {
        assert a < j ==> s[a] <= s[j - 1];
        assert j < b ==> s[j] <= s[b - 1];
      }
    }
  }

  class FileSource {
    const startBlockNum: nat
    /** Zero stands for none. */
    const stopBlockNum: nat
    const bundleSize: nat
    const errorOutOnMissingFile: bool
    const provider: IndexProvider
    var whitelistedBlocks: set<nat>

    constructor (startBlockNum: nat, stopBlockNum: nat, bundleSize: nat, errorOutOnMissingFile: bool, provider: IndexProvider,
                 whitelisted: set<nat>)
      ensures this.startBlockNum == startBlockNum && this.stopBlockNum == stopBlockNum && this.bundleSize == bundleSize
      ensures this.errorOutOnMissingFile == errorOutOnMissingFile && this.provider == provider && whitelistedBlocks == whitelisted
    {
      this.errorOutOnMissingFile := errorOutOnMissingFile;
      this.startBlockNum, this.stopBlockNum, this.bundleSize, this.provider := startBlockNum, stopBlockNum, bundleSize, provider;
      whitelistedBlocks := whitelisted;
    }

    predicate InReach(n: nat) { startBlockNum <= n && (stopBlockNum != 0 ==> n <= stopBlockNum) }

    function Within(base: nat, n: nat): bool { base <= n < base + bundleSize }

    /** What is added for a bundle besides the index: whitelisted numbers, and where reading starts and stops. */
    ghost predicate Added(whitelisted: set<nat>, base: nat, n: nat) {
      Within(base, n) && (n in whitelisted || n == startBlockNum || (stopBlockNum != 0 && n == stopBlockNum))
    }

    /** Takes the whitelisted numbers of a bundle, and drops those below it. */
    method TakeWhitelisted(base: nat) returns (add: seq<nat>)
      modifies this`whitelistedBlocks
      ensures forall n :: n in add <==> n in old(whitelistedBlocks) && Within(base, n)
      ensures whitelistedBlocks == set n | n in old(whitelistedBlocks) && base + bundleSize <= n
    {
      add := [];
      var left := whitelistedBlocks;
      while left != {}
        invariant left <= old(whitelistedBlocks)
        invariant forall n :: n in add <==> n in old(whitelistedBlocks) && n !in left && Within(base, n)
        invariant forall n :: n in whitelistedBlocks <==> n in old(whitelistedBlocks) && (n in left || base + bundleSize <= n)
        decreases left
      {
        var wl :| wl in left;
        left := left - {wl};
        if wl < base {
          whitelistedBlocks := whitelistedBlocks - {wl};
          continue;
        }
        if wl < base + bundleSize {
          add := add + [wl];
          whitelistedBlocks := whitelistedBlocks - {wl};
          continue;
        }
      }
    }

    /** Sorted, each number once, and none out of reach. */
    method UniqueBounded(all: seq<nat>) returns (out: seq<nat>)
      requires NotDecreasing(all)
      ensures Increasing(out) && forall n :: n in out <==> n in all && InReach(n)
    {
      out := [];
      var seen: set<nat> := {};
      for i := 0 to |all|
        invariant Increasing(out) && forall n :: n in out <==> n in all[..i] && InReach(n)
        invariant forall n :: n in seen <==> n in out
      {
        assert all[..i + 1] == all[..i] + [all[i]];
        if all[i] < startBlockNum {
          continue;
        }
        if stopBlockNum != 0 && all[i] > stopBlockNum {
          continue;
        }
        if all[i] !in seen {
          AllBelow(all, i, out);
          seen := seen + {all[i]};
          out := out + [all[i]];
        }
      }
      assert all[..|all|] == all;
    }

    lemma AllBelow(all: seq<nat>, i: nat, out: seq<nat>)
      requires NotDecreasing(all) && i < |all| && all[i] !in out && forall n <- out :: n in all[..i]
      ensures forall j | 0 <= j < |out| :: out[j] < all[i]
    {
      forall j | 0 <= j < |out| ensures out[j] < all[i] {
        assert out[j] in out;
        var k :| 0 <= k < i && all[..i][k] == out[j];
        assert all[k] <= all[i];
      }
    }

    /** The index's numbers as they are, or, when there is something to add, all of them sorted and in reach. */
    method TweakRangeIndexResults(base: nat, inBlocks: seq<nat>) returns (r: seq<nat>)
      requires Increasing(inBlocks)
      modifies this`whitelistedBlocks
      ensures whitelistedBlocks == set n | n in old(whitelistedBlocks) && base + bundleSize <= n
      ensures Increasing(r)
      ensures if exists n :: Added(old(whitelistedBlocks), base, n)
              then forall n :: n in r <==> (n in inBlocks || Added(old(whitelistedBlocks), base, n)) && InReach(n)
              else r == inBlocks
    {
      ghost var was := whitelistedBlocks;
      var addBlocks := TakeWhitelisted(base);
      if base <= startBlockNum && base + bundleSize > startBlockNum {
        addBlocks := addBlocks + [startBlockNum];
      }
      if stopBlockNum != 0 && base <= stopBlockNum && base + bundleSize > stopBlockNum {
        addBlocks := addBlocks + [stopBlockNum];
      }
      assert forall n :: n in addBlocks <==> Added(was, base, n);
      if |addBlocks| == 0 {
        return inBlocks;
      }
      assert addBlocks[0] in addBlocks;
      var allBlocks := Sort(inBlocks + addBlocks);
      r := UniqueBounded(allBlocks);
    }

    /** The numbers whose first block at or above is to be handed on. */
    ghost predicate Wanted(whitelisted: set<nat>, n: nat) {
      InReach(n) && (provider.Matches(n) || n in whitelisted || n == startBlockNum || (stopBlockNum != 0 && n == stopBlockNum))
    }

    ghost predicate Ready()
      reads provider
    {
      && bundleSize > 0 && provider.Valid() && (forall size <- provider.possibleIndexSizes :: size % bundleSize == 0)
      && (stopBlockNum == 0 || startBlockNum <= stopBlockNum)
    }

    /** No index file of a possible size holds the bundle. */
    ghost predicate Unindexed(base: nat) {
      forall size <- provider.possibleIndexSizes | 0 < bundleSize <= size :: (size, LowBoundary(base, size)) !in provider.store
    }

    /** There is a number that no index file reaches beyond. */
    lemma HasEnd(files: set<(nat, nat)>) returns (end: nat)
      ensures forall f <- files :: f.1 + f.0 <= end
    {
      end := 0;
      var left := files;
      while left != {}
        invariant forall f <- files :: f in left || f.1 + f.0 <= end
        decreases left
      {
        var f: (int, int) :| f in left;
        left := left - {f};
        end := if end < f.1 + f.0 then f.1 + f.0 else end;
      }
    }

    lemma BundleIsExact(whitelisted: set<nat>, was: set<nat>, base: nat, inBlocks: seq<nat>, r: seq<nat>)
      requires Ready() && base % bundleSize == 0 && startBlockNum < base + bundleSize
      requires stopBlockNum == 0 || base <= stopBlockNum
      requires forall n | base <= n :: n in was <==> n in whitelisted
      requires forall n | base <= n < base + bundleSize :: n in inBlocks <==> provider.Matches(n)
      requires if exists n :: Added(was, base, n)
               then forall n :: n in r <==> (n in inBlocks || Added(was, base, n)) && InReach(n)
               else r == inBlocks
      ensures forall n | Within(base, n) :: n in r <==> Wanted(whitelisted, n)
      ensures r == [] && stopBlockNum != 0 ==> base + bundleSize <= stopBlockNum
    {
      forall n | Within(base, n) ensures n in r <==> Wanted(whitelisted, n) {
        if exists x :: Added(was, base, x) {
        } else {
          assert !Added(was, base, n) && !Added(was, base, startBlockNum) && !Added(was, base, stopBlockNum);
        }
      }
      if stopBlockNum != 0 && stopBlockNum < base + bundleSize {
        assert Added(was, base, stopBlockNum);
        assert stopBlockNum in r;
      }
    }

    /** What is wanted in one bundle, when the index still covers it. */
    method LookupBundle(base: nat, ghost whitelisted: set<nat>) returns (r: Option<seq<nat>>)
      requires Ready() && base % bundleSize == 0 && startBlockNum < base + bundleSize && (stopBlockNum == 0 || base <= stopBlockNum)
      requires forall n | base <= n :: n in whitelistedBlocks <==> n in whitelisted
      modifies this`whitelistedBlocks, provider
      ensures Ready() && forall n | base + bundleSize <= n :: n in whitelistedBlocks <==> n in whitelisted
      ensures r.Some? ==> Increasing(r.value) && forall n | Within(base, n) :: n in r.value <==> Wanted(whitelisted, n)
      ensures r.Some? ==> forall n <- r.value :: base <= n
      ensures r == Some([]) && stopBlockNum != 0 ==> base + bundleSize <= stopBlockNum
      ensures r.Some? ==> exists f <- provider.store :: f.1 <= base && base + bundleSize <= f.1 + f.0
      ensures if r.Some? then forall n <- whitelistedBlocks :: base + bundleSize <= n else Unindexed(base)
    {
      hide IndexProvider.Matches, InReach;
      var found := provider.BlocksInRange(base, bundleSize);
      if found.Err? {
        return None;
      }
      ghost var was := whitelistedBlocks;
      var out := TweakRangeIndexResults(base, found.value);
      BundleIsExact(whitelisted, was, base, found.value, out);
      return Some(out);
    }

    /**
     The next bundle to read from `from` on. Only bundles without any wanted number are jumped over, and
     the numbers returned for the bundle are exactly those wanted in it, unless there is no more index,
     or it is read from its base to show progress. `timeIsUp` is the progress timer.
     */
    method LookupBlockIndex(from: nat, timeIsUp: nat -> bool) returns (base: nat, out: seq<nat>, noMoreIndex: bool)
      requires Ready() && from % bundleSize == 0 && startBlockNum < from + bundleSize
      modifies this`whitelistedBlocks, provider
      ensures Ready() && from <= base && base % bundleSize == 0
      ensures stopBlockNum != 0 && from <= stopBlockNum ==> base <= stopBlockNum
      ensures forall n | from <= n < base :: !Wanted(old(whitelistedBlocks), n)
      ensures forall n | base + bundleSize <= n :: n in whitelistedBlocks <==> n in old(whitelistedBlocks)
      ensures if noMoreIndex then out == [] else Increasing(out) && out != [] && forall n <- out :: base <= n
      ensures if noMoreIndex then Unindexed(base) || 0 < stopBlockNum < base
              else forall n <- whitelistedBlocks :: base + bundleSize <= n
      ensures !noMoreIndex ==>
        || (forall n | Within(base, n) :: n in out <==> Wanted(old(whitelistedBlocks), n))
        || (out == [base] && timeIsUp(base) && forall n | Within(base, n) :: !Wanted(old(whitelistedBlocks), n))
    {
      hide Wanted, IndexProvider.Valid, Unindexed;
      if stopBlockNum != 0 && from > stopBlockNum {
        return from, [], true;
      }
      base := from;
      ghost var whitelisted := whitelistedBlocks;
      ghost var end := HasEnd(provider.store.Keys);
      while true
        invariant Ready() && from <= base && base % bundleSize == 0 && (stopBlockNum == 0 || base <= stopBlockNum)
        invariant forall n | from <= n < base :: !Wanted(whitelisted, n)
        invariant forall n | base <= n :: n in whitelistedBlocks <==> n in whitelisted
        decreases if base < end then end - base else 0
      {
        var r := LookupBundle(base, whitelisted);
        if r.None? {
          return base, [], true;
        }
        out := r.value;
        if |out| == 0 {
          if timeIsUp(base) {
            return base, [base], false;
          }
          NextBoundary(base, bundleSize);
          base := base + bundleSize;
          continue;
        }
        return base, out, false;
      }
    }

    // Reading file after file

    predicate Aligned(base: nat) { bundleSize > 0 && base % bundleSize == 0 }

    /** Merged files by their base: in order, and with nothing above the bundle; lower blocks are skipped. */
    ghost predicate FilesOk(files: map<nat, seq<nat>>) {
      forall b <- files :: Increasing(files[b]) && forall n <- files[b] :: n < b + bundleSize
    }

    function Low(base: nat): nat { if startBlockNum < base then base else startBlockNum }

    /** The blocks that a file has to offer. */
    function Offered(files: map<nat, seq<nat>>, base: nat): seq<nat>
      requires base in files
    {
      NotBelow(files[base], Low(base))
    }

    /** A whitelisted number is forgotten when the file of its bundle is not there the first time. */
    ghost predicate WantedIn(whitelisted: set<nat>, late: set<nat>, base: nat, n: nat) {
      Within(base, n) && Wanted(if base in late then {} else whitelisted, n)
    }

    ghost predicate NoneWanted(whitelisted: set<nat>, late: set<nat>, base: nat) {
      forall n | Within(base, n) :: !WantedIn(whitelisted, late, base, n)
    }

    /** The block is the first of its bundle at or above a number wanted there. */
    ghost predicate FirstWanted(whitelisted: set<nat>, late: set<nat>, base: nat, offered: seq<nat>, i: nat)
      requires i < |offered|
    {
      exists w :: WantedIn(whitelisted, late, base, w) && w <= offered[i] && (i == 0 || offered[i - 1] < w)
    }

    /** What may be handed on to show progress. */
    ghost predicate Progress(whitelisted: set<nat>, late: set<nat>, timeIsUp: nat -> bool, base: nat) {
      timeIsUp(base) && NoneWanted(whitelisted, late, base)
    }

    ghost predicate BundleRead(whitelisted: set<nat>, late: set<nat>, timeIsUp: nat -> bool, filtered: bool, base: nat,
                               offered: seq<nat>, passed: seq<nat>) {
      forall i | 0 <= i < |offered| ::
        if filtered then
          && (FirstWanted(whitelisted, late, base, offered, i) ==> offered[i] in passed)
          && (offered[i] in passed ==>
                FirstWanted(whitelisted, late, base, offered, i) || (i == 0 && Progress(whitelisted, late, timeIsUp, base)))
        else offered[i] in passed
    }

    /** From `low` to `end` file after file has been read, by the index below `cut` and whole above. */
    ghost predicate AllRead(whitelisted: set<nat>, late: set<nat>, timeIsUp: nat -> bool, files: map<nat, seq<nat>>,
                            low: nat, cut: nat, end: nat, passed: seq<nat>) {
      forall b | low <= b < end && Aligned(b) ::
        if b in files then BundleRead(whitelisted, late, timeIsUp, b < cut, b, Offered(files, b), passed)
        else b < cut && NoneWanted(whitelisted, late, b)
    }

    /** Everything handed on was offered by a file that has been read. */
    ghost predicate OnlyOffered(files: map<nat, seq<nat>>, low: nat, end: nat, passed: seq<nat>) {
      forall n <- passed :: exists b <- files :: low <= b && b + bundleSize <= end && Aligned(b) && n in Offered(files, b)
    }
    lemma AlignedApart(a: nat, b: nat)
      requires Aligned(a) && Aligned(b) && a < b
      ensures a + bundleSize <= b
    {
      BoundariesApart(a, b, bundleSize);
    }

    lemma OfferedIs(files: map<nat, seq<nat>>, base: nat)
      requires FilesOk(files) && base in files
      ensures var o := Offered(files, base); Increasing(o) && forall n <- o :: Low(base) <= n < base + bundleSize
    {
      NotBelowIs(files[base], Low(base));
      var f, o := files[base], Offered(files, base);
      var a := |f| - |o|;
      forall n <- o ensures Low(base) <= n < base + bundleSize {
        var k :| 0 <= k < |o| && o[k] == n;
        assert f[a + k] == n && f[a + k] in f;
      }
    }

    /** What is left of the whitelist when the bundle at `from` is looked up, perhaps again. */
    ghost predicate LeftOver(whitelisted: set<nat>, now: set<nat>, from: nat, again: bool) {
      forall n | from <= n :: n in now <==> n in whitelisted && (again ==> from + bundleSize <= n)
    }

    /** Bundles without a number that is still wanted have no number wanted in them. */
    lemma Jumped(whitelisted: set<nat>, now: set<nat>, late: set<nat>, from: nat, again: bool, b: nat)
      requires LeftOver(whitelisted, now, from, again) && (again ==> from in late) && from <= b && Aligned(from) && Aligned(b)
      requires forall n | Within(b, n) :: !Wanted(now, n)
      ensures NoneWanted(whitelisted, late, b)
    {
      if from < b {
        AlignedApart(from, b);
      }
    }

    lemma LookedUp(whitelisted: set<nat>, now: set<nat>, late: set<nat>, from: nat, again: bool, b: nat, n: nat)
      requires LeftOver(whitelisted, now, from, again) && from <= b && Aligned(from) && Aligned(b) && Within(b, n)
      requires b in late <==> b == from && again
      ensures WantedIn(whitelisted, late, b, n) <==> Wanted(now, n)
    {
      if from < b {
        AlignedApart(from, b);
      }
    }

    /** A filter with exactly the numbers wanted in the bundle hands on the first block at or above each. */
    lemma Filtered(whitelisted: set<nat>, late: set<nat>, timeIsUp: nat -> bool, base: nat, out: seq<nat>,
                   offered: seq<nat>, more: seq<nat>)
      requires forall n <- out :: base <= n
      requires forall n <- offered :: Within(base, n)
      requires Increasing(offered) && Selected(Some(out), offered, |offered|, more)
      requires || (forall n | Within(base, n) :: n in out <==> WantedIn(whitelisted, late, base, n))
               || (out == [base] && Progress(whitelisted, late, timeIsUp, base))
      ensures BundleRead(whitelisted, late, timeIsUp, true, base, offered, more)
    {
      hide Wanted;
      forall i | 0 <= i < |offered|
        ensures FirstWanted(whitelisted, late, base, offered, i) ==> offered[i] in more
        ensures offered[i] in more ==>
          FirstWanted(whitelisted, late, base, offered, i) || (i == 0 && Progress(whitelisted, late, timeIsUp, base))
      {
        assert offered[i] in offered;
        if offered[i] in more {
          var w :| w in out && w <= offered[i] && (i == 0 || offered[i - 1] < w);
          assert i > 0 ==> offered[i - 1] in offered;
          assert Within(base, w);
        }
        if FirstWanted(whitelisted, late, base, offered, i) {
          var w :| WantedIn(whitelisted, late, base, w) && w <= offered[i] && (i == 0 || offered[i - 1] < w);
          assert w in out;
        }
      }
    }

    lemma JumpedOver(whitelisted: set<nat>, late: set<nat>, timeIsUp: nat -> bool, files: map<nat, seq<nat>>,
                     low: nat, cut: nat, from: nat, cut': nat, base: nat, passed: seq<nat>)
      requires FilesOk(files) && AllRead(whitelisted, late, timeIsUp, files, low, cut, from, passed)
      requires forall n <- passed :: n < from
      requires Aligned(from) && from <= base && from <= cut && base <= cut'
      requires forall b | from <= b < base && Aligned(b) :: NoneWanted(whitelisted, late, b)
      ensures AllRead(whitelisted, late, timeIsUp, files, low, cut', base, passed)
    {
      hide NoneWanted, Progress, FilesOk, Offered, WantedIn;
      forall b | low <= b < base && Aligned(b)
        ensures if b in files then BundleRead(whitelisted, late, timeIsUp, b < cut', b, Offered(files, b), passed)
                else b < cut' && NoneWanted(whitelisted, late, b)
      {
        if b >= from && b in files {
          OfferedIs(files, b);
          var offered := Offered(files, b);
          NothingRead(whitelisted, late, timeIsUp, b, offered, passed);
        }
      }
    }

    lemma NothingRead(whitelisted: set<nat>, late: set<nat>, timeIsUp: nat -> bool, b: nat, offered: seq<nat>, passed: seq<nat>)
      requires NoneWanted(whitelisted, late, b) && (forall n <- passed :: n < b) && forall n <- offered :: b <= n
      ensures BundleRead(whitelisted, late, timeIsUp, true, b, offered, passed)
    {
      forall i | 0 <= i < |offered| ensures offered[i] !in passed && !FirstWanted(whitelisted, late, b, offered, i) {
        assert offered[i] in offered;
      }
    }

    lemma OneMoreRead(whitelisted: set<nat>, late: set<nat>, timeIsUp: nat -> bool, files: map<nat, seq<nat>>,
                      low: nat, cut: nat, base: nat, passed: seq<nat>, more: seq<nat>)
      requires FilesOk(files) && AllRead(whitelisted, late, timeIsUp, files, low, cut, base, passed)
      requires Aligned(base) && base in files && (forall n <- passed :: n < base)
      requires forall n <- more :: n in Offered(files, base)
      requires BundleRead(whitelisted, late, timeIsUp, base < cut, base, Offered(files, base), more)
      ensures AllRead(whitelisted, late, timeIsUp, files, low, cut, base + bundleSize, passed + more)
    {
      hide NoneWanted, Progress, FilesOk, Offered, FirstWanted;
      OfferedIs(files, base);
      forall b | low <= b < base + bundleSize && Aligned(b)
        ensures if b in files then BundleRead(whitelisted, late, timeIsUp, b < cut, b, Offered(files, b), passed + more)
                else b < cut && NoneWanted(whitelisted, late, b)
      {
        if b < base {
          AlignedApart(b, base);
          if b in files {
            OfferedIs(files, b);
            SameRead(whitelisted, late, timeIsUp, b < cut, b, Offered(files, b), passed, passed + more);
          }
        } else {
          if base < b { AlignedApart(base, b); }
          SameRead(whitelisted, late, timeIsUp, b < cut, b, Offered(files, b), more, passed + more);
        }
      }
    }

    lemma SameRead(whitelisted: set<nat>, late: set<nat>, timeIsUp: nat -> bool, filtered: bool, b: nat,
                   offered: seq<nat>, passed: seq<nat>, passed': seq<nat>)
      requires BundleRead(whitelisted, late, timeIsUp, filtered, b, offered, passed)
      requires forall n <- offered :: n in passed <==> n in passed'
      ensures BundleRead(whitelisted, late, timeIsUp, filtered, b, offered, passed')
    {
      hide FirstWanted, Progress;
      assert forall i | 0 <= i < |offered| :: offered[i] in offered;
    }

    static function Late(failures: map<nat, nat>): set<nat> { set b <- failures | failures[b] > 0 }

    lemma HighestBase(bases: set<nat>) returns (top: nat)
      ensures forall b <- bases :: b <= top
    {
      top := 0;
      if bases != {} {
        top := HasMaximum(bases);
      }
    }

    /** The file has more failed checks to come. */
    static predicate Failing(left: map<nat, nat>, base: nat) { base in left && left[base] > 0 }

    /** What is left of the failed checks when the file of `base` is due, perhaps again. */
    static ghost predicate Checks(failures: map<nat, nat>, left: map<nat, nat>, base: nat, again: bool) {
      && left.Keys == failures.Keys && (forall b <- left :: left[b] <= failures[b])
      && forall b <- left :: base < b || (b == base && !again) ==> left[b] == failures[b]
    }

    /** The index ends at `cut`, or one bundle above when that one has no file. */
    ghost predicate IndexEnds(files: map<nat, seq<nat>>, late: set<nat>, cut: nat) {
      && Aligned(cut)
      && (Unindexed(cut) || (Unindexed(cut + bundleSize) && (cut + bundleSize !in files || cut + bundleSize in late)))
    }

    /** The numbers are those wanted in the bundle, or its base to show progress. */
    ghost predicate FilterOk(whitelisted: set<nat>, late: set<nat>, timeIsUp: nat -> bool, base: nat, filter: seq<nat>) {
      && Increasing(filter) && (forall n <- filter :: base <= n)
      && ((forall n | Within(base, n) :: n in filter <==> WantedIn(whitelisted, late, base, n))
          || (filter == [base] && Progress(whitelisted, late, timeIsUp, base)))
    }

    /** What has been read up to `base`. */
    ghost predicate ReadTo(whitelisted: set<nat>, late: set<nat>, timeIsUp: nat -> bool, files: map<nat, seq<nat>>,
                           low: nat, cut: nat, base: nat, passed: seq<nat>) {
      && low <= base && Aligned(base) && Increasing(passed) && (forall n <- passed :: n < base)
      && AllRead(whitelisted, late, timeIsUp, files, low, cut, base, passed) && OnlyOffered(files, low, base, passed)
    }

    /** Where the index stands before `base` is looked up, perhaps again. */
    ghost predicate IndexTo(whitelisted: set<nat>, now: set<nat>, failures: map<nat, nat>, left: map<nat, nat>,
                            cut: nat, base: nat, again: bool) {
      && base <= cut && LeftOver(whitelisted, now, base, again) && (again ==> base in Late(failures))
      && Checks(failures, left, base, again)
    }

    /**
     The bundle to read next and its filter. When the index is used up and the bundle reached has no file,
     the one below it is read instead; then there is no filter. (A further check, whether the bundle above
     has a file, changes nothing.)
     */
    method NextBundle(from: nat, files: map<nat, seq<nat>>, left: map<nat, nat>, timeIsUp: nat -> bool,
                      ghost whitelisted: set<nat>, ghost failures: map<nat, nat>, ghost again: bool)
      returns (base: nat, filter: Option<seq<nat>>)
      requires Ready() && Aligned(from) && startBlockNum < from + bundleSize && (stopBlockNum == 0 || from <= stopBlockNum)
      requires LeftOver(whitelisted, whitelistedBlocks, from, again) && (again ==> from in Late(failures))
      requires Checks(failures, left, from, again)
      modifies this`whitelistedBlocks, provider
      ensures Ready() && from <= base && Aligned(base) && (stopBlockNum == 0 || base <= stopBlockNum)
      ensures forall b | from <= b < base && Aligned(b) :: NoneWanted(whitelisted, Late(failures), b)
      ensures filter.Some? ==> LeftOver(whitelisted, whitelistedBlocks, base, true)
      ensures filter.Some? && !Failing(left, base) ==>
        FilterOk(whitelisted, Late(failures), timeIsUp, base, filter.value)
      ensures filter.None? ==> IndexEnds(files, Late(failures), base)
    {
      hide Wanted, NoneWanted, WantedIn, Progress, Unindexed, IndexProvider.Valid;
      ghost var now := whitelistedBlocks;
      var out, noMoreIndex;
      base, out, noMoreIndex := LookupBlockIndex(from, timeIsUp);
      forall b | from <= b < base && Aligned(b) ensures NoneWanted(whitelisted, Late(failures), b) {
        AlignedApart(b, base);
        Jumped(whitelisted, now, Late(failures), from, again, b);
      }
      if noMoreIndex {
        if (base !in files || Failing(left, base)) && base > from {
          AlignedApart(from, base);
          StepBack(base);
          base := base - bundleSize;
        }
        return base, None;
      }
      filter := Some(out);
      if !Failing(left, base) {
        OnTime(failures, left, from, again, base);
        if out == [base] && timeIsUp(base) && forall n | Within(base, n) :: !Wanted(now, n) {
          Jumped(whitelisted, now, Late(failures), from, again, base);
          Shows(whitelisted, Late(failures), timeIsUp, base);
        } else {
          forall n | Within(base, n) ensures n in out <==> WantedIn(whitelisted, Late(failures), base, n) {
            LookedUp(whitelisted, now, Late(failures), from, again, base, n);
          }
        }
      }
    }

    lemma Shows(whitelisted: set<nat>, late: set<nat>, timeIsUp: nat -> bool, base: nat)
      requires timeIsUp(base) && NoneWanted(whitelisted, late, base)
      ensures Progress(whitelisted, late, timeIsUp, base)
    {
    }

    lemma StepBack(base: nat)
      requires Aligned(base) && bundleSize <= base
      ensures Aligned(base - bundleSize)
    {
      var q := base / bundleSize;
      assert base == bundleSize * q;
      assert q > 0;
      MultipleHasNoRemainder(q - 1, bundleSize);
      assert bundleSize * (q - 1) == base - bundleSize;
    }

    /** Reads one file, with or without a filter. */
    method ReadFile(base: nat, files: map<nat, seq<nat>>, filter: Option<seq<nat>>, ghost whitelisted: set<nat>,
                    ghost late: set<nat>, ghost timeIsUp: nat -> bool) returns (more: seq<nat>)
      requires FilesOk(files) && base in files && bundleSize > 0
      requires filter.Some? ==> FilterOk(whitelisted, late, timeIsUp, base, filter.value)
      ensures Increasing(more) && forall n <- more :: n in Offered(files, base)
      ensures BundleRead(whitelisted, late, timeIsUp, filter.Some?, base, Offered(files, base), more)
    {
      hide WantedIn, Progress, BundleRead, Selected;
      OfferedIs(files, base);
      ghost var offered := Offered(files, base);
      var file := new IncomingBlocksFile(base, filter);
      more := file.ReadBlocks(startBlockNum, files[base]);
      SelectedAll(filter, offered, more);
      if filter.Some? {
        Filtered(whitelisted, late, timeIsUp, base, filter.value, offered, more);
      } else {
        AllHandedOn(filter, whitelisted, late, timeIsUp, base, offered, more);
      }
    }

    lemma InOrderStill(files: map<nat, seq<nat>>, base: nat, passed: seq<nat>, more: seq<nat>)
      requires FilesOk(files) && base in files && Increasing(passed) && Increasing(more)
      requires (forall n <- passed :: n < base) && forall n <- more :: n in Offered(files, base)
      ensures Increasing(passed + more) && forall n <- passed + more :: n < base + bundleSize
    {
      OfferedIs(files, base);
      assert forall i | 0 <= i < |passed| :: passed[i] in passed;
      assert forall i | 0 <= i < |more| :: more[i] in more;
    }

    /**
     Reads merged files from the one that holds the start on: by the index for as long as there is one,
     then whole. A file shows up after as many failed checks as `failures` says; `end` is the base of the
     first file not read.
     */
    method ReadFiles(files: map<nat, seq<nat>>, failures: map<nat, nat>, timeIsUp: nat -> bool)
      returns (passed: seq<nat>, end: nat, ghost cut: nat)
      requires Ready() && FilesOk(files)
      modifies this`whitelistedBlocks, provider
      ensures var low := LowBoundary(startBlockNum, bundleSize);
        && low <= end && Aligned(end) && Increasing(passed)
        && AllRead(old(whitelistedBlocks), Late(failures), timeIsUp, files, low, cut, end, passed)
        && OnlyOffered(files, low, end, passed)
      ensures 0 < stopBlockNum < end || end !in files || (errorOutOnMissingFile && end in Late(failures))
      ensures cut < end ==> IndexEnds(files, Late(failures), cut)
    {
      hide Wanted, NoneWanted, AllRead, BundleRead, OnlyOffered, Unindexed, IndexProvider.Valid, FilesOk, Offered, LeftOver,
           WantedIn, Progress, FirstWanted, IndexEnds, Increasing, FilterOk, Checks;
      var base := LowBoundary(startBlockNum, bundleSize);
      ghost var low, late, whitelisted, again := base, Late(failures), whitelistedBlocks, false;
      ghost var top := HighestBase(files.Keys + failures.Keys);
      var hasIndex, left := true, failures;
      passed, cut := [], base;
      NothingYet(whitelisted, failures, timeIsUp, files, base);
      while true
        invariant Ready() && startBlockNum < base + bundleSize && (stopBlockNum == 0 || base <= stopBlockNum)
        invariant left.Keys == failures.Keys && forall b <- left :: left[b] <= failures[b]
        invariant if hasIndex then IndexTo(whitelisted, whitelistedBlocks, failures, left, cut, base, again)
                  else cut <= base && IndexEnds(files, late, cut)
        invariant ReadTo(whitelisted, late, timeIsUp, files, low, cut, base, passed)
        decreases if base <= top then top - base + 1 else 0, if base in left then left[base] else 0
      {
        var filter: Option<seq<nat>> := None;
        ghost var from := base;
        if hasIndex {
          base, filter := NextBundle(base, files, left, timeIsUp, whitelisted, failures, again);
          hasIndex := filter.Some?;
          ghost var cut' := if hasIndex then base + bundleSize else base;
          JumpTo(whitelisted, late, timeIsUp, files, low, cut, from, cut', base, passed);
          cut := cut';
        }
        if base !in files || Failing(left, base) {
          if errorOutOnMissingFile || !Failing(left, base) {
            return passed, base, cut;
          }
          if hasIndex {
            TryAgain(whitelisted, whitelistedBlocks, failures, left, from, again, base);
          }
          left := left[base := left[base] - 1];
          again := true;
          continue;
        }
        var more := ReadFile(base, files, filter, whitelisted, late, timeIsUp);
        ReadOn(whitelisted, late, timeIsUp, files, low, cut, base, passed, more);
        passed := passed + more;
        if hasIndex {
          GoOn(whitelisted, whitelistedBlocks, failures, left, from, again, base);
        }
        base, again := base + bundleSize, false;
        if stopBlockNum != 0 && base > stopBlockNum {
          return passed, base, cut;
        }
      }
    }

    /** A file that is there was there the first time, unless it is looked for again. */
    lemma OnTime(failures: map<nat, nat>, left: map<nat, nat>, from: nat, again: bool, base: nat)
      requires Checks(failures, left, from, again) && from <= base && !Failing(left, base) && (again ==> from in Late(failures))
      ensures base in Late(failures) <==> base == from && again
    {
    }

    lemma TryAgain(whitelisted: set<nat>, now: set<nat>, failures: map<nat, nat>, left: map<nat, nat>,
                   from: nat, again: bool, base: nat)
      requires Checks(failures, left, from, again) && from <= base && LeftOver(whitelisted, now, base, true) && Failing(left, base)
      ensures IndexTo(whitelisted, now, failures, left[base := left[base] - 1], base + bundleSize, base, true)
    {
      hide LeftOver;
    }

    lemma GoOn(whitelisted: set<nat>, now: set<nat>, failures: map<nat, nat>, left: map<nat, nat>,
               from: nat, again: bool, base: nat)
      requires Checks(failures, left, from, again) && from <= base && LeftOver(whitelisted, now, base, true) && bundleSize > 0
      ensures IndexTo(whitelisted, now, failures, left, base + bundleSize, base + bundleSize, false)
    {
    }

    lemma JumpTo(whitelisted: set<nat>, late: set<nat>, timeIsUp: nat -> bool, files: map<nat, seq<nat>>,
                 low: nat, cut: nat, from: nat, cut': nat, base: nat, passed: seq<nat>)
      requires FilesOk(files) && ReadTo(whitelisted, late, timeIsUp, files, low, cut, from, passed)
      requires from <= base && from <= cut && base <= cut' && Aligned(base)
      requires forall b | from <= b < base && Aligned(b) :: NoneWanted(whitelisted, late, b)
      ensures ReadTo(whitelisted, late, timeIsUp, files, low, cut', base, passed)
    {
      hide AllRead, OnlyOffered, NoneWanted;
      JumpedOver(whitelisted, late, timeIsUp, files, low, cut, from, cut', base, passed);
      OfferedStays(files, low, from, base, passed);
    }

    lemma ReadOn(whitelisted: set<nat>, late: set<nat>, timeIsUp: nat -> bool, files: map<nat, seq<nat>>,
                 low: nat, cut: nat, base: nat, passed: seq<nat>, more: seq<nat>)
      requires FilesOk(files) && ReadTo(whitelisted, late, timeIsUp, files, low, cut, base, passed) && base in files
      requires Increasing(more) && forall n <- more :: n in Offered(files, base)
      requires BundleRead(whitelisted, late, timeIsUp, base < cut, base, Offered(files, base), more)
      ensures ReadTo(whitelisted, late, timeIsUp, files, low, cut, base + bundleSize, passed + more)
    {
      hide AllRead, OnlyOffered, Offered, BundleRead, FilesOk;
      InOrderStill(files, base, passed, more);
      OneMoreRead(whitelisted, late, timeIsUp, files, low, cut, base, passed, more);
      OfferedMore(files, low, base, passed, more);
      NextBoundary(base, bundleSize);
    }

    lemma NothingYet(whitelisted: set<nat>, failures: map<nat, nat>, timeIsUp: nat -> bool, files: map<nat, seq<nat>>, base: nat)
      requires Aligned(base)
      ensures ReadTo(whitelisted, Late(failures), timeIsUp, files, base, base, base, [])
      ensures IndexTo(whitelisted, whitelisted, failures, failures, base, base, false)
    {
    }

    lemma AllHandedOn(filter: Option<seq<nat>>, whitelisted: set<nat>, late: set<nat>, timeIsUp: nat -> bool, base: nat,
                      offered: seq<nat>, more: seq<nat>)
      requires filter.None? && Selected(filter, offered, |offered|, more)
      ensures BundleRead(whitelisted, late, timeIsUp, false, base, offered, more)
    {
    }

    lemma OfferedStays(files: map<nat, seq<nat>>, low: nat, end: nat, end': nat, passed: seq<nat>)
      requires OnlyOffered(files, low, end, passed) && end <= end'
      ensures OnlyOffered(files, low, end', passed)
    {
    }

    lemma OfferedMore(files: map<nat, seq<nat>>, low: nat, base: nat, passed: seq<nat>, more: seq<nat>)
      requires OnlyOffered(files, low, base, passed) && low <= base && Aligned(base) && base in files
      requires forall n <- more :: n in Offered(files, base)
      ensures OnlyOffered(files, low, base + bundleSize, passed + more)
    {
      hide Offered;
    }

    lemma Reads200(files: map<nat, seq<nat>>, failures: map<nat, nat>, end: nat, cut: nat)
      requires bundleSize == 100 && provider.possibleIndexSizes == [200] && provider.store.Keys == {(200, 0)}
      requires stopBlockNum == 0 && files.Keys == {0, 100, 200} && failures.Keys <= {0} && !errorOutOnMissingFile
      requires Aligned(end) && end !in files && (cut < end ==> IndexEnds(files, Late(failures), cut))
      ensures end >= 200 && cut >= 200
    {
      hide LowBoundary;
      assert end % 100 == 0;
      var low, high := LowBoundary(0, 200), LowBoundary(100, 200);
      assert low == 0 && high == 0;
      assert !Unindexed(0) && !Unindexed(100);
    }

    // What that means for a number

    ghost predicate HasBlock(files: map<nat, seq<nat>>, n: nat) {
      bundleSize > 0 && LowBoundary(n, bundleSize) in files && n in Offered(files, LowBoundary(n, bundleSize))
    }

    /** `x` is the first block at or above `w`, in whichever file. */
    ghost predicate FirstFrom(files: map<nat, seq<nat>>, w: nat, x: nat) {
      HasBlock(files, x) && w <= x && forall m | w <= m < x :: !HasBlock(files, m)
    }

    /** A bundle that was read by the index, and not to show progress. */
    ghost predicate ByIndex(low: nat, cut: nat, end: nat, timeIsUp: nat -> bool, base: nat) {
      low <= base < end && base < cut && !timeIsUp(base)
    }

    lemma BoundaryOf(base: nat, n: nat)
      requires Aligned(base) && Within(base, n)
      ensures LowBoundary(n, bundleSize) == base
    {
      BoundaryIs(base, n, bundleSize);
    }

    lemma FirstInBundle(files: map<nat, seq<nat>>, base: nat, i: nat, w: nat)
      requires FilesOk(files) && Aligned(base) && base in files && i < |Offered(files, base)| && Within(base, w)
      ensures var o := Offered(files, base);
        w <= o[i] && (i == 0 || o[i - 1] < w) <==> FirstFrom(files, w, o[i])
    {
      hide Offered, FilesOk;
      OfferedIs(files, base);
      var o := Offered(files, base);
      assert forall j | 0 <= j < |o| :: o[j] in o;
      BoundaryOf(base, o[i]);
      if w <= o[i] && (i == 0 || o[i - 1] < w) {
        forall m | w <= m < o[i] ensures !HasBlock(files, m) {
          BoundaryOf(base, m);
          NoneBetween(o, i, m);
        }
      }
      if FirstFrom(files, w, o[i]) && i > 0 {
        BoundaryOf(base, o[i - 1]);
        assert HasBlock(files, o[i - 1]);
      }
    }

    /** A block is handed on exactly when it is the first at or above a number wanted in its own bundle. */
    lemma HandedOnExactly(whitelisted: set<nat>, late: set<nat>, timeIsUp: nat -> bool, files: map<nat, seq<nat>>,
                          low: nat, cut: nat, end: nat, passed: seq<nat>, x: nat)
      requires FilesOk(files) && AllRead(whitelisted, late, timeIsUp, files, low, cut, end, passed) && HasBlock(files, x)
      requires ByIndex(low, cut, end, timeIsUp, LowBoundary(x, bundleSize))
      ensures x in passed <==> exists w :: WantedIn(whitelisted, late, LowBoundary(x, bundleSize), w) && FirstFrom(files, w, x)
    {
      hide FirstFrom, Offered, WantedIn, FilesOk;
      var base := LowBoundary(x, bundleSize);
      var o := Offered(files, base);
      var i :| 0 <= i < |o| && o[i] == x;
      assert BundleRead(whitelisted, late, timeIsUp, true, base, o, passed);
      forall w | WantedIn(whitelisted, late, base, w)
        ensures w <= o[i] && (i == 0 || o[i - 1] < w) <==> FirstFrom(files, w, x)
      {
        WantedWithin(whitelisted, late, base, w);
        FirstInBundle(files, base, i, w);
      }
    }

    lemma WantedWithin(whitelisted: set<nat>, late: set<nat>, base: nat, w: nat)
      requires WantedIn(whitelisted, late, base, w)
      ensures Within(base, w)
    {
    }

    /** A block that is wanted itself is handed on, unless its file was late and only the whitelist wants it. */
    lemma WantedIsSent(whitelisted: set<nat>, late: set<nat>, timeIsUp: nat -> bool, files: map<nat, seq<nat>>,
                       low: nat, cut: nat, end: nat, passed: seq<nat>, x: nat)
      requires FilesOk(files) && AllRead(whitelisted, late, timeIsUp, files, low, cut, end, passed) && HasBlock(files, x)
      requires var base := LowBoundary(x, bundleSize);
        low <= base < end && (base < cut ==> !timeIsUp(base) && WantedIn(whitelisted, late, base, x))
      ensures x in passed
    {
      var base := LowBoundary(x, bundleSize);
      if base < cut {
        HandedOnExactly(whitelisted, late, timeIsUp, files, low, cut, end, passed, x);
        assert FirstFrom(files, x, x);
      } else {
        var o := Offered(files, base);
        var i :| 0 <= i < |o| && o[i] == x;
        assert BundleRead(whitelisted, late, timeIsUp, false, base, o, passed);
      }
    }

    /** The blocks that files have to offer are all that lie in their bundle from the start on. */
    lemma HasBlockMeans(files: map<nat, seq<nat>>, n: nat)
      requires FilesOk(files) && bundleSize > 0
      ensures HasBlock(files, n) <==>
        startBlockNum <= n && LowBoundary(n, bundleSize) in files && n in files[LowBoundary(n, bundleSize)]
    {
      hide LowBoundary, NotBelow;
      var base := LowBoundary(n, bundleSize);
      if base in files {
        NotBelowHas(files[base], Low(base), n);
      }
    }

    /** What asks for a number, spelled out: it lies between start and stop and is one of them, matches, or is whitelisted. */
    ghost predicate Asked(whitelisted: set<nat>, isLate: bool, w: nat) {
      && startBlockNum <= w && (stopBlockNum == 0 || w <= stopBlockNum)
      && (|| w == startBlockNum || w == stopBlockNum || (w in whitelisted && !isLate)
          || (provider.firstStreamable <= w && provider.wants(KeysOf(provider.stream, w))))
    }

    lemma HandedOnWhenAsked(whitelisted: set<nat>, late: set<nat>, timeIsUp: nat -> bool, files: map<nat, seq<nat>>,
                            low: nat, cut: nat, end: nat, passed: seq<nat>, x: nat)
      requires FilesOk(files) && AllRead(whitelisted, late, timeIsUp, files, low, cut, end, passed) && HasBlock(files, x)
      requires ByIndex(low, cut, end, timeIsUp, LowBoundary(x, bundleSize))
      ensures var base := LowBoundary(x, bundleSize);
        x in passed <==> exists w :: base <= w && FirstFrom(files, w, x) && Asked(whitelisted, base in late, w)
    {
      hide FirstFrom, FilesOk, AllRead, HasBlock, LowBoundary;
      HandedOnExactly(whitelisted, late, timeIsUp, files, low, cut, end, passed, x);
      var base := LowBoundary(x, bundleSize);
      forall w | FirstFrom(files, w, x)
        ensures WantedIn(whitelisted, late, base, w) <==> base <= w && Asked(whitelisted, base in late, w)
      {
        NotAbove(files, w, x);
      }
    }

    lemma NotAbove(files: map<nat, seq<nat>>, w: nat, x: nat)
      requires FirstFrom(files, w, x)
      ensures w <= x
    {
    }

    /**
     The first block at or above a whitelisted number, when it is not that of another number wanted in its
     bundle, is handed on exactly if it lies in the number's bundle and that file was there the first time.
     */
    lemma WhitelistedExactly(whitelisted: set<nat>, late: set<nat>, timeIsUp: nat -> bool, files: map<nat, seq<nat>>,
                             low: nat, cut: nat, end: nat, passed: seq<nat>, w: nat, x: nat)
      requires FilesOk(files) && AllRead(whitelisted, late, timeIsUp, files, low, cut, end, passed) && FirstFrom(files, w, x)
      requires ByIndex(low, cut, end, timeIsUp, LowBoundary(x, bundleSize))
      requires w in whitelisted && InReach(w) && !Wanted({}, w)
      requires forall v | LowBoundary(x, bundleSize) <= v && v != w && Wanted(whitelisted, v) :: !FirstFrom(files, v, x)
      ensures x in passed <==> LowBoundary(w, bundleSize) == LowBoundary(x, bundleSize) && LowBoundary(x, bundleSize) !in late
    {
      hide AllRead, FilesOk, HasBlock;
      var base := LowBoundary(x, bundleSize);
      HandedOnExactly(whitelisted, late, timeIsUp, files, low, cut, end, passed, x);
      if x in passed {
        var v :| WantedIn(whitelisted, late, base, v) && FirstFrom(files, v, x);
        assert Wanted(whitelisted, v);
        BoundaryOf(base, w);
      }
      if LowBoundary(w, bundleSize) == base && base !in late {
        assert WantedIn(whitelisted, late, base, w);
      }
    }
  }

  // One reading

  /** An index of the first 200 numbers and a filter that wants nothing. */
  method NothingIndexed() returns (provider: IndexProvider)
    ensures fresh(provider) && provider.Valid() && provider.possibleIndexSizes == [200]
    ensures provider.store.Keys == {(200, 0)} && forall n :: !provider.Matches(n)
  {
    var store: IndexStore := map[(200, 0) := map[]];
    assert Covers(map[], [], 0, 200);
    provider := new IndexProvider(store, [200], _ => [], 0, [], _ => false);
  }

  /**
   Blocks 97, `x` and 200 in bundles of 100, read from a cursor at 97, whose successor 98 is whitelisted: `x`,
   the first block after the cursor's, is sent only from the same bundle, and only if that file is not late.
   */
  method ReadFrom97(x: nat, late: bool) returns (passed: seq<nat>)
    requires 97 < x < 200
    ensures 97 in passed && (x in passed <==> x < 100 && !late)
  {
    var files: map<nat, seq<nat>> :=
      map[0 := if x < 100 then [97, x] else [97], 100 := if x < 100 then [] else [x], 200 := [200]];
    var failures: map<nat, nat> := if late then map[0 := 1] else map[];
    var provider := NothingIndexed();
    var fs := new FileSource(97, 0, 100, false, provider, {97, 98});
    var end;
    ghost var cut;
    passed, end, cut := fs.ReadFiles(files, failures, _ => false);
    fs.Reads200(files, failures, end, cut);
    Offers(fs, files, x);
    FromCursorAt97(fs, files, FileSource.Late(failures), end, cut, passed, x);
  }

  lemma FromCursorAt97(fs: FileSource, files: map<nat, seq<nat>>, late: set<nat>, end: nat, cut: nat, passed: seq<nat>, x: nat)
    requires fs.bundleSize == 100 && fs.startBlockNum == 97 && fs.stopBlockNum == 0 && (forall n :: !fs.provider.Matches(n))
    requires fs.FilesOk(files) && late <= {0} && end >= 200 && cut >= 200
    requires fs.AllRead({97, 98}, late, _ => false, files, 0, cut, end, passed)
    requires fs.HasBlock(files, 97) && 97 < x < 200 && fs.FirstFrom(files, 98, x)
    ensures 97 in passed && (x in passed <==> x < 100 && 0 !in late)
  {
    hide FileSource.AllRead, FileSource.FilesOk, FileSource.HasBlock;
    fs.BoundaryOf(0, 97);
    fs.WantedIsSent({97, 98}, late, _ => false, files, 0, cut, end, passed, 97);
    fs.BoundaryOf(if x < 100 then 0 else 100, x);
    fs.BoundaryOf(0, 98);
    fs.WhitelistedExactly({97, 98}, late, _ => false, files, 0, cut, end, passed, 98, x);
  }

  lemma Offers(fs: FileSource, files: map<nat, seq<nat>>, x: nat)
    requires fs.bundleSize == 100 && fs.startBlockNum == 97 && files.Keys == {0, 100, 200} && 97 < x < 200
    requires files[0] == (if x < 100 then [97, x] else [97]) && files[100] == if x < 100 then [] else [x]
    ensures fs.HasBlock(files, 97) && fs.FirstFrom(files, 98, x)
  {
    hide LowBoundary;
    var base := if x < 100 then 0 else 100;
    assert fs.Offered(files, 0) == files[0] && fs.Offered(files, 100) == files[100];
    fs.BoundaryOf(0, 97);
    fs.BoundaryOf(base, x);
    assert fs.HasBlock(files, x);
    forall m | 98 <= m < x ensures !fs.HasBlock(files, m) {
      fs.BoundaryOf(if m < 100 then 0 else 100, m);
    }
  }
}
