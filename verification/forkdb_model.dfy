/** What a ForkDB holds, as a value, and what its queries mean. */
module ForkDbModel {
  import opened Chain

  /** Links and objects are one map of blocks; `nums` may also know the number of an initial LIB. */
  datatype Db = Db(stored: Store, nums: map<Id, nat>, lib: Ref) {
    predicate HasLib() { lib != EMPTY_REF }
  }

  /** `r` names a block by the lowest-block-at-or-above rule: its number is above its parent's. */
  ghost predicate RefOk(u: Store, r: Ref) {
    && r.id in u
    && r.num <= u[r.id].num
    && (u[r.id].parent in u ==> u[u[r.id].parent].num < r.num)
  }

  ghost predicate DbOk(u: Store, db: Db) {
    && WellFormed(u)
    && Within(db.stored, u)
    && (forall id <- db.nums :: id in u && db.nums[id] == u[id].num)
    && db.stored.Keys <= db.nums.Keys <= db.stored.Keys + {db.lib.id}
    && (if db.HasLib() then RefOk(u, db.lib) && db.lib.id in db.nums else db.lib.id !in u)
  }

  function NumOf(db: Db, id: Id): nat {
    if id in db.nums then db.nums[id] else 0
  }

  function AddLink(db: Db, b: Block): Db
  {
    if b.id == b.parent || b.id == "" || b.id in db.stored then db
    else db.(stored := db.stored[b.id := b], nums := db.nums[b.id := b.num])
  }

  lemma AddLinkOk(u: Store, db: Db, b: Block)
    requires DbOk(u, db) && b.id in u && u[b.id] == b
    ensures DbOk(u, AddLink(db, b))
  {
  }

  // BlockInCurrentChain

  ghost function BlockBelow(u: Store, db: Db, cur: Id, h: nat): Ref
    requires DbOk(u, db)
    decreases if cur in db.stored then db.stored[cur].num + 1 else 0
  {
    if cur !in db.stored || db.stored[cur].parent !in db.nums then EMPTY_REF
    else
      var prev := db.stored[cur].parent;
      if db.nums[prev] == h then Ref(prev, h)
      else if db.nums[prev] < h then Ref(cur, h)
      else BlockBelow(u, db, prev, h)
  }

  ghost function BlockInChain(u: Store, db: Db, start: Ref, h: nat): Ref
    requires DbOk(u, db)
  {
    if start.num == h then start else BlockBelow(u, db, start.id, h)
  }

  ghost predicate NoneAtOrBelow(db: Db, cur: Id, h: nat) {
    forall a, p | a in db.nums && Linked(db.stored, a, p, cur) :: h < db.nums[a]
  }

  lemma {:induction false} BlockBelowMeaning(u: Store, db: Db, cur: Id, h: nat)
    requires DbOk(u, db) && cur in u && h < u[cur].num
    ensures var r := BlockBelow(u, db, cur, h);
      && (r != EMPTY_REF ==> r.id in db.nums && r.num == h && RefOk(u, r) && exists p :: Linked(db.stored, r.id, p, cur))
      && (r == EMPTY_REF <==> NoneAtOrBelow(db, cur, h))
    decreases u[cur].num
  {
    var r := BlockBelow(u, db, cur, h);
    if cur !in db.stored || db.stored[cur].parent !in db.nums {
      forall a, p | a in db.nums && Linked(db.stored, a, p, cur) ensures h < db.nums[a] {
        if p != [] { LinkedBelowIsKnown(db, a, p, cur); }
      }
    } else {
      var b := db.stored[cur];
      StepUp(u, db, b.parent, [], b);
      if db.nums[b.parent] == h {
        assert !NoneAtOrBelow(db, cur, h);
      } else if db.nums[b.parent] < h {
        assert Linked(db.stored, cur, [], cur);
      } else {
        BlockBelowMeaning(u, db, b.parent, h);
        if r != EMPTY_REF {
          var p :| Linked(db.stored, r.id, p, b.parent);
          StepUp(u, db, r.id, p, b);
        }
        forall a, p | a in db.nums && Linked(db.stored, a, p, cur) && NoneAtOrBelow(db, b.parent, h) ensures h < db.nums[a] {
          if p != [] { assert Linked(db.stored, a, p[..|p| - 1], b.parent); }
        }
        forall a, p | a in db.nums && Linked(db.stored, a, p, b.parent) && NoneAtOrBelow(db, cur, h) ensures h < db.nums[a] {
          StepUp(u, db, a, p, b);
        }
      }
    }
  }

  lemma StepUp(u: Store, db: Db, a: Id, p: seq<Block>, b: Block)
    requires DbOk(u, db) && b.id in db.stored && db.stored[b.id] == b && a in u
    requires Linked(db.stored, a, p, b.parent)
    ensures Linked(db.stored, a, p + [b], b.id)
  {
    LinkedAscending(u, db.stored, a, p, b.parent);
    LinkedElements(db.stored, a, p, b.parent);
    OnTop(db.stored, a, p, b);
  }

  lemma {:induction false} LinkedBelowIsKnown(db: Db, a: Id, p: seq<Block>, cur: Id)
    requires db.stored.Keys <= db.nums.Keys
    requires a in db.nums && Linked(db.stored, a, p, cur) && p != []
    ensures db.stored[cur].parent in db.nums
  {
    LinkedElements(db.stored, a, p[..|p| - 1], p[|p| - 1].parent);
  }

  /**
   For a start block at or above height `h`: the answer is the lowest ancestor-or-self numbered `h`
   or more, under the number asked for; it is empty exactly when no known ancestor is that low.
   */
  lemma BlockInChainMeaning(u: Store, db: Db, start: Block, h: nat)
    requires DbOk(u, db) && start.id in u && u[start.id] == start && h <= start.num
    ensures var r := BlockInChain(u, db, start.AsRef(), h);
      && (r != EMPTY_REF ==> r.num == h && RefOk(u, r) && exists p :: Linked(db.stored, r.id, p, start.id))
      && (r != EMPTY_REF ==> r == start.AsRef() || r.id in db.nums)
      && (r == EMPTY_REF <==>
          h < start.num && NoneAtOrBelow(db, start.id, h))
  {
    if h < start.num {
      BlockBelowMeaning(u, db, start.id, h);
    } else {
      assert Linked(db.stored, start.id, [], start.id);
    }
  }

  lemma {:induction false} BlockBelowIgnoresLib(u: Store, db: Db, db': Db, cur: Id, h: nat)
    requires DbOk(u, db) && DbOk(u, db') && db' == db.(lib := db'.lib)
    ensures BlockBelow(u, db, cur, h) == BlockBelow(u, db', cur, h)
    decreases if cur in u then u[cur].num + 1 else 0
  {
    if cur in db.stored && db.stored[cur].parent in db.nums {
      BlockBelowIgnoresLib(u, db, db', db.stored[cur].parent, h);
    }
  }

  /** What lies strictly above the LIB is numbered above it, under whatever number it is asked for. */
  lemma NumbersAboveLib(u: Store, db: Db, r: Ref, p: seq<Block>)
    requires DbOk(u, db) && db.HasLib() && RefOk(u, r) && p != [] && Linked(db.stored, db.lib.id, p, r.id)
    ensures db.lib.num <= r.num && u[db.lib.id].num < r.num && r.id != db.lib.id
  {
    var q, parent := p[..|p| - 1], p[|p| - 1].parent;
    LinkedAscending(u, db.stored, db.lib.id, q, parent);
    LinkedElements(db.stored, db.lib.id, q, parent);
    assert u[r.id] == p[|p| - 1];
    assert q != [] ==> u[parent] == q[|q| - 1];
  }

  // ReversibleSegment and PurgeBeforeLIB

  /** The blocks above the LIB up to `head`, or none when `head` does not link to the LIB. */
  ghost function Reversible(db: Db, head: Id): Option<seq<Block>> {
    PathTo(db.stored, db.lib.id, head)
  }

  ghost function Recomputed(db: Db, head: Id): seq<Block> {
    match Reversible(db, head)
    case Some(p) => p
    case None => []
  }

  function Cutoff(db: Db, kept: nat): nat {
    if db.lib.num < kept then 0 else db.lib.num - kept
  }

  function Purge(db: Db, kept: nat): Db {
    var stored := map id <- db.stored | NumOf(db, id) >= Cutoff(db, kept) :: db.stored[id];
    db.(stored := stored, nums := map id <- stored :: NumOf(db, id))
  }

  function Purged(db: Db, kept: nat): Store {
    map id <- db.stored | NumOf(db, id) < Cutoff(db, kept) :: db.stored[id]
  }

  /** What is kept: everything that is not more than `kept` numbers below the LIB. */
  lemma PurgeKeeps(u: Store, db: Db, kept: nat)
    requires DbOk(u, db)
    ensures forall id :: id in Purge(db, kept).stored <==> id in db.stored && db.lib.num <= u[id].num + kept
    ensures forall id <- Purge(db, kept).stored :: Purge(db, kept).stored[id] == db.stored[id]
    ensures Purge(db, kept).lib == db.lib
  {
  }

  lemma MoveAndPurgeOk(u: Store, db: Db, lib: Ref, kept: nat)
    requires DbOk(u, db) && RefOk(u, lib) && lib.id in db.stored
    ensures DbOk(u, Purge(db.(lib := lib), kept))
  {
  }

  /** Above the LIB the purge cannot be seen, and it loses or doubles no block. */
  lemma PurgeInvisibleAboveLib(u: Store, db: Db, kept: nat, head: Id)
    requires DbOk(u, db) && db.HasLib()
    ensures Reversible(Purge(db, kept), head) == Reversible(db, head)
    ensures Purge(db, kept).stored.Keys !! Purged(db, kept).Keys
    ensures Purge(db, kept).stored + Purged(db, kept) == db.stored
  {
    var kdb := Purge(db, kept);
    forall p | Linked(db.stored, db.lib.id, p, head) ensures Reversible(kdb, head) == Some(p) == Reversible(db, head) {
      LinkedAscending(u, db.stored, db.lib.id, p, head);
      LinkedElements(db.stored, db.lib.id, p, head);
      LinkedInStore(db.stored, kdb.stored, db.lib.id, p, head);
      PathToIs(kdb.stored, db.lib.id, p, head);
      PathToIs(db.stored, db.lib.id, p, head);
    }
    forall p | Linked(kdb.stored, db.lib.id, p, head) ensures Linked(db.stored, db.lib.id, p, head) {
      LinkedElements(kdb.stored, db.lib.id, p, head);
      LinkedInStore(kdb.stored, db.stored, db.lib.id, p, head);
    }
  }

  // ChainSwitchSegments

  /** `j` is the nearest common ancestor: both heads hang off it by paths that share no block. */
  ghost predicate IsSwitch(m: Store, j: Id, p: seq<Block>, q: seq<Block>, oldHead: Id, newHead: Id) {
    && Linked(m, j, p, oldHead)
    && Linked(m, j, q, newHead)
    && forall i, k | 0 <= i < |p| && 0 <= k < |q| :: p[i].id != q[k].id
  }

  datatype Switch = Switch(junction: Id, undo: seq<Block>, redo: seq<Block>)

  ghost function SwitchOf(m: Store, oldHead: Id, newHead: Id): (r: Option<Switch>)
    ensures r.Some? ==> IsSwitch(m, r.value.junction, r.value.undo, r.value.redo, oldHead, newHead)
    ensures r.None? ==> forall j, p, q :: !IsSwitch(m, j, p, q, oldHead, newHead)
  {
    if j, p, q :| IsSwitch(m, j, p, q, oldHead, newHead) then Some(Switch(j, p, q)) else None
  }

  /** Two paths off one root part ways once and never meet again. */
  lemma {:induction false} PathsPart(u: Store, m: Store, root: Id, a: seq<Block>, b: seq<Block>, oldHead: Id, newHead: Id)
    returns (k: nat)
    requires WellFormed(u) && Within(m, u)
    requires Linked(m, root, a, oldHead) && Linked(m, root, b, newHead)
    ensures k <= |a| && k <= |b| && a[..k] == b[..k]
    ensures IsSwitch(m, At(root, a, k), a[k..], b[k..], oldHead, newHead)
  {
    hide Linked;
    k := 0;
    while k < |a| && k < |b| && a[k] == b[k]
      invariant k <= |a| && k <= |b| && a[..k] == b[..k]
    {
      k := k + 1;
    }
    LinkedSuffix(u, m, root, a, k, oldHead);
    LinkedSuffix(u, m, root, b, k, newHead);
    if k > 0 {
      assert a[k - 1] == a[..k][k - 1] && b[k - 1] == b[..k][k - 1];
    }
    var x, y := a[k..], b[k..];
    forall i, l | 0 <= i < |x| && 0 <= l < |y| ensures x[i].id != y[l].id {
      PartedStay(m, root, a, b, oldHead, newHead, k, k + i, k + l);
    }
  }

  /** Above the place where two paths part no block of the one has the id of a block of the other. */
  lemma PartedStay(m: Store, root: Id, a: seq<Block>, b: seq<Block>, oldHead: Id, newHead: Id, k: nat, i: nat, l: nat)
    requires Linked(m, root, a, oldHead) && Linked(m, root, b, newHead)
    requires k <= i < |a| && k <= l < |b| && a[k] != b[k]
    ensures a[i].id != b[l].id
  {
    hide Linked;
    if a[i].id == b[l].id {
      LinkedPrefix(m, root, a, i + 1, oldHead);
      LinkedPrefix(m, root, b, l + 1, newHead);
      var x, y := a[..i + 1], b[..l + 1];
      var parted := x[k] != y[k];
      LinkedUnique(m, root, x, y, a[i].id);
    }
  }

  lemma SwitchUnique(u: Store, m: Store, s: Switch, t: Switch, oldHead: Id, newHead: Id)
    requires WellFormed(u) && Within(m, u)
    requires IsSwitch(m, s.junction, s.undo, s.redo, oldHead, newHead)
    requires IsSwitch(m, t.junction, t.undo, t.redo, oldHead, newHead)
    ensures s == t
  {
    if |s.undo| <= |t.undo| {
      SwitchUniqueOrdered(u, m, s, t, oldHead, newHead);
    } else {
      SwitchUniqueOrdered(u, m, t, s, oldHead, newHead);
    }
  }

  lemma SwitchUniqueOrdered(u: Store, m: Store, s: Switch, t: Switch, oldHead: Id, newHead: Id)
    requires WellFormed(u) && Within(m, u)
    requires IsSwitch(m, s.junction, s.undo, s.redo, oldHead, newHead)
    requires IsSwitch(m, t.junction, t.undo, t.redo, oldHead, newHead)
    requires |s.undo| <= |t.undo|
    ensures s == t
  {
    WalksAgree(m, s.junction, s.undo, t.junction, t.undo, oldHead);
    LinkedElements(m, t.junction, t.undo, oldHead);
    if |s.undo| == |t.undo| {
      LinkedUnique(m, s.junction, s.redo, t.redo, newHead);
    } else {
      var i := |t.undo| - |s.undo| - 1;
      var x := t.undo[i];
      assert x.id == s.junction;
      LinkedAscending(u, m, t.junction, t.undo, oldHead);
      if |s.redo| < |t.redo| {
        var shared := t.redo[|t.redo| - |s.redo| - 1];
        assert shared.id != x.id;
        WalksAgree(m, s.junction, s.redo, t.junction, t.redo, newHead);
        assert false;
      } else {
        WalksAgree(m, t.junction, t.redo, s.junction, s.redo, newHead);
        LinkedAscending(u, m, s.junction, s.redo, newHead);
        LinkedElements(m, s.junction, s.redo, newHead);
        assert false;
      }
    }
  }

  /** With a common root the switch exists, and its junction lies on both paths. */
  lemma SwitchFromRoot(u: Store, m: Store, root: Id, a: seq<Block>, b: seq<Block>, oldHead: Id, newHead: Id) returns (k: nat)
    requires WellFormed(u) && Within(m, u)
    requires Linked(m, root, a, oldHead) && Linked(m, root, b, newHead)
    ensures k <= |a| && k <= |b| && a[..k] == b[..k]
    ensures SwitchOf(m, oldHead, newHead) == Some(Switch(At(root, a, k), a[k..], b[k..]))
  {
    k := PathsPart(u, m, root, a, b, oldHead, newHead);
    SwitchUnique(u, m, SwitchOf(m, oldHead, newHead).value, Switch(At(root, a, k), a[k..], b[k..]), oldHead, newHead);
  }

  // stalledInSegment

  /** Byte order of ids. */
  predicate IdBelow(a: Id, b: Id) {
    b != "" && (a == "" || a[0] < b[0] || (a[0] == b[0] && IdBelow(a[1..], b[1..])))
  }

  lemma {:induction false} IdBelowTotal(a: Id, b: Id)
    ensures IdBelow(a, b) || IdBelow(b, a) || a == b
    ensures !(IdBelow(a, b) && IdBelow(b, a))
    decreases |a|
  {
    if a != "" && b != "" {
      IdBelowTotal(a[1..], b[1..]);
      assert a[0] == b[0] && a[1..] == b[1..] ==> a == [a[0]] + a[1..] == [b[0]] + b[1..] == b;
    }
  }

  lemma {:induction false} IdBelowTransitive(a: Id, b: Id, c: Id)
    requires IdBelow(a, b) && IdBelow(b, c)
    ensures IdBelow(a, c)
    decreases |a|
  {
    if a != "" && a[0] == b[0] == c[0] {
      IdBelowTransitive(a[1..], b[1..], c[1..]);
    }
  }

  ghost predicate SortedById(bs: seq<Block>) {
    forall i, j | 0 <= i < j < |bs| :: IdBelow(bs[i].id, bs[j].id)
  }

  ghost predicate Lists(bs: seq<Block>, s: set<Block>) {
    SortedById(bs) && forall b :: b in bs <==> b in s
  }

  /** The blocks of a store numbered from `lo` to `hi` that are not in `p`. */
  function StalledSet(m: Store, p: seq<Block>, lo: nat, hi: nat): set<Block> {
    set id <- m | !InPath(id, p) && lo <= m[id].num <= hi :: m[id]
  }

  lemma {:induction false} ListsUnique(bs: seq<Block>, cs: seq<Block>, s: set<Block>)
    requires Lists(bs, s) && Lists(cs, s)
    ensures bs == cs
    decreases |bs|
  {
    assert cs != [] ==> cs[0] in cs;
    if bs != [] {
      var b, n := bs[|bs| - 1], |cs| - 1;
      assert b in bs;
      assert cs != [];
      var c := cs[n];
      assert c in cs && b in cs && c in bs;
      IdBelowTotal(b.id, c.id);
      assert b == c;
      forall x ensures x in bs[..|bs| - 1] <==> x in s - {b} {
        IdBelowTotal(b.id, b.id);
        if x in bs[..|bs| - 1] {
          assert x in bs;
        }
      }
      forall x ensures x in cs[..n] <==> x in s - {b} {
        IdBelowTotal(b.id, b.id);
        if x in cs[..n] {
          assert x in cs;
        }
      }
      ListsUnique(bs[..|bs| - 1], cs[..n], s - {b});
      assert bs == bs[..|bs| - 1] + [b] && cs == cs[..n] + [b];
    }
  }

  /** The stored blocks beside the final segment `p`, whose last block is numbered `end` there. */
  ghost function StalledListed(m: Store, p: seq<Block>, end: nat): (bs: seq<Block>)
    requires p != [] && forall id <- m :: m[id].id == id
    ensures Lists(bs, StalledSet(m, p, FirstNum(p, end), end))
  {
    var s := StalledSet(m, p, FirstNum(p, end), end);
    ListsExist(s);
    var bs :| Lists(bs, s);
    bs
  }

  /**
   Exactly the stored blocks beside the segment, from the number of its first block up to `end`; a segment of
   one block spans just the number it is asked for under.
   */
  lemma StalledSpan(m: Store, p: seq<Block>, end: nat, b: Block)
    requires p != [] && forall id <- m :: m[id].id == id
    ensures b in StalledListed(m, p, end) <==>
      GoodBlock(m, b) && !InPath(b.id, p) && (if |p| > 1 then p[0].num else end) <= b.num <= end
  {
    assert b in StalledListed(m, p, end) <==> b in StalledSet(m, p, FirstNum(p, end), end);
  }

  function FirstNum(p: seq<Block>, end: nat): nat
    requires p != []
  {
    if |p| == 1 then end else p[0].num
  }

  /** Where a block goes in a list sorted by id. */
  function InsertById(bs: seq<Block>, b: Block): (r: seq<Block>)
  {
    if bs == [] || IdBelow(bs[|bs| - 1].id, b.id) then bs + [b]
    else InsertById(bs[..|bs| - 1], b) + [bs[|bs| - 1]]
  }

  lemma {:induction false} InsertByIdLists(bs: seq<Block>, b: Block, s: set<Block>)
    requires Lists(bs, s) && forall x <- s :: x.id != b.id
    ensures Lists(InsertById(bs, b), s + {b})
    decreases |bs|
  {
    var r := InsertById(bs, b);
    if bs != [] {
      var n, last := |bs| - 1, bs[|bs| - 1];
      assert last in bs;
      IdBelowTotal(last.id, b.id);
      if IdBelow(last.id, b.id) {
        forall i | 0 <= i < n ensures IdBelow(bs[i].id, b.id) {
          IdBelowTransitive(bs[i].id, last.id, b.id);
        }
      } else {
        forall x ensures x in bs[..n] <==> x in s - {last} {
          IdBelowTotal(last.id, last.id);
          if x in bs[..n] { assert x in bs; }
        }
        InsertByIdLists(bs[..n], b, s - {last});
        forall i | 0 <= i < |r| - 1 ensures IdBelow(r[i].id, last.id) {
          assert r[i] in r[..|r| - 1];
          assert r[i] in s - {last} + {b};
          if r[i] != b {
            assert r[i] in bs[..n];
          }
        }
        assert forall x :: x in r <==> x in r[..|r| - 1] || x == last;
      }
    }
  }

  lemma {:induction false} ListsExist(s: set<Block>)
    requires forall x, y | x in s && y in s && x.id == y.id :: x == y
    ensures exists bs :: Lists(bs, s)
    decreases |s|
  {
    if s == {} {
      assert Lists([], s);
    } else {
      var b :| b in s;
      ListsExist(s - {b});
      var bs :| Lists(bs, s - {b});
      InsertByIdLists(bs, b, s - {b});
      assert s - {b} + {b} == s;
    }
  }
}
