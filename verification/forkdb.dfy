/** The ForkDB itself: maps that change in place, and loops that walk them. */
module ForkDbClass {
  import opened Chain
  import opened ForkDbModel

  /** A block as the Forkable stores it; the flag says whether it was ever sent as new. */
  class ForkableBlock {
    const block: Block
    var sentAsNew: bool

    constructor (block: Block)
      ensures this.block == block && !sentAsNew
    {
      this.block := block;
      sentAsNew := false;
    }
  }

  /** One element of a segment; its number is the one it was reached by. */
  datatype SegBlock = SegBlock(id: Id, num: nat, prev: Id, obj: ForkableBlock) {
    function AsRef(): Ref { Ref(id, num) }
  }

  function Blocks(segment: seq<SegBlock>): (r: seq<Block>)
    ensures |r| == |segment| && forall i | 0 <= i < |r| :: r[i] == segment[i].obj.block
  {
    seq(|segment|, i requires 0 <= i < |segment| => segment[i].obj.block)
  }

  function ReversedSegment(s: seq<SegBlock>): (r: seq<SegBlock>)
    ensures |r| == |s| && forall i | 0 <= i < |r| :: r[i] == s[|s| - 1 - i]
  {
    seq(|s|, i requires 0 <= i < |s| => s[|s| - 1 - i])
  }

  function IdsOf(p: seq<Block>): (ids: seq<Id>)
    ensures |ids| == |p| && forall i | 0 <= i < |p| :: ids[i] == p[i].id
  {
    seq(|p|, i requires 0 <= i < |p| => p[i].id)
  }

  method InReverse(s: seq<Id>) returns (r: seq<Id>)
    ensures |r| == |s| && forall i | 0 <= i < |s| :: r[i] == s[|s| - 1 - i]
  {
    r := [];
    for i := 0 to |s|
      invariant |r| == i && forall k | 0 <= k < i :: r[k] == s[|s| - 1 - k]
    {
      r := r + [s[|s| - i - 1]];
    }
  }

  lemma InPathOne(b: Block, p: seq<Block>)
    ensures forall id :: InPath(id, [b] + p) <==> id == b.id || InPath(id, p)
  {
    var q := [b] + p;
    assert q[0] == b && q[1..] == p;
    forall id ensures InPath(id, q) <==> id == b.id || InPath(id, p) {
      if InPath(id, p) {
        var i :| 0 <= i < |p| && p[i].id == id;
        assert q[i + 1].id == id;
      }
      if InPath(id, q) {
        var i :| 0 <= i < |q| && q[i].id == id;
        assert i > 0 ==> p[i - 1].id == id;
      }
      assert q[0].id == b.id;
    }
  }

  /** Where an element goes in a list sorted by id. */
  function InsertElement(out: seq<SegBlock>, e: SegBlock): seq<SegBlock> {
    if out == [] || IdBelow(out[|out| - 1].id, e.id) then out + [e]
    else InsertElement(out[..|out| - 1], e) + [out[|out| - 1]]
  }

  class ForkDB {
    var links: map<Id, Id>
    var nums: map<Id, nat>
    var objects: map<Id, ForkableBlock>
    var libRef: Ref
    const firstStreamable: nat

    /** The three maps agree. Links may still form cycles. */
    ghost predicate Consistent()
      reads this
    {
      && links.Keys == objects.Keys && links.Keys <= nums.Keys && "" !in links && "" !in nums
      && forall id <- links ::
        var b := objects[id].block;
        b.id == id && b.parent == links[id] && b.num == nums[id] && links[id] != ""
    }

    ghost function Stored(): (m: Store)
      reads this
      requires Consistent()
    {
      map id <- links :: objects[id].block
    }

    ghost function Model(): Db
      reads this
      requires Consistent()
    {
      Db(Stored(), nums, libRef)
    }

    constructor (firstStreamable: nat)
      ensures Consistent() && links == map[] && nums == map[] && objects == map[] && libRef == EMPTY_REF
      ensures this.firstStreamable == firstStreamable
    {
      links, nums, objects, libRef := map[], map[], map[], EMPTY_REF;
      this.firstStreamable := firstStreamable;
    }

    method InitLIB(ref: Ref)
      requires Consistent() && ref.id != "" && ref.id !in links
      modifies this
      ensures Consistent() && links == old(links) && objects == old(objects)
      ensures libRef == ref && nums == old(nums)[ref.id := ref.num]
    {
      libRef := ref;
      nums := nums[ref.id := ref.num];
    }

    predicate HasLIB()
      reads this
    {
      libRef != EMPTY_REF
    }

    function Link(id: Id): Id
      reads this
    {
      if id in links then links[id] else ""
    }

    function NumberOf(id: Id): nat
      reads this
    {
      if id in nums then nums[id] else 0
    }

    /** The segment element for a stored block, under the number it is asked for. */
    function Element(id: Id, num: nat): SegBlock
      reads this
      requires id in links && id in objects
    {
      SegBlock(id, num, links[id], objects[id])
    }

    function BlockForID(id: Id): Option<SegBlock>
      reads this
      requires Consistent()
    {
      if id in links then Some(Element(id, NumberOf(id))) else None
    }

    /** `segment` lists what is stored for the path `p`; only its last number is the asker's. */
    ghost predicate Lists(segment: seq<SegBlock>, p: seq<Block>, num: nat)
      reads this
      requires Consistent()
    {
      && |segment| == |p|
      && forall i | 0 <= i < |p| ::
        && GoodBlock(Stored(), p[i])
        && segment[i] == Element(p[i].id, if i == |p| - 1 then num else NumberOf(p[i].id))
    }

    method AddLink(b: Block, obj: ForkableBlock) returns (exists_: bool, seenPrevious: bool)
      requires Consistent() && obj.block == b && b.parent != ""
      modifies this
      ensures Consistent() && libRef == old(libRef)
      ensures exists_ <==> b.id != b.parent && b.id in old(links)
      ensures seenPrevious <==> b.id != b.parent && b.id != "" && b.parent in old(links)
      ensures Model() == ForkDbModel.AddLink(old(Model()), b)
      ensures objects == if b.id == b.parent || b.id == "" || exists_ then old(objects) else old(objects)[b.id := obj]
    {
      if b.id == b.parent || b.id == "" {
        return false, false;
      }
      seenPrevious := Link(b.parent) != "";
      if Link(b.id) != "" {
        return true, seenPrevious;
      }
      links := links[b.id := b.parent];
      nums := nums[b.id := b.num];
      objects := objects[b.id := obj];
      exists_ := false;
      assert Stored() == old(Stored())[b.id := b];
    }

    /**
     `rev` is what a loop has gathered walking down from `start` to `cur`, top first; `path` is the same
     from the bottom.
     */
    ghost predicate Gathered(start: Ref, cur: Ref, path: seq<Block>, rev: seq<SegBlock>, seen: set<Id>)
      reads this
      requires Consistent()
    {
      && Walk(Stored(), cur.id, path, start.id)
      && (if path == [] then cur == start else cur.num == NumberOf(cur.id))
      && |rev| == |path|
      && (forall i | 0 <= i < |path| ::
        && GoodBlock(Stored(), path[i])
        && rev[|path| - 1 - i] == Element(path[i].id, if i == |path| - 1 then start.num else NumberOf(path[i].id)))
      && (forall id :: id in seen <==> InPath(id, path))
      && seen <= links.Keys
    }

    lemma GatherOne(start: Ref, cur: Ref, path: seq<Block>, rev: seq<SegBlock>, seen: set<Id>)
      requires Consistent() && Gathered(start, cur, path, rev, seen) && cur.id in links && cur.id !in seen
      ensures var b := Stored()[cur.id];
        Gathered(start, Ref(b.parent, NumberOf(b.parent)), [b] + path, rev + [Element(cur.id, cur.num)], seen + {cur.id})
    {
      var b := Stored()[cur.id];
      var q := [b] + path;
      assert q[1..] == path;
      assert path == [] ==> cur == start;
      var r := rev + [Element(cur.id, cur.num)];
      forall i | 0 <= i < |q|
        ensures GoodBlock(Stored(), q[i])
        ensures r[|q| - 1 - i] == Element(q[i].id, if i == |q| - 1 then start.num else NumberOf(q[i].id))
      {
        if i > 0 {
          assert q[i] == path[i - 1];
          assert r[|q| - 1 - i] == rev[|path| - 1 - (i - 1)];
        }
      }
      forall id ensures id in seen + {cur.id} <==> InPath(id, q) {
        if InPath(id, path) {
          var i :| 0 <= i < |path| && path[i].id == id;
          assert q[i + 1].id == id;
        }
        assert q[0].id == cur.id;
        if InPath(id, q) {
          var i :| 0 <= i < |q| && q[i].id == id;
          assert i > 0 ==> path[i - 1].id == id;
        }
      }
    }

    lemma GatheredLists(start: Ref, cur: Ref, path: seq<Block>, rev: seq<SegBlock>, seen: set<Id>)
      requires Consistent() && Gathered(start, cur, path, rev, seen)
      ensures Lists(ReversedSegment(rev), path, start.num) && Blocks(ReversedSegment(rev)) == path
      ensures cur.id !in seen ==> Linked(Stored(), cur.id, path, start.id)
    {
      var segment := ReversedSegment(rev);
      assert forall i | 0 <= i < |path| :: segment[i] == rev[|rev| - 1 - i] && path[i] == path[i];
      if cur.id !in seen {
        WalkIsLinked(Stored(), cur.id, path, start.id);
      }
    }

    /** Turns what was gathered top first into chain order. */
    method InChainOrder(rev: seq<SegBlock>) returns (blocks: seq<SegBlock>)
      ensures blocks == ReversedSegment(rev)
    {
      blocks := [];
      var i := |rev|;
      while i != 0
        invariant 0 <= i <= |rev| && |blocks| == |rev| - i
        invariant forall k | 0 <= k < |blocks| :: blocks[k] == rev[|rev| - 1 - k]
      {
        blocks := blocks + [rev[i - 1]];
        i := i - 1;
      }
    }

    /**
     Everything stored from `start` down, on any link map: exactly the complete path when there is one,
     and nothing when the links run in a circle.
     */
    method CompleteSegment(start: Ref) returns (blocks: seq<SegBlock>, reachLIB: bool)
      requires Consistent()
      ensures (exists p :: Complete(Stored(), p, start.id)) ==>
        && Complete(Stored(), Blocks(blocks), start.id) && Lists(blocks, Blocks(blocks), start.num)
        && (reachLIB <==> InPath(libRef.id, Blocks(blocks)) || RootOf(Blocks(blocks), start.id) == libRef.id)
      ensures (forall p :: !Complete(Stored(), p, start.id)) ==> blocks == [] && !reachLIB
    {
      var curID, curNum: nat := start.id, start.num;
      var rev: seq<SegBlock>, seen: set<Id> := [], {};
      ghost var path: seq<Block> := [];
      reachLIB := false;
      while true
        invariant Gathered(start, Ref(curID, curNum), path, rev, seen)
        invariant reachLIB <==> InPath(libRef.id, path)
        decreases links.Keys - seen
      {
        if curID in seen {
          CycleHasNoEnd(Stored(), curID, path, start.id);
          return [], false;
        }
        if curID == libRef.id {
          reachLIB := true;
        }
        if curID !in links {
          break;
        }
        GatherOne(start, Ref(curID, curNum), path, rev, seen);
        ghost var below := path;
        path := [Stored()[curID]] + path;
        LibMet(curID, below, path);
        rev := rev + [Element(curID, curNum)];
        seen := seen + {curID};
        curID := links[curID];
        curNum := NumberOf(curID);
      }
      GatheredLists(start, Ref(curID, curNum), path, rev, seen);
      blocks := InChainOrder(rev);
      assert RootOf(path, start.id) == curID;
      assert Complete(Stored(), path, start.id);
    }

    lemma LibMet(id: Id, below: seq<Block>, path: seq<Block>)
      requires |path| == |below| + 1 && path[0].id == id && path[1..] == below
      ensures InPath(libRef.id, path) <==> InPath(libRef.id, below) || id == libRef.id
    {
      if InPath(libRef.id, below) {
        var i :| 0 <= i < |below| && below[i].id == libRef.id;
        assert path[i + 1].id == libRef.id;
      }
      if InPath(libRef.id, path) {
        var i :| 0 <= i < |path| && path[i].id == libRef.id;
        assert i > 0 ==> below[i - 1].id == libRef.id;
      }
    }

    /** The walk is still on the way from `start` to the LIB, if `start` links to it at all. */
    ghost predicate OnTrack(u: Store, start: Ref, cur: Ref)
      reads this
      requires Consistent()
    {
      && (Reversible(Model(), start.id).Some? ==> Reversible(Model(), cur.id).Some?)
      && (Reversible(Model(), cur.id).Some? ==> RefOk(u, cur) && (cur.id == libRef.id ==> libRef.num <= cur.num))
    }

    lemma StillOnTrack(u: Store, start: Ref, cur: Ref)
      requires Consistent() && DbOk(u, Model()) && HasLIB() && OnTrack(u, start, cur)
      requires cur.id != libRef.id
      ensures Reversible(Model(), cur.id).Some? ==> cur.id in links && libRef.num <= cur.num
      ensures cur.id in links ==> OnTrack(u, start, Ref(links[cur.id], NumberOf(links[cur.id])))
    {
      if Reversible(Model(), cur.id).Some? {
        var p := Reversible(Model(), cur.id).value;
        NumbersAboveLib(u, Model(), cur, p);
        assert Linked(Stored(), libRef.id, p[..|p| - 1], links[cur.id]);
      }
      if cur.id in links {
        var next := links[cur.id];
        if Reversible(Model(), next).Some? {
          var q := Reversible(Model(), next).value;
          LinkedElements(Stored(), libRef.id, q, next);
        }
      }
    }

    lemma NoCycle(u: Store, cur: Id, path: seq<Block>, start: Id)
      requires Consistent() && DbOk(u, Model()) && Walk(Stored(), cur, path, start)
      ensures !InPath(cur, path)
    {
      var p := CompletePath(u, Stored(), start);
      if InPath(cur, path) {
        CycleHasNoEnd(Stored(), cur, path, start);
      }
    }

    /**
     The blocks above the LIB up to `start`. On any link map what is returned with `reachLIB` is the
     parent-linked path from just above the LIB; on a well-numbered one that is returned whenever it exists.
     */
    method ReversibleSegment(ghost u: Store, start: Ref) returns (blocks: seq<SegBlock>, reachLIB: bool)
      requires Consistent()
      ensures reachLIB ==> Linked(Stored(), libRef.id, Blocks(blocks), start.id) && Lists(blocks, Blocks(blocks), start.num)
      ensures HasLIB() && !reachLIB ==> blocks == []
      ensures DbOk(u, Model()) && HasLIB() && RefOk(u, start) && (start.id == libRef.id ==> libRef.num <= start.num) ==>
        (reachLIB <==> Reversible(Model(), start.id).Some?)
    {
      hide Linked, Walk, Gathered, OnTrack, DbOk, Lists, RefOk;
      var curID, curNum: nat := start.id, start.num;
      var rev: seq<SegBlock>, seen: set<Id> := [], {};
      ghost var path: seq<Block> := [];
      ghost var known := DbOk(u, Model()) && HasLIB() && RefOk(u, start) && (start.id == libRef.id ==> libRef.num <= start.num);
      GatherNone(start);
      if known {
        StartOnTrack(u, start);
      }
      reachLIB := false;
      while true
        invariant Gathered(start, Ref(curID, curNum), path, rev, seen) && seen <= links.Keys
        invariant !reachLIB && !InPath(libRef.id, path)
        invariant known ==> OnTrack(u, start, Ref(curID, curNum))
        decreases links.Keys - seen
      {
        GatheredFacts(start, Ref(curID, curNum), path, rev, seen);
        if known {
          NoCycle(u, curID, path, start.id);
        }
        if curID in seen {
          return [], false;
        }
        if known && curID != libRef.id {
          StillOnTrack(u, start, Ref(curID, curNum));
        }
        if known {
          TrackFacts(u, start, Ref(curID, curNum));
        }
        if curNum > firstStreamable && curNum < libRef.num {
          return [], false;
        }
        if curID == libRef.id {
          reachLIB := true;
          break;
        }
        if curID !in links {
          if HasLIB() {
            return [], false;
          }
          break;
        }
        GatherOne(start, Ref(curID, curNum), path, rev, seen);
        ghost var below := path;
        path := [Stored()[curID]] + path;
        LibMet(curID, below, path);
        rev := rev + [Element(curID, curNum)];
        seen := seen + {curID};
        curID := links[curID];
        curNum := NumberOf(curID);
      }
      GatheredLists(start, Ref(curID, curNum), path, rev, seen);
      blocks := InChainOrder(rev);
      if known && reachLIB {
        PathToIs(Stored(), libRef.id, path, start.id);
      }
    }

    lemma GatherNone(start: Ref)
      requires Consistent()
      ensures Gathered(start, start, [], [], {})
    {
    }

    lemma GatheredFacts(start: Ref, cur: Ref, path: seq<Block>, rev: seq<SegBlock>, seen: set<Id>)
      requires Consistent() && Gathered(start, cur, path, rev, seen)
      ensures Walk(Stored(), cur.id, path, start.id)
      ensures forall id :: id in seen <==> InPath(id, path)
    {
    }

    lemma StartOnTrack(u: Store, start: Ref)
      requires Consistent() && RefOk(u, start) && (start.id == libRef.id ==> libRef.num <= start.num)
      ensures OnTrack(u, start, start)
    {
    }

    lemma TrackFacts(u: Store, start: Ref, cur: Ref)
      requires Consistent() && OnTrack(u, start, cur)
      ensures Reversible(Model(), start.id).Some? ==> Reversible(Model(), cur.id).Some?
      ensures Reversible(Model(), cur.id).Some? && cur.id == libRef.id ==> libRef.num <= cur.num
      ensures cur.id == libRef.id ==> Reversible(Model(), cur.id).Some?
    {
      if cur.id == libRef.id {
        assert Linked(Stored(), libRef.id, [], cur.id);
      }
    }

    /** The block at height `blockNum` on the chain of `start`; see `BlockInChainMeaning`. */
    method BlockInCurrentChain(ghost u: Store, start: Ref, blockNum: nat) returns (r: Ref)
      requires Consistent() && DbOk(u, Model())
      ensures r == BlockInChain(u, Model(), start, blockNum)
    {
      if start.num == blockNum {
        return start;
      }
      var cur := start.id;
      while true
        invariant BlockBelow(u, Model(), start.id, blockNum) == BlockBelow(u, Model(), cur, blockNum)
        decreases if cur in links then nums[cur] + 1 else 0
      {
        var prev := Link(cur);
        if prev !in nums {
          return EMPTY_REF;
        }
        if nums[prev] == blockNum {
          return Ref(prev, nums[prev]);
        } else if nums[prev] < blockNum {
          return Ref(cur, blockNum);
        }
        cur := prev;
      }
    }

    /** Sets a first LIB from the LIB number a block reports, when the links reach down to it. */
    method SetLIB(ghost u: Store, head: Ref, libNum: nat)
      requires Consistent() && DbOk(u, Model())
      modifies this`libRef
      ensures libRef == if head.num == firstStreamable then head
                        else if BlockInChain(u, old(Model()), head, libNum).id == "" then old(libRef)
                        else BlockInChain(u, old(Model()), head, libNum)
    {
      if head.num == firstStreamable {
        libRef := head;
        return;
      }
      var ref := BlockInCurrentChain(u, head, libNum);
      if ref.id == "" {
        return;
      }
      MoveLIB(ref);
    }

    /** The stored blocks beside a segment, in the numbers it spans, by ascending id. */
    method StalledInSegment(segment: seq<SegBlock>, ghost p: seq<Block>) returns (out: seq<SegBlock>)
      requires Consistent() && libRef.id != "" && segment != []
      requires Lists(segment, p, segment[|segment| - 1].num)
      ensures Blocks(out) == StalledListed(Stored(), p, segment[|segment| - 1].num)
      ensures Current(out)
      ensures forall b :: b in Blocks(out) <==>
        GoodBlock(Stored(), b) && !InPath(b.id, p) && segment[0].num <= b.num <= segment[|segment| - 1].num
    {
      var excluded := {};
      var i := 0;
      while i < |segment|
        invariant 0 <= i <= |segment| && forall id :: id in excluded <==> exists k | 0 <= k < i :: segment[k].id == id
      {
        excluded := excluded + {segment[i].id};
        i := i + 1;
      }
      ghost var ids := excluded;
      assert forall id :: id in ids <==> InPath(id, p) by { ListedIds(segment, p, segment[|segment| - 1].num, ids); }
      var start, end := segment[0].num, segment[|segment| - 1].num;
      out := [];
      var left := links.Keys;
      while left != {}
        invariant left <= links.Keys
        invariant ForkDbModel.Lists(Blocks(out), StalledSet(Stored(), p, start, end) - AllOf(left)) && Current(out)
        decreases left
      {
        var id :| id in left;
        left := left - {id};
        OneLess(p, start, end, left, id);
        if id !in excluded && start <= nums[id] <= end {
          InsertKeepsListed(out, Element(id, nums[id]), StalledSet(Stored(), p, start, end) - AllOf(left + {id}));
          out := InsertElement(out, Element(id, nums[id]));
        }
      }
      assert StalledSet(Stored(), p, start, end) - AllOf({}) == StalledSet(Stored(), p, start, end);
      assert start == FirstNum(p, end);
      ListsUnique(Blocks(out), StalledListed(Stored(), p, end), StalledSet(Stored(), p, start, end));
    }

    /** Every element is what the maps hold for its id now. */
    ghost predicate Current(out: seq<SegBlock>)
      reads this
      requires Consistent()
    {
      forall i | 0 <= i < |out| :: out[i].id in links && out[i] == Element(out[i].id, NumberOf(out[i].id))
    }

    ghost function AllOf(ids: set<Id>): set<Block>
      reads this
      requires Consistent()
    {
      set id | id in ids && id in links :: objects[id].block
    }

    lemma ListedIds(segment: seq<SegBlock>, p: seq<Block>, num: nat, ids: set<Id>)
      requires Consistent() && Lists(segment, p, num)
      requires forall id :: id in ids <==> exists k | 0 <= k < |segment| :: segment[k].id == id
      ensures forall id :: id in ids <==> InPath(id, p)
    {
      forall id ensures id in ids <==> InPath(id, p) {
        if InPath(id, p) {
          var k :| 0 <= k < |p| && p[k].id == id;
          assert segment[k].id == id;
        }
        if id in ids {
          var k :| 0 <= k < |segment| && segment[k].id == id;
          assert p[k].id == id;
        }
      }
    }

    lemma OneLess(p: seq<Block>, start: nat, end: nat, left: set<Id>, id: Id)
      requires Consistent() && id in links && id !in left && left <= links.Keys
      ensures var s, b := StalledSet(Stored(), p, start, end), objects[id].block;
        && b !in s - AllOf(left + {id})
        && s - AllOf(left) == (s - AllOf(left + {id})) + (if !InPath(id, p) && start <= nums[id] <= end then {b} else {})
        && forall x <- s - AllOf(left + {id}) :: x.id != id
    {
      assert forall other <- left :: objects[other].block.id == other;
      assert Stored()[id] == objects[id].block;
    }

    lemma InsertKeepsListed(out: seq<SegBlock>, e: SegBlock, s: set<Block>)
      requires Consistent() && Current(out) && ForkDbModel.Lists(Blocks(out), s)
      requires e.id in links && e == Element(e.id, NumberOf(e.id)) && forall x <- s :: x.id != e.id
      ensures ForkDbModel.Lists(Blocks(InsertElement(out, e)), s + {e.obj.block}) && Current(InsertElement(out, e))
    {
      InsertByIdLists(Blocks(out), e.obj.block, s);
      InsertElementBlocks(out, e);
    }

    lemma {:induction false} InsertElementBlocks(out: seq<SegBlock>, e: SegBlock)
      requires Consistent() && Current(out) && e.id in links && e == Element(e.id, NumberOf(e.id))
      ensures Blocks(InsertElement(out, e)) == InsertById(Blocks(out), e.obj.block) && Current(InsertElement(out, e))
      decreases |out|
    {
      hide Blocks;
      if out != [] && !IdBelow(out[|out| - 1].id, e.id) {
        var n := |out| - 1;
        InsertElementBlocks(out[..n], e);
        BlocksSnoc(out[..n], out[n]);
        BlocksSnoc(InsertElement(out[..n], e), out[n]);
        assert out == out[..n] + [out[n]] && Blocks(out)[..n] == Blocks(out[..n]);
      } else {
        BlocksSnoc(out, e);
      }
    }

    lemma BlocksSnoc(s: seq<SegBlock>, e: SegBlock)
      ensures Blocks(s + [e]) == Blocks(s) + [e.obj.block]
    {
    }

    /**
     What becomes final when the LIB moves to `newLIB`, and what is left behind beside it; nothing when
     `newLIB` is the LIB or does not link to it.
     */
    method HasNewIrreversibleSegment(ghost u: Store, newLIB: Ref)
      returns (hasNew: bool, irreversible: seq<SegBlock>, stale: seq<SegBlock>)
      requires Consistent() && HasLIB() && DbOk(u, Model()) && RefOk(u, newLIB)
      ensures hasNew <==> newLIB.id != libRef.id && Recomputed(Model(), newLIB.id) != []
      ensures hasNew ==>
        && Lists(irreversible, Recomputed(Model(), newLIB.id), newLIB.num)
        && Blocks(stale) == StalledListed(Stored(), Recomputed(Model(), newLIB.id), newLIB.num) && Current(stale)
      ensures !hasNew ==> irreversible == [] && stale == []
    {
      if libRef.id == newLIB.id {
        return false, [], [];
      }
      var reached;
      irreversible, reached := ReversibleSegment(u, newLIB);
      if reached {
        PathToIs(Stored(), libRef.id, Blocks(irreversible), newLIB.id);
      }
      if |irreversible| == 0 {
        return false, [], [];
      }
      stale := StalledInSegment(irreversible, Blocks(irreversible));
      hasNew := true;
    }

    /** `chain` are the ids of `path` from the top, and `seen` is their set. */
    ghost predicate Traced(head: Id, cur: Id, path: seq<Block>, chain: seq<Id>)
      reads this
      requires Consistent()
    {
      && Walk(Stored(), cur, path, head)
      && |chain| == |path| && forall i | 0 <= i < |path| :: chain[|path| - 1 - i] == path[i].id
    }

    lemma TraceOne(head: Id, cur: Id, path: seq<Block>, chain: seq<Id>)
      requires Consistent() && Traced(head, cur, path, chain) && cur in links
      ensures Traced(head, links[cur], [Stored()[cur]] + path, chain + [cur])
    {
      var q, c := [Stored()[cur]] + path, chain + [cur];
      assert q[1..] == path;
      forall i | 0 <= i < |q| ensures c[|q| - 1 - i] == q[i].id {
        if i > 0 {
          assert q[i] == path[i - 1] && c[|q| - 1 - i] == chain[|path| - 1 - (i - 1)];
        }
      }
    }

    /** Where the two walks met is the nearest common ancestor. */
    lemma MetAt(u: Store, oldHead: Id, root: Id, p: seq<Block>, junction: Id, newHead: Id, q: seq<Block>) returns (k: nat)
      requires Consistent() && DbOk(u, Model()) && Walk(Stored(), root, p, oldHead) && root !in links
      requires Walk(Stored(), junction, q, newHead) && (junction == root || InPath(junction, p))
      requires forall i | 0 <= i < |q| :: q[i].id != root && !InPath(q[i].id, p)
      ensures k <= |p| && junction == At(root, p, k)
      ensures SwitchOf(Stored(), oldHead, newHead) == Some(Switch(junction, p[k..], q))
      ensures forall i | k <= i < |p| :: p[i].id != junction
    {
      hide Linked, Walk;
      WalkStored(Stored(), root, p, oldHead);
      WalkIsLinked(Stored(), root, p, oldHead);
      if junction == root {
        k := 0;
      } else {
        k :| 0 <= k < |p| && p[k].id == junction;
        k := k + 1;
      }
      LinkedSuffix(u, Stored(), root, p, k, oldHead);
      LinkedElements(Stored(), junction, p[k..], oldHead);
      forall i | k <= i < |p| ensures p[i].id != junction {
        assert p[i] == p[k..][i - k];
      }
      WalkIsLinked(Stored(), junction, q, newHead);
      NoneShared(p, k, q);
      assert IsSwitch(Stored(), junction, p[k..], q, oldHead, newHead);
      SwitchUnique(u, Stored(), SwitchOf(Stored(), oldHead, newHead).value, Switch(junction, p[k..], q), oldHead, newHead);
    }

    lemma NoneShared(p: seq<Block>, k: nat, q: seq<Block>)
      requires k <= |p| && forall i | 0 <= i < |q| :: !InPath(q[i].id, p)
      ensures forall i, l | 0 <= i < |p[k..]| && 0 <= l < |q| :: p[k..][i].id != q[l].id
    {
      forall i, l | 0 <= i < |p[k..]| && 0 <= l < |q| ensures p[k..][i].id != q[l].id {
        assert p[k..][i] == p[k + i];
      }
    }

    /** Walks that ended without meeting have no common ancestor. */
    lemma NeverMet(u: Store, oldHead: Id, root: Id, p: seq<Block>, root': Id, newHead: Id, q: seq<Block>)
      requires Consistent() && DbOk(u, Model())
      requires Walk(Stored(), root, p, oldHead) && root !in links && Walk(Stored(), root', q, newHead) && root' !in links
      requires root != root' && !InPath(root', p) && forall i | 0 <= i < |q| :: q[i].id != root && !InPath(q[i].id, p)
      ensures SwitchOf(Stored(), oldHead, newHead) == None
    {
      WalkStored(Stored(), root, p, oldHead);
      WalkIsLinked(Stored(), root, p, oldHead);
      WalkStored(Stored(), root', q, newHead);
      WalkIsLinked(Stored(), root', q, newHead);
      match SwitchOf(Stored(), oldHead, newHead)
      case None =>
      case Some(w) =>
        LinkedIsWalk(Stored(), w.junction, w.undo, oldHead);
        LinkedIsWalk(Stored(), w.junction, w.redo, newHead);
        WalkOnComplete(Stored(), w.junction, w.undo, p, oldHead);
        WalkOnComplete(Stored(), w.junction, w.redo, q, newHead);
        assert false;
    }

    /** The ids from `oldHead` down to the first that is not stored, which is included. */
    method UndoChain(ghost u: Store, oldHead: Id)
      returns (undoChain: seq<Id>, seen: set<Id>, ghost root: Id, ghost p: seq<Block>)
      requires Consistent() && DbOk(u, Model())
      ensures undoChain != [] && undoChain[|undoChain| - 1] == root && root !in links
      ensures Traced(oldHead, root, p, undoChain[..|undoChain| - 1])
      ensures forall id :: id in seen <==> id == root || InPath(id, p)
    {
      var cur := oldHead;
      undoChain, seen, p := [], {}, [];
      while true
        invariant Traced(oldHead, cur, p, undoChain)
        invariant forall id :: id in seen <==> InPath(id, p)
        decreases if cur in links then nums[cur] + 1 else 0
      {
        ghost var before := undoChain;
        undoChain := undoChain + [cur];
        assert undoChain[..|undoChain| - 1] == before;
        seen := seen + {cur};
        var prev := Link(cur);
        if prev == "" {
          break;
        }
        TraceOne(oldHead, cur, p, before);
        InPathOne(Stored()[cur], p);
        p := [Stored()[cur]] + p;
        cur := prev;
      }
      root := cur;
    }

    /** The ids from `newHead` down to the first one seen, which is left out; or none is seen on the way. */
    method RedoChain(ghost u: Store, newHead: Id, seen: set<Id>)
      returns (found: bool, redoChain: seq<Id>, junction: Id, ghost q: seq<Block>)
      requires Consistent() && DbOk(u, Model())
      ensures Walk(Stored(), junction, q, newHead) && forall i | 0 <= i < |q| :: q[i].id !in seen
      ensures if found then junction in seen && Traced(newHead, junction, q, redoChain)
              else junction !in seen && junction !in links
    {
      var cur := newHead;
      redoChain, q := [], [];
      while true
        invariant Traced(newHead, cur, q, redoChain)
        invariant forall i | 0 <= i < |q| :: q[i].id !in seen
        decreases if cur in links then nums[cur] + 1 else 0
      {
        if cur in seen {
          return true, redoChain, cur, q;
        }
        ghost var before := redoChain;
        redoChain := redoChain + [cur];
        var prev := Link(cur);
        if prev == "" {
          return false, redoChain, cur, q;
        }
        TraceOne(newHead, cur, q, before);
        q := [Stored()[cur]] + q;
        cur := prev;
      }
    }

    /**
     What to undo from `oldHead`, top first, and what to redo up to `newHead`, bottom first, with the
     nearest common ancestor between them; all empty when there is none.
     */
    method ChainSwitchSegments(ghost u: Store, oldHead: Id, newHead: Id)
      returns (undo: seq<Id>, redo: seq<Id>, junction: Id)
      requires Consistent() && DbOk(u, Model())
      ensures match SwitchOf(Stored(), oldHead, newHead)
              case None => undo == [] && redo == [] && junction == ""
              case Some(w) => undo == IdsOf(Reverse(w.undo)) && redo == IdsOf(w.redo) && junction == w.junction
    {
      hide Walk, Linked, DbOk, Reverse;
      var undoChain, seen, root, p := UndoChain(u, oldHead);
      var found, redoChain, met, q := RedoChain(u, newHead, seen);
      if !found {
        NeverMet(u, oldHead, root, p, met, newHead, q);
        return [], [], "";
      }
      junction := met;
      ghost var k := MetAt(u, oldHead, root, p, junction, newHead, q);
      ghost var n := |p| - k;
      ReadsDown(oldHead, root, p, undoChain);
      undo := UpTo(undoChain, junction, n);
      redo := InReverse(redoChain);
      ReversedIds(p, k, undo);
    }

    /** The ids before the junction, which is at position `n`. */
    static method UpTo(chain: seq<Id>, junction: Id, ghost n: nat) returns (undo: seq<Id>)
      requires n < |chain| && chain[n] == junction && forall j | 0 <= j < n :: chain[j] != junction
      ensures undo == chain[..n]
    {
      undo := [];
      var i := 0;
      while chain[i] != junction
        invariant 0 <= i <= n && undo == chain[..i]
        decreases n - i
      {
        undo := undo + [chain[i]];
        i := i + 1;
      }
    }

    lemma ReadsDown(head: Id, root: Id, p: seq<Block>, undoChain: seq<Id>)
      requires Consistent() && undoChain != [] && undoChain[|undoChain| - 1] == root
      requires Traced(head, root, p, undoChain[..|undoChain| - 1])
      ensures |undoChain| == |p| + 1 && forall j | 0 <= j < |p| :: undoChain[j] == p[|p| - 1 - j].id
    {
      hide Walk;
      var c := undoChain[..|undoChain| - 1];
      forall j | 0 <= j < |p| ensures undoChain[j] == p[|p| - 1 - j].id {
        assert undoChain[j] == c[|p| - 1 - (|p| - 1 - j)];
      }
    }

    lemma ReversedIds(p: seq<Block>, k: nat, undo: seq<Id>)
      requires k <= |p| && |undo| == |p| - k && forall j | 0 <= j < |undo| :: undo[j] == p[|p| - 1 - j].id
      ensures undo == IdsOf(Reverse(p[k..]))
    {
      hide Reverse;
      var q := p[k..];
      forall j | 0 <= j < |undo| ensures undo[j] == Reverse(q)[j].id {
        assert q[|q| - 1 - j] == p[|p| - 1 - j];
      }
    }

    method MoveLIB(ref: Ref)
      requires Consistent()
      modifies this`libRef
      ensures libRef == ref
    {
      libRef := ref;
    }

    /** What a loop over the links has sorted out, but for those still `left`. */
    ghost predicate Sifted(objects0: map<Id, ForkableBlock>, cutoff: nat, left: set<Id>,
                           newLinks: map<Id, Id>, newNums: map<Id, nat>, purged: map<Id, SegBlock>)
      reads this
      requires links.Keys <= nums.Keys && links.Keys <= objects0.Keys
    {
      && left <= links.Keys
      && (forall id :: id in objects <==> id in links && (id in left || nums[id] >= cutoff))
      && (forall id <- objects :: objects[id] == objects0[id])
      && (forall id :: id in newLinks <==> id in links && id !in left && nums[id] >= cutoff)
      && (forall id :: id in newNums <==> id in newLinks)
      && (forall id :: id in purged <==> id in links && id !in left && nums[id] < cutoff)
      && (forall id <- newLinks :: newLinks[id] == links[id] && newNums[id] == nums[id])
      && (forall id <- purged :: purged[id] == SegBlock(id, nums[id], links[id], objects0[id]))
    }

    /** Drops what is numbered below `cutoff` from the objects, and collects the links and numbers to keep. */
    method Sift(cutoff: nat) returns (newLinks: map<Id, Id>, newNums: map<Id, nat>, purged: map<Id, SegBlock>)
      requires Consistent()
      modifies this`objects
      ensures forall id :: id in objects <==> id in links && nums[id] >= cutoff
      ensures newLinks.Keys == newNums.Keys == objects.Keys && purged.Keys == links.Keys - objects.Keys
      ensures forall id <- objects :: objects[id] == old(objects)[id] && newLinks[id] == links[id] && newNums[id] == nums[id]
      ensures forall id <- purged :: purged[id] == SegBlock(id, nums[id], links[id], old(objects)[id])
    {
      newLinks, newNums, purged := map[], map[], map[];
      var left := links.Keys;
      while left != {}
        invariant Sifted(old(objects), cutoff, left, newLinks, newNums, purged)
        decreases left
      {
        var id :| id in left;
        left := left - {id};
        if nums[id] >= cutoff {
          newLinks := newLinks[id := links[id]];
          newNums := newNums[id := nums[id]];
        } else {
          purged := purged[id := SegBlock(id, nums[id], links[id], objects[id])];
          objects := objects - {id};
        }
      }
      AllSifted(old(objects), cutoff, newLinks, newNums, purged);
    }

    lemma AllSifted(objects0: map<Id, ForkableBlock>, cutoff: nat,
                    newLinks: map<Id, Id>, newNums: map<Id, nat>, purged: map<Id, SegBlock>)
      requires links.Keys <= nums.Keys && links.Keys <= objects0.Keys
      requires Sifted(objects0, cutoff, {}, newLinks, newNums, purged)
      ensures forall id :: id in objects <==> id in links && nums[id] >= cutoff
      ensures newLinks.Keys == newNums.Keys == objects.Keys && purged.Keys == links.Keys - objects.Keys
      ensures forall id <- objects :: objects[id] == objects0[id] && newLinks[id] == links[id] && newNums[id] == nums[id]
      ensures forall id <- purged :: purged[id] == SegBlock(id, nums[id], links[id], objects0[id])
    {
    }

    method PurgeBeforeLIB(keptBlocks: nat) returns (purged: map<Id, SegBlock>)
      requires Consistent()
      modifies this
      ensures Consistent() && libRef == old(libRef)
      ensures Model() == Purge(old(Model()), keptBlocks)
      ensures forall id :: id in links <==> id in old(links) && libRef.num <= old(nums)[id] + keptBlocks
      ensures objects.Keys == links.Keys && forall id <- objects :: id in old(objects) && objects[id] == old(objects)[id]
      ensures purged.Keys == old(links).Keys - links.Keys
      ensures forall id <- purged :: purged[id] == SegBlock(id, old(nums)[id], old(links)[id], old(objects)[id])
    {
      hide Purge;
      ghost var before := Model();
      var cutoff := libRef.num;
      if cutoff < keptBlocks {
        cutoff := 0;
      } else {
        cutoff := cutoff - keptBlocks;
      }
      var newLinks, newNums;
      newLinks, newNums, purged := Sift(cutoff);
      links := newLinks;
      nums := newNums;
      assert Consistent();
      PurgedModel(before, Model(), keptBlocks);
    }
  }

  lemma PurgedModel(before: Db, after: Db, kept: nat)
    requires before.stored.Keys <= before.nums.Keys
    requires after.lib == before.lib && after.stored.Keys == after.nums.Keys
    requires forall id :: id in after.stored <==> id in before.stored && before.nums[id] >= Cutoff(before, kept)
    requires forall id <- after.stored :: after.stored[id] == before.stored[id] && after.nums[id] == before.nums[id]
    ensures after == Purge(before, kept)
  {
    assert after.stored == Purge(before, kept).stored;
    assert after.nums == Purge(before, kept).nums;
  }
}
