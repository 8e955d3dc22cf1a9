/** The Forkable: it stores blocks, keeps a longest chain, and hands events to its handler. */
module ForkableClass {
  import opened Chain
  import opened Consumers
  import opened ForkDbModel
  import opened ForkDbClass
  import opened ForkableModel
  import opened ForkableInvariant
  import opened ForkableRuns
  import opened ResumeModel

  function BlocksOf(objs: seq<ForkableBlock>): (r: seq<Block>)
    ensures |r| == |objs| && forall i | 0 <= i < |r| :: r[i] == objs[i].block
  {
    seq(|objs|, i requires 0 <= i < |objs| => objs[i].block)
  }

  lemma CollectNone(p: seq<Block>, f: Block -> seq<Event>)
    ensures forall k | 0 <= k <= |p| :: Collect(p[k..k], f) == []
  {
  }

  lemma CollectOne(p: seq<Block>, k: nat, i: nat, f: Block -> seq<Event>)
    requires k <= i < |p|
    ensures Collect(p[k..i + 1], f) == Collect(p[k..i], f) + f(p[i])
  {
    assert p[k..i + 1][..i - k] == p[k..i];
  }

  lemma SkipOne(p: seq<Block>, k: nat, num: nat)
    requires k < |p|
    ensures SkipTo(p[k..], num) == if p[k].num == num then p[k..] else SkipTo(p[k + 1..], num)
  {
    assert p[k..][1..] == p[k + 1..];
  }

  lemma SkipNone(p: seq<Block>, num: nat)
    ensures SkipTo(p[|p|..], num) == []
  {
  }

  class Forkable {
    const db: ForkDB
    const cfg: Config
    var lastBlockSent: Option<Block>
    var lastLIBSeen: Ref
    var lastLongestChain: seq<SegBlock>
    /** Everything handed to the handler so far. */
    var emitted: seq<Event>

    ghost function Objects(): set<object>
      reads db
    {
      set id | id in db.objects :: db.objects[id]
    }

    /** A segment element stands for its block under its own number. */
    static ghost predicate Faithful(segment: seq<SegBlock>) {
      forall i | 0 <= i < |segment| ::
        var e := segment[i]; e.id == e.obj.block.id && e.num == e.obj.block.num && e.prev == e.obj.block.parent
    }

    /** The elements are the very objects stored. */
    ghost predicate Shared(segment: seq<SegBlock>)
      reads db
    {
      forall i | 0 <= i < |segment| :: segment[i].id in db.objects && db.objects[segment[i].id] == segment[i].obj
    }

    ghost predicate Valid()
      reads this, db
    {
      && db.Consistent() && db.firstStreamable == cfg.first
      && Faithful(lastLongestChain)
      && (!db.HasLIB() ==> lastLongestChain == [])
      && (lastLongestChain != [] && lastLongestChain[0].prev == db.libRef.id ==> Live(lastLongestChain))
    }

    /** The cached chain as long as the LIB has not left it: shared objects, linked to the LIB. */
    ghost predicate Live(chain: seq<SegBlock>)
      reads db
      requires db.Consistent() && chain != []
    {
      Shared(chain) && Linked(db.Stored(), db.libRef.id, Blocks(chain), chain[|chain| - 1].id)
    }

    ghost function Sent(): set<Id>
      reads db, Objects()
    {
      set id | id in db.objects && db.objects[id].sentAsNew
    }

    ghost function State(): State
      reads this, db, Objects()
      requires Valid()
    {
      ForkableModel.State(db.Model(), lastBlockSent, lastLIBSeen, Blocks(lastLongestChain), Sent())
    }

    /** A Forkable without a LIB, which then holds blocks back until it finds one. */
    constructor (cfg: Config)
      ensures Valid() && fresh(db) && this.cfg == cfg && emitted == []
      ensures State() == ForkableModel.State(Db(map[], map[], EMPTY_REF), None, EMPTY_REF, [], {})
    {
      this.cfg := cfg;
      db := new ForkDB(cfg.first);
      lastBlockSent, lastLIBSeen, lastLongestChain, emitted := None, EMPTY_REF, [], [];
      new;
      assert Sent() == {} && db.Stored() == map[] && Blocks([]) == [];
    }

    /** A Forkable that starts above, or with `cfg.inclusive` at, a known LIB. */
    constructor WithLIB(cfg: Config, lib: Ref)
      requires lib.id != ""
      ensures Valid() && fresh(db) && this.cfg == cfg && emitted == []
      ensures State() == ForkableModel.State(
        Db(map[], map[lib.id := lib.num], lib), None, if cfg.inclusive then EMPTY_REF else lib, [], {})
    {
      this.cfg := cfg;
      var d := new ForkDB(cfg.first);
      d.InitLIB(lib);
      db := d;
      lastBlockSent, lastLIBSeen, lastLongestChain, emitted := None, if cfg.inclusive then EMPTY_REF else lib, [], [];
      new;
      assert Sent() == {} && db.Stored() == map[] && Blocks([]) == [];
    }

    function KnownLIB(): Ref
      reads this, db
    {
      if lastLIBSeen == EMPTY_REF then db.libRef else lastLIBSeen
    }

    predicate Triggers(b: Block)
      reads this
    {
      lastBlockSent.None? || b.num > lastBlockSent.value.num
    }

    /** The segment a walk returned is what its path says, under the blocks' own numbers. */
    lemma ListedIsFaithful(segment: seq<SegBlock>, p: seq<Block>, num: nat)
      requires db.Consistent() && db.Lists(segment, p, num)
      requires p != [] ==> p[|p| - 1].num == num
      ensures Faithful(segment) && Shared(segment) && Blocks(segment) == p
    {
    }

    lemma OwnNumberIsOk(u: Store, b: Block)
      requires Valid() && DbOk(u, db.Model()) && db.HasLIB() && GoodBlock(u, b)
      ensures RefOk(u, b.AsRef()) && (b.id == db.libRef.id ==> db.libRef.num <= b.num)
    {
    }

    /** The reversible segment of a block, walked anew. */
    method Recompute(ghost u: Store, blk: Block) returns (chain: seq<SegBlock>)
      requires Valid() && DbOk(u, db.Model()) && db.HasLIB() && GoodBlock(u, blk)
      ensures Faithful(chain) && Blocks(chain) == Recomputed(db.Model(), blk.id)
      ensures chain != [] ==> Live(chain) && chain[|chain| - 1].id == blk.id && chain[0].prev == db.libRef.id
    {
      hide Linked, DbOk, RefOk;
      OwnNumberIsOk(u, blk);
      var reached;
      chain, reached := db.ReversibleSegment(u, blk.AsRef());
      if reached {
        PathToIs(db.Stored(), db.libRef.id, Blocks(chain), blk.id);
        LinkedElements(db.Stored(), db.libRef.id, Blocks(chain), blk.id);
        TopIsOwn(u, Blocks(chain), blk);
        ListedIsFaithful(chain, Blocks(chain), blk.num);
      }
    }

    lemma TopIsOwn(u: Store, p: seq<Block>, blk: Block)
      requires Valid() && DbOk(u, db.Model()) && GoodBlock(u, blk)
      requires p != [] ==> GoodBlock(db.Stored(), p[|p| - 1]) && p[|p| - 1].id == blk.id
      ensures p != [] ==> p[|p| - 1].num == blk.num
    {
    }

    lemma LibKnown(u: Store)
      requires Valid() && DbOk(u, db.Model()) && db.HasLIB()
      ensures db.libRef.id in u
    {
    }

    method ComputeNewLongestChain(ghost u: Store, obj: ForkableBlock)
      requires Valid() && DbOk(u, db.Model()) && db.HasLIB()
      requires GoodBlock(u, obj.block) && obj.block.id in db.objects && db.objects[obj.block.id] == obj
      modifies this`lastLongestChain
      ensures Valid() && Blocks(lastLongestChain) == NewChain(old(State()), obj.block)
      ensures lastLongestChain != [] ==>
        && lastLongestChain[|lastLongestChain| - 1].obj == obj && lastLongestChain[0].prev == db.libRef.id
        && Live(lastLongestChain)
    {
      hide DbOk, Linked;
      var chain, blk := lastLongestChain, obj.block;
      if |chain| != 0 && blk.parent == chain[|chain| - 1].id && db.libRef.id == chain[0].prev {
        LibKnown(u);
        BlockOnTop(u, db.Model(), blk, Blocks(chain));
        lastLongestChain := chain + [SegBlock(blk.id, blk.num, blk.parent, obj)];
        assert Blocks(lastLongestChain) == Blocks(chain) + [blk];
      } else {
        lastLongestChain := Recompute(u, blk);
      }
    }

    /** The stored objects of `ids`; when redoing, only those sent before. */
    method SentChainSegment(ids: seq<Id>, doingRedos: bool, ghost p: seq<Block>) returns (out: seq<ForkableBlock>)
      requires Valid() && ids == IdsOf(p) && forall b <- p :: GoodBlock(db.Stored(), b)
      ensures BlocksOf(out) == if doingRedos then Select(p, Sent(), true) else p
    {
      out := [];
      var i := 0;
      while i < |ids|
        invariant 0 <= i <= |ids|
        invariant BlocksOf(out) == if doingRedos then Select(p[..i], Sent(), true) else p[..i]
      {
        assert p[i] in p && p[..i + 1][..i] == p[..i];
        var obj := db.objects[ids[i]];
        if !(doingRedos && !obj.sentAsNew) {
          assert BlocksOf(out + [obj]) == BlocksOf(out) + [obj.block];
          out := out + [obj];
        }
        i := i + 1;
      }
      assert p[..|p|] == p;
    }

    method SentChainSwitchSegments(ghost u: Store, headID: Id, b: Block)
      returns (undos: seq<ForkableBlock>, redos: seq<ForkableBlock>, junction: Option<Ref>)
      requires Valid() && DbOk(u, db.Model()) && lastBlockSent.Some? && headID == lastBlockSent.value.id
      ensures var w := SentSwitch(State(), b);
        BlocksOf(undos) == w.undos && BlocksOf(redos) == w.redos && junction == w.junction
    {
      hide DbOk, Linked, Reverse, Select;
      assert BlocksOf([]) == [];
      if headID == b.parent {
        return [], [], None;
      }
      var undoIDs, redoIDs, junctionID := db.ChainSwitchSegments(u, headID, b.parent);
      ghost var w := SwitchOf(db.Stored(), headID, b.parent);
      ghost var p, q := if w.Some? then w.value.undo else [], if w.Some? then w.value.redo else [];
      if w.Some? {
        LinkedElements(db.Stored(), w.value.junction, p, headID);
        LinkedElements(db.Stored(), w.value.junction, q, b.parent);
      }
      junction := None;
      if undoIDs != [] {
        match db.BlockForID(junctionID)
        case Some(e) => junction := Some(e.AsRef());
        case None =>
      }
      EmptyLists();
      assert undoIDs == IdsOf(Reverse(p)) && redoIDs == IdsOf(q);
      undos := SentChainSegment(undoIDs, false, Reverse(p));
      redos := SentChainSegment(redoIDs, true, q);
    }

    lemma EmptyLists()
      ensures IdsOf([]) == [] && Reverse([]) == [] && forall sent :: Select([], sent, true) == []
    {
    }

    /** Undo or redo events, caused by `current`. */
    method ProcessBlocks(current: Block, objs: seq<ForkableBlock>, step: StepType, junction: Option<Ref>)
      modifies this`emitted
      ensures emitted == old(emitted) + Emit(step, BlocksOf(objs), KnownLIB(), current.AsRef(), junction)
    {
      var i := 0;
      while i < |objs|
        invariant 0 <= i <= |objs|
        invariant emitted == old(emitted) + Emit(step, BlocksOf(objs)[..i], KnownLIB(), current.AsRef(), junction)
      {
        var e := Event(step, objs[i].block, KnownLIB(), current.AsRef(), junction);
        assert Emit(step, BlocksOf(objs)[..i + 1], KnownLIB(), current.AsRef(), junction)
            == Emit(step, BlocksOf(objs)[..i], KnownLIB(), current.AsRef(), junction) + [e];
        emitted := emitted + [e];
        i := i + 1;
      }
      assert BlocksOf(objs)[..|objs|] == BlocksOf(objs);
    }

    /** Sends as new whatever of the chain was not sent yet, and flags it; `sent` tells what was. */
    method ProcessNewBlocks(chain: seq<SegBlock>, ghost sent: set<Id>)
      requires chain != [] && Faithful(chain)
      requires forall i | 0 <= i < |chain| :: chain[i].obj.sentAsNew <==> chain[i].id in sent
      requires forall i, j | 0 <= i < j < |chain| :: chain[i].obj != chain[j].obj
      modifies this`emitted, this`lastBlockSent, set e <- chain :: e.obj
      ensures emitted == old(emitted)
                         + Emit(New, Select(Blocks(chain), sent, false), KnownLIB(), chain[|chain| - 1].AsRef(), None)
      ensures forall e <- chain :: e.obj.sentAsNew
      ensures chain[|chain| - 1].id !in sent ==> lastBlockSent == Some(chain[|chain| - 1].obj.block)
    {
      hide Select, Emit;
      var head := chain[|chain| - 1];
      ghost var lib, bs := KnownLIB(), Blocks(chain);
      NothingNew(lib, head.AsRef(), sent);
      var i := 0;
      while i < |chain|
        invariant 0 <= i <= |chain| && KnownLIB() == lib
        invariant emitted == old(emitted) + Emit(New, Select(bs[..i], sent, false), lib, head.AsRef(), None)
        invariant forall k | 0 <= k < i :: chain[k].obj.sentAsNew
        invariant forall k | i <= k < |chain| :: chain[k].obj.sentAsNew <==> chain[k].id in sent
        invariant i == |chain| && head.id !in sent ==> lastBlockSent == Some(head.obj.block)
      {
        assert chain[i] in chain;
        var obj := chain[i].obj;
        OneNew(bs, i, lib, head.AsRef(), sent);
        if !obj.sentAsNew {
          emitted := emitted + [Event(New, obj.block, KnownLIB(), head.AsRef(), None)];
          obj.sentAsNew := true;
          lastBlockSent := Some(obj.block);
        }
        i := i + 1;
      }
      assert bs[..|chain|] == bs;
    }

    lemma NothingNew(lib: Ref, head: Ref, sent: set<Id>)
      ensures Emit(New, Select([], sent, false), lib, head, None) == []
    {
    }

    lemma OneNew(bs: seq<Block>, i: nat, lib: Ref, head: Ref, sent: set<Id>)
      requires i < |bs|
      ensures Emit(New, Select(bs[..i + 1], sent, false), lib, head, None)
           == Emit(New, Select(bs[..i], sent, false), lib, head, None)
              + if bs[i].id in sent then [] else [Event(New, bs[i], lib, head, None)]
    {
      assert bs[..i + 1][..i] == bs[..i];
    }

    /** Final blocks in order; the last one is from now on the LIB that cursors name. */
    method ProcessIrreversibleSegment(segment: seq<SegBlock>, head: Ref)
      modifies this`emitted, this`lastLIBSeen
      ensures emitted == old(emitted) + EmitFinal(Irreversible, Blocks(segment), head)
      ensures lastLIBSeen == if segment == [] then old(lastLIBSeen) else segment[|segment| - 1].AsRef()
    {
      var i := 0;
      while i < |segment|
        invariant 0 <= i <= |segment| && lastLIBSeen == old(lastLIBSeen)
        invariant emitted == old(emitted) + EmitFinal(Irreversible, Blocks(segment)[..i], head)
      {
        var b := segment[i].obj.block;
        var e := Event(Irreversible, b, b.AsRef(), head, None);
        assert EmitFinal(Irreversible, Blocks(segment)[..i + 1], head) == EmitFinal(Irreversible, Blocks(segment)[..i], head) + [e];
        emitted := emitted + [e];
        i := i + 1;
      }
      assert Blocks(segment)[..|segment|] == Blocks(segment);
      if |segment| > 0 {
        lastLIBSeen := segment[|segment| - 1].AsRef();
      }
    }

    method ProcessStalledSegment(segment: seq<SegBlock>, head: Ref)
      modifies this`emitted
      ensures emitted == old(emitted) + Emit(Stalled, Blocks(segment), lastLIBSeen, head, None)
    {
      var i := 0;
      while i < |segment|
        invariant 0 <= i <= |segment|
        invariant emitted == old(emitted) + Emit(Stalled, Blocks(segment)[..i], lastLIBSeen, head, None)
      {
        var e := Event(Stalled, segment[i].obj.block, lastLIBSeen, head, None);
        assert Emit(Stalled, Blocks(segment)[..i + 1], lastLIBSeen, head, None)
            == Emit(Stalled, Blocks(segment)[..i], lastLIBSeen, head, None) + [e];
        emitted := emitted + [e];
        i := i + 1;
      }
      assert Blocks(segment)[..|segment|] == Blocks(segment);
    }

    /** The first block when it is the LIB: its object is not the stored one. */
    method ProcessInitialInclusiveIrreversibleBlock(blk: Block)
      requires Valid()
      modifies this`emitted, this`lastBlockSent, this`lastLIBSeen
      ensures Valid() && lastLongestChain == old(lastLongestChain)
      ensures State() == SendInitial(old(State()), blk).0
      ensures emitted == old(emitted) + SendInitial(old(State()), blk).1
    {
      var obj := new ForkableBlock(blk);
      var tinyChain := [SegBlock(blk.id, blk.num, blk.parent, obj)];
      assert Blocks(tinyChain) == [blk];
      label before:
      ProcessNewBlocks(tinyChain, {});
      assert Select([blk], {}, false) == [blk] by { assert [blk][..0] == []; }
      assert Sent() == old(Sent());
      ProcessIrreversibleSegment(tinyChain, blk.AsRef());
    }

    function FirstBlock(first: Option<SegBlock>): Option<Block> {
      match first
      case None => None
      case Some(e) => Some(e.obj.block)
    }

    /** A segment that became final ends with the new LIB, under the number the LIB is known by. */
    lemma FinalSegment(segment: seq<SegBlock>, lib: Ref)
      requires db.Consistent() && db.Lists(segment, Recomputed(db.Model(), lib.id), lib.num)
      requires Recomputed(db.Model(), lib.id) != []
      ensures Blocks(segment) == Recomputed(db.Model(), lib.id)
      ensures segment != [] && segment[|segment| - 1].AsRef() == lib && lib.id in db.links
    {
      hide Linked;
      LinkedTop(db.Stored(), db.libRef.id, Recomputed(db.Model(), lib.id), lib.id);
    }

    lemma FirstIsStored(u: Store, b: Block, first: Block, lib: Ref)
      requires db.Consistent() && DbOk(u, db.Model()) && IsFirst(u, db.Model(), b, first)
      requires lib == BlockInChain(u, db.Model(), b.AsRef(), b.libNum)
      ensures lib == db.libRef && lib.id in db.links
    {
    }

    lemma LibIsOk(u: Store, b: Block, lib: Ref)
      requires db.Consistent() && DbOk(u, db.Model()) && GoodBlock(u, b)
      requires lib == BlockInChain(u, db.Model(), b.AsRef(), b.libNum) && lib.id != ""
      ensures RefOk(u, lib)
    {
      BlockInChainMeaning(u, db.Model(), b, b.libNum);
    }

    twostate lemma SentKept()
      requires db.objects == old(db.objects)
      requires forall id <- db.objects :: db.objects[id].sentAsNew == old(db.objects[id].sentAsNew)
      ensures Sent() == old(Sent())
    {
    }

    /** Sends the rest of the longest chain, and its last block becomes the head. */
    method SendLongestChain(b: Block)
      requires Valid() && lastLongestChain != [] && lastLongestChain[0].prev == db.libRef.id
      requires lastLongestChain[|lastLongestChain| - 1].obj.block == b && b.id !in Sent()
      modifies this`emitted, this`lastBlockSent, Objects()
      ensures Valid() && Objects() == old(Objects()) && db.Model() == old(db.Model()) && lastLIBSeen == old(lastLIBSeen)
      ensures var s := old(State());
        && State() == s.(last := Some(b), sent := s.sent + Ids(s.chain))
        && emitted == old(emitted) + Emit(New, Select(s.chain, s.sent, false), s.KnownLib(), b.AsRef(), None)
    {
      hide Linked, Select, Emit, Ids;
      var chain := lastLongestChain;
      LiveObjects(chain);
      ProcessNewBlocks(chain, Sent());
      SentGrows(chain);
    }

    /** What the move to `lib` makes final, with the first block when the LIB was just discovered, and what it stalls. */
    method NewlyFinal(ghost u: Store, b: Block, first: Option<SegBlock>, lib: Ref)
      returns (hasNew: bool, irreversible: seq<SegBlock>, stalled: seq<SegBlock>)
      requires Valid() && DbOk(u, db.Model()) && db.HasLIB() && GoodBlock(u, b)
      requires lib == BlockInChain(u, db.Model(), b.AsRef(), b.libNum) && lib.id != ""
      requires first.Some? ==> Faithful([first.value]) && IsFirst(u, db.Model(), b, first.value.obj.block)
      ensures var seg := if lib.id == db.libRef.id then [] else Recomputed(db.Model(), lib.id);
        && (hasNew <==> seg != [])
        && Blocks(irreversible) == seg + (if first.Some? then [first.value.obj.block] else [])
        && Blocks(stalled) == if seg == [] then [] else StalledListed(db.Stored(), seg, lib.num)
      ensures irreversible != [] ==>
        && irreversible[|irreversible| - 1].AsRef() == (if first.Some? then first.value.obj.block.AsRef() else lib)
        && RefOk(u, lib) && lib.id in db.links && if hasNew then lib.id != db.libRef.id else lib == db.libRef
    {
      hide DbOk, RefOk, Linked, BlockInChain, StalledListed, Recomputed;
      LibIsOk(u, b, lib);
      hasNew, irreversible, stalled := db.HasNewIrreversibleSegment(u, lib);
      if hasNew {
        FinalSegment(irreversible, lib);
      }
      if first.Some? {
        FirstIsStored(u, b, first.value.obj.block, lib);
        assert [first.value][0].AsRef() == first.value.obj.block.AsRef();
        irreversible := irreversible + [first.value];
      }
    }

    /** The end of ProcessBlock: what the new head makes final, and what it leaves stalled. */
    method AdvanceLIB(ghost u: Store, b: Block, first: Option<SegBlock>)
      requires Valid() && DbOk(u, db.Model()) && db.HasLIB() && GoodBlock(u, b)
      requires lastLongestChain != [] && lastLongestChain[0].prev == db.libRef.id
      requires first.Some? ==> Faithful([first.value]) && IsFirst(u, db.Model(), b, first.value.obj.block)
      modifies this`emitted, this`lastLIBSeen, db
      ensures Valid() && Objects() <= old(Objects())
      ensures DbOk(u, old(db.Model())) && State() == AdvanceLib(u, cfg, old(State()), b, FirstBlock(first)).0
      ensures emitted == old(emitted) + AdvanceLib(u, cfg, old(State()), b, FirstBlock(first)).1
    {
      hide DbOk, RefOk, Linked, BlockInChain, AdvanceLib, Live, Sent, Shared, Purge, Emit, EmitFinal, StalledListed, Recomputed, IsFirst;
      ghost var s := State();
      var lib := db.BlockInCurrentChain(u, b.AsRef(), b.libNum);
      AdvanceLibCases(u, cfg, s, b, FirstBlock(first), lib);
      if lib.id == "" {
        return;
      }
      var hasNew, irreversible, stalled := NewlyFinal(u, b, first, lib);
      if !hasNew && first.None? {
        return;
      }
      SentKept();
      Finalize(u, lib, hasNew, irreversible, stalled, b.AsRef());
    }

    method Finalize(ghost u: Store, lib: Ref, ghost moved: bool, irreversible: seq<SegBlock>, stalled: seq<SegBlock>, head: Ref)
      requires Valid() && DbOk(u, db.Model()) && db.HasLIB() && irreversible != []
      requires RefOk(u, lib) && lib.id in db.links && lastLongestChain != [] && lastLongestChain[0].prev == db.libRef.id
      requires if moved then lib.id != db.libRef.id else lib == db.libRef
      modifies this`emitted, this`lastLIBSeen, db
      ensures Valid() && Objects() <= old(Objects())
      ensures var s, libSeen := old(State()), irreversible[|irreversible| - 1].AsRef();
        var kept := Purge(s.db.(lib := lib), cfg.kept);
        && State() == s.(db := kept, libSeen := libSeen, sent := s.sent * kept.stored.Keys)
        && emitted == old(emitted) + (EmitFinal(Irreversible, Blocks(irreversible), head)
                                      + Emit(Stalled, Blocks(stalled), libSeen, head, None))
    {
      hide DbOk, RefOk, Linked, Purge, Live, Sent, Faithful, Blocks, EmitFinal, Emit;
      MoveAndPurge(u, lib, moved);
      ghost var before := emitted;
      ProcessIrreversibleSegment(irreversible, head);
      ProcessStalledSegment(stalled, head);
      assert emitted == before + (EmitFinal(Irreversible, Blocks(irreversible), head)
                                  + Emit(Stalled, Blocks(stalled), lastLIBSeen, head, None));
    }

    /** The elements of a live chain are distinct objects, flagged as `Sent` says. */
    lemma LiveObjects(chain: seq<SegBlock>)
      requires db.Consistent() && chain != [] && Faithful(chain) && Live(chain)
      ensures forall i | 0 <= i < |chain| :: chain[i].obj.sentAsNew <==> chain[i].id in Sent()
      ensures forall i, j | 0 <= i < j < |chain| :: chain[i].obj != chain[j].obj
    {
      forall i, j | 0 <= i < j < |chain| ensures chain[i].obj != chain[j].obj {
        if Blocks(chain)[i].id == Blocks(chain)[j].id {
          IdsAreDistinct(db.Stored(), db.libRef.id, Blocks(chain), chain[|chain| - 1].id, i, j);
        }
      }
    }

    /** Flagging the objects of a chain adds its ids to those sent. */
    twostate lemma SentGrows(chain: seq<SegBlock>)
      requires db.Consistent() && db.objects == old(db.objects) && Faithful(chain) && Shared(chain)
      requires forall e <- chain :: e.obj.sentAsNew
      requires forall id <- db.objects | db.objects[id] !in set e <- chain :: e.obj ::
        db.objects[id].sentAsNew == old(db.objects[id].sentAsNew)
      ensures Sent() == old(Sent()) + Ids(Blocks(chain))
    {
      var ids := Ids(Blocks(chain));
      forall id <- db.objects ensures id in ids <==> db.objects[id] in set e <- chain :: e.obj {
        if id in ids {
          var i :| 0 <= i < |chain| && Blocks(chain)[i].id == id;
          assert chain[i] in chain;
        }
        if db.objects[id] in set e <- chain :: e.obj {
          var i :| 0 <= i < |chain| && db.objects[id] == chain[i].obj;
          assert Blocks(chain)[i] in Blocks(chain);
        }
      }
      forall id <- ids ensures id in db.objects {
        var i :| 0 <= i < |chain| && Blocks(chain)[i].id == id;
      }
    }

    lemma StillLive(chain: seq<SegBlock>)
      requires db.Consistent() && chain != [] && Faithful(chain)
      requires Linked(db.Stored(), db.libRef.id, Blocks(chain), chain[|chain| - 1].id)
      requires forall i | 0 <= i < |chain| :: chain[i].id in db.objects ==> db.objects[chain[i].id] == chain[i].obj
      ensures Live(chain)
    {
      LinkedElements(db.Stored(), db.libRef.id, Blocks(chain), chain[|chain| - 1].id);
      hide Linked;
      forall i | 0 <= i < |chain| ensures chain[i].id in db.objects {
        assert Blocks(chain)[i].id in db.Stored();
      }
    }

    /** Moves the LIB, then forgets what lies too far below it. */
    method MoveAndPurge(ghost u: Store, lib: Ref, ghost moved: bool)
      requires Valid() && DbOk(u, db.Model()) && db.HasLIB()
      requires RefOk(u, lib) && lib.id in db.links && lastLongestChain != [] && lastLongestChain[0].prev == db.libRef.id
      requires if moved then lib.id != db.libRef.id else lib == db.libRef
      modifies db
      ensures Valid() && Objects() <= old(Objects())
      ensures db.Model() == Purge(old(db.Model()).(lib := lib), cfg.kept)
      ensures Sent() == old(Sent()) * db.Stored().Keys
    {
      hide Linked, DbOk, RefOk, Purge, Live, Shared, Blocks, Sent, Objects;
      ghost var chain, objects, before := lastLongestChain, db.objects, db.Model();
      if !moved {
        StaysAfterPurge(u, chain);
      }
      LibIsNamed(u, db.Model(), lib);
      PurgeKeepsLib(before.(lib := lib), cfg.kept);
      Shrink(lib);
      assert db.Stored() == Purge(before.(lib := lib), cfg.kept).stored && db.libRef == lib;
      assert forall id <- db.objects :: id in objects && db.objects[id] == objects[id];
      if !moved {
        StillLive(chain);
      }
    }

    lemma StaysAfterPurge(u: Store, chain: seq<SegBlock>)
      requires db.Consistent() && DbOk(u, db.Model()) && db.HasLIB() && chain != [] && Live(chain)
      ensures Linked(Purge(db.Model().(lib := db.libRef), cfg.kept).stored, db.libRef.id, Blocks(chain), chain[|chain| - 1].id)
      ensures forall i | 0 <= i < |chain| :: chain[i].id in db.objects && db.objects[chain[i].id] == chain[i].obj
    {
      hide Linked, DbOk, Purge, Blocks;
      PurgeKeepsPath(u, db.Model(), cfg.kept, Blocks(chain), chain[|chain| - 1].id);
      assert db.Model().(lib := db.libRef) == db.Model();
    }

    method Shrink(lib: Ref)
      requires db.Consistent()
      modifies db
      ensures db.Consistent() && Objects() <= old(Objects())
      ensures db.Model() == Purge(old(db.Model()).(lib := lib), cfg.kept)
      ensures Sent() == old(Sent()) * db.Stored().Keys
      ensures forall id <- db.objects :: id in old(db.objects) && db.objects[id] == old(db.objects)[id]
    {
      hide Purge;
      ghost var objects := db.objects;
      db.MoveLIB(lib);
      var _ := db.PurgeBeforeLIB(cfg.kept);
      assert db.Stored().Keys == db.objects.Keys;
      assert forall id <- db.objects :: id in objects && db.objects[id] == objects[id];
    }

    lemma LibIsNamed(u: Store, d: Db, lib: Ref)
      requires DbOk(u, d) && RefOk(u, lib)
      ensures lib != EMPTY_REF
    {
    }

    /** Undoes and redoes down to the longest chain, and sends the rest of it. */
    method SwitchToLongestChain(b: Block, undos: seq<ForkableBlock>, redos: seq<ForkableBlock>, junction: Option<Ref>)
      requires Valid() && lastLongestChain != [] && lastLongestChain[0].prev == db.libRef.id
      requires lastLongestChain[|lastLongestChain| - 1].obj.block == b && b.id !in Sent()
      modifies this`emitted, this`lastBlockSent, Objects()
      ensures Valid() && Objects() == old(Objects()) && db.Model() == old(db.Model()) && lastLIBSeen == old(lastLIBSeen)
      ensures var s := old(State());
        && State() == s.(last := Some(b), sent := s.sent + Ids(s.chain))
        && emitted == old(emitted) + (Emit(Undo, BlocksOf(undos), s.KnownLib(), b.AsRef(), junction)
                                      + Emit(New, BlocksOf(redos), s.KnownLib(), b.AsRef(), None)
                                      + Emit(New, Select(s.chain, s.sent, false), s.KnownLib(), b.AsRef(), None))
    {
      hide Linked, Select, Emit, Ids, BlocksOf, Blocks, Live;
      ghost var s := State();
      ProcessBlocks(b, undos, Undo, junction);
      ProcessBlocks(b, redos, New, None);
      assert State() == s;
      SendLongestChain(b);
      assert emitted == old(emitted) + (Emit(Undo, BlocksOf(undos), s.KnownLib(), b.AsRef(), junction)
                                        + Emit(New, BlocksOf(redos), s.KnownLib(), b.AsRef(), None)
                                        + Emit(New, Select(s.chain, s.sent, false), s.KnownLib(), b.AsRef(), None));
    }

    method SwitchAndAdvance(ghost u: Store, b: Block, undos: seq<ForkableBlock>, redos: seq<ForkableBlock>,
                            junction: Option<Ref>, first: Option<SegBlock>)
      requires Valid() && DbOk(u, db.Model()) && db.HasLIB() && GoodBlock(u, b)
      requires lastLongestChain != [] && lastLongestChain[0].prev == db.libRef.id
      requires lastLongestChain[|lastLongestChain| - 1].obj.block == b && b.id !in Sent()
      requires first.Some? ==> Faithful([first.value]) && IsFirst(u, db.Model(), b, first.value.obj.block)
      modifies this`emitted, this`lastBlockSent, this`lastLIBSeen, db, Objects()
      ensures Valid() && Objects() <= old(Objects()) && DbOk(u, old(db.Model()))
      ensures var s, head := old(State()), b.AsRef();
        var final := AdvanceLib(u, cfg, s.(last := Some(b), sent := s.sent + Ids(s.chain)), b, FirstBlock(first));
        && State() == final.0
        && emitted == old(emitted) + (Emit(Undo, BlocksOf(undos), s.KnownLib(), head, junction)
                                      + Emit(New, BlocksOf(redos), s.KnownLib(), head, None)
                                      + Emit(New, Select(s.chain, s.sent, false), s.KnownLib(), head, None) + final.1)
    {
      hide DbOk, Linked, IsFirst, NewChain, SentSwitch, AdvanceLib, Extend, Live, Select, Emit, Ids, Shared, BlocksOf;
      SwitchToLongestChain(b, undos, redos, junction);
      ghost var moved, final := emitted, AdvanceLib(u, cfg, State(), b, FirstBlock(first));
      AdvanceLIB(u, b, first);
      assert emitted == moved + final.1;
    }

    /** From the longest chain on: switches to it when the block triggers that, and moves the LIB. */
    method ExtendChain(ghost u: Store, ghost s: State, obj: ForkableBlock, triggers: bool, undos: seq<ForkableBlock>,
                       redos: seq<ForkableBlock>, junction: Option<Ref>, first: Option<SegBlock>)
      requires Valid() && DbOk(u, db.Model()) && db.HasLIB() && GoodBlock(u, obj.block)
      requires obj.block.id in db.objects && db.objects[obj.block.id] == obj && obj.block.id !in Sent()
      requires triggers == s.Triggers(obj.block)
      requires triggers ==> Reorg(BlocksOf(undos), BlocksOf(redos), junction) == SentSwitch(s, obj.block)
      requires first.Some? ==> Faithful([first.value]) && IsFirst(u, db.Model(), obj.block, first.value.obj.block)
      modifies this, db, Objects()
      ensures Valid() && Objects() <= old(Objects())
      ensures DbOk(u, old(db.Model())) && State() == Extend(u, cfg, s, old(State()), obj.block, FirstBlock(first)).0
      ensures emitted == old(emitted) + Extend(u, cfg, s, old(State()), obj.block, FirstBlock(first)).1
    {
      hide DbOk, Linked, IsFirst, NewChain, SentSwitch, AdvanceLib, Extend, Live, Select, Emit, Ids, Shared, BlocksOf;
      var b := obj.block;
      ghost var s1 := State();
      ghost var s2 := s1.(chain := NewChain(s1, b));
      ExtendCases(u, cfg, s, s1, b, FirstBlock(first));
      ComputeNewLongestChain(u, obj);
      SentKept();
      assert State() == s2;
      if !triggers || |lastLongestChain| == 0 {
        return;
      }
      SwitchAndAdvance(u, b, undos, redos, junction, first);
    }

    method StoreBlock(ghost u: Store, blk: Block, obj: ForkableBlock) returns (exists_: bool)
      requires Valid() && DbOk(u, db.Model()) && GoodBlock(u, blk) && obj.block == blk && !obj.sentAsNew
      modifies db
      ensures Valid() && Objects() <= old(Objects()) + {obj} && (exists_ <==> blk.id in old(db.links))
      ensures State() == old(State()).(db := AddLink(old(db.Model()), blk))
      ensures !exists_ ==> blk.id in db.objects && db.objects[blk.id] == obj && blk.id !in Sent()
    {
      hide Linked, Sent, Live, DbOk, Shared, AddLink, Blocks;
      ghost var chain, objects := lastLongestChain, db.objects;
      ghost var live := chain != [] && chain[0].prev == db.libRef.id;
      if live {
        StoringKeepsPaths(blk, chain);
      }
      IsGoodBlock(u, blk);
      exists_ := AddObject(blk, obj);
      if live {
        StillLive(chain);
      }
    }

    lemma IsGoodBlock(u: Store, b: Block)
      requires db.Consistent() && DbOk(u, db.Model()) && GoodBlock(u, b)
      ensures b.id != "" && b.parent != "" && b.id != b.parent
    {
    }

    lemma StoringKeepsPaths(blk: Block, chain: seq<SegBlock>)
      requires db.Consistent() && chain != [] && Live(chain)
      ensures Linked(AddLink(db.Model(), blk).stored, db.libRef.id, Blocks(chain), chain[|chain| - 1].id)
      ensures forall i | 0 <= i < |chain| :: chain[i].id in db.objects && db.objects[chain[i].id] == chain[i].obj
    {
      if blk.id !in db.links {
        AddLinkKeepsPaths(db.Model(), blk, db.libRef.id, Blocks(chain), chain[|chain| - 1].id);
      }
    }

    method AddObject(blk: Block, obj: ForkableBlock) returns (exists_: bool)
      requires db.Consistent() && obj.block == blk && !obj.sentAsNew
      requires blk.parent != "" && blk.id != "" && blk.id != blk.parent
      modifies db
      ensures db.Consistent() && (exists_ <==> blk.id in old(db.links)) && Sent() == old(Sent()) && db.libRef == old(db.libRef)
      ensures db.Model() == AddLink(old(db.Model()), blk)
      ensures if exists_ then db.objects == old(db.objects)
              else blk.id !in Sent() && db.objects == old(db.objects)[blk.id := obj]
    {
      var seenPrevious;
      exists_, seenPrevious := db.AddLink(blk, obj);
    }

    method SetLIB(ghost u: Store, blk: Block, ghost lib: Ref)
      requires Valid() && DbOk(u, db.Model()) && !db.HasLIB()
      requires lib == if blk.num == cfg.first then blk.AsRef() else BlockInChain(u, db.Model(), blk.AsRef(), blk.libNum)
      requires lib.id == "" ==> lib == EMPTY_REF
      modifies db`libRef
      ensures Valid() && Objects() == old(Objects()) && db.objects == old(db.objects)
      ensures State() == old(State()).(db := old(db.Model()).(lib := lib))
    {
      hide Linked, BlockInChain, DbOk;
      db.SetLIB(u, blk.AsRef(), blk.libNum);
      SentKept();
    }

    /** Looks for a first LIB; blocks are held back until there is one. */
    method DiscoverLIB(ghost u: Store, ghost s: State, blk: Block) returns (first: Option<SegBlock>, done: bool)
      requires Valid() && DbOk(u, db.Model()) && !db.HasLIB() && GoodBlock(db.Stored(), blk)
      modifies this`emitted, this`lastBlockSent, this`lastLIBSeen, db`libRef
      ensures Valid() && Objects() == old(Objects()) && db.objects == old(db.objects)
      ensures DbOk(u, old(db.Model())) && GoodBlock(old(db.Stored()), blk) && !old(db.Model()).HasLib()
      ensures var r := Discover(u, cfg, s, old(State()), blk);
        if done then State() == r.0 && emitted == old(emitted) + r.1
        else
          && emitted == old(emitted) && first.Some? && Faithful([first.value]) && Sent() == old(Sent())
          && LeftToExtend(u, cfg, s, State(), blk, first.value.obj.block, r)
    {
      hide Linked, Discover, Extend, BlockInChain, DbOk, IsFirst, LeftToExtend, SendInitial, Sent, Live, Shared;
      ghost var s1 := State();
      ghost var lib := if blk.num == cfg.first then blk.AsRef() else BlockInChain(u, s1.db, blk.AsRef(), blk.libNum);
      DiscoverCases(u, cfg, s, s1, blk, lib);
      SetLIB(u, blk, lib);
      if !db.HasLIB() {
        return None, true;
      }
      if db.libRef.num == blk.num {
        ProcessInitialInclusiveIrreversibleBlock(blk);
        return None, true;
      }
      first, done := db.BlockForID(db.libRef.id), false;
    }

    /** What follows once the block is stored: there is a LIB, or one is looked for. */
    method ExtendOrDiscover(ghost u: Store, ghost s: State, obj: ForkableBlock, triggers: bool, undos: seq<ForkableBlock>,
                            redos: seq<ForkableBlock>, junction: Option<Ref>)
      requires Valid() && DbOk(u, db.Model()) && GoodBlock(u, obj.block)
      requires obj.block.id in db.objects && db.objects[obj.block.id] == obj && obj.block.id !in Sent()
      requires triggers == s.Triggers(obj.block)
      requires triggers ==> Reorg(BlocksOf(undos), BlocksOf(redos), junction) == SentSwitch(s, obj.block)
      modifies this, db, Objects()
      ensures Valid() && Objects() <= old(Objects()) && DbOk(u, old(db.Model()))
      ensures GoodBlock(old(db.Stored()), obj.block)
      ensures var s1, b := old(State()), obj.block;
        var r := if s1.db.HasLib() then Extend(u, cfg, s, s1, b, None) else Discover(u, cfg, s, s1, b);
        State() == r.0 && emitted == old(emitted) + r.1
    {
      hide DbOk, Linked, AdvanceLib, Extend, Discover, IsFirst, LeftToExtend, SentSwitch, SendInitial, Step, Live, Shared, Sent, AddLink, BlocksOf;
      ghost var s1 := State();
      var first: Option<SegBlock> := None;
      if !db.HasLIB() {
        var done;
        first, done := DiscoverLIB(u, s, obj.block);
        if done {
          return;
        }
        LeftToExtendIs(u, cfg, s, State(), obj.block, first.value.obj.block, Discover(u, cfg, s, s1, obj.block));
      }
      ExtendChain(u, s, obj, triggers, undos, redos, junction, first);
    }

    /**
     One arriving block: exactly the step of the model. It is refused only when it is its own parent, and
     then nothing changes.
     */
    method ProcessBlock(ghost u: Store, blk: Block) returns (ok: bool)
      requires Valid() && DbOk(u, db.Model()) && (blk.id == blk.parent || GoodBlock(u, blk))
      modifies this, db, Objects()
      ensures Valid() && fresh(Objects() - old(Objects())) && (ok <==> blk.id != blk.parent)
      ensures !ok ==> State() == old(State()) && emitted == old(emitted)
      ensures ok ==> DbOk(u, db.Model()) && State() == Step(u, cfg, old(State()), blk).0
      ensures ok ==> emitted == old(emitted) + Step(u, cfg, old(State()), blk).1
    {
      hide DbOk, Linked, AdvanceLib, Extend, Discover, IsFirst, LeftToExtend, SentSwitch, SendInitial, Step, Live, Shared, Sent, AddLink, BlocksOf;
      if blk.id == blk.parent {
        return false;
      }
      ok := true;
      StepCases(u, cfg, State(), blk);
      if blk.num < db.libRef.num && lastBlockSent.Some? {
        return;
      }
      var triggers := Triggers(blk);
      if cfg.inclusive && lastBlockSent.None? && blk.id == db.libRef.id {
        ProcessInitialInclusiveIrreversibleBlock(blk);
        return;
      }
      ProcessNext(u, blk, triggers);
    }

    /** A block that is neither too low nor the inclusive LIB itself. */
    method ProcessNext(ghost u: Store, blk: Block, triggers: bool)
      requires Valid() && DbOk(u, db.Model()) && GoodBlock(u, blk) && triggers == State().Triggers(blk)
      requires DbOk(u, AddLink(db.Model(), blk)) && GoodBlock(AddLink(db.Model(), blk).stored, blk)
      modifies this, db, Objects()
      ensures Valid() && fresh(Objects() - old(Objects()))
      ensures var s := old(State()); var s1 := s.(db := AddLink(s.db, blk));
        && DbOk(u, s1.db) && GoodBlock(u, blk) && GoodBlock(s1.db.stored, blk)
        && var r := if blk.id in s.db.stored then (s1, [])
                    else if s1.db.HasLib() then Extend(u, cfg, s, s1, blk, None)
                    else Discover(u, cfg, s, s1, blk);
           State() == r.0 && emitted == old(emitted) + r.1
    {
      hide DbOk, Linked, AdvanceLib, Extend, Discover, IsFirst, LeftToExtend, SentSwitch, SendInitial, Step, Live, Shared, Sent, AddLink, BlocksOf;
      ghost var s := State();
      var obj := new ForkableBlock(blk);
      var undos: seq<ForkableBlock>, redos: seq<ForkableBlock>, junction: Option<Ref> := [], [], None;
      if triggers && lastBlockSent.Some? {
        undos, redos, junction := SentChainSwitchSegments(u, lastBlockSent.value.id, blk);
      } else if lastBlockSent.None? {
        NothingToSwitch(s, blk);
      }
      SentKept();
      StoreAndExtend(u, s, blk, obj, triggers, undos, redos, junction);
    }

    lemma NothingToSwitch(s: State, b: Block)
      requires s.last.None?
      ensures SentSwitch(s, b) == Reorg(BlocksOf([]), BlocksOf([]), None)
    {
    }

    method StoreAndExtend(ghost u: Store, ghost s: State, blk: Block, obj: ForkableBlock, triggers: bool,
                          undos: seq<ForkableBlock>, redos: seq<ForkableBlock>, junction: Option<Ref>)
      requires Valid() && DbOk(u, db.Model()) && GoodBlock(u, blk) && obj.block == blk && !obj.sentAsNew
      requires State() == s && triggers == s.Triggers(blk) && DbOk(u, AddLink(s.db, blk)) && GoodBlock(AddLink(s.db, blk).stored, blk)
      requires triggers ==> Reorg(BlocksOf(undos), BlocksOf(redos), junction) == SentSwitch(s, blk)
      modifies this, db, Objects(), obj
      ensures Valid() && Objects() <= old(Objects()) + {obj}
      ensures var s1 := s.(db := AddLink(s.db, blk));
        var r := if blk.id in s.db.stored then (s1, [])
                 else if s1.db.HasLib() then Extend(u, cfg, s, s1, blk, None)
                 else Discover(u, cfg, s, s1, blk);
        State() == r.0 && emitted == old(emitted) + r.1
    {
      hide DbOk, Linked, AdvanceLib, Extend, Discover, IsFirst, LeftToExtend, SentSwitch, SendInitial, Step, Live, Shared, Sent, AddLink, BlocksOf;
      var seen := StoreBlock(u, blk, obj);
      if seen {
        return;
      }
      ExtendOrDiscover(u, s, obj, triggers, undos, redos, junction);
    }

    // Reconnecting

    ghost predicate HeadKnown(u: Store)
      reads this
    {
      lastBlockSent.Some? ==> GoodBlock(u, lastBlockSent.value)
    }

    function HeadOf(): Ref
      reads this
    {
      if lastBlockSent.Some? then lastBlockSent.value.AsRef() else EMPTY_REF
    }

    /** Everything stored from `start` down. */
    method Segment(ghost u: Store, start: Ref) returns (seg: seq<SegBlock>, reachLIB: bool)
      requires Valid() && DbOk(u, db.Model()) && (start.id in u ==> start.num == u[start.id].num)
      ensures Blocks(seg) == CompletePath(u, db.Stored(), start.id) && Faithful(seg)
      ensures reachLIB <==> ReachesLib(db.Model(), Blocks(seg), start.id)
    {
      hide Linked, InPath;
      ghost var p := CompletePath(u, db.Stored(), start.id);
      seg, reachLIB := db.CompleteSegment(start);
      CompleteUnique(db.Stored(), p, Blocks(seg), start.id);
      if p != [] {
        LinkedTop(db.Stored(), RootOf(p, start.id), p, start.id);
      }
      ListedIsFaithful(seg, p, start.num);
    }

    static method BlockIn(id: Id, array_: seq<SegBlock>) returns (r: bool)
      requires Faithful(array_)
      ensures r <==> InPath(id, Blocks(array_))
    {
      for i := 0 to |array_|
        invariant forall k | 0 <= k < i :: array_[k].id != id
      {
        if array_[i].id == id {
          assert Blocks(array_)[i].id == id;
          return true;
        }
      }
      return false;
    }

    /** What a consumer that starts at block `num` is sent first. */
    method BlocksFromNum(ghost u: Store, num: nat) returns (r: Result<seq<Event>>)
      requires Valid() && DbOk(u, db.Model()) && HeadKnown(u)
      ensures r == FromNum(u, State(), num)
    {
      hide Linked, DbOk, ReachesLib, Live, Shared, Sent, Collect, SkipTo, Canonical;
      if !db.HasLIB() {
        return Err("no lib");
      }
      if lastBlockSent.None? {
        return Err("no head");
      }
      var head := HeadOf();
      var seg, reachLIB := Segment(u, head);
      if !reachLIB {
        return Err("head segment does not reach LIB");
      }
      var out := FromBlock(seg, num, head);
      if out == [] {
        return Err("no block found in complete segment");
      }
      return Ok(out);
    }

    /** The segment from the block with the number on. */
    method FromBlock(seg: seq<SegBlock>, num: nat, head: Ref) returns (out: seq<Event>)
      requires Faithful(seg)
      ensures out == Collect(SkipTo(Blocks(seg), num), Canonical(db.libRef, head))
    {
      hide Collect, SkipTo;
      var libNum := db.libRef.num;
      ghost var p, f := Blocks(seg), Canonical(db.libRef, head);
      var seenBlock, i := false, 0;
      ghost var k := 0;
      CollectNone(p, f);
      assert p[0..] == p;
      out := [];
      while i < |seg|
        invariant 0 <= k <= i <= |seg|
        invariant if seenBlock then SkipTo(p, num) == p[k..] else k == i && SkipTo(p, num) == SkipTo(p[k..], num)
        invariant out == Collect(p[k..i], f)
      {
        var ref := seg[i].AsRef();
        if !seenBlock && ref.num == num {
          seenBlock := true;
        }
        if !seenBlock {
          SkipOne(p, k, num);
          i, k := i + 1, k + 1;
          continue;
        }
        if i == k {
          SkipOne(p, k, num);
        }
        var lib := db.libRef;
        if lib.num > ref.num {
          lib := ref;
        }
        var step := New;
        if ref.num <= libNum {
          step := NewIrreversible;
        }
        out := out + [Event(step, seg[i].obj.block, lib, head, None)];
        CollectOne(p, k, i, f);
        i := i + 1;
      }
      assert p[k..|p|] == p[k..];
      SkipNone(p, num);
    }

    /** From a cursor on the chain of the head: finality up to the LIB, then what is new. */
    method BlocksForward(cur: Cursor, seg: seq<SegBlock>, head: Ref) returns (out: seq<Event>)
      requires Faithful(seg)
      ensures out == Collect(Blocks(seg), Forward(cur, db.libRef, head))
    {
      hide Collect;
      ghost var p, f := Blocks(seg), Forward(cur, db.libRef, head);
      CollectNone(p, f);
      out := [];
      var i := 0;
      while i < |seg|
        invariant 0 <= i <= |seg|
        invariant out == Collect(p[0..i], f)
      {
        CollectOne(p, 0, i, f);
        i := i + 1;
        var e := seg[i - 1];
        if e.num <= cur.lib.num {
          continue;
        }
        if e.num <= db.libRef.num {
          var step := Irreversible;
          if e.num > cur.block.num {
            step := NewIrreversible;
          }
          out := out + [Event(step, e.obj.block, e.AsRef(), head, None)];
          continue;
        }
        if e.num > cur.block.num || (cur.step == Undo && e.num == cur.block.num) {
          out := out + [Event(New, e.obj.block, db.libRef, head, None)];
          continue;
        }
      }
      assert p[0..|p|] == p;
    }

    /** Walks down from a forked cursor to the segment of the head. */
    method UndosOf(ghost u: Store, seg: seq<SegBlock>, cur: Cursor) returns (r: Result<Walked>)
      requires db.Consistent() && DbOk(u, db.Model()) && Faithful(seg)
      ensures r == WalkBack(u, db.Model(), Blocks(seg), cur, cur.block.id)
    {
      hide Linked, DbOk, InPath, WalkBack;
      var undos, id: Id := [], cur.block.id;
      ghost var whole := WalkBack(u, db.Model(), Blocks(seg), cur, id);
      assert whole == After(undos, whole) by {
        assert whole.Ok? ==> undos + whole.value.undos == whole.value.undos;
      }
      while true
        invariant whole == After(undos, WalkBack(u, db.Model(), Blocks(seg), cur, id))
        decreases if id in db.links then db.nums[id] + 1 else 0
      {
        WalkBackOne(u, Blocks(seg), cur, id, undos);
        var found := db.BlockForID(id);
        if found.None? {
          return Err("cannot find block with ID");
        }
        var alreadyUndone := id == cur.block.id && cur.step == Undo;
        if !alreadyUndone {
          undos := undos + [found.value.obj.block];
        }
        id := found.value.prev;
        var met := BlockIn(id, seg);
        if met {
          return Ok(Walked(undos, id));
        }
      }
    }

    /** What a walk amounts to when `undos` were met before it. */
    static function After(undos: seq<Block>, r: Result<Walked>): Result<Walked> {
      match r
      case Err(e) => Err(e)
      case Ok(w) => Ok(Walked(undos + w.undos, w.junction))
    }

    lemma WalkBackOne(u: Store, seg: seq<Block>, cur: Cursor, id: Id, undos: seq<Block>)
      requires db.Consistent() && DbOk(u, db.Model())
      ensures var r := After(undos, WalkBack(u, db.Model(), seg, cur, id));
        if id !in db.links then r == Err("cannot find block with ID")
        else
          var b := db.objects[id].block;
          var more := if id == cur.block.id && cur.step == Undo then undos else undos + [b];
          && r == (if InPath(b.parent, seg) then Ok(Walked(more, b.parent))
                   else After(more, WalkBack(u, db.Model(), seg, cur, b.parent)))
          && (b.parent in db.links ==> db.nums[b.parent] < db.nums[id])
    {
      hide InPath, Linked;
      if id in db.links {
        var b := db.objects[id].block;
        var mine := if id == cur.block.id && cur.step == Undo then [] else [b];
        var rest := WalkBack(u, db.Model(), seg, cur, b.parent);
        assert rest.Ok? ==> undos + (mine + rest.value.undos) == (undos + mine) + rest.value.undos;
        assert undos + [] == undos;
      }
    }

    /** What a consumer that comes back with a cursor is sent first. */
    method BlocksFromCursor(ghost u: Store, cur: Cursor) returns (r: Result<seq<Event>>)
      requires Valid() && DbOk(u, db.Model()) && HeadKnown(u)
      ensures r == FromCursor(u, State(), cur)
      decreases if cur.block.id in db.links then db.nums[cur.block.id] + 1 else 0
    {
      hide Linked, DbOk, ReachesLib, Live, Shared, Sent, Collect, InPath, WalkBack;
      if !db.HasLIB() {
        return Err("no lib");
      }
      var head := HeadOf();
      HeadNumber(u);
      var seg, reachLIB := Segment(u, head);
      if !reachLIB {
        return Err("head segment does not reach LIB");
      }
      if |seg| == 0 {
        return Err("no complete segment");
      }
      if cur.lib.num < seg[0].num {
        return Err("complete segment does not include cursor LIB");
      }
      var blockIn := BlockIn(cur.block.id, seg);
      var libIn := BlockIn(cur.lib.id, seg);
      if blockIn && libIn {
        var out := BlocksForward(cur, seg, head);
        return Ok(out);
      }
      var w := UndosOf(u, seg, cur);
      if w.Err? {
        return Err(w.message);
      }
      JunctionIsLower(u, Blocks(seg), head.id, cur);
      var junction := db.BlockForID(w.value.junction).value.AsRef();
      var undone := UndoEvents(w.value.undos, cur.lib, head, junction);
      var newBlocks := BlocksFromCursor(u, Cursor(New, junction, head, cur.lib));
      if newBlocks.Err? {
        return newBlocks;
      }
      return Ok(undone + newBlocks.value);
    }

    lemma HeadNumber(u: Store)
      requires db.Consistent() && HeadKnown(u) && DbOk(u, db.Model())
      ensures HeadOf().id in u ==> HeadOf().num == u[HeadOf().id].num
    {
    }

    lemma JunctionIsLower(u: Store, seg: seq<Block>, head: Id, cur: Cursor)
      requires db.Consistent() && DbOk(u, db.Model()) && Complete(db.Stored(), seg, head)
      ensures var w := WalkBack(u, db.Model(), seg, cur, cur.block.id);
        w.Ok? ==> cur.block.id in db.links && w.value.junction in db.links && db.nums[w.value.junction] < db.nums[cur.block.id]
    {
      SegmentStored(db.Stored(), seg, head);
    }

    static method UndoEvents(undos: seq<Block>, lib: Ref, head: Ref, junction: Ref) returns (es: seq<Event>)
      ensures es == Emit(Undo, undos, lib, head, Some(junction))
    {
      es := [];
      for i := 0 to |undos|
        invariant es == Emit(Undo, undos[..i], lib, head, Some(junction))
      {
        var e := Event(Undo, undos[i], lib, head, Some(junction));
        assert Emit(Undo, undos[..i + 1], lib, head, Some(junction)) == Emit(Undo, undos[..i], lib, head, Some(junction)) + [e];
        es := es + [e];
      }
      assert undos[..|undos|] == undos;
    }

    lemma BranchNumbers(u: Store, p: seq<Block>, head: Id)
      requires db.Consistent() && DbOk(u, db.Model()) && Complete(db.Stored(), p, head) && p != []
      ensures head in u && p[|p| - 1].num == u[head].num && forall i | 0 <= i < |p| - 1 :: p[i].num < u[head].num
    {
      LinkedAscending(u, db.Stored(), RootOf(p, head), p, head);
      LinkedTop(db.Stored(), RootOf(p, head), p, head);
    }

    method AlongHead(seg: seq<SegBlock>, startBlock: nat, head: Ref) returns (out: seq<Event>)
      requires Faithful(seg)
      ensures out == Collect(Blocks(seg), Through(startBlock, db.libRef, head))
    {
      hide Collect;
      ghost var p, f := Blocks(seg), Through(startBlock, db.libRef, head);
      CollectNone(p, f);
      out := [];
      var i := 0;
      while i < |seg|
        invariant 0 <= i <= |seg|
        invariant out == Collect(p[0..i], f)
      {
        CollectOne(p, 0, i, f);
        i := i + 1;
        var e := seg[i - 1];
        if e.num < startBlock {
          continue;
        }
        var step := New;
        if e.num <= db.libRef.num {
          step := NewIrreversible;
        }
        out := out + [Event(step, e.obj.block, db.libRef, head, None)];
      }
      assert p[0..|p|] == p;
    }

    /** Along the cursor's branch up to its block, which is told to be there or not. */
    static method AlongFork(seg: seq<SegBlock>, startBlock: nat, cur: Cursor, head: Ref) returns (out: seq<Event>, matched: bool)
      requires Faithful(seg) && seg != []
      requires seg[|seg| - 1].num == cur.block.num && forall i | 0 <= i < |seg| - 1 :: seg[i].num < cur.block.num
      ensures matched <==> startBlock <= cur.block.num
      ensures matched ==> out == Collect(Blocks(seg), AlongBranch(startBlock, cur, head))
    {
      hide Collect;
      ghost var p, f := Blocks(seg), AlongBranch(startBlock, cur, head);
      CollectNone(p, f);
      out, matched := [], false;
      var i := 0;
      while i < |seg|
        invariant 0 <= i <= |seg| && !matched
        invariant out == Collect(p[0..i], f)
        invariant i == |seg| ==> cur.block.num < startBlock
      {
        CollectOne(p, 0, i, f);
        i := i + 1;
        var e := seg[i - 1];
        if e.num < startBlock {
          continue;
        }
        var step := New;
        if e.num <= cur.lib.num {
          step := NewIrreversible;
        }
        var b := e.obj.block;
        if b.num < cur.block.num || (b.num == cur.block.num && cur.step != Undo) {
          out := out + [Event(step, b, cur.lib, head, None)];
        }
        if b.num == cur.block.num {
          matched := true;
          break;
        }
      }
      assert p[0..|p|] == p;
    }

    /** What a consumer that starts below its cursor is sent first. */
    method BlocksThroughCursor(ghost u: Store, startBlock: nat, cur: Cursor) returns (r: Result<seq<Event>>)
      requires Valid() && DbOk(u, db.Model()) && HeadKnown(u) && (cur.block.id in u ==> cur.block.num == u[cur.block.id].num)
      ensures r == ThroughCursor(u, State(), startBlock, cur)
    {
      hide Linked, DbOk, ReachesLib, Live, Shared, Sent, Collect, InPath, FromCursor;
      if !db.HasLIB() {
        return Err("no lib");
      }
      var head := HeadOf();
      HeadNumber(u);
      var seg, reachLIB := Segment(u, head);
      if !reachLIB {
        return Err("head segment does not reach LIB");
      }
      if |seg| == 0 {
        return Err("no complete segment");
      }
      if seg[0].num > startBlock {
        return Err("startBlock not contained in segment");
      }
      var canonical := BlockIn(cur.block.id, seg);
      if canonical {
        var out := AlongHead(seg, startBlock, head);
        return Ok(out);
      }
      seg, reachLIB := Segment(u, cur.block);
      if !reachLIB {
        return Err("head segment does not reach LIB");
      }
      if |seg| == 0 {
        return Err("no complete segment");
      }
      if startBlock < seg[0].num {
        return Err("complete segment does not include startBlock");
      }
      BranchNumbers(u, Blocks(seg), cur.block.id);
      var out, matched := AlongFork(seg, startBlock, cur, head);
      if !matched {
        return Err("error in blocksThroughCursor, cannot match requested block");
      }
      var backToCanonical := BlocksFromCursor(u, cur);
      if backToCanonical.Err? {
        return backToCanonical;
      }
      return Ok(out + backToCanonical.value);
    }
  }
}
