/** The cursor resolver itself: it gathers final blocks until it meets its cursor. */
module CursorResolverClass {
  import opened Chain
  import opened Consumers
  import opened ForkDbModel
  import opened ResumeModel
  import opened ResolverModel

  /** What the file source wraps a block in; its step is overwritten in place. */
  class WrappedObject {
    const block: Block
    var step: StepType

    constructor (block: Block)
      ensures this.block == block && step == NewIrreversible
    {
      this.block, step := block, NewIrreversible;
    }

    function ToEvent(): Event
      reads this
    {
      FileEvent(step, block)
    }
  }

  function BlocksSeen(objs: seq<WrappedObject>): (r: seq<Block>)
    ensures |r| == |objs| && forall i | 0 <= i < |r| :: r[i] == objs[i].block
  {
    seq(|objs|, i requires 0 <= i < |objs| => objs[i].block)
  }

  class CursorResolver {
    const forkedBlocks: Store
    const cursor: Cursor
    const passThroughCursor: bool
    var mergedBlocksSeen: seq<WrappedObject>
    var resolved: bool
    /** Everything handed to the handler. */
    var handled: seq<Event>

    constructor (forkedBlocks: Store, cursor: Cursor, passThroughCursor: bool)
      ensures this.forkedBlocks == forkedBlocks && this.cursor == cursor && this.passThroughCursor == passThroughCursor
      ensures Now() == START && handled == []
    {
      this.forkedBlocks, this.cursor, this.passThroughCursor := forkedBlocks, cursor, passThroughCursor;
      mergedBlocksSeen, resolved, handled := [], false, [];
      new;
      assert BlocksSeen([]) == [];
    }

    ghost function Now(): Progress
      reads this
    {
      Progress(BlocksSeen(mergedBlocksSeen), resolved)
    }

    method Handle(obj: WrappedObject)
      modifies this`handled
      ensures handled == old(handled) + [obj.ToEvent()]
    {
      handled := handled + [obj.ToEvent()];
    }

    /** Hands over the blocks seen in a range of numbers, all with the step given. */
    method SendMergedBlocksBetween(step: StepType, exclusiveLow: nat, inclusiveHigh: nat)
      modifies this`handled, mergedBlocksSeen
      ensures handled == old(handled) + FileEvents(step, Between(BlocksSeen(mergedBlocksSeen), exclusiveLow, inclusiveHigh))
      ensures forall o <- mergedBlocksSeen | o.block.num > inclusiveHigh :: o.step == old(o.step)
    {
      hide Between, FileEvents;
      ghost var bs := BlocksSeen(mergedBlocksSeen);
      NoneSent(step, exclusiveLow, inclusiveHigh);
      for i := 0 to |mergedBlocksSeen|
        invariant handled == old(handled) + FileEvents(step, Between(bs[..i], exclusiveLow, inclusiveHigh))
        invariant forall o <- mergedBlocksSeen | o.block.num > inclusiveHigh :: o.step == old(o.step)
      {
        OneSent(step, bs, i, exclusiveLow, inclusiveHigh);
        var obj := mergedBlocksSeen[i];
        if exclusiveLow < obj.block.num <= inclusiveHigh {
          obj.step := step;
          Handle(obj);
        }
      }
      assert bs[..|bs|] == bs;
    }

    lemma NoneSent(step: StepType, low: nat, high: nat)
      ensures FileEvents(step, Between([], low, high)) == []
    {
    }

    lemma OneSent(step: StepType, bs: seq<Block>, i: nat, low: nat, high: nat)
      requires i < |bs|
      ensures FileEvents(step, Between(bs[..i + 1], low, high))
           == FileEvents(step, Between(bs[..i], low, high)) + if low < bs[i].num <= high then [FileEvent(step, bs[i])] else []
    {
      assert bs[..i + 1][..i] == bs[..i];
    }

    method SendUndoBlocks(undoBlocks: seq<Block>, reorgJunctionBlock: Ref)
      modifies this`handled
      ensures handled == old(handled) + Emit(Undo, undoBlocks, cursor.lib, cursor.head, Some(reorgJunctionBlock))
    {
      for i := 0 to |undoBlocks|
        invariant handled == old(handled) + Emit(Undo, undoBlocks[..i], cursor.lib, cursor.head, Some(reorgJunctionBlock))
      {
        var e := Event(Undo, undoBlocks[i], cursor.lib, cursor.head, Some(reorgJunctionBlock));
        assert Emit(Undo, undoBlocks[..i + 1], cursor.lib, cursor.head, Some(reorgJunctionBlock))
            == Emit(Undo, undoBlocks[..i], cursor.lib, cursor.head, Some(reorgJunctionBlock)) + [e];
        handled := handled + [e];
      }
      assert undoBlocks[..|undoBlocks|] == undoBlocks;
    }

    method SeenIrreversible(id: Id) returns (r: Option<Block>)
      ensures r == SeenWith(BlocksSeen(mergedBlocksSeen), id)
    {
      ghost var bs := BlocksSeen(mergedBlocksSeen);
      for i := 0 to |mergedBlocksSeen|
        invariant SeenWith(bs, id) == SeenWith(bs[i..], id)
      {
        if HasSuffix(mergedBlocksSeen[i].block.id, id) {
          return Some(mergedBlocksSeen[i].block);
        }
        assert bs[i..][1..] == bs[i + 1..];
      }
      return None;
    }

    /** The forked blocks whose files are listed from a number on. */
    method OneBlocks(from: nat) returns (out: Store)
      ensures out == map key <- forkedBlocks | from <= forkedBlocks[key].num :: forkedBlocks[key]
    {
      out := map[];
      var left := forkedBlocks.Keys;
      while left != {}
        invariant left <= forkedBlocks.Keys
        invariant forall key :: key in out <==> key in forkedBlocks && key !in left && from <= forkedBlocks[key].num
        invariant forall key <- out :: out[key] == forkedBlocks[key]
        decreases left
      {
        var key :| key in left;
        left := left - {key};
        if from <= forkedBlocks[key].num {
          out := out[key := forkedBlocks[key]];
        }
      }
    }

    /** The listing leaves out what lies below the cursor's LIB, so that a walk below it ends there. */
    method Resolve(ghost u: Store) returns (r: Result<Found>)
      requires FilesOk(u, forkedBlocks)
      ensures r == ResolverModel.Resolve(u, forkedBlocks, BlocksSeen(mergedBlocksSeen), cursor, Truncate(cursor.block.id))
    {
      hide FilesOk, Truncate, HasSuffix;
      var oneBlocks := OneBlocks(cursor.lib.num);
      var undoBlocks, previousID := [], Truncate(cursor.block.id);
      ghost var seen := BlocksSeen(mergedBlocksSeen);
      ghost var whole := ResolverModel.Resolve(u, forkedBlocks, seen, cursor, previousID);
      assert whole == After([], whole) by {
        assert whole.Ok? ==> [] + whole.value.undos == whole.value.undos;
      }
      while true
        invariant whole == After(undoBlocks, ResolverModel.Resolve(u, forkedBlocks, seen, cursor, previousID))
        decreases if previousID in oneBlocks then oneBlocks[previousID].num + 1 else 0
      {
        var found := SeenIrreversible(previousID);
        if found.Some? {
          assert undoBlocks + [] == undoBlocks;
          return Ok(Found(undoBlocks, found.value));
        }
        if previousID !in oneBlocks {
          return Err("missing link");
        }
        var forkedBlock := oneBlocks[previousID];
        OneDown(u, seen, previousID, undoBlocks);
        previousID := Truncate(forkedBlock.parent);
        if !(forkedBlock.num == cursor.block.num && cursor.step == Undo) {
          undoBlocks := undoBlocks + [forkedBlock];
        }
      }
    }

    /** What a walk amounts to when `undos` were met before it. */
    static function After(undos: seq<Block>, r: Result<Found>): Result<Found> {
      match r
      case Err(e) => Err(e)
      case Ok(f) => Ok(Found(undos + f.undos, f.junction))
    }

    lemma OneDown(u: Store, seen: seq<Block>, key: Id, undos: seq<Block>)
      requires FilesOk(u, forkedBlocks) && SeenWith(seen, key).None? && IsListed(forkedBlocks, cursor.lib, key)
      ensures var b := forkedBlocks[key];
        var more := if b.num == cursor.block.num && cursor.step == Undo then undos else undos + [b];
        && After(undos, ResolverModel.Resolve(u, forkedBlocks, seen, cursor, key))
           == After(more, ResolverModel.Resolve(u, forkedBlocks, seen, cursor, Truncate(b.parent)))
        && (Truncate(b.parent) in forkedBlocks ==> forkedBlocks[Truncate(b.parent)].num < b.num)
    {
      hide Truncate, HasSuffix, SuffixesTell;
      var b := forkedBlocks[key];
      ParentFileIsLower(u, forkedBlocks, b);
      var rest := ResolverModel.Resolve(u, forkedBlocks, seen, cursor, Truncate(b.parent));
      assert rest.Ok? ==> undos + ([b] + rest.value.undos) == (undos + [b]) + rest.value.undos;
      assert rest.Ok? ==> undos + ([] + rest.value.undos) == undos + rest.value.undos;
    }

    /** The cursor's own block came: what follows it is on the final chain. */
    method AtCursor(blk: Block, obj: WrappedObject)
      requires obj.block == blk && blk.num >= cursor.block.num
      requires mergedBlocksSeen != [] && mergedBlocksSeen[|mergedBlocksSeen| - 1] == obj && obj.step == NewIrreversible
      modifies this`handled, this`resolved, mergedBlocksSeen
      ensures resolved
      ensures var seen, low, high := BlocksSeen(mergedBlocksSeen), cursor.lib.num, cursor.block.num;
        handled == old(handled) +
          if passThroughCursor then FileEvents(NewIrreversible, Between(seen, low, high))
          else if cursor.step == Undo then
            (if high > 0 then FileEvents(Irreversible, Between(seen, low, high - 1)) else []) + [FileEvent(NewIrreversible, blk)]
          else FileEvents(Irreversible, Between(seen, low, high))
    {
      hide Between, FileEvents;
      resolved := true;
      if passThroughCursor {
        SendMergedBlocksBetween(NewIrreversible, cursor.lib.num, cursor.block.num);
        return;
      }
      if cursor.step == Undo {
        if cursor.block.num > 0 {
          SendMergedBlocksBetween(Irreversible, cursor.lib.num, cursor.block.num - 1);
        }
        Handle(obj);
        return;
      }
      SendMergedBlocksBetween(Irreversible, cursor.lib.num, cursor.block.num);
    }

    /** The cursor's block is on a fork: undo it down to the final chain, and follow that. */
    method Reconcile(ghost u: Store, blk: Block) returns (error: Option<string>)
      requires FilesOk(u, forkedBlocks)
      modifies this`handled, this`resolved, mergedBlocksSeen
      ensures var seen := BlocksSeen(mergedBlocksSeen);
        match ResolverModel.Resolve(u, forkedBlocks, seen, cursor, Truncate(cursor.block.id))
        case Err(e) => error == Some(e) && handled == old(handled) && resolved == old(resolved)
        case Ok(f) => error == None && handled == old(handled) + Reconciled(seen, cursor, f, blk) && resolved
    {
      hide FilesOk, ResolverModel.Resolve, Between, FileEvents, Emit, Truncate;
      var r := Resolve(u);
      if r.Err? {
        return Some(r.message);
      }
      SendUndoBlocks(r.value.undos, r.value.junction.AsRef());
      SendMergedBlocksBetween(Irreversible, cursor.lib.num, r.value.junction.num);
      SendMergedBlocksBetween(NewIrreversible, r.value.junction.num, blk.num);
      resolved := true;
      return None;
    }

    /** One final block from the files: exactly the step of the model. */
    method ProcessBlock(ghost u: Store, blk: Block, obj: WrappedObject) returns (error: Option<string>)
      requires FilesOk(u, forkedBlocks) && obj.block == blk && obj.step == NewIrreversible && obj !in mergedBlocksSeen
      modifies this, mergedBlocksSeen, obj
      ensures var o := ResolverStep(u, forkedBlocks, cursor, passThroughCursor, old(Now()), blk);
        Now() == o.now && handled == old(handled) + o.events && error == o.error
      ensures forall x <- mergedBlocksSeen :: x in old(mergedBlocksSeen) || x == obj
    {
      hide FilesOk, ResolverModel.Resolve, Between, FileEvents, Reconciled, Truncate;
      error := None;
      if resolved {
        Handle(obj);
        return;
      }
      if passThroughCursor && blk.num <= cursor.lib.num {
        if cursor.lib.num == cursor.block.num && cursor.block.id == blk.id {
          resolved := true;
        }
        Handle(obj);
        return;
      }
      ghost var seen := BlocksSeen(mergedBlocksSeen);
      mergedBlocksSeen := mergedBlocksSeen + [obj];
      assert BlocksSeen(mergedBlocksSeen) == seen + [blk];
      if blk.num < cursor.block.num {
        return;
      }
      if blk.id == cursor.block.id {
        AtCursor(blk, obj);
        return;
      }
      if passThroughCursor {
        return Some("cannot resolve old cursor in passthrough mode");
      }
      error := Reconcile(u, blk);
    }
  }
}
