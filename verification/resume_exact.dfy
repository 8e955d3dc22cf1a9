/** Exactly when a cursor brings its consumer back to where the live consumer is. */
module ResumeExact {
  import opened Chain
  import opened Consumers
  import opened ForkDbModel
  import opened ForkableModel
  import opened ForkableInvariant
  import opened ForkableRuns
  import opened ResumeModel
  import opened Resume
  import opened ResumeRuns
  import opened ResumeHoles

  // An undone block that has become final

  lemma {:induction false} FinalityKeepsBlocks(k: Consumer, es: seq<Event>)
    requires (forall e <- es :: e.step == Irreversible) && k.ApplyAll(es).Some?
    ensures k.ApplyAll(es).value.blocks == k.blocks
    decreases |es|
  {
    if es != [] {
      var n := |es| - 1;
      assert es[n] in es;
      FinalityKeepsBlocks(k, es[..n]);
    }
  }

  lemma {:induction false} ForwardOnlyFinal(x: seq<Block>, cur: Cursor, lib: Ref, head: Ref)
    requires forall b <- x :: b.num <= cur.block.num <= lib.num
    ensures forall e <- Collect(x, Forward(cur, lib, head)) :: e.step == Irreversible
    decreases |x|
  {
    if x != [] {
      var b := x[|x| - 1];
      assert b in x;
      ForwardOnlyFinal(x[..|x| - 1], cur, lib, head);
      assert forall e <- Forward(cur, lib, head)(b) :: e.step == Irreversible;
    }
  }

  /** The consumer does not have the undone block, and its LIB is below it. */
  lemma UndoneIsGone(u: Store, k: Consumer, cur: Cursor)
    requires WellFormed(u) && k.Valid(u) && Positioned(u, k, cur) && RefOk(u, cur.lib) && cur.step == Undo
    ensures u[cur.block.id] !in k.blocks && cur.lib.num < cur.block.num
  {
    LinkedAscending(u, u, k.base, k.blocks, k.Top());
    LinkedElements(u, k.base, k.blocks, k.Top());
    hide Linked;
    var b := u[cur.block.id];
    if k.blocks != [] {
      assert k.blocks[|k.blocks| - 1] == u[b.parent];
    }
  }

  lemma OkReaches(u: Store, s: State, cur: Cursor)
    requires DbOk(u, s.db) && FromCursor(u, s, cur).Ok?
    ensures var seg := CompletePath(u, s.db.stored, HeadRef(s).id);
      && seg != [] && seg[0].num <= cur.lib.num
      && (InPath(cur.block.id, seg) && InPath(cur.lib.id, seg) ==>
          FromCursor(u, s, cur) == Ok(Collect(seg, Forward(cur, s.db.lib, HeadRef(s)))))
  {
    hide Linked, Complete, Collect, WalkBack, Forward, DbOk;
  }

  /** The list is the forward one, and it declares the undone block final at its place. */
  lemma UndoneDeclaredFinal(u: Store, s: State, c: Consumer, k: Consumer, cur: Cursor, seg: seq<Block>) returns (x: nat)
    requires Inv(u, s, c) && Past(u, s, c, k) && s.last.Some? && seg == CompletePath(u, s.db.stored, HeadRef(s).id)
    requires Usable(u, s, k, cur) && FromCursor(u, s, cur).Ok? && !UndoneIsOpen(s, cur, seg)
    ensures x < |seg| && seg[x] == u[cur.block.id] && (forall b <- seg[..x] :: b.num <= cur.block.num)
    ensures FromCursor(u, s, cur) == Ok(Collect(seg, Forward(cur, s.db.lib, HeadRef(s))))
  {
    hide Linked, Collect, FromCursor, SentClosed, CacheOk, StalledBelow, InStep, Known, Forward, Past;
    OkReaches(u, s, cur);
    var i, l := SegmentPositions(u, s, c, k, seg);
    assert InPath(cur.lib.id, seg);
    x :| 0 <= x < |seg| && seg[x].id == cur.block.id;
    SegmentStored(s.db.stored, seg, HeadRef(s).id);
    LinkedAscending(u, s.db.stored, RootOf(seg, HeadRef(s).id), seg, HeadRef(s).id);
    assert seg[x] in seg;
    forall b <- seg[..x] ensures b.num <= cur.block.num {
      var j :| 0 <= j < x && seg[..x][j] == b;
      assert seg[j].num < seg[x].num;
    }
  }

  /**
   An Undo cursor whose block has since become final: the list declares that block irreversible, though
   the consumer does not have it, so the consumer cannot obey it.
   */
  lemma UndoneFinalFails(u: Store, s: State, c: Consumer, k: Consumer, cur: Cursor)
    requires Inv(u, s, c) && Past(u, s, c, k) && s.last.Some? && Usable(u, s, k, cur) && FromCursor(u, s, cur).Ok?
    requires !UndoneIsOpen(s, cur, CompletePath(u, s.db.stored, HeadRef(s).id))
    ensures k.ApplyAll(FromCursor(u, s, cur).value).None?
  {
    hide Linked, Complete, Collect, FromCursor, SentClosed, CacheOk, StalledBelow, InStep, Known, Consumer.ApplyAll;
    var seg := CompletePath(u, s.db.stored, HeadRef(s).id);
    var x := UndoneDeclaredFinal(u, s, c, k, cur, seg);
    UndoneIsGone(u, k, cur);
    FailsAt(k, seg, cur, s.db.lib, HeadRef(s), x);
  }

  lemma FailsAt(k: Consumer, seg: seq<Block>, cur: Cursor, lib: Ref, head: Ref, x: nat)
    requires x < |seg| && seg[x] !in k.blocks && seg[x].num == cur.block.num && cur.lib.num < cur.block.num <= lib.num
    requires forall b <- seg[..x] :: b.num <= cur.block.num
    ensures k.ApplyAll(Collect(seg, Forward(cur, lib, head))).None?
  {
    hide Collect, Consumer.ApplyAll;
    var f := Forward(cur, lib, head);
    var before, after := Collect(seg[..x], f), Collect(seg[x + 1..], f);
    CollectConcat(seg[..x], [seg[x]], f);
    CollectConcat(seg[..x] + [seg[x]], seg[x + 1..], f);
    assert seg == seg[..x] + [seg[x]] + seg[x + 1..];
    CollectLast([seg[x]], f);
    CollectEmpty([seg[x]][..0], f);
    var e := Event(Irreversible, seg[x], seg[x].AsRef(), head, None);
    assert Collect([seg[x]], f) == [e];
    ForwardOnlyFinal(seg[..x], cur, lib, head);
    ApplyConcat(k, before + [e], after);
    CannotBeFinal(k, before, e);
  }

  lemma CannotBeFinal(k: Consumer, before: seq<Event>, e: Event)
    requires (forall x <- before :: x.step == Irreversible) && e.step == Irreversible && e.block !in k.blocks
    ensures k.ApplyAll(before + [e]).None?
  {
    assert (before + [e])[..|before|] == before;
    if k.ApplyAll(before).Some? {
      FinalityKeepsBlocks(k, before);
    }
  }

  // The exact condition

  /**
   What a caller can check before resuming: the head's stored segment reaches down to the cursor's LIB
   number, the LIBs carry the numbers of their blocks or the LIB has not moved, and the block of an Undo
   cursor has not become final.
   */
  ghost predicate Resumable(u: Store, s: State, cur: Cursor)
    requires DbOk(u, s.db)
  {
    var seg := CompletePath(u, s.db.stored, HeadRef(s).id);
    && seg != [] && seg[0].num <= cur.lib.num
    && cur.lib.id in u && s.db.lib.id in u && Aligned(u, cur, s.db.lib) && UndoneIsOpen(s, cur, seg)
  }

  /** A cursor of the past leads its consumer to where the live consumer is if and only if it is resumable. */
  lemma ResumesExactlyWhen(u: Store, s: State, c: Consumer, k: Consumer, cur: Cursor)
    requires Inv(u, s, c) && Past(u, s, c, k) && s.last.Some? && Usable(u, s, k, cur)
    ensures LeadsTo(u, s, cur, k, c.(stalled := k.stalled)) <==> Resumable(u, s, cur)
    ensures Resumable(u, s, cur) ==> FromCursor(u, s, cur).Ok?
  {
    hide Linked, Past, Complete, Positioned, Known, SentClosed, CacheOk, StalledBelow, InStep, Aligned;
    if Resumable(u, s, cur) {
      hide FromCursor;
      ResumeIsLive(u, s, c, k, cur);
    } else if FromCursor(u, s, cur).Ok? {
      NotResumable(u, s, c, k, cur);
    }
  }

  lemma NotResumable(u: Store, s: State, c: Consumer, k: Consumer, cur: Cursor)
    requires Inv(u, s, c) && Past(u, s, c, k) && s.last.Some? && Usable(u, s, k, cur)
    requires FromCursor(u, s, cur).Ok? && !Resumable(u, s, cur)
    ensures !LeadsTo(u, s, cur, k, c.(stalled := k.stalled))
  {
    hide Linked, Past, Complete, Known, SentClosed, CacheOk, StalledBelow, InStep, Aligned, UndoneIsOpen, FromCursor, Consumer.ApplyAll;
    var seg := CompletePath(u, s.db.stored, HeadRef(s).id);
    OkReaches(u, s, cur);
    if !UndoneIsOpen(s, cur, seg) {
      UndoneFinalFails(u, s, c, k, cur);
    } else {
      MisalignedFails(u, s, c, k, cur);
    }
  }

  /**
   Whenever a consumer disconnects: it holds the cursor of event `n` of some step, and the Forkable goes
   on for any number of blocks. From that cursor the consumer is brought to where it would be had it
   stayed if and only if the cursor is resumable. `s` is any state a run can reach.
   */
  lemma ResumeAfterRun(u: Store, cfg: Config, s: State, c: Consumer, b: Block, n: nat, k: Consumer, cur: Cursor, bs: seq<Block>)
    requires Inv(u, s, c) && GoodBlock(u, b) && (cfg.inclusive ==> s.last.Some?) && Held(u, cfg, s, c, b, n, k, cur)
    requires forall x <- bs :: GoodBlock(u, x)
    ensures var (t, es) := Step(u, cfg, s, b);
      var (now, fs) := Run(u, cfg, t, bs);
      var live := c.ApplyAll(es + fs);
      live.Some? && (LeadsTo(u, now, cur, k, live.value.(stalled := k.stalled)) <==> Resumable(u, now, cur))
  {
    hide Step, Past, Positioned, Known, Held, FromCursor, LeadsTo, InPath, Linked, SentClosed, CacheOk, InStep, StalledBelow, Resumable;
    var (t, es) := Step(u, cfg, s, b);
    HeldHasHead(u, cfg, s, c, b, n, k, cur);
    RunStep(u, cfg, s, c, b);
    HeldIsPast(u, cfg, s, c, b, n, k, cur);
    HeldIsPositioned(u, cfg, s, c, b, n, k, cur);
    HeldIsKnown(u, cfg, s, c, b, n, k, cur);
    var d := c.ApplyAll(es).value;
    RunCorrect(u, cfg, t, d, bs);
    PastStaysOverRuns(u, cfg, t, d, k, bs);
    KnownStaysOverRuns(u, cfg, t, d, u[cur.block.id], bs);
    RunKeepsHead(u, cfg, t, d, bs);
    var (now, fs) := Run(u, cfg, t, bs);
    ApplyConcat(c, es, fs);
    ResumesExactlyWhen(u, now, d.ApplyAll(fs).value, k, cur);
  }
}
