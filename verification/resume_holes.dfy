/**
 What a resume list declares final. Where block numbers have holes a LIB can carry a number below that of
 its block, and then a list that should move the LIB does not declare the right blocks final.
 */
module ResumeHoles {
  import opened Chain
  import opened Consumers
  import opened ForkDbModel
  import opened ForkableModel
  import opened ForkableInvariant
  import opened ForkableRuns
  import opened ResumeModel
  import opened Resume
  import opened ResumeRuns

  lemma {:induction false} FinalizedConcat(a: seq<Event>, b: seq<Event>)
    ensures Finalized(a + b) == Finalized(a) + Finalized(b)
    decreases |b|
  {
    if b == [] {
      assert a + b == a;
    } else {
      FinalizedConcat(a, b[..|b| - 1]);
      assert (a + b)[..|a + b| - 1] == a + b[..|b| - 1];
    }
  }

  lemma {:induction false} UndosFinalizeNothing(es: seq<Event>)
    requires forall e <- es :: e.step == Undo
    ensures Finalized(es) == []
    decreases |es|
  {
    if es != [] {
      assert es[|es| - 1] in es;
      UndosFinalizeNothing(es[..|es| - 1]);
    }
  }

  lemma {:induction false} FinalizedForward(seg: seq<Block>, cur: Cursor, lib: Ref, head: Ref, x: Block)
    ensures x in Finalized(Collect(seg, Forward(cur, lib, head))) <==> x in seg && cur.lib.num < x.num <= lib.num
    decreases |seg|
  {
    if seg != [] {
      var rest, b := seg[..|seg| - 1], seg[|seg| - 1];
      FinalizedForward(rest, cur, lib, head, x);
      FinalizedConcat(Collect(rest, Forward(cur, lib, head)), Forward(cur, lib, head)(b));
      OneFinalized(b, cur, lib, head);
      assert x in seg <==> x in rest || x == b;
    }
  }

  lemma OneFinalized(b: Block, cur: Cursor, lib: Ref, head: Ref)
    ensures Finalized(ForwardEvent(b, cur, lib, head)) == if cur.lib.num < b.num <= lib.num then [b] else []
  {
  }

  /** The blocks a resume list declares final: those of the head's segment numbered between the two LIBs. */
  lemma {:induction false} FinalizedByCursor(u: Store, s: State, cur: Cursor, x: Block)
    requires DbOk(u, s.db) && FromCursor(u, s, cur).Ok?
    ensures var seg := CompletePath(u, s.db.stored, HeadRef(s).id);
      x in Finalized(FromCursor(u, s, cur).value) <==> x in seg && cur.lib.num < x.num <= s.db.lib.num
    decreases if cur.block.id in s.db.stored then s.db.stored[cur.block.id].num + 1 else 0
  {
    var head := HeadRef(s);
    var seg := CompletePath(u, s.db.stored, head.id);
    if InPath(cur.block.id, seg) && InPath(cur.lib.id, seg) {
      FinalizedForward(seg, cur, s.db.lib, head, x);
    } else {
      var w := WalkBack(u, s.db, seg, cur, cur.block.id).value;
      SegmentStored(s.db.stored, seg, head.id);
      var junction := Ref(w.junction, NumOf(s.db, w.junction));
      var next := Cursor(New, junction, head, cur.lib);
      FinalizedByCursor(u, s, next, x);
      var undos := Emit(Undo, w.undos, cur.lib, head, Some(junction));
      UndosFinalizeNothing(undos);
      FinalizedConcat(undos, FromCursor(u, s, next).value);
      assert [] + Finalized(FromCursor(u, s, next).value) == Finalized(FromCursor(u, s, next).value);
    }
  }

  /** Without alignment the list cannot take the consumer to the live consumer's place. */
  lemma MisalignedFails(u: Store, s: State, c: Consumer, k: Consumer, cur: Cursor)
    requires Inv(u, s, c) && Past(u, s, c, k) && s.last.Some? && FromCursor(u, s, cur).Ok?
    requires k.Final() == cur.lib.id && RefOk(u, cur.lib) && !Aligned(u, cur, s.db.lib)
    ensures !LeadsTo(u, s, cur, k, c.(stalled := k.stalled))
  {
    var es := FromCursor(u, s, cur).value;
    var seg := CompletePath(u, s.db.stored, HeadRef(s).id);
    assert seg != [] && seg[0].num <= cur.lib.num;
    hide FromCursor, Linked, Complete, SentClosed, CacheOk;
    LiveAbove(u, c, k);
    if k.ApplyAll(es) == Some(c.(stalled := k.stalled)) {
      FinalBlocksStay(k, es);
      assert Finalized(es) == c.blocks[k.fin..c.fin];
      if s.db.lib.num < u[s.db.lib.id].num {
        LibNotFinalized(u, s, c, k, cur);
      } else {
        CursorLibFinalizedAgain(u, s, c, k, cur, seg);
      }
    }
  }

  lemma LibNotFinalized(u: Store, s: State, c: Consumer, k: Consumer, cur: Cursor)
    requires Inv(u, s, c) && Past(u, s, c, k) && FromCursor(u, s, cur).Ok?
    requires k.Final() != c.Final() && s.db.lib.num < u[s.db.lib.id].num
    ensures Finalized(FromCursor(u, s, cur).value) != c.blocks[k.fin..c.fin]
  {
    hide FromCursor, Linked, Complete;
    var x := LastFinal(u, c, k);
    FinalizedByCursor(u, s, cur, x);
  }

  lemma LastFinal(u: Store, c: Consumer, k: Consumer) returns (x: Block)
    requires c.Valid(u) && k.base == c.base && k.fin <= c.fin && k.fin <= |k.blocks| && k.blocks[..k.fin] == c.blocks[..k.fin]
    requires k.Final() != c.Final()
    ensures x in c.blocks[k.fin..c.fin] && x.id == c.Final() && GoodBlock(u, x)
  {
    FinalAt(c, k);
    LinkedElements(u, c.base, c.blocks, c.Top());
    x := c.blocks[c.fin - 1];
    assert x == c.blocks[k.fin..c.fin][c.fin - 1 - k.fin];
  }

  lemma FinalAt(c: Consumer, k: Consumer)
    requires k.base == c.base && k.fin <= |c.blocks| && k.fin <= |k.blocks| && k.blocks[..k.fin] == c.blocks[..k.fin]
    ensures k.Final() == At(c.base, c.blocks, k.fin)
  {
    assert k.fin > 0 ==> k.blocks[k.fin - 1] == k.blocks[..k.fin][k.fin - 1];
  }

  lemma CursorLibFinalizedAgain(u: Store, s: State, c: Consumer, k: Consumer, cur: Cursor, seg: seq<Block>)
    requires Inv(u, s, c) && Past(u, s, c, k) && s.last.Some? && FromCursor(u, s, cur).Ok?
    requires k.Final() == cur.lib.id && RefOk(u, cur.lib) && cur.lib.num < u[cur.lib.id].num && s.db.lib.num == u[s.db.lib.id].num
    requires seg == CompletePath(u, s.db.stored, HeadRef(s).id) && seg != [] && seg[0].num <= cur.lib.num
    ensures Finalized(FromCursor(u, s, cur).value) != c.blocks[k.fin..c.fin]
  {
    hide FromCursor, Linked, SentClosed, CacheOk;
    var i, l := SegmentPositions(u, s, c, k, seg);
    SegmentStored(s.db.stored, seg, HeadRef(s).id);
    LiveAbove(u, c, k);
    var x := seg[i];
    assert x in seg && x == u[cur.lib.id];
    FinalizedByCursor(u, s, cur, x);
    forall y <- c.blocks[k.fin..c.fin] ensures y != x {
      assert y in c.blocks[k.fin..];
    }
  }
}
