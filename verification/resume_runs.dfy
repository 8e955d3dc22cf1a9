/** A consumer that was in step at some moment of a run can always be brought back in step. */
module ResumeRuns {
  import opened Chain
  import opened Consumers
  import opened ForkDbModel
  import opened ForkableModel
  import opened ForkableInvariant
  import opened ForkableRuns
  import opened ResumeModel
  import opened Resume

  /** A block that is stored, or lies below everything that still is. */
  ghost predicate Known(s: State, b: Block) {
    || GoodBlock(s.db.stored, b)
    || (s.last.Some? && b.num < s.db.lib.num && forall id <- s.db.stored :: b.num < s.db.stored[id].num)
  }

  /** `k` is where a consumer of this run once was, while `c` is where the live consumer is now. */
  ghost predicate Past(u: Store, s: State, c: Consumer, k: Consumer) {
    && k.Valid(u) && k.base == c.base
    && k.fin <= c.fin <= |c.blocks| && k.blocks[..k.fin] == c.blocks[..k.fin]
    && k.stalled <= c.stalled
    && forall x <- k.blocks[k.fin..] :: Known(s, x)
  }

  // The past stays the past

  predicate Rejected(s: State, b: Block) {
    b.id in s.db.stored || (b.num < s.db.lib.num && s.last.Some?)
  }

  /** What a step does to the stored blocks. */
  ghost predicate Stores(cfg: Config, s: State, b: Block, t: State) {
    if Rejected(s, b) then t == s
    else
      && (s.last.Some? ==> t.last.Some?)
      && (|| t.db == DbWith(s, b)
          || (t.db == Purge(DbWith(s, b).(lib := t.db.lib), cfg.kept) && s.db.lib.num <= t.db.lib.num && t.last.Some?))
  }

  lemma AdvanceStores(u: Store, cfg: Config, s: State, c: Consumer, b: Block)
    requires Inv(u, s, c) && s.last == Some(b) && GoodBlock(u, b)
    ensures var t := AdvanceLib(u, cfg, s, b, None).0;
      t.last == s.last && (t.db == s.db || (t.db == Purge(s.db.(lib := t.db.lib), cfg.kept) && s.db.lib.num <= t.db.lib.num))
  {
    var lib := BlockInChain(u, s.db, b.AsRef(), b.libNum);
    BlockInChainMeaning(u, s.db, b, b.libNum);
    if lib.id != "" && lib.id != s.db.lib.id && Recomputed(s.db, lib.id) != [] {
      hide Linked;
      NewLibOnTheWay(u, s, c, b);
      NumbersAboveLib(u, s.db, lib, Recomputed(s.db, lib.id));
    }
  }

  lemma ExtendStores(u: Store, cfg: Config, s: State, c: Consumer, b: Block)
    requires Inv(u, s, c) && GoodBlock(u, b) && !Rejected(s, b) && DbOk(u, DbWith(s, b))
    ensures Stores(cfg, s, b, Extend(u, cfg, s, s.(db := DbWith(s, b)), b, None).0)
  {
    var s1 := s.(db := DbWith(s, b));
    CacheIsExact(u, s, b);
    var chain := NewChain(s1, b);
    if s.Triggers(b) && chain != [] {
      assert Linked(s1.db.stored, s.db.lib.id, chain, b.id);
      var p := chain[..|chain| - 1];
      NewPathWasStored(u, s, b, chain);
      hide Linked, AdvanceLib, Inv, Extend, Purge;
      NewHeadKeepsInv(u, s, c, b, p);
      ExtendIs(u, cfg, s, b, p);
      AdvanceStores(u, cfg, WithNewHead(s, b, p), c.(blocks := NewStack(c, p, b)), b);
    }
  }

  lemma StepStores(u: Store, cfg: Config, s: State, c: Consumer, b: Block)
    requires Inv(u, s, c) && GoodBlock(u, b) && (cfg.inclusive ==> s.last.Some?)
    ensures Stores(cfg, s, b, Step(u, cfg, s, b).0)
    ensures Rejected(s, b) ==> Step(u, cfg, s, b).1 == []
  {
    hide Extend, Purge;
    if !Rejected(s, b) {
      AddLinkOk(u, s.db, b);
      ExtendStores(u, cfg, s, c, b);
    }
  }

  lemma KnownStays(u: Store, cfg: Config, s: State, b: Block, t: State, x: Block)
    requires DbOk(u, s.db) && s.db.HasLib() && GoodBlock(u, b) && GoodBlock(u, x) && Stores(cfg, s, b, t)
    requires Known(s, x) || (!Rejected(s, b) && GoodBlock(DbWith(s, b).stored, x))
    ensures Known(t, x)
  {
  }

  lemma PastItself(u: Store, s: State, c: Consumer)
    requires Inv(u, s, c)
    ensures Past(u, s, c, c)
  {
    LinkedElements(s.db.stored, s.db.lib.id, c.blocks[c.fin..], s.HeadId());
  }

  /** Blocks come onto a stack only through events. */
  lemma {:induction false} StackedAreStored(m: Store, c: Consumer, es: seq<Event>)
    requires c.fin <= |c.blocks| && c.ApplyAll(es).Some? && AboutStored(m, es)
    requires forall x <- c.blocks[c.fin..] :: GoodBlock(m, x)
    ensures var d := c.ApplyAll(es).value; d.fin <= |d.blocks| && forall x <- d.blocks[d.fin..] :: GoodBlock(m, x)
    decreases |es|
  {
    if es != [] {
      var n := |es| - 1;
      assert es[n] in es;
      StackedAreStored(m, c, es[..n]);
      StackedOnce(m, c.ApplyAll(es[..n]).value, es[n]);
    }
  }

  lemma StackedOnce(m: Store, c: Consumer, e: Event)
    requires c.fin <= |c.blocks| && c.Apply(e).Some? && GoodBlock(m, e.block)
    requires forall x <- c.blocks[c.fin..] :: GoodBlock(m, x)
    ensures var d := c.Apply(e).value; d.fin <= |d.blocks| && forall x <- d.blocks[d.fin..] :: GoodBlock(m, x)
  {
  }

  /** Wherever the consumer is in the middle of a step, it can be brought back in step afterwards. */
  lemma PastInStep(u: Store, cfg: Config, s: State, c: Consumer, b: Block, n: nat)
    requires Inv(u, s, c) && GoodBlock(u, b) && (cfg.inclusive ==> s.last.Some?)
    requires n <= |Step(u, cfg, s, b).1| && c.ApplyAll(Step(u, cfg, s, b).1).Some?
    ensures c.ApplyAll(Step(u, cfg, s, b).1[..n]).Some?
    ensures Past(u, Step(u, cfg, s, b).0, c.ApplyAll(Step(u, cfg, s, b).1).value, c.ApplyAll(Step(u, cfg, s, b).1[..n]).value)
  {
    var (t, es) := Step(u, cfg, s, b);
    hide Step, Stores, Inv;
    ApplyPrefix(c, es, n);
    var d, k := c.ApplyAll(es).value, c.ApplyAll(es[..n]).value;
    MiddleIsKnown(u, cfg, s, c, b, n);
    FinalBlocksStay(k, es[n..]);
  }

  lemma MiddleIsKnown(u: Store, cfg: Config, s: State, c: Consumer, b: Block, n: nat)
    requires Inv(u, s, c) && GoodBlock(u, b) && (cfg.inclusive ==> s.last.Some?)
    requires n <= |Step(u, cfg, s, b).1| && c.ApplyAll(Step(u, cfg, s, b).1[..n]).Some?
    ensures var t, k := Step(u, cfg, s, b).0, c.ApplyAll(Step(u, cfg, s, b).1[..n]).value;
      k.Valid(u) && forall x <- k.blocks[k.fin..] :: Known(t, x)
  {
    var (t, es) := Step(u, cfg, s, b);
    var k, m := c.ApplyAll(es[..n]).value, DbWith(s, b).stored;
    hide Step, Stores, Linked, Known, SentClosed, CacheOk, StalledBelow;
    StepAboutStored(u, cfg, s, c, b);
    StepStores(u, cfg, s, c, b);
    AddLinkOk(u, s.db, b);
    assert forall e <- es[..n] :: e in es;
    ApplyAllKeepsValid(u, c, es[..n]);
    if Rejected(s, b) {
      PastItself(u, s, c);
    } else {
      StackIsStored(u, s, c, b);
      StackedAreStored(m, c, es[..n]);
      forall x <- k.blocks[k.fin..] ensures Known(t, x) {
        KnownStays(u, cfg, s, b, t, x);
      }
    }
  }

  lemma StackIsStored(u: Store, s: State, c: Consumer, b: Block)
    requires Inv(u, s, c)
    ensures forall x <- c.blocks[c.fin..] :: GoodBlock(DbWith(s, b).stored, x)
  {
    LinkedElements(s.db.stored, s.db.lib.id, c.blocks[c.fin..], s.HeadId());
  }

  lemma PastStays(u: Store, cfg: Config, s: State, c: Consumer, k: Consumer, b: Block)
    requires Inv(u, s, c) && GoodBlock(u, b) && (cfg.inclusive ==> s.last.Some?) && Past(u, s, c, k)
    requires c.ApplyAll(Step(u, cfg, s, b).1).Some?
    ensures Past(u, Step(u, cfg, s, b).0, c.ApplyAll(Step(u, cfg, s, b).1).value, k)
  {
    hide Step, SentClosed, InStep, CacheOk, StalledBelow, Known;
    PastKnown(u, cfg, s, c, k, b);
    PastPrefix(c, k, Step(u, cfg, s, b).1);
  }

  lemma PastKnown(u: Store, cfg: Config, s: State, c: Consumer, k: Consumer, b: Block)
    requires Inv(u, s, c) && GoodBlock(u, b) && (cfg.inclusive ==> s.last.Some?) && k.Valid(u)
    requires forall x <- k.blocks[k.fin..] :: Known(s, x)
    ensures forall x <- k.blocks[k.fin..] :: Known(Step(u, cfg, s, b).0, x)
  {
    hide Step, Stores, Linked;
    LinkedElements(u, k.base, k.blocks, k.Top());
    StepStores(u, cfg, s, c, b);
    forall x <- k.blocks[k.fin..] ensures Known(Step(u, cfg, s, b).0, x) {
      assert x in k.blocks;
      KnownStays(u, cfg, s, b, Step(u, cfg, s, b).0, x);
    }
  }

  lemma PastPrefix(c: Consumer, k: Consumer, es: seq<Event>)
    requires c.fin <= |c.blocks| && c.ApplyAll(es).Some?
    requires k.base == c.base && k.fin <= c.fin && k.fin <= |k.blocks| && k.blocks[..k.fin] == c.blocks[..k.fin] && k.stalled <= c.stalled
    ensures var d := c.ApplyAll(es).value;
      k.base == d.base && k.fin <= d.fin <= |d.blocks| && k.blocks[..k.fin] == d.blocks[..k.fin] && k.stalled <= d.stalled
  {
    FinalBlocksStay(c, es);
    var d := c.ApplyAll(es).value;
    assert d.blocks[..k.fin] == d.blocks[..c.fin][..k.fin] && c.blocks[..k.fin] == c.blocks[..c.fin][..k.fin];
  }

  /** The past of a state is still the past after any further run. */
  lemma {:induction false} PastStaysOverRuns(u: Store, cfg: Config, s: State, c: Consumer, k: Consumer, bs: seq<Block>)
    requires Inv(u, s, c) && (cfg.inclusive ==> s.last.Some?) && Past(u, s, c, k) && forall b <- bs :: GoodBlock(u, b)
    requires c.ApplyAll(Run(u, cfg, s, bs).1).Some?
    ensures Past(u, Run(u, cfg, s, bs).0, c.ApplyAll(Run(u, cfg, s, bs).1).value, k)
    decreases |bs|
  {
    if bs != [] {
      var n := |bs| - 1;
      assert bs[n] in bs;
      RunCorrect(u, cfg, s, c, bs[..n]);
      var (m, es) := Run(u, cfg, s, bs[..n]);
      var d := c.ApplyAll(es).value;
      hide Inv, Step, Past;
      PastStaysOverRuns(u, cfg, s, c, k, bs[..n]);
      RunStep(u, cfg, m, d, bs[n]);
      PastStays(u, cfg, m, d, k, bs[n]);
      ApplyConcat(c, es, Step(u, cfg, m, bs[n]).1);
    }
  }

  // Resuming

  lemma ShorterThanSegment(u: Store, m: Store, seg: seq<Block>, head: Id, x: Id, d: seq<Block>)
    requires WellFormed(u) && Within(m, u) && Complete(m, seg, head) && seg != []
    requires x in u && Linked(u, x, d, head) && seg[0].num <= u[x].num
    ensures |d| < |seg|
  {
    hide Linked;
    LinkedAscending(u, u, x, d, head);
    LinkedWithin(u, m, RootOf(seg, head), seg, head);
    if |d| >= |seg| {
      var lowest := d[|d| - |seg|];
      WalksAgree(u, RootOf(seg, head), seg, x, d, head);
    }
  }

  /** An ancestor of the head that is not below the stored segment is on it. */
  lemma AncestorInSegment(u: Store, m: Store, seg: seq<Block>, head: Id, x: Id, d: seq<Block>) returns (i: nat)
    requires WellFormed(u) && Within(m, u) && Complete(m, seg, head) && seg != []
    requires x in u && Linked(u, x, d, head) && seg[0].num <= u[x].num
    ensures i < |seg| && seg[i].id == x && d == seg[i + 1..]
  {
    hide Linked;
    LinkedWithin(u, m, RootOf(seg, head), seg, head);
    ShorterThanSegment(u, m, seg, head, x, d);
    WalksAgree(u, x, d, RootOf(seg, head), seg, head);
    i := |seg| - |d| - 1;
  }

  lemma TopIsHead(u: Store, s: State, c: Consumer)
    requires Inv(u, s, c)
    ensures c.Top() == s.HeadId()
  {
    LinkedElements(s.db.stored, s.db.lib.id, c.blocks[c.fin..], s.HeadId());
  }

  /** From a block of the live consumer's final part up to its top. */
  lemma LiveAbove(u: Store, c: Consumer, k: Consumer)
    requires WellFormed(u) && c.Valid(u) && k.base == c.base && k.fin <= c.fin && k.fin <= |k.blocks|
    requires k.blocks[..k.fin] == c.blocks[..k.fin] && k.Final() in u
    ensures c.Final() in u && Linked(u, k.Final(), c.blocks[k.fin..], c.Top())
    ensures u[k.Final()].num <= u[c.Final()].num
    ensures forall x <- c.blocks[k.fin..] :: u[k.Final()].num < x.num
  {
    hide Linked;
    LinkedElements(u, c.base, c.blocks, c.Top());
    LinkedSuffix(u, u, c.base, c.blocks, k.fin, c.Top());
    LinkedAscending(u, u, At(c.base, c.blocks, k.fin), c.blocks[k.fin..], c.Top());
    assert k.fin > 0 ==> k.blocks[k.fin - 1] == k.blocks[..k.fin][k.fin - 1] == c.blocks[k.fin - 1];
    assert k.fin < c.fin ==> c.blocks[c.fin - 1] == c.blocks[k.fin..][c.fin - 1 - k.fin];
  }

  /** The live chain above the cursor's LIB and above the LIB, as positions on the head's stored segment. */
  lemma SegmentPositions(u: Store, s: State, c: Consumer, k: Consumer, seg: seq<Block>) returns (i: nat, l: nat)
    requires Inv(u, s, c) && Past(u, s, c, k) && s.last.Some? && seg == CompletePath(u, s.db.stored, HeadRef(s).id)
    requires seg != [] && k.Final() in u && seg[0].num <= u[k.Final()].num
    ensures i <= l < |seg| && seg[i].id == k.Final() && seg[l].id == s.db.lib.id
    ensures c.blocks[k.fin..] == seg[i + 1..] && l - i == c.fin - k.fin
  {
    hide Linked, Complete;
    LiveAbove(u, c, k);
    LiveAbove(u, c, c);
    TopIsHead(u, s, c);
    i := AncestorInSegment(u, s.db.stored, seg, HeadRef(s).id, k.Final(), c.blocks[k.fin..]);
    l := AncestorInSegment(u, s.db.stored, seg, HeadRef(s).id, s.db.lib.id, c.blocks[c.fin..]);
    assert |c.blocks| - k.fin == |seg| - i - 1 && |c.blocks| - c.fin == |seg| - l - 1;
  }

  /** A cursor that is where its consumer stands, and whose undone block the run has not lost. */
  ghost predicate Usable(u: Store, s: State, k: Consumer, cur: Cursor) {
    Positioned(u, k, cur) && RefOk(u, cur.lib) && (cur.step == Undo ==> Known(s, u[cur.block.id]))
  }

  /** The block that an Undo cursor has undone is not on the head's segment again and final by now. */
  ghost predicate UndoneIsOpen(s: State, cur: Cursor, seg: seq<Block>) {
    cur.step == Undo && InPath(cur.block.id, seg) ==> s.db.lib.num < cur.block.num
  }

  /** Blocks above the cursor's LIB are still stored when the segment reaches down to that LIB. */
  lemma KnownIsStored(u: Store, s: State, seg: seq<Block>, x: Block, low: nat)
    requires DbOk(u, s.db) && Known(s, x) && seg != [] && Complete(s.db.stored, seg, HeadRef(s).id)
    requires seg[0].num <= low < x.num
    ensures GoodBlock(s.db.stored, x)
  {
    SegmentStored(s.db.stored, seg, HeadRef(s).id);
    assert seg[0] in seg;
  }

  lemma PastCanReturn(u: Store, s: State, c: Consumer, k: Consumer, cur: Cursor, seg: seq<Block>, i: nat, l: nat)
    requires Inv(u, s, c) && Past(u, s, c, k) && seg == CompletePath(u, s.db.stored, HeadRef(s).id)
    requires Usable(u, s, k, cur) && UndoneIsOpen(s, cur, seg) && seg != [] && seg[0].num <= cur.lib.num
    requires i <= l < |seg| && seg[i].id == k.Final() && c.blocks[k.fin..] == seg[i + 1..]
    ensures CanReturn(u, s, seg, cur, i, k)
  {
    hide Linked, Complete, Known;
    var b := k.blocks[k.fin..];
    LinkedSuffix(u, u, k.base, k.blocks, k.fin, k.Top());
    LinkedAscending(u, u, k.Final(), b, k.Top());
    LinkedElements(u, k.Final(), b, k.Top());
    forall j | 0 <= j < |b| ensures GoodBlock(s.db.stored, b[j]) {
      assert b[j] in b;
      KnownIsStored(u, s, seg, b[j], cur.lib.num);
    }
    LinkedInStore(u, s.db.stored, k.Final(), b, k.Top());
    if cur.step == Undo {
      assert u[k.Final()].num <= u[k.Top()].num;
      KnownIsStored(u, s, seg, u[cur.block.id], cur.lib.num);
    }
    forall j | i < j < |seg| ensures seg[j] !in k.stalled {
      assert seg[j] == seg[i + 1..][j - i - 1] == c.blocks[k.fin..][j - i - 1] == c.blocks[k.fin + j - i - 1];
    }
  }

  /**
   Resuming equals never having disconnected: with a usable cursor of the run's past, the list exists
   exactly when the stored segment of the head reaches down to the cursor's LIB, and it takes the
   consumer to the live consumer's stack and final block.
   */
  lemma ResumeIsLive(u: Store, s: State, c: Consumer, k: Consumer, cur: Cursor)
    requires Inv(u, s, c) && Past(u, s, c, k) && s.last.Some?
    requires var seg := CompletePath(u, s.db.stored, HeadRef(s).id);
      Usable(u, s, k, cur) && Aligned(u, cur, s.db.lib) && UndoneIsOpen(s, cur, seg)
    ensures var seg := CompletePath(u, s.db.stored, HeadRef(s).id);
      FromCursor(u, s, cur).Ok? <==> seg != [] && seg[0].num <= cur.lib.num
    ensures FromCursor(u, s, cur).Ok? ==> LeadsTo(u, s, cur, k, c.(stalled := k.stalled))
  {
    hide Linked, SentClosed, CacheOk, StalledBelow, InStep, Known;
    var seg := CompletePath(u, s.db.stored, HeadRef(s).id);
    if seg != [] && seg[0].num <= cur.lib.num {
      ResumeReaches(u, s, c, k, cur, seg);
    }
  }

  lemma ResumeReaches(u: Store, s: State, c: Consumer, k: Consumer, cur: Cursor, seg: seq<Block>)
    requires Inv(u, s, c) && Past(u, s, c, k) && s.last.Some? && seg == CompletePath(u, s.db.stored, HeadRef(s).id)
    requires Usable(u, s, k, cur) && Aligned(u, cur, s.db.lib) && UndoneIsOpen(s, cur, seg)
    requires seg != [] && seg[0].num <= cur.lib.num
    ensures LeadsTo(u, s, cur, k, c.(stalled := k.stalled))
  {
    hide Linked, Complete, FromCursor, CanReturn, Known, InPath, AtHead, LeadsTo;
    var i, l := SegmentPositions(u, s, c, k, seg);
    PastCanReturn(u, s, c, k, cur, seg, i, l);
    CursorResumes(u, s, seg, cur, i, l, k);
    AtHeadIsLive(c, k, seg, i, l);
  }

  lemma AtHeadIsLive(c: Consumer, k: Consumer, seg: seq<Block>, i: nat, l: nat)
    requires k.base == c.base && k.fin <= c.fin <= |c.blocks| && k.fin <= |k.blocks| && k.blocks[..k.fin] == c.blocks[..k.fin]
    requires i <= l < |seg| && c.blocks[k.fin..] == seg[i + 1..] && l - i == c.fin - k.fin
    ensures AtHead(k, seg, i, l) == c.(stalled := k.stalled)
  {
    assert c.blocks == c.blocks[..k.fin] + c.blocks[k.fin..];
  }

  // Cursors of a run

  /** After an event the cursor it carries is where the consumer is. */
  lemma EventPositions(u: Store, c: Consumer, e: Event)
    requires WellFormed(u) && c.Valid(u) && GoodBlock(u, e.block) && c.Apply(e).Some?
    requires e.step in {New, Undo, NewIrreversible}
    ensures Positioned(u, c.Apply(e).value, e.Position())
  {
    if e.step == Undo {
      LinkedTop(u, c.base, c.blocks, c.Top());
      LinkedElements(u, c.base, c.blocks[..|c.blocks| - 1], e.block.parent);
    }
  }

  ghost predicate LibsOk(u: Store, es: seq<Event>) {
    forall e <- es :: RefOk(u, e.lib)
  }

  lemma EmitLibsOk(u: Store, step: StepType, bs: seq<Block>, lib: Ref, head: Ref, junction: Option<Ref>)
    requires WellFormed(u) && RefOk(u, lib)
    ensures LibsOk(u, Emit(step, bs, lib, head, junction))
    ensures (forall b <- bs :: GoodBlock(u, b)) ==> LibsOk(u, EmitFinal(step, bs, head))
  {
    if forall b <- bs :: GoodBlock(u, b) {
      forall e <- EmitFinal(step, bs, head) ensures RefOk(u, e.lib) {
        var i :| 0 <= i < |bs| && EmitFinal(step, bs, head)[i] == e;
        assert bs[i] in bs;
      }
    }
  }

  lemma AdvanceLibsOk(u: Store, cfg: Config, s: State, b: Block)
    requires DbOk(u, s.db) && s.db.HasLib() && GoodBlock(u, b)
    ensures LibsOk(u, AdvanceLib(u, cfg, s, b, None).1)
  {
    var lib := BlockInChain(u, s.db, b.AsRef(), b.libNum);
    BlockInChainMeaning(u, s.db, b, b.libNum);
    if lib.id != "" && lib.id != s.db.lib.id && Recomputed(s.db, lib.id) != [] {
      var seg := Recomputed(s.db, lib.id);
      RecomputedStored(s.db, lib.id);
      assert seg + [] == seg;
      EmitLibsOk(u, Irreversible, seg, lib, b.AsRef(), None);
      EmitLibsOk(u, Stalled, StalledListed(s.db.stored, seg, lib.num), lib, b.AsRef(), None);
    }
  }

  lemma StepLibsOk(u: Store, cfg: Config, s: State, c: Consumer, b: Block)
    requires Inv(u, s, c) && GoodBlock(u, b) && (cfg.inclusive ==> s.last.Some?)
    ensures LibsOk(u, Step(u, cfg, s, b).1)
  {
    hide Linked, AdvanceLib;
    if !Rejected(s, b) {
      AddLinkOk(u, s.db, b);
      var s1 := s.(db := DbWith(s, b));
      var chain := NewChain(s1, b);
      if s.Triggers(b) && chain != [] {
        var w, lib, head := SentSwitch(s, b), s.KnownLib(), b.AsRef();
        EmitLibsOk(u, Undo, w.undos, lib, head, w.junction);
        EmitLibsOk(u, New, w.redos, lib, head, None);
        EmitLibsOk(u, New, Select(chain, s.sent, false), lib, head, None);
        AdvanceLibsOk(u, cfg, s1.(chain := chain, last := Some(b), sent := s.sent + Ids(chain)), b);
      }
    }
  }

  /** Where a consumer is after event `n` of a step, and the cursor it then holds. */
  ghost predicate Held(u: Store, cfg: Config, s: State, c: Consumer, b: Block, n: nat, k: Consumer, cur: Cursor)
    requires Inv(u, s, c) && GoodBlock(u, b)
  {
    var es := Step(u, cfg, s, b).1;
    && n < |es| && es[n].step in {New, Undo}
    && c.ApplyAll(es[..n + 1]) == Some(k) && cur == es[n].Position()
  }

  lemma HeldIsPast(u: Store, cfg: Config, s: State, c: Consumer, b: Block, n: nat, k: Consumer, cur: Cursor)
    requires Inv(u, s, c) && GoodBlock(u, b) && (cfg.inclusive ==> s.last.Some?) && Held(u, cfg, s, c, b, n, k, cur)
    ensures var (t, es) := Step(u, cfg, s, b); c.ApplyAll(es).Some? && Past(u, t, c.ApplyAll(es).value, k)
  {
    hide Step, Past, SentClosed, CacheOk, InStep, StalledBelow;
    StepCorrect(u, cfg, s, c, b);
    PastInStep(u, cfg, s, c, b, n + 1);
  }

  lemma HeldIsPositioned(u: Store, cfg: Config, s: State, c: Consumer, b: Block, n: nat, k: Consumer, cur: Cursor)
    requires Inv(u, s, c) && GoodBlock(u, b) && (cfg.inclusive ==> s.last.Some?) && Held(u, cfg, s, c, b, n, k, cur)
    ensures Positioned(u, k, cur) && RefOk(u, cur.lib)
  {
    hide Step, Linked, SentClosed, CacheOk, StalledBelow, RefOk, Positioned;
    var es := Step(u, cfg, s, b).1;
    StepLibsOk(u, cfg, s, c, b);
    StepAboutStored(u, cfg, s, c, b);
    AddLinkOk(u, s.db, b);
    assert es[n] in es;
    PositionAfter(u, c, es, n);
    BlockRefOk(u, es[n].block);
  }

  /** In any legal stream, the cursor of an event is where the consumer is after it. */
  lemma PositionAfter(u: Store, c: Consumer, es: seq<Event>, n: nat)
    requires WellFormed(u) && c.Valid(u) && AllIn(u, es) && n < |es| && c.ApplyAll(es[..n + 1]).Some?
    requires es[n].step in {New, Undo, NewIrreversible}
    ensures Positioned(u, c.ApplyAll(es[..n + 1]).value, es[n].Position())
  {
    assert es[..n + 1][..n] == es[..n] && es[n] in es;
    assert forall e <- es[..n] :: e in es;
    ApplyAllKeepsValid(u, c, es[..n]);
    EventPositions(u, c.ApplyAll(es[..n]).value, es[n]);
  }

  lemma BlockRefOk(u: Store, b: Block)
    requires WellFormed(u) && GoodBlock(u, b)
    ensures RefOk(u, b.AsRef())
  {
  }

  lemma HeldIsKnown(u: Store, cfg: Config, s: State, c: Consumer, b: Block, n: nat, k: Consumer, cur: Cursor)
    requires Inv(u, s, c) && GoodBlock(u, b) && (cfg.inclusive ==> s.last.Some?) && Held(u, cfg, s, c, b, n, k, cur)
    ensures cur.block.id in u && Known(Step(u, cfg, s, b).0, u[cur.block.id])
  {
    hide Step, Linked, SentClosed, CacheOk, StalledBelow, InStep, Stores, Known;
    var es := Step(u, cfg, s, b).1;
    StepAboutStored(u, cfg, s, c, b);
    StepStores(u, cfg, s, c, b);
    AddLinkOk(u, s.db, b);
    assert es[n] in es;
    KnownStays(u, cfg, s, b, Step(u, cfg, s, b).0, es[n].block);
  }

  lemma {:induction false} KnownStaysOverRuns(u: Store, cfg: Config, s: State, c: Consumer, x: Block, bs: seq<Block>)
    requires Inv(u, s, c) && (cfg.inclusive ==> s.last.Some?) && Known(s, x) && GoodBlock(u, x) && forall b <- bs :: GoodBlock(u, b)
    ensures Known(Run(u, cfg, s, bs).0, x)
    decreases |bs|
  {
    if bs != [] {
      var n := |bs| - 1;
      assert bs[n] in bs;
      RunCorrect(u, cfg, s, c, bs[..n]);
      var (m, es) := Run(u, cfg, s, bs[..n]);
      KnownStaysOverRuns(u, cfg, s, c, x, bs[..n]);
      hide Step, Stores, Known;
      StepStores(u, cfg, m, c.ApplyAll(es).value, bs[n]);
      KnownStays(u, cfg, m, bs[n], Step(u, cfg, m, bs[n]).0, x);
    }
  }

  lemma HeldHasHead(u: Store, cfg: Config, s: State, c: Consumer, b: Block, n: nat, k: Consumer, cur: Cursor)
    requires Inv(u, s, c) && GoodBlock(u, b) && (cfg.inclusive ==> s.last.Some?) && Held(u, cfg, s, c, b, n, k, cur)
    ensures Step(u, cfg, s, b).0.last.Some?
  {
    hide AdvanceLib, BlockInChain, SentSwitch, NewChain, Linked;
    if !Rejected(s, b) {
      AddLinkOk(u, s.db, b);
      var s1 := s.(db := DbWith(s, b));
      var chain := NewChain(s1, b);
      AdvanceKeepsLast(u, cfg, s1.(chain := chain, last := Some(b), sent := s.sent + Ids(chain)), b);
    }
  }

  lemma AdvanceKeepsLast(u: Store, cfg: Config, s: State, b: Block)
    requires DbOk(u, s.db) && s.db.HasLib() && GoodBlock(u, b)
    ensures AdvanceLib(u, cfg, s, b, None).0.last == s.last
  {
  }

  lemma {:induction false} RunKeepsHead(u: Store, cfg: Config, s: State, c: Consumer, bs: seq<Block>)
    requires Inv(u, s, c) && (cfg.inclusive ==> s.last.Some?) && forall b <- bs :: GoodBlock(u, b)
    ensures s.last.Some? ==> Run(u, cfg, s, bs).0.last.Some?
    decreases |bs|
  {
    if bs != [] {
      var n := |bs| - 1;
      assert bs[n] in bs;
      RunCorrect(u, cfg, s, c, bs[..n]);
      RunKeepsHead(u, cfg, s, c, bs[..n]);
      hide Step;
      StepKeepsHead(u, cfg, Run(u, cfg, s, bs[..n]).0, bs[n]);
    }
  }
}
