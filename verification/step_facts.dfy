/** What one step sends, keeps and leaves out, in the numbers that arrive. */
module StepFacts {
  import opened Chain
  import opened Consumers
  import opened ForkDbModel
  import opened ForkableModel
  import opened ForkableInvariant
  import opened ForkableRuns
  import opened ResumeHoles

  /** A state of a run, and a block that arrives in it. */
  ghost predicate Arriving(u: Store, cfg: Config, s: State, c: Consumer, b: Block) {
    Inv(u, s, c) && GoodBlock(u, b) && (cfg.inclusive ==> s.last.Some?) && DbOk(u, DbWith(s, b))
  }

  /** The block is not stored yet, and is not refused for being below the LIB. */
  predicate Accepted(s: State, b: Block) { b.id !in s.db.stored && (s.db.lib.num <= b.num || s.last.None?) }

  ghost predicate TakesHead(s: State, b: Block) { Accepted(s, b) && BecomesHead(s, DbWith(s, b), b) }

  // The parts of a step

  lemma NotHead(u: Store, cfg: Config, s: State, c: Consumer, b: Block)
    requires Arriving(u, cfg, s, c, b) && !TakesHead(s, b)
    ensures var (t, es) := Step(u, cfg, s, b);
      es == [] && t.last == s.last && t.libSeen == s.libSeen && t.db == if Accepted(s, b) then DbWith(s, b) else s.db
  {
    hide Linked, AdvanceLib, SentSwitch, Descends, InStep, SentClosed, StalledBelow;
    StepCases(u, cfg, s, b);
    if Accepted(s, b) {
      var s1 := s.(db := DbWith(s, b));
      CacheIsExact(u, s, b);
      RecomputedMeaning(s1.db, b.id);
      ExtendCases(u, cfg, s, s1, b, None);
    }
  }

  lemma IsHead(u: Store, cfg: Config, s: State, c: Consumer, b: Block) returns (p: seq<Block>)
    requires Arriving(u, cfg, s, c, b) && TakesHead(s, b)
    ensures Linked(s.db.stored, s.db.lib.id, p, b.parent) && DbOk(u, WithNewHead(s, b, p).db)
    ensures var (t, es) := AdvanceLib(u, cfg, WithNewHead(s, b, p), b, None); Step(u, cfg, s, b) == (t, ReorgEvents(s, b, p) + es)
  {
    hide AdvanceLib, SentSwitch, InStep, SentClosed, StalledBelow, Extend, ReorgEvents, Step;
    var s1 := s.(db := DbWith(s, b));
    StepCases(u, cfg, s, b);
    CacheIsExact(u, s, b);
    RecomputedMeaning(s1.db, b.id);
    var chain := NewChain(s1, b);
    NewPathWasStored(u, s, b, chain);
    p := chain[..|chain| - 1];
    ExtendIs(u, cfg, s, b, p);
  }

  /** The end of a step that moves the LIB along `p`. */
  ghost predicate LibMoves(cfg: Config, s: State, b: Block, t: State, es: seq<Event>, p: seq<Block>) {
    && p != [] && Recomputed(s.db, t.db.lib.id) == p && t.db.lib.id != s.db.lib.id && t.libSeen == t.db.lib
    && (forall id <- s.db.stored :: s.db.stored[id].id == id)
    && t.db == Purge(s.db.(lib := t.db.lib), cfg.kept)
    && es == EmitFinal(Irreversible, p, b.AsRef())
             + Emit(Stalled, StalledListed(s.db.stored, p, t.db.lib.num), t.db.lib, b.AsRef(), None)
  }

  lemma LibStaysOrMoves(u: Store, cfg: Config, s: State, b: Block) returns (p: seq<Block>)
    requires DbOk(u, s.db) && s.db.HasLib() && GoodBlock(u, b)
    ensures var (t, es) := AdvanceLib(u, cfg, s, b, None);
      && t.last == s.last
      && if t.db.lib.id == s.db.lib.id then t == s && es == [] && p == [] else LibMoves(cfg, s, b, t, es, p)
  {
    hide AdvanceLib, BlockInChain, Emit, EmitFinal, Recomputed;
    var lib := BlockInChain(u, s.db, b.AsRef(), b.libNum);
    AdvanceLibCases(u, cfg, s, b, None, lib);
    p := if lib.id == "" || lib.id == s.db.lib.id then [] else Recomputed(s.db, lib.id);
    assert p + [] == p;
  }

  // When the head changes

  /** Heads only rise: a known head gives way to a strictly higher block, and to nothing else anything is sent. */
  lemma HeadOnlyRises(u: Store, cfg: Config, s: State, c: Consumer, b: Block)
    requires Arriving(u, cfg, s, c, b)
    ensures var (t, es) := Step(u, cfg, s, b);
      && (s.last.Some? && b.num <= s.last.value.num ==> t.last == s.last && t.db.lib == s.db.lib && es == [])
      && (t.last != s.last ==> t.last == Some(b) && (s.last.Some? ==> s.last.value.num < b.num))
      && (t.last == s.last ==> t.db.lib == s.db.lib && es == [])
  {
    hide Step, Descends;
    if TakesHead(s, b) {
      HeadIsNew(u, s, c, b);
      StepAdvances(u, cfg, s, c, b);
    } else {
      NotHead(u, cfg, s, c, b);
    }
  }

  lemma HeadIsNew(u: Store, s: State, c: Consumer, b: Block)
    requires Inv(u, s, c) && TakesHead(s, b)
    ensures s.last != Some(b)
  {
  }

  /** And every such block that links to the LIB does become the head. */
  lemma HigherTakesHead(u: Store, cfg: Config, s: State, c: Consumer, b: Block, p: seq<Block>)
    requires Arriving(u, cfg, s, c, b) && b.id !in s.db.stored && s.db.lib.num <= b.num
    requires s.last.Some? ==> s.last.value.num < b.num
    requires b.id != s.db.lib.id && Linked(s.db.stored, s.db.lib.id, p, b.parent)
    ensures Step(u, cfg, s, b).0.last == Some(b)
  {
    hide Linked, Step, DbOk, InStep, SentClosed, CacheOk, StalledBelow;
    OneMore(u, s, b, p);
    StepAdvances(u, cfg, s, c, b);
  }

  lemma OneMore(u: Store, s: State, b: Block, p: seq<Block>)
    requires DbOk(u, DbWith(s, b)) && b.id !in s.db.stored && b.id != s.db.lib.id && GoodBlock(u, b)
    requires Linked(s.db.stored, s.db.lib.id, p, b.parent)
    ensures Descends(DbWith(s, b), s.db.lib.id, b.id)
  {
    hide Linked;
    var m := DbWith(s, b).stored;
    LinkedElements(s.db.stored, s.db.lib.id, p, b.parent);
    LinkedInStore(s.db.stored, m, s.db.lib.id, p, b.parent);
    OnTop(m, s.db.lib.id, p, b);
  }

  // What is stored

  /** The numbers of LIBs never fall. */
  lemma LibRises(u: Store, cfg: Config, s: State, c: Consumer, b: Block)
    requires Arriving(u, cfg, s, c, b)
    ensures s.db.lib.num <= Step(u, cfg, s, b).0.db.lib.num
  {
    hide Step, Linked, InStep, SentClosed, CacheOk, StalledBelow, AdvanceLib, BecomesHead;
    if TakesHead(s, b) {
      var p := IsHead(u, cfg, s, c, b);
      var q := LibStaysOrMoves(u, cfg, WithNewHead(s, b, p), b);
      StepCorrect(u, cfg, s, c, b);
      MovesUp(u, cfg, WithNewHead(s, b, p), b, q);
    } else {
      NotHead(u, cfg, s, c, b);
    }
  }

  lemma MovesUp(u: Store, cfg: Config, s: State, b: Block, p: seq<Block>)
    requires DbOk(u, s.db) && s.db.HasLib() && GoodBlock(u, b)
    requires var (t, es) := AdvanceLib(u, cfg, s, b, None);
      t.db.lib.id != s.db.lib.id ==> t.db.HasLib() && LibMoves(cfg, s, b, t, es, p)
    requires var t := AdvanceLib(u, cfg, s, b, None).0; t.db.lib.id == s.db.lib.id ==> t == s
    ensures s.db.lib.num <= AdvanceLib(u, cfg, s, b, None).0.db.lib.num
    ensures var t := AdvanceLib(u, cfg, s, b, None).0;
      t.db.lib.id != s.db.lib.id ==> Linked(s.db.stored, s.db.lib.id, p, t.db.lib.id)
  {
    hide Linked, AdvanceLib, StalledListed, Emit, EmitFinal, Purge;
    var t := AdvanceLib(u, cfg, s, b, None).0;
    if t.db.lib.id != s.db.lib.id {
      PurgeKeeps(u, t.db, 0);
      NumbersAboveLib(u, s.db, t.db.lib, p);
    }
  }

  /**
   Exactly what is stored after a step: what was, with the new block unless it is refused, and, when the LIB
   moved, without what is more than the kept number below it.
   */
  lemma StepKeeps(u: Store, cfg: Config, s: State, c: Consumer, b: Block)
    requires Arriving(u, cfg, s, c, b)
    ensures var t := Step(u, cfg, s, b).0;
      forall id :: id in t.db.stored <==>
        && (id in s.db.stored || (id == b.id && Accepted(s, b)))
        && (t.db.lib.id != s.db.lib.id ==> t.db.lib.num <= u[id].num + cfg.kept)
  {
    hide Step, Linked, InStep, SentClosed, CacheOk, StalledBelow, AdvanceLib, BecomesHead, Purge;
    if TakesHead(s, b) {
      var p := IsHead(u, cfg, s, c, b);
      var m := WithNewHead(s, b, p);
      var q := LibStaysOrMoves(u, cfg, m, b);
      var t := AdvanceLib(u, cfg, m, b, None).0;
      if t.db.lib.id != s.db.lib.id {
        LibIsKept(u, cfg, m, t);
      }
    } else {
      NotHead(u, cfg, s, c, b);
    }
  }

  lemma LibIsKept(u: Store, cfg: Config, m: State, t: State)
    requires DbOk(u, m.db) && t.db == Purge(m.db.(lib := t.db.lib), cfg.kept)
    ensures forall id :: id in t.db.stored <==> id in m.db.stored && t.db.lib.num <= u[id].num + cfg.kept
  {
  }

  /**
   Over any run: a stored block no more than the kept number below the last LIB is still stored, and so is
   every block that arrived and is not below that LIB.
   */
  lemma {:induction false} KeptOverRuns(u: Store, cfg: Config, s: State, c: Consumer, bs: seq<Block>)
    requires Inv(u, s, c) && (cfg.inclusive ==> s.last.Some?) && forall b <- bs :: GoodBlock(u, b)
    ensures var t := Run(u, cfg, s, bs).0;
      && s.db.lib.num <= t.db.lib.num
      && (forall id <- s.db.stored | t.db.lib.num <= u[id].num + cfg.kept :: id in t.db.stored)
      && (forall b <- bs | t.db.lib.num <= b.num :: b.id in t.db.stored)
    decreases |bs|
  {
    hide Inv, Step;
    HasLibStill(u, s, c);
    if bs != [] {
      var n := |bs| - 1;
      assert bs[n] in bs;
      KeptOverRuns(u, cfg, s, c, bs[..n]);
      RunCorrect(u, cfg, s, c, bs[..n]);
      var (m, es) := Run(u, cfg, s, bs[..n]);
      KeptOnce(u, cfg, m, c.ApplyAll(es).value, bs[n]);
      KeptToo(u, cfg.kept, s, m, Step(u, cfg, m, bs[n]).0, bs);
    }
  }

  lemma KeptToo(u: Store, kept: nat, s: State, m: State, t: State, bs: seq<Block>)
    requires bs != [] && s.db.lib.num <= m.db.lib.num <= t.db.lib.num
    requires s.db.stored.Keys <= u.Keys && m.db.stored.Keys <= u.Keys && forall b <- bs :: GoodBlock(u, b)
    requires forall id <- s.db.stored | m.db.lib.num <= u[id].num + kept :: id in m.db.stored
    requires forall b <- bs[..|bs| - 1] | m.db.lib.num <= b.num :: b.id in m.db.stored
    requires forall id <- m.db.stored | t.db.lib.num <= u[id].num + kept :: id in t.db.stored
    requires t.db.lib.num <= bs[|bs| - 1].num ==> bs[|bs| - 1].id in t.db.stored
    ensures forall id <- s.db.stored | t.db.lib.num <= u[id].num + kept :: id in t.db.stored
    ensures forall b <- bs | t.db.lib.num <= b.num :: b.id in t.db.stored
  {
    var n := |bs| - 1;
    forall b <- bs | t.db.lib.num <= b.num ensures b.id in t.db.stored {
      assert b in bs[..n] || b == bs[n];
    }
  }

  lemma KeptOnce(u: Store, cfg: Config, m: State, c: Consumer, b: Block)
    requires Inv(u, m, c) && GoodBlock(u, b) && (cfg.inclusive ==> m.last.Some?)
    ensures var t := Step(u, cfg, m, b).0;
      && m.db.lib.num <= t.db.lib.num
      && (forall id <- m.db.stored | t.db.lib.num <= u[id].num + cfg.kept :: id in t.db.stored)
      && (t.db.lib.num <= b.num ==> b.id in t.db.stored)
  {
    hide Step, Linked, InStep, SentClosed, CacheOk, StalledBelow;
    AddLinkOk(u, m.db, b);
    StepKeeps(u, cfg, m, c, b);
    LibRises(u, cfg, m, c, b);
  }

  // What is declared final and stalled

  lemma {:induction false} StalledConcat(a: seq<Event>, b: seq<Event>)
    ensures StalledIn(a + b) == StalledIn(a) + StalledIn(b)
    decreases |b|
  {
    if b == [] {
      assert a + b == a;
    } else {
      StalledConcat(a, b[..|b| - 1]);
      assert (a + b)[..|a + b| - 1] == a + b[..|b| - 1];
    }
  }

  lemma {:induction false} NoneFinalOrStalled(es: seq<Event>)
    requires forall e <- es :: e.step in {New, Undo}
    ensures Finalized(es) == [] && StalledIn(es) == {}
    decreases |es|
  {
    if es != [] {
      assert es[|es| - 1] in es;
      NoneFinalOrStalled(es[..|es| - 1]);
    }
  }

  lemma {:induction false} AllFinal(es: seq<Event>, bs: seq<Block>)
    requires Are(es, Irreversible, bs)
    ensures Finalized(es) == bs && StalledIn(es) == {}
    decreases |bs|
  {
    if bs != [] {
      var n := |bs| - 1;
      AllFinal(es[..n], bs[..n]);
      assert bs == bs[..n] + [bs[n]];
    }
  }

  lemma {:induction false} AllStalled(es: seq<Event>, bs: seq<Block>)
    requires Are(es, Stalled, bs)
    ensures Finalized(es) == [] && StalledIn(es) == set b <- bs
    decreases |bs|
  {
    if bs != [] {
      var n := |bs| - 1;
      AllStalled(es[..n], bs[..n]);
      assert bs == bs[..n] + [bs[n]];
    }
  }

  lemma ReorgOnlyMoves(s: State, b: Block, p: seq<Block>)
    ensures forall e <- ReorgEvents(s, b, p) :: e.step in {New, Undo}
  {
    hide SentSwitch, Select;
  }

  /** `p` is what a LIB move declares final, and `es` declares stalled just the stored blocks beside it. */
  ghost predicate Passed(m: Store, es: seq<Event>, p: seq<Block>, lib: Ref) {
    && Finalized(es) == p
    && forall x :: x in StalledIn(es) <==>
      p != [] && GoodBlock(m, x) && !InPath(x.id, p) && (if |p| > 1 then p[0].num else lib.num) <= x.num <= lib.num
  }

  /**
   The other half of finality: when the LIB moves along `p`, the stored blocks beside `p` that are declared
   stalled are exactly those numbered from its first block up to the LIB; none when it does not move.
   */
  lemma StalledExactly(u: Store, cfg: Config, s: State, c: Consumer, b: Block) returns (p: seq<Block>)
    requires Arriving(u, cfg, s, c, b)
    ensures var (t, es) := Step(u, cfg, s, b);
      && Passed(DbWith(s, b).stored, es, p, t.db.lib)
      && (t.db.lib.id == s.db.lib.id <==> p == []) && (p != [] ==> Accepted(s, b))
      && (t.db.lib.id != s.db.lib.id ==> Linked(DbWith(s, b).stored, s.db.lib.id, p, t.db.lib.id))
  {
    hide Step, Linked, InStep, SentClosed, CacheOk, StalledBelow, AdvanceLib, BecomesHead, Purge, ReorgEvents, Passed, DbOk;
    if TakesHead(s, b) {
      var q := IsHead(u, cfg, s, c, b);
      var m := WithNewHead(s, b, q);
      HasLibStill(u, s, c);
      p := LibStaysOrMoves(u, cfg, m, b);
      StepCorrect(u, cfg, s, c, b);
      HasLibStill(u, Step(u, cfg, s, b).0, c.ApplyAll(Step(u, cfg, s, b).1).value);
      MovesUp(u, cfg, m, b, p);
      PassedBy(cfg, s, b, q, m, AdvanceLib(u, cfg, m, b, None).0, AdvanceLib(u, cfg, m, b, None).1, p);
    } else {
      NotHead(u, cfg, s, c, b);
      p := [];
      NothingPassed(DbWith(s, b).stored, Step(u, cfg, s, b).0.db.lib);
    }
  }

  /**
   A block that the LIB passes by is declared stalled at once unless it is numbered in a hole between the old LIB
   and the first block that becomes final; then it never is.
   */
  lemma StalledUnlessInHole(u: Store, cfg: Config, s: State, c: Consumer, b: Block, p: seq<Block>, x: Block)
    requires Arriving(u, cfg, s, c, b) && p == Finalized(Step(u, cfg, s, b).1) && p != []
    requires GoodBlock(DbWith(s, b).stored, x) && !InPath(x.id, p)
    requires s.db.lib.num < x.num <= Step(u, cfg, s, b).0.db.lib.num
    ensures var (t, es) := Step(u, cfg, s, b);
      x in StalledIn(es) <==> !(x.num < if |p| > 1 then p[0].num else t.db.lib.num)
  {
    hide Step, Linked, Inv, DbOk;
    var q := StalledExactly(u, cfg, s, c, b);
  }

  /** Block 5 becomes final right after block 1, and block 3 beside it is not listed as stalled. */
  lemma MissedInHole()
    ensures var five, three := Block("b", 5, "a", 1), Block("c", 3, "a", 1);
      var m := map["b" := five, "c" := three];
      (forall id <- m :: m[id].id == id) && three !in StalledListed(m, [five], 5)
  {
    var five, three := Block("b", 5, "a", 1), Block("c", 3, "a", 1);
    StalledSpan(map["b" := five, "c" := three], [five], 5, three);
  }

  lemma NothingPassed(m: Store, lib: Ref)
    ensures Passed(m, [], [], lib)
  {
  }

  lemma PassedBy(cfg: Config, s: State, b: Block, q: seq<Block>, m: State, t: State, es: seq<Event>, p: seq<Block>)
    requires if t.db.lib.id == m.db.lib.id then es == [] && p == [] else LibMoves(cfg, m, b, t, es, p)
    ensures Passed(m.db.stored, ReorgEvents(s, b, q) + es, p, t.db.lib)
  {
    hide ReorgEvents, Emit, EmitFinal, StalledListed, Recomputed, Purge, Finalized, StalledIn;
    var moved := ReorgEvents(s, b, q);
    ReorgOnlyMoves(s, b, q);
    NoneFinalOrStalled(moved);
    StalledConcat(moved, es);
    FinalizedConcat(moved, es);
    if p == [] {
      NoneFinalOrStalled([]);
    } else {
      FinalThenStalled(cfg, m, b, t, es, p);
    }
  }

  lemma FinalThenStalled(cfg: Config, m: State, b: Block, t: State, es: seq<Event>, p: seq<Block>)
    requires LibMoves(cfg, m, b, t, es, p)
    ensures Finalized(es) == p
    ensures forall x :: x in StalledIn(es) <==>
      GoodBlock(m.db.stored, x) && !InPath(x.id, p) && (if |p| > 1 then p[0].num else t.db.lib.num) <= x.num <= t.db.lib.num
  {
    hide Recomputed, Purge, Finalized, StalledIn, StalledListed, Linked;
    var bs := StalledListed(m.db.stored, p, t.db.lib.num);
    var irr, st := EmitFinal(Irreversible, p, b.AsRef()), Emit(Stalled, bs, t.db.lib, b.AsRef(), None);
    AllFinal(irr, p);
    AllStalled(st, bs);
    FinalizedConcat(irr, st);
    StalledConcat(irr, st);
    forall x ensures x in bs <==>
      GoodBlock(m.db.stored, x) && !InPath(x.id, p) && (if |p| > 1 then p[0].num else t.db.lib.num) <= x.num <= t.db.lib.num
    {
      StalledSpan(m.db.stored, p, t.db.lib.num, x);
    }
  }

  // What the events tell

  /**
   Every event names the arriving block as head. New and Undo events name the LIB known before the step, final
   blocks themselves, and stalled blocks the LIB just reached; only Undo events report a junction.
   */
  ghost predicate Tells(e: Event, b: Block, lib: Ref, newLib: Ref, junction: Option<Ref>) {
    && e.head == b.AsRef()
    && match e.step
       case New => e.lib == lib && e.junction == None
       case Undo => e.lib == lib && e.junction == junction
       case Irreversible => e.lib == e.block.AsRef() && e.junction == None
       case Stalled => e.lib == newLib && e.junction == None
       case NewIrreversible => false
  }

  lemma StepTells(u: Store, cfg: Config, s: State, c: Consumer, b: Block)
    requires Arriving(u, cfg, s, c, b)
    ensures var (t, es) := Step(u, cfg, s, b);
      && (forall e <- es :: Tells(e, b, s.KnownLib(), t.db.lib, SentSwitch(s, b).junction))
      && t.KnownLib() == if t.db.lib.id == s.db.lib.id then s.KnownLib() else t.db.lib
  {
    hide Step, Linked, InStep, SentClosed, CacheOk, StalledBelow, AdvanceLib, BecomesHead, Purge, ReorgEvents, Tells, SentSwitch, DbOk;
    HasLibStill(u, s, c);
    if TakesHead(s, b) {
      var q := IsHead(u, cfg, s, c, b);
      var m := WithNewHead(s, b, q);
      var p := LibStaysOrMoves(u, cfg, m, b);
      var t := Step(u, cfg, s, b).0;
      StepCorrect(u, cfg, s, c, b);
      HasLibStill(u, t, c.ApplyAll(Step(u, cfg, s, b).1).value);
      ReorgTells(s, b, q, t.db.lib);
      if t.db.lib.id != s.db.lib.id {
        LibMoveTells(cfg, m, b, t, AdvanceLib(u, cfg, m, b, None).1, p, s.KnownLib(), SentSwitch(s, b).junction);
      }
    } else {
      NotHead(u, cfg, s, c, b);
    }
  }

  lemma ReorgTells(s: State, b: Block, p: seq<Block>, newLib: Ref)
    ensures forall e <- ReorgEvents(s, b, p) :: Tells(e, b, s.KnownLib(), newLib, SentSwitch(s, b).junction)
  {
    hide SentSwitch, Select;
  }

  lemma LibMoveTells(cfg: Config, m: State, b: Block, t: State, es: seq<Event>, p: seq<Block>, lib: Ref, junction: Option<Ref>)
    requires LibMoves(cfg, m, b, t, es, p)
    ensures forall e <- es :: Tells(e, b, lib, t.db.lib, junction)
  {
    hide Recomputed, Purge, StalledListed;
  }

  /**
   A reorganisation opens with its undos, and they report where they stop: the block that is then the
   consumer's top, unless it is a LIB that is not stored.
   */
  lemma JunctionReported(u: Store, cfg: Config, s: State, c: Consumer, b: Block) returns (n: nat)
    requires Arriving(u, cfg, s, c, b)
    ensures var es := Step(u, cfg, s, b).1;
      && n <= |es| && (forall e <- es[..n] :: e.step == Undo) && (forall e <- es[n..] :: e.step != Undo)
      && c.ApplyAll(es[..n]).Some?
      && var top := c.ApplyAll(es[..n]).value.Top();
      && (top !in s.db.stored ==> top == s.db.lib.id)
      && forall e <- es[..n] ::
        e.junction == if top in s.db.stored then Some(s.db.stored[top].AsRef()) else None
  {
    hide Step, Linked, InStep, SentClosed, CacheOk, StalledBelow, AdvanceLib, BecomesHead, Purge, ReorgEvents, SentSwitch, DbOk, Consumer.ApplyAll;
    if TakesHead(s, b) {
      var q := IsHead(u, cfg, s, c, b);
      var m := WithNewHead(s, b, q);
      HasLibStill(u, s, c);
      var p := LibStaysOrMoves(u, cfg, m, b);
      var (t, es) := AdvanceLib(u, cfg, m, b, None);
      UndosStopAtJunction(u, s, c, b, q);
      NoUndoAfter(cfg, m, b, t, es, p);
      n := UndosFirst(s, b, q, es);
    } else {
      NotHead(u, cfg, s, c, b);
      TopStored(u, s, c);
      n := 0;
    }
  }

  lemma NoUndoAfter(cfg: Config, m: State, b: Block, t: State, es: seq<Event>, p: seq<Block>)
    requires if t.db.lib.id == m.db.lib.id then es == [] else LibMoves(cfg, m, b, t, es, p)
    ensures forall e <- es :: e.step != Undo
  {
    hide Recomputed, Purge, StalledListed;
  }

  lemma UndosFirst(s: State, b: Block, p: seq<Block>, after: seq<Event>) returns (n: nat)
    requires forall e <- after :: e.step != Undo
    ensures var w, es := SentSwitch(s, b), ReorgEvents(s, b, p) + after;
      && n == |w.undos| <= |es| && es[..n] == Emit(Undo, w.undos, s.KnownLib(), b.AsRef(), w.junction)
      && (forall e <- es[..n] :: e.step == Undo && e.junction == w.junction) && (forall e <- es[n..] :: e.step != Undo)
  {
    hide SentSwitch, Select;
    var w, lib, head := SentSwitch(s, b), s.KnownLib(), b.AsRef();
    n := |w.undos|;
    var undos, news := Emit(Undo, w.undos, lib, head, w.junction),
      Emit(New, w.redos, lib, head, None) + Emit(New, Select(p + [b], s.sent, false), lib, head, None);
    assert ReorgEvents(s, b, p) + after == undos + (news + after);
    assert (undos + (news + after))[n..] == news + after;
  }

  lemma TopStored(u: Store, s: State, c: Consumer)
    requires Inv(u, s, c)
    ensures c.ApplyAll([]) == Some(c) && (c.Top() !in s.db.stored ==> c.Top() == s.db.lib.id)
  {
    var h := c.blocks[c.fin..];
    LinkedElements(s.db.stored, s.db.lib.id, h, s.HeadId());
    assert h != [] ==> h[|h| - 1] == c.blocks[|c.blocks| - 1];
  }

  // Where the first LIB comes from

  /**
   While no LIB is known: exactly when a block makes one known, and which. It is the block itself when it is the
   first streamable one, and otherwise what the walk down to its LIB number finds.
   */
  lemma DiscoversExactly(u: Store, cfg: Config, s: State, b: Block)
    requires Waiting(u, s) && GoodBlock(u, b) && DbOk(u, DbWith(s, b))
    ensures var t := Step(u, cfg, s, b).0;
      var lib := if b.num == cfg.first then b.AsRef() else BlockInChain(u, DbWith(s, b), b.AsRef(), b.libNum);
      if b.id in s.db.stored || lib == EMPTY_REF then t == s.(db := DbWith(s, b)) else t.db.HasLib() && t.db.lib == lib
  {
    hide Linked, BlockInChain, SentSwitch, NewChain, Recomputed, Emit, EmitFinal, Select, Discover, Extend, Step, AdvanceLib;
    StepCases(u, cfg, s, b);
    if b.id !in s.db.stored {
      var s1 := s.(db := DbWith(s, b));
      var lib := if b.num == cfg.first then b.AsRef() else BlockInChain(u, s1.db, b.AsRef(), b.libNum);
      DiscoverCases(u, cfg, s, s1, b, lib);
      if lib != EMPTY_REF && lib.num != b.num {
        var s2 := s1.(db := s1.db.(lib := lib));
        var first := s2.db.stored[lib.id];
        LeftToExtendIs(u, cfg, s, s2, b, first, Discover(u, cfg, s, s1, b));
        KeepsFoundLib(u, cfg, s, s2, b, first);
      }
    }
  }

  lemma KeepsFoundLib(u: Store, cfg: Config, s: State, s2: State, b: Block, first: Block)
    requires DbOk(u, s2.db) && s2.db.HasLib() && GoodBlock(u, b) && IsFirst(u, s2.db, b, first)
    ensures Extend(u, cfg, s, s2, b, Some(first)).0.db.lib == s2.db.lib
  {
    hide Linked, BlockInChain, SentSwitch, NewChain, Recomputed, Emit, EmitFinal, Select, Extend, AdvanceLib, DbOk;
    ExtendCases(u, cfg, s, s2, b, Some(first));
    var m := s2.(chain := NewChain(s2, b), last := Some(b), sent := s2.sent + Ids(NewChain(s2, b)));
    AdvanceLibCases(u, cfg, m, b, Some(first), s2.db.lib);
  }
}
