/** Whole runs of ProcessBlock: where they start, how far each step goes, what their events are about. */
module ForkableRuns {
  import opened Chain
  import opened Consumers
  import opened ForkDbModel
  import opened ForkableModel
  import opened ForkableInvariant

  // Every event is about a stored block

  ghost predicate AboutStored(m: Store, es: seq<Event>) {
    forall e <- es :: GoodBlock(m, e.block)
  }

  lemma EmitAboutStored(m: Store, step: StepType, bs: seq<Block>, lib: Ref, head: Ref, junction: Option<Ref>)
    requires forall b <- bs :: GoodBlock(m, b)
    ensures AboutStored(m, Emit(step, bs, lib, head, junction)) && AboutStored(m, EmitFinal(step, bs, head))
  {
  }

  lemma {:induction false} SelectFrom(p: seq<Block>, sent: set<Id>, wanted: bool)
    ensures forall b <- Select(p, sent, wanted) :: b in p
    decreases |p|
  {
    if p != [] {
      SelectFrom(p[..|p| - 1], sent, wanted);
    }
  }

  lemma RecomputedStored(db: Db, head: Id)
    ensures forall b <- Recomputed(db, head) :: GoodBlock(db.stored, b)
  {
    match Reversible(db, head)
    case Some(p) => LinkedElements(db.stored, db.lib.id, p, head);
    case None =>
  }

  lemma SwitchStored(s: State, b: Block)
    ensures forall x <- SentSwitch(s, b).undos + SentSwitch(s, b).redos :: GoodBlock(s.db.stored, x)
  {
    if s.last.Some? {
      match SwitchOf(s.db.stored, s.last.value.id, b.parent)
      case Some(w) =>
        LinkedElements(s.db.stored, w.junction, w.undo, s.last.value.id);
        LinkedElements(s.db.stored, w.junction, w.redo, b.parent);
        SelectFrom(w.redo, s.sent, true);
      case None =>
    }
  }

  lemma ReorgAboutStored(u: Store, s: State, b: Block, p: seq<Block>)
    requires b.id !in s.db.stored && forall x <- p + [b] :: GoodBlock(DbWith(s, b).stored, x)
    ensures AboutStored(DbWith(s, b).stored, ReorgEvents(s, b, p))
  {
    var w, lib, head, m := SentSwitch(s, b), s.KnownLib(), b.AsRef(), DbWith(s, b).stored;
    SwitchStored(s, b);
    SelectFrom(p + [b], s.sent, false);
    forall x <- w.undos ensures GoodBlock(m, x) { assert x in w.undos + w.redos; }
    forall x <- w.redos ensures GoodBlock(m, x) { assert x in w.undos + w.redos; }
    EmitAboutStored(m, Undo, w.undos, lib, head, w.junction);
    EmitAboutStored(m, New, w.redos, lib, head, None);
    EmitAboutStored(m, New, Select(p + [b], s.sent, false), lib, head, None);
  }

  lemma AdvanceAboutStored(u: Store, cfg: Config, s: State, b: Block, first: Option<Block>)
    requires DbOk(u, s.db) && s.db.HasLib() && GoodBlock(u, b)
    requires first.Some? ==> IsFirst(u, s.db, b, first.value)
    ensures AboutStored(s.db.stored, AdvanceLib(u, cfg, s, b, first).1)
  {
    var lib := BlockInChain(u, s.db, b.AsRef(), b.libNum);
    if lib.id != "" {
      var seg := if lib.id == s.db.lib.id then [] else Recomputed(s.db, lib.id);
      RecomputedStored(s.db, lib.id);
      var bs := if seg == [] then [] else StalledListed(s.db.stored, seg, lib.num);
      forall x <- bs ensures GoodBlock(s.db.stored, x) {
        assert x in StalledSet(s.db.stored, seg, FirstNum(seg, lib.num), lib.num);
      }
      var libSeen := if first.Some? then first.value.AsRef() else lib;
      EmitAboutStored(s.db.stored, Stalled, bs, libSeen, b.AsRef(), None);
      EmitAboutStored(s.db.stored, Irreversible, seg + if first.Some? then [first.value] else [], lib, b.AsRef(), None);
    }
  }

  lemma ExtendAboutStored(u: Store, cfg: Config, s: State, c: Consumer, b: Block)
    requires Inv(u, s, c) && GoodBlock(u, b) && b.id !in s.db.stored && DbOk(u, DbWith(s, b))
    ensures AboutStored(DbWith(s, b).stored, Extend(u, cfg, s, s.(db := DbWith(s, b)), b, None).1)
  {
    var s1 := s.(db := DbWith(s, b));
    CacheIsExact(u, s, b);
    var chain := NewChain(s1, b);
    if s.Triggers(b) && chain != [] {
      assert Linked(s1.db.stored, s.db.lib.id, chain, b.id);
      NewPathWasStored(u, s, b, chain);
      var p := chain[..|chain| - 1];
      RecomputedStored(s1.db, b.id);
      hide Linked, AdvanceLib, Extend;
      ReorgAboutStored(u, s, b, p);
      ExtendIs(u, cfg, s, b, p);
      AdvanceAboutStored(u, cfg, WithNewHead(s, b, p), b, None);
    }
  }

  lemma StepAboutStored(u: Store, cfg: Config, s: State, c: Consumer, b: Block)
    requires Inv(u, s, c) && GoodBlock(u, b) && !(cfg.inclusive && s.last.None? && b.id == s.db.lib.id)
    ensures AboutStored(DbWith(s, b).stored, Step(u, cfg, s, b).1)
  {
    hide Extend;
    if !(b.num < s.db.lib.num && s.last.Some?) && b.id !in s.db.stored {
      AddLinkOk(u, s.db, b);
      ExtendAboutStored(u, cfg, s, c, b);
    }
  }

  // Whole runs

  lemma StepKeepsHead(u: Store, cfg: Config, s: State, b: Block)
    requires DbOk(u, s.db) && s.db.HasLib() && GoodBlock(u, b)
    ensures s.last.Some? ==> Step(u, cfg, s, b).0.last.Some?
    ensures s.last.Some? ==> Step(u, cfg, s, b).0.last.value.num >= s.last.value.num
  {
    hide BlockInChain, Recomputed, NewChain, SentSwitch;
  }

  lemma HasLibStill(u: Store, s: State, c: Consumer)
    requires Inv(u, s, c)
    ensures s.db.HasLib() && DbOk(u, s.db)
  {
  }

  /**
   Every run over well-formed blocks in any order: the events are legal for the reference consumer,
   and at the end the consumer is in step with the Forkable again.
   */
  lemma {:induction false} RunCorrect(u: Store, cfg: Config, s: State, c: Consumer, bs: seq<Block>)
    requires Inv(u, s, c) && (cfg.inclusive ==> s.last.Some?) && forall b <- bs :: GoodBlock(u, b)
    ensures var (t, es) := Run(u, cfg, s, bs);
      && AllIn(u, es) && c.ApplyAll(es).Some? && Inv(u, t, c.ApplyAll(es).value)
      && (cfg.inclusive ==> t.last.Some?)
    decreases |bs|
  {
    hide Inv, Step;
    HasLibStill(u, s, c);
    if bs != [] {
      var n := |bs| - 1;
      assert bs[n] in bs;
      RunCorrect(u, cfg, s, c, bs[..n]);
      var (m, es) := Run(u, cfg, s, bs[..n]);
      var d := c.ApplyAll(es).value;
      HasLibStill(u, m, d);
      RunStep(u, cfg, m, d, bs[n]);
      ApplyConcat(c, es, Step(u, cfg, m, bs[n]).1);
    }
  }

  lemma RunStep(u: Store, cfg: Config, s: State, c: Consumer, b: Block)
    requires Inv(u, s, c) && GoodBlock(u, b) && (cfg.inclusive ==> s.last.Some?)
    ensures var (t, es) := Step(u, cfg, s, b);
      && AllIn(u, es) && c.ApplyAll(es).Some? && Inv(u, t, c.ApplyAll(es).value)
      && (s.last.Some? ==> t.last.Some?)
  {
    hide Step;
    StepCorrect(u, cfg, s, c, b);
    StoredAreIn(u, cfg, s, c, b);
    StepKeepsHead(u, cfg, s, b);
  }

  lemma StoredAreIn(u: Store, cfg: Config, s: State, c: Consumer, b: Block)
    requires Inv(u, s, c) && GoodBlock(u, b) && !(cfg.inclusive && s.last.None? && b.id == s.db.lib.id)
    ensures AllIn(u, Step(u, cfg, s, b).1)
  {
    hide Step;
    StepAboutStored(u, cfg, s, c, b);
    AddLinkOk(u, s.db, b);
  }

  /**
   Finality over every run: the blocks sent as irreversible form one parent-linked chain from the
   initial LIB to the final one, each once, and none of them is ever sent as stalled.
   */
  lemma FinalityOverRuns(u: Store, cfg: Config, s: State, c: Consumer, bs: seq<Block>)
    requires Inv(u, s, c) && (cfg.inclusive ==> s.last.Some?) && forall b <- bs :: GoodBlock(u, b)
    ensures var (t, es) := Run(u, cfg, s, bs);
      && Linked(u, s.db.lib.id, Finalized(es), t.db.lib.id)
      && (forall i, j | 0 <= i < j < |Finalized(es)| :: Finalized(es)[i] != Finalized(es)[j])
      && (forall b <- Finalized(es) :: b !in StalledIn(es))
  {
    RunCorrect(u, cfg, s, c, bs);
    FinalityOfLegalStreams(u, c, Run(u, cfg, s, bs).1);
  }

  // How far one step goes

  /** Whether `b`, now stored in `db`, becomes the head. */
  ghost predicate BecomesHead(s: State, db: Db, b: Block) {
    (s.last.None? || s.last.value.num < b.num) && b.id != s.db.lib.id && Descends(db, s.db.lib.id, b.id)
  }

  /** Whether the LIB moves up to `lib`. */
  ghost predicate MovesLib(db: Db, lib: Ref) {
    lib != EMPTY_REF && lib.id != db.lib.id && Descends(db, db.lib.id, lib.id)
  }

  lemma AdvanceLibMoves(u: Store, cfg: Config, s: State, b: Block)
    requires DbOk(u, s.db) && s.db.HasLib() && GoodBlock(u, b)
    ensures var t, lib := AdvanceLib(u, cfg, s, b, None).0, BlockInChain(u, s.db, b.AsRef(), b.libNum);
      t.last == s.last && t.db.lib == if MovesLib(s.db, lib) then lib else s.db.lib
  {
    var lib := BlockInChain(u, s.db, b.AsRef(), b.libNum);
    BlockInChainMeaning(u, s.db, b, b.libNum);
    RecomputedMeaning(s.db, lib.id);
  }

  lemma ExtendAdvances(u: Store, cfg: Config, s: State, b: Block)
    requires DbOk(u, s.db) && s.db.HasLib() && CacheOk(s) && GoodBlock(u, b) && b.id !in s.db.stored && DbOk(u, DbWith(s, b))
    ensures var t, db := Extend(u, cfg, s, s.(db := DbWith(s, b)), b, None).0, DbWith(s, b);
      var lib := BlockInChain(u, db, b.AsRef(), b.libNum);
      && t.last == (if BecomesHead(s, db, b) then Some(b) else s.last)
      && t.db.lib == (if BecomesHead(s, db, b) && MovesLib(db, lib) then lib else s.db.lib)
  {
    var s1 := s.(db := DbWith(s, b));
    CacheIsExact(u, s, b);
    RecomputedMeaning(s1.db, b.id);
    if s.Triggers(b) && NewChain(s1, b) != [] {
      var chain := NewChain(s1, b);
      NewPathWasStored(u, s, b, chain);
      hide AdvanceLib, Extend, Linked;
      ExtendIs(u, cfg, s, b, chain[..|chain| - 1]);
      AdvanceLibMoves(u, cfg, WithNewHead(s, b, chain[..|chain| - 1]), b);
    }
  }

  /** Exactly when a block becomes the head, and exactly where the LIB is then. */
  lemma StepAdvances(u: Store, cfg: Config, s: State, c: Consumer, b: Block)
    requires Inv(u, s, c) && GoodBlock(u, b) && (cfg.inclusive ==> s.last.Some?) && DbOk(u, DbWith(s, b))
    ensures var t, db := Step(u, cfg, s, b).0, DbWith(s, b);
      var lib := BlockInChain(u, db, b.AsRef(), b.libNum);
      var head := b.id !in s.db.stored && (b.num >= s.db.lib.num || s.last.None?) && BecomesHead(s, db, b);
      && t.last == (if head then Some(b) else s.last)
      && t.db.lib == (if head && MovesLib(db, lib) then lib else s.db.lib)
  {
    hide Extend, BecomesHead, MovesLib, BlockInChain;
    if b.id !in s.db.stored {
      ExtendAdvances(u, cfg, s, b);
    }
  }

  lemma RecomputedMeaning(db: Db, head: Id)
    ensures Recomputed(db, head) != [] <==> head != db.lib.id && Descends(db, db.lib.id, head)
  {
    if head == db.lib.id {
      assert Linked(db.stored, head, [], head);
      PathToIs(db.stored, head, [], head);
    } else if Descends(db, db.lib.id, head) {
      var p :| Linked(db.stored, db.lib.id, p, head);
      PathToIs(db.stored, db.lib.id, p, head);
    }
  }

  /**
   After the undos of a reorganisation the consumer's top is the junction block they report. It always is
   reported, unless it is a LIB that is not stored.
   */
  lemma UndosStopAtJunction(u: Store, s: State, c: Consumer, b: Block, p: seq<Block>)
    requires Inv(u, s, c) && GoodBlock(u, b) && b.id !in s.db.stored
    requires Linked(s.db.stored, s.db.lib.id, p, b.parent)
    ensures var w := SentSwitch(s, b);
      var d := c.ApplyAll(Emit(Undo, w.undos, s.KnownLib(), b.AsRef(), w.junction));
      && d.Some?
      && (d.value.Top() !in s.db.stored ==> d.value.Top() == s.db.lib.id)
      && w.junction == if w.undos != [] && d.value.Top() in s.db.stored then Some(s.db.stored[d.value.Top()].AsRef()) else None
  {
    hide Linked, SentSwitch, Select;
    var w, h := SentSwitch(s, b), c.blocks[c.fin..];
    AboveLib(u, s, c, h, s.HeadId());
    var k, m := ReorgParts(u, s, c, b, p);
    UndoneTo(c, w, p, k, s.KnownLib(), b.AsRef());
    LinkedElements(s.db.stored, s.db.lib.id, p, b.parent);
  }

  lemma UndoneTo(c: Consumer, w: Reorg, p: seq<Block>, k: nat, lib: Ref, head: Ref)
    requires c.fin + k <= |c.blocks| && k <= |p| && c.blocks[c.fin..][..k] == p[..k]
    requires w.undos == Reverse(c.blocks[c.fin..][k..]) && lib.id == c.Final()
    requires forall x <- c.blocks[c.fin..] :: lib.num <= x.num
    ensures var d := c.ApplyAll(Emit(Undo, w.undos, lib, head, w.junction)); d.Some? && d.value.Top() == At(c.Final(), p, k)
  {
    hide Reverse, Emit, Consumer.ApplyAll, Consumer.Top;
    assert c.blocks[c.fin..][k..] == c.blocks[c.fin + k..];
    forall x <- c.blocks[c.fin + k..] ensures lib.num <= x.num { assert x in c.blocks[c.fin..]; }
    MoveDown(c, c.fin + k, w.undos, lib, head, w.junction);
    TopAfterUndo(c, p, k);
  }

  lemma TopAfterUndo(c: Consumer, p: seq<Block>, k: nat)
    requires c.fin + k <= |c.blocks| && k <= |p| && c.blocks[c.fin..][..k] == p[..k]
    ensures c.(blocks := c.blocks[..c.fin + k]).Top() == At(c.Final(), p, k)
  {
    assert k > 0 ==> c.blocks[c.fin + k - 1] == c.blocks[c.fin..][..k][k - 1] == p[..k][k - 1];
  }

  // Where runs start

  function StartState(lib: Ref, inclusive: bool): State {
    State(Db(map[], map[lib.id := lib.num], lib), None, if inclusive then EMPTY_REF else lib, [], {})
  }

  function NewConsumer(base: Id): Consumer { Consumer(base, [], 0, {}) }

  lemma StartInv(u: Store, lib: Ref, inclusive: bool)
    requires WellFormed(u) && lib.id in u && u[lib.id].num == lib.num
    ensures Inv(u, StartState(lib, inclusive), NewConsumer(lib.id))
  {
    assert Linked(u, lib.id, [], lib.id) && Linked(map[], lib.id, [], lib.id);
  }

  /** With an inclusive LIB the first block, when it is the LIB, is sent as new and at once as irreversible. */
  lemma InitialBlock(u: Store, cfg: Config, s: State, b: Block)
    requires Inv(u, s, NewConsumer(s.db.lib.id)) && GoodBlock(u, b)
    requires cfg.inclusive && s.last.None? && b.id == s.db.lib.id
    ensures var (t, es) := Step(u, cfg, s, b);
      && es == [Event(New, b, s.KnownLib(), b.AsRef(), None), Event(Irreversible, b, b.AsRef(), b.AsRef(), None)]
      && Inv(u, t, NewConsumer(b.id)) && t.last == Some(b) && t.KnownLib() == b.AsRef()
  {
  }

  /**
   `es` opens with the LIB block itself, new and at once irreversible, when `k` is 2; the rest is legal for
   a consumer that stands on the LIB, and brings it in step with `t`.
   */
  ghost predicate Opens(u: Store, lib: Id, t: State, es: seq<Event>, k: nat) {
    && k <= |es| && AllIn(u, es)
    && (k == 0 || (k == 2 && es[0].step == New && es[1].step == Irreversible && es[0].block == es[1].block && es[0].block.id == lib))
    && var c := NewConsumer(lib).ApplyAll(es[k..]);
      c.Some? && Inv(u, t, c.value) && (t.last.None? ==> es == [])
  }

  /** A run with an inclusive LIB, whichever block comes first: the LIB block is sent at most once, and first. */
  lemma {:induction false} InclusiveRunCorrect(u: Store, cfg: Config, s: State, bs: seq<Block>) returns (k: nat)
    requires cfg.inclusive && s.last.None? && Inv(u, s, NewConsumer(s.db.lib.id)) && forall b <- bs :: GoodBlock(u, b)
    ensures Opens(u, s.db.lib.id, Run(u, cfg, s, bs).0, Run(u, cfg, s, bs).1, k)
    decreases |bs|
  {
    if bs == [] {
      k := 0;
    } else {
      var n := |bs| - 1;
      assert bs[n] in bs;
      hide Step, Inv;
      k := InclusiveRunCorrect(u, cfg, s, bs[..n]);
      var (m, es) := Run(u, cfg, s, bs[..n]);
      k := OpensOne(u, cfg, s.db.lib.id, m, es, k, bs[n]);
    }
  }

  /** Finality over a run with an inclusive LIB: above the LIB it is as over any other run. */
  lemma FinalityOfInclusiveRuns(u: Store, cfg: Config, s: State, bs: seq<Block>) returns (k: nat)
    requires cfg.inclusive && s.last.None? && Inv(u, s, NewConsumer(s.db.lib.id)) && forall b <- bs :: GoodBlock(u, b)
    ensures var (t, es) := Run(u, cfg, s, bs);
      && Opens(u, s.db.lib.id, t, es, k)
      && var final := Finalized(es[k..]);
      && Linked(u, s.db.lib.id, final, t.db.lib.id)
      && (forall i, j | 0 <= i < j < |final| :: final[i] != final[j])
      && (forall b <- final :: b !in StalledIn(es[k..]) && b.id != s.db.lib.id)
  {
    k := InclusiveRunCorrect(u, cfg, s, bs);
    var (t, es) := Run(u, cfg, s, bs);
    FinalAfterOpening(u, s, t, es, k);
  }

  lemma FinalAfterOpening(u: Store, s: State, t: State, es: seq<Event>, k: nat)
    requires Inv(u, s, NewConsumer(s.db.lib.id)) && Opens(u, s.db.lib.id, t, es, k)
    ensures var final := Finalized(es[k..]);
      && Linked(u, s.db.lib.id, final, t.db.lib.id)
      && (forall i, j | 0 <= i < j < |final| :: final[i] != final[j])
      && (forall b <- final :: b !in StalledIn(es[k..]) && b.id != s.db.lib.id)
  {
    hide Consumer.ApplyAll, Linked, SentClosed, CacheOk, StalledBelow;
    FinalityOfLegalStreams(u, NewConsumer(s.db.lib.id), es[k..]);
    LinkedElements(u, s.db.lib.id, Finalized(es[k..]), t.db.lib.id);
  }

  lemma OpensOne(u: Store, cfg: Config, lib: Id, m: State, es: seq<Event>, k: nat, b: Block) returns (l: nat)
    requires cfg.inclusive && Opens(u, lib, m, es, k) && GoodBlock(u, b)
    ensures Inv(u, m, NewConsumer(lib).ApplyAll(es[k..]).value)
    ensures Opens(u, lib, Step(u, cfg, m, b).0, es + Step(u, cfg, m, b).1, l)
  {
    hide Step, Linked, InStep, SentClosed, CacheOk, StalledBelow, Consumer.ApplyAll;
    var c := NewConsumer(lib).ApplyAll(es[k..]).value;
    var fs := Step(u, cfg, m, b).1;
    if m.last.None? && b.id == m.db.lib.id {
      l := 2;
      assert es + fs == fs;
      OpensWithLib(u, cfg, lib, m, b);
    } else {
      StepIsLegal(u, cfg, m, c, b);
      l := k;
      assert (es + fs)[k..] == es[k..] + fs;
      ApplyConcat(NewConsumer(lib), es[k..], fs);
    }
  }

  lemma OpensWithLib(u: Store, cfg: Config, lib: Id, m: State, b: Block)
    requires cfg.inclusive && Opens(u, lib, m, [], 0) && GoodBlock(u, b) && m.last.None? && b.id == m.db.lib.id
    ensures Opens(u, lib, Step(u, cfg, m, b).0, Step(u, cfg, m, b).1, 2)
  {
    hide Step, Inv;
    OpensNow(u, m, lib);
    InitialBlock(u, cfg, m, b);
    assert Step(u, cfg, m, b).1[2..] == [];
  }

  lemma OpensNow(u: Store, m: State, lib: Id)
    requires Opens(u, lib, m, [], 0)
    ensures Inv(u, m, NewConsumer(lib)) && m.db.lib.id == lib
  {
  }

  lemma StepIsLegal(u: Store, cfg: Config, m: State, c: Consumer, b: Block)
    requires Inv(u, m, c) && GoodBlock(u, b) && !(cfg.inclusive && m.last.None? && b.id == m.db.lib.id)
    ensures var (t, fs) := Step(u, cfg, m, b);
      && AllIn(u, fs) && c.ApplyAll(fs).Some? && Inv(u, t, c.ApplyAll(fs).value)
      && (t.last.None? ==> m.last.None? && fs == [])
  {
    hide Step, InStep, SentClosed, CacheOk, StalledBelow;
    StepCorrect(u, cfg, m, c, b);
    StoredAreIn(u, cfg, m, c, b);
    SilentWithoutHead(u, cfg, m, b);
  }

  lemma SilentWithoutHead(u: Store, cfg: Config, m: State, b: Block)
    requires DbOk(u, m.db) && m.db.HasLib() && GoodBlock(u, b)
    ensures Step(u, cfg, m, b).0.last.None? ==> m.last.None? && Step(u, cfg, m, b).1 == []
  {
    hide Linked, NewChain, SentSwitch, BlockInChain, Emit, EmitFinal, Select, Purge;
    AddLinkOk(u, m.db, b);
  }

  /**
   While the LIB is unknown nothing is sent. The block that makes it known starts a stream for a consumer
   standing on the LIB, and every event sent with it is told.
   */
  lemma DiscoveryStarts(u: Store, cfg: Config, s: State, b: Block)
    requires Waiting(u, s) && GoodBlock(u, b)
    ensures var (t, es) := Step(u, cfg, s, b);
      if t.db.HasLib() then StartsAt(u, b, t, es)
      else Waiting(u, t) && es == []
  {
    AddLinkOk(u, s.db, b);
    var s1 := s.(db := DbWith(s, b));
    if b.id !in s.db.stored {
      BlockInChainMeaning(u, s1.db, b, b.libNum);
      var lib := if b.num == cfg.first then b.AsRef() else BlockInChain(u, s1.db, b.AsRef(), b.libNum);
      if lib != EMPTY_REF {
        StoredAncestor(u, s1.db, b, lib);
        var s2 := s1.(db := s1.db.(lib := lib));
        if lib.num == b.num {
          SelfIsLib(u, s1.db, b, lib);
          DiscoveredAtBlock(u, s2, b);
        } else {
          BlockBelowIgnoresLib(u, s1.db, s2.db, b.id, b.libNum);
          DiscoveredBelow(u, cfg, s, s2, b, s2.db.stored[lib.id]);
        }
      }
    }
  }

  lemma DiscoveredAtBlock(u: Store, s: State, b: Block)
    requires DbOk(u, s.db) && s.db.HasLib() && s.last.None? && s.sent == {} && s.chain == [] && GoodBlock(u, b)
    requires s.db.lib.id == b.id && s.db.lib.num == b.num && s.libSeen == EMPTY_REF
    ensures StartsAt(u, b, SendInitial(s, b).0, SendInitial(s, b).1)
  {
    assert Linked(u, b.id, [], b.id) && Linked(s.db.stored, b.id, [], b.id);
  }

  /**
   A LIB below the block: legal events, and then the LIB's block is declared final, though nobody was sent it.
   The block itself as the LIB: it is sent and declared final, or not sent at all when the LIB carries a
   number below the block's.
   */
  ghost predicate StartsAt(u: Store, b: Block, t: State, es: seq<Event>) {
    var k, lib, n := NewConsumer(t.db.lib.id), t.db.lib, |es| - 1;
    if lib.id != b.id then
      && n >= 0 && lib.id in u && t.last == Some(b)
      && es[n] == Event(Irreversible, u[lib.id], u[lib.id].AsRef(), b.AsRef(), None)
      && k.ApplyAll(es[..n]).Some? && Inv(u, t, k.ApplyAll(es[..n]).value)
    else
      && Inv(u, t, k)
      && es == if lib.num != b.num then []
               else [Event(New, b, b.AsRef(), b.AsRef(), None), Event(Irreversible, b, b.AsRef(), b.AsRef(), None)]
  }

  lemma SelfIsLib(u: Store, db: Db, b: Block, lib: Ref)
    requires DbOk(u, db) && GoodBlock(db.stored, b) && RefOk(u, lib) && lib.num == b.num
    requires lib == b.AsRef() || lib == BlockInChain(u, db, b.AsRef(), b.libNum)
    ensures lib.id == b.id
  {
    BlockInChainMeaning(u, db, b, b.libNum);
    assert Linked(db.stored, b.id, [], b.id);
    var p :| Linked(db.stored, lib.id, p, b.id);
    LinkedAscending(u, db.stored, lib.id, p, b.id);
    LinkedElements(db.stored, lib.id, p, b.id);
  }

  /** The LIB was found strictly below the new block, or at the new block under a lower number. */
  lemma DiscoveredBelow(u: Store, cfg: Config, s: State, s2: State, b: Block, first: Block)
    requires Discovered(u, s, s2, b, first) && s2.db.lib.num != b.num
    ensures Extend(u, cfg, s, s2, b, Some(first)).0.db.HasLib()
    ensures StartsAt(u, b, Extend(u, cfg, s, s2, b, Some(first)).0, Extend(u, cfg, s, s2, b, Some(first)).1)
  {
    hide Extend, StartsAt;
    var lib := s2.db.lib;
    var chain := Recomputed(s2.db, b.id);
    if chain == [] {
      DiscoveredSilently(u, cfg, s, s2, b, first);
    } else {
      NewPathWasStored(u, s.(db := s.db.(lib := lib)), b, chain);
      DiscoveredWithChain(u, cfg, s, s2, b, chain[..|chain| - 1], first);
    }
  }

  lemma DiscoveredSilently(u: Store, cfg: Config, s: State, s2: State, b: Block, first: Block)
    requires Discovered(u, s, s2, b, first) && s2.db.lib.num != b.num && Recomputed(s2.db, b.id) == []
    ensures Extend(u, cfg, s, s2, b, Some(first)).0.db.HasLib()
    ensures StartsAt(u, b, Extend(u, cfg, s, s2, b, Some(first)).0, Extend(u, cfg, s, s2, b, Some(first)).1)
  {
    hide AdvanceLib, Recomputed, BlockInChain;
    var lib := s2.db.lib;
    NothingAbove(u, s2.db, b);
    assert Linked(u, lib.id, [], lib.id) && Linked(s2.db.stored, lib.id, [], lib.id);
    assert Extend(u, cfg, s, s2, b, Some(first)) == (s2, []);
  }

  lemma NothingAbove(u: Store, db: Db, b: Block)
    requires DbOk(u, db) && db.HasLib() && GoodBlock(u, b) && b.id in db.stored
    requires db.lib == BlockInChain(u, db, b.AsRef(), b.libNum) && Recomputed(db, b.id) == []
    ensures db.lib.id == b.id
  {
    BlockInChainMeaning(u, db, b, b.libNum);
    var p :| Linked(db.stored, db.lib.id, p, b.id);
    PathToIs(db.stored, db.lib.id, p, b.id);
  }

  /** The LIB has just become known from `b`, and `first` is the LIB's block. */
  ghost predicate Discovered(u: Store, s: State, s2: State, b: Block, first: Block) {
    && Waiting(u, s) && GoodBlock(u, b) && b.id !in s.db.stored
    && s2 == s.(db := DbWith(s, b).(lib := s2.db.lib)) && s2.db.HasLib()
    && DbOk(u, s2.db) && IsFirst(u, s2.db, b, first) && first.id == s2.db.lib.id
  }

  lemma DiscoveredWithChain(u: Store, cfg: Config, s: State, s2: State, b: Block, p: seq<Block>, first: Block)
    requires Discovered(u, s, s2, b, first)
    requires Recomputed(s2.db, b.id) == p + [b] && Linked(s.db.stored, s2.db.lib.id, p, b.parent)
    ensures Extend(u, cfg, s, s2, b, Some(first)).0.db.HasLib()
    ensures StartsAt(u, b, Extend(u, cfg, s, s2, b, Some(first)).0, Extend(u, cfg, s, s2, b, Some(first)).1)
  {
    hide DbOk, Inv, AdvanceLib, Extend, StartsAt, ReorgEvents, NewStack, Consumer.ApplyAll, Linked, Recomputed, BlockInChain;
    var c, pre := NewConsumer(s2.db.lib.id), s.(db := s.db.(lib := s2.db.lib));
    DiscoveredIs(u, cfg, s, s2, b, p, first);
    DiscoveredChainSent(u, cfg, s, s2, b, p, first);
    FirstIsFinal(u, cfg, WithNewHead(pre, b, p), b, first);
    LibIsBelow(u, s2.db, b, first);
    StartsAfter(u, b, Extend(u, cfg, s, s2, b, Some(first)).0, ReorgEvents(pre, b, p),
                Event(Irreversible, first, first.AsRef(), b.AsRef(), None), c.(blocks := NewStack(c, p, b)));
  }

  lemma DiscoveredChainSent(u: Store, cfg: Config, s: State, s2: State, b: Block, p: seq<Block>, first: Block)
    requires Waiting(u, s) && GoodBlock(u, b) && b.id !in s.db.stored
    requires s2 == s.(db := DbWith(s, b).(lib := s2.db.lib)) && s2.db.HasLib()
    requires DbOk(u, s2.db) && s2.db.lib.id in s2.db.stored && first == s2.db.stored[s2.db.lib.id] && first.id == s2.db.lib.id
    requires Recomputed(s2.db, b.id) == p + [b] && Linked(s.db.stored, s2.db.lib.id, p, b.parent)
    ensures var c, pre := NewConsumer(s2.db.lib.id), s.(db := s.db.(lib := s2.db.lib));
      var d, s3 := c.(blocks := NewStack(c, p, b)), WithNewHead(pre, b, p);
      var db := Purge(s3.db, cfg.kept);
      && c.ApplyAll(ReorgEvents(pre, b, p)) == Some(d)
      && Inv(u, s3.(db := db, libSeen := first.AsRef(), sent := s3.sent * db.stored.Keys), d)
  {
    hide Linked, DbOk, Inv, Purge, Emit, SentSwitch, Select;
    var c, pre := NewConsumer(s2.db.lib.id), s.(db := s.db.(lib := s2.db.lib));
    PreInv(u, s, s2, b);
    ReorgIsLegal(u, pre, c, b, p);
    NewHeadKeepsInv(u, pre, c, b, p);
    assert WithNewHead(pre, b, p).db == s2.db;
    PurgeKeepsInv(u, WithNewHead(pre, b, p), c.(blocks := NewStack(c, p, b)), cfg.kept, first);
  }

  lemma LibIsBelow(u: Store, db: Db, b: Block, first: Block)
    requires DbOk(u, db) && Recomputed(db, b.id) != [] && db.lib.id in db.stored && first == db.stored[db.lib.id]
    ensures db.lib.id != b.id && db.lib.id in u && u[db.lib.id] == first
  {
    RecomputedMeaning(db, b.id);
  }

  lemma StartsAfter(u: Store, b: Block, t: State, moved: seq<Event>, e: Event, d: Consumer)
    requires NewConsumer(t.db.lib.id).ApplyAll(moved) == Some(d) && Inv(u, t, d) && t.last == Some(b)
    requires t.db.lib.id != b.id && t.db.lib.id in u
    requires e == Event(Irreversible, u[t.db.lib.id], u[t.db.lib.id].AsRef(), b.AsRef(), None)
    ensures StartsAt(u, b, t, moved + [e])
  {
    hide Inv, Consumer.ApplyAll;
    assert (moved + [e])[..|moved|] == moved;
  }

  lemma DiscoveredIs(u: Store, cfg: Config, s: State, s2: State, b: Block, p: seq<Block>, first: Block)
    requires DbOk(u, s2.db) && GoodBlock(u, b) && IsFirst(u, s2.db, b, first) && Waiting(u, s)
    requires s2 == s.(db := DbWith(s, b).(lib := s2.db.lib)) && s2.db.HasLib()
    requires Recomputed(s2.db, b.id) == p + [b]
    ensures var pre := s.(db := s.db.(lib := s2.db.lib));
      WithNewHead(pre, b, p).db == s2.db &&
      var (t, es) := AdvanceLib(u, cfg, WithNewHead(pre, b, p), b, Some(first));
      Extend(u, cfg, s, s2, b, Some(first)) == (t, ReorgEvents(pre, b, p) + es)
  {
    hide AdvanceLib, Linked, DbOk;
  }

  /** The state as if the LIB had been known before the block came. */
  lemma PreInv(u: Store, s: State, s2: State, b: Block)
    requires Waiting(u, s) && GoodBlock(u, b) && b.id !in s.db.stored
    requires s2 == s.(db := DbWith(s, b).(lib := s2.db.lib)) && s2.db.HasLib()
    requires DbOk(u, s2.db) && s2.db.lib.id in s2.db.stored && Recomputed(s2.db, b.id) != []
    ensures Inv(u, s.(db := s.db.(lib := s2.db.lib)), NewConsumer(s2.db.lib.id))
  {
    RecomputedMeaning(s2.db, b.id);
    assert Linked(u, s2.db.lib.id, [], s2.db.lib.id) && Linked(s.db.stored, s2.db.lib.id, [], s2.db.lib.id);
  }

  lemma FirstIsFinal(u: Store, cfg: Config, s: State, b: Block, first: Block)
    requires DbOk(u, s.db) && s.db.HasLib() && GoodBlock(u, b) && IsFirst(u, s.db, b, first)
    ensures var (t, es) := AdvanceLib(u, cfg, s, b, Some(first));
      && es == [Event(Irreversible, first, first.AsRef(), b.AsRef(), None)]
      && t == s.(db := Purge(s.db, cfg.kept), libSeen := first.AsRef(), sent := s.sent * Purge(s.db, cfg.kept).stored.Keys)
  {
    assert s.db.(lib := s.db.lib) == s.db;
  }

  lemma PurgeKeepsInv(u: Store, s: State, c: Consumer, kept: nat, first: Block)
    requires Inv(u, s, c) && s.last.Some? && s.db.lib.id in s.db.stored && first == s.db.stored[s.db.lib.id]
    ensures var db := Purge(s.db, kept);
      Inv(u, s.(db := db, libSeen := first.AsRef(), sent := s.sent * db.stored.Keys), c)
  {
    assert first == u[s.db.lib.id] && first.id == s.db.lib.id && first.id != "";
    hide Linked, Purge, DbOk, InStep, SentClosed, CacheOk;
    PurgeSameLib(u, s, kept);
    PurgeInStep(u, s, c, kept, first.AsRef());
    PurgeKeepsCache(u, s, kept);
  }

  lemma PurgeInStep(u: Store, s: State, c: Consumer, kept: nat, seen: Ref)
    requires DbOk(u, s.db) && s.db.HasLib() && InStep(u, s, c)
    ensures InStep(u, s.(db := Purge(s.db, kept), libSeen := seen, sent := s.sent * Purge(s.db, kept).stored.Keys), c)
  {
    hide Linked, Purge, DbOk;
    PurgeKeepsPath(u, s.db, kept, c.blocks[c.fin..], s.HeadId());
    PurgeKeepsLib(s.db, kept);
  }

  lemma PurgeKeepsCache(u: Store, s: State, kept: nat)
    requires DbOk(u, s.db) && s.db.HasLib() && CacheOk(s)
    ensures forall seen, sent :: CacheOk(s.(db := Purge(s.db, kept), libSeen := seen, sent := sent))
  {
    hide Linked;
    if s.chain != [] && s.chain[0].parent == s.db.lib.id {
      PurgeKeepsPath(u, s.db, kept, s.chain, s.chain[|s.chain| - 1].id);
    }
  }

  lemma PurgeSameLib(u: Store, s: State, kept: nat)
    requires DbOk(u, s.db) && s.db.HasLib() && s.db.lib.id in s.db.stored && SentClosed(u, s.db, s.sent)
    ensures var db := Purge(s.db, kept);
      DbOk(u, db) && db.lib == s.db.lib && SentClosed(u, db, s.sent * db.stored.Keys)
  {
    MoveAndPurgeOk(u, s.db, s.db.lib, kept);
    assert s.db.(lib := s.db.lib) == s.db;
  }

  lemma PurgeKeepsPath(u: Store, db: Db, kept: nat, p: seq<Block>, head: Id)
    requires DbOk(u, db) && db.HasLib() && Linked(db.stored, db.lib.id, p, head)
    ensures Linked(Purge(db, kept).stored, db.lib.id, p, head)
    ensures forall x <- p :: x.id in Purge(db, kept).stored
  {
    PurgeInvisibleAboveLib(u, db, kept, head);
    PathToIs(db.stored, db.lib.id, p, head);
    LinkedElements(Purge(db, kept).stored, db.lib.id, p, head);
  }
}
