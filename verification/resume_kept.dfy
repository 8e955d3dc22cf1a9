/** How far back a cursor may lie: keeping final blocks is what keeps cursors good. */
module ResumeKept {
  import opened Chain
  import opened Consumers
  import opened ForkDbModel
  import opened ForkableModel
  import opened ForkableInvariant
  import opened ForkableRuns
  import opened ResumeModel
  import opened Resume
  import opened ResumeRuns
  import opened ResumeExact
  import opened StepFacts

  /** Of the stack from position `n` on, what is no more than the kept number below the LIB is stored. */
  ghost predicate Retained(kept: nat, s: State, c: Consumer, n: nat) {
    n <= c.fin <= |c.blocks| && forall x <- c.blocks[n..] | s.db.lib.num <= x.num + kept :: GoodBlock(s.db.stored, x)
  }

  lemma RetainedNow(u: Store, kept: nat, s: State, c: Consumer)
    requires Inv(u, s, c)
    ensures Retained(kept, s, c, c.fin)
  {
    LinkedElements(s.db.stored, s.db.lib.id, c.blocks[c.fin..], s.HeadId());
  }

  lemma RetainedStep(u: Store, cfg: Config, s: State, c: Consumer, b: Block, n: nat)
    requires Inv(u, s, c) && GoodBlock(u, b) && (cfg.inclusive ==> s.last.Some?) && Retained(cfg.kept, s, c, n)
    ensures var (t, es) := Step(u, cfg, s, b); c.ApplyAll(es).Some? && Retained(cfg.kept, t, c.ApplyAll(es).value, n)
  {
    hide Step, Linked, SentClosed, CacheOk, StalledBelow, Consumer.ApplyAll, Retained, InStep;
    var (t, es) := Step(u, cfg, s, b);
    AddLinkOk(u, s.db, b);
    StepCorrect(u, cfg, s, c, b);
    var d := c.ApplyAll(es).value;
    KeptBlocks(u, cfg, s, c, b);
    LibRises(u, cfg, s, c, b);
    var p := StalledExactly(u, cfg, s, c, b);
    FinalOnes(u, DbWith(s, b).stored, s.db.lib.id, p, t.db.lib.id);
    StackGrows(u, cfg, s, t, c, d, es, b, n, p);
  }

  lemma KeptBlocks(u: Store, cfg: Config, s: State, c: Consumer, b: Block)
    requires Arriving(u, cfg, s, c, b)
    ensures var t := Step(u, cfg, s, b).0;
      && (forall id <- s.db.stored :: GoodBlock(DbWith(s, b).stored, s.db.stored[id]))
      && forall x: Block | GoodBlock(DbWith(s, b).stored, x) && (x.id in s.db.stored || Accepted(s, b)) ::
        t.db.lib.num <= x.num + cfg.kept ==> GoodBlock(t.db.stored, x)
  {
    hide Step, Linked, InStep, SentClosed, CacheOk, StalledBelow;
    StepKeeps(u, cfg, s, c, b);
  }

  lemma FinalOnes(u: Store, m: Store, lib: Id, p: seq<Block>, newLib: Id)
    requires p != [] ==> Linked(m, lib, p, newLib)
    ensures forall x <- p :: GoodBlock(m, x)
  {
    if p != [] {
      LinkedElements(m, lib, p, newLib);
    }
  }

  lemma StackGrows(u: Store, cfg: Config, s: State, t: State, c: Consumer, d: Consumer, es: seq<Event>, b: Block, n: nat, p: seq<Block>)
    requires Retained(cfg.kept, s, c, n) && c.ApplyAll(es) == Some(d) && Inv(u, t, d) && Finalized(es) == p
    requires (forall x <- p :: GoodBlock(DbWith(s, b).stored, x)) && (p != [] ==> Accepted(s, b))
    requires s.db.lib.num <= t.db.lib.num && forall id <- s.db.stored :: GoodBlock(DbWith(s, b).stored, s.db.stored[id])
    requires forall x: Block | GoodBlock(DbWith(s, b).stored, x) && (x.id in s.db.stored || Accepted(s, b)) ::
      t.db.lib.num <= x.num + cfg.kept ==> GoodBlock(t.db.stored, x)
    ensures Retained(cfg.kept, t, d, n)
  {
    hide Linked, SentClosed, CacheOk, StalledBelow, Consumer.ApplyAll, Finalized, DbOk;
    FinalBlocksStay(c, es);
    LinkedElements(t.db.stored, t.db.lib.id, d.blocks[d.fin..], t.HeadId());
    forall x <- d.blocks[n..] | t.db.lib.num <= x.num + cfg.kept ensures GoodBlock(t.db.stored, x) {
      var j :| n <= j < |d.blocks| && d.blocks[j] == x;
      if j >= d.fin {
        assert d.blocks[d.fin..][j - d.fin] == x;
      } else if j >= c.fin {
        assert p[j - c.fin] == d.blocks[c.fin..d.fin][j - c.fin] == x;
        assert x in p && GoodBlock(DbWith(s, b).stored, x);
      } else {
        assert x == d.blocks[..c.fin][j] == c.blocks[..c.fin][j] == c.blocks[n..][j - n];
        assert GoodBlock(s.db.stored, x) && GoodBlock(DbWith(s, b).stored, x);
      }
    }
  }

  lemma {:induction false} RetainedRun(u: Store, cfg: Config, s: State, c: Consumer, bs: seq<Block>, n: nat)
    requires Inv(u, s, c) && (cfg.inclusive ==> s.last.Some?) && (forall b <- bs :: GoodBlock(u, b)) && Retained(cfg.kept, s, c, n)
    ensures var (t, es) := Run(u, cfg, s, bs); c.ApplyAll(es).Some? && Retained(cfg.kept, t, c.ApplyAll(es).value, n)
    decreases |bs|
  {
    hide Inv, Step, Retained;
    HasLibStill(u, s, c);
    if bs != [] {
      var l := |bs| - 1;
      assert bs[l] in bs;
      RetainedRun(u, cfg, s, c, bs[..l], n);
      RunCorrect(u, cfg, s, c, bs[..l]);
      var (m, es) := Run(u, cfg, s, bs[..l]);
      RetainedStep(u, cfg, m, c.ApplyAll(es).value, bs[l], n);
      HasLibStill(u, m, c.ApplyAll(es).value);
      ApplyConcat(c, es, Step(u, cfg, m, bs[l]).1);
    }
  }

  /** A path of stored blocks from a stored block to the head is part of the head's stored segment. */
  lemma ReachesDown(u: Store, m: Store, x: Id, d: seq<Block>, head: Id)
    requires WellFormed(u) && Within(m, u) && x in m && Linked(m, x, d, head)
    ensures var seg := CompletePath(u, m, head); seg != [] && seg[0].num <= m[x].num
  {
    var seg := CompletePath(u, m, head);
    LinkedIsWalk(m, x, d, head);
    WalkOnComplete(m, x, d, seg, head);
    LinkedElements(m, RootOf(seg, head), seg, head);
    LinkedAscending(u, m, RootOf(seg, head), seg, head);
    hide Linked, Walk;
    var j := |seg| - |d|;
    assert j > 0;
    assert m[x] == seg[j - 1];
  }

  /** The live chain above a consumer's final block is stored while that block is within the kept number. */
  lemma StillReaches(u: Store, kept: nat, s: State, c: Consumer, k: Consumer, n: nat)
    requires Inv(u, s, c) && Past(u, s, c, k) && s.last.Some? && Retained(kept, s, c, n) && n <= k.fin
    requires k.Final() in u && s.db.lib.num <= u[k.Final()].num + kept
    requires k.fin == n ==> k.Final() in s.db.stored
    ensures var seg := CompletePath(u, s.db.stored, HeadRef(s).id); seg != [] && seg[0].num <= u[k.Final()].num
  {
    hide Linked, Complete, Inv, Known, Retained, DbOk, Consumer.Final, Consumer.Top;
    var st, x, d := s.db.stored, k.Final(), c.blocks[k.fin..];
    ConsumerIsValid(u, s, c);
    LiveAbove(u, c, k);
    TopIsHead(u, s, c);
    AllStored(kept, s, c, k, n, u[x].num);
    LinkedElements(u, x, d, c.Top());
    assert forall i | 0 <= i < |d| :: d[i] in d;
    LinkedInStore(u, st, x, d, c.Top());
    if n < k.fin {
      FinalStored(u, kept, s, c, k, n);
    }
    ReachesDown(u, st, x, d, HeadRef(s).id);
  }

  lemma AllStored(kept: nat, s: State, c: Consumer, k: Consumer, n: nat, low: nat)
    requires Retained(kept, s, c, n) && n <= k.fin <= c.fin && s.db.lib.num <= low + kept
    requires forall y <- c.blocks[k.fin..] :: low < y.num
    ensures forall y <- c.blocks[k.fin..] :: GoodBlock(s.db.stored, y)
  {
    var d := c.blocks[k.fin..];
    forall y <- d ensures GoodBlock(s.db.stored, y) {
      var j :| 0 <= j < |d| && d[j] == y;
      assert c.blocks[n..][k.fin + j - n] == y;
    }
  }

  lemma FinalStored(u: Store, kept: nat, s: State, c: Consumer, k: Consumer, n: nat)
    requires c.Valid(u) && Retained(kept, s, c, n) && n < k.fin <= c.fin && k.fin <= |k.blocks| && k.blocks[..k.fin] == c.blocks[..k.fin]
    requires k.Final() in u && s.db.lib.num <= u[k.Final()].num + kept
    ensures k.Final() in s.db.stored
  {
    hide Linked;
    FinalOfPast(c, k, n);
    var y :| y in c.blocks[n..] && y.id == k.Final();
    LinkedElements(u, c.base, c.blocks, c.Top());
    assert y in c.blocks;
  }

  lemma ConsumerIsValid(u: Store, s: State, c: Consumer)
    requires Inv(u, s, c)
    ensures c.Valid(u) && WellFormed(u) && Within(s.db.stored, u)
  {
  }

  lemma FinalOfPast(c: Consumer, k: Consumer, n: nat)
    requires n < k.fin <= c.fin <= |c.blocks| && k.fin <= |k.blocks| && k.blocks[..k.fin] == c.blocks[..k.fin]
    ensures exists y :: y in c.blocks[n..] && y.id == k.Final()
  {
    var y := c.blocks[k.fin - 1];
    assert y == c.blocks[..k.fin][k.fin - 1] == k.blocks[k.fin - 1];
    assert y == c.blocks[n..][k.fin - 1 - n];
  }

  /** A consumer in the middle of a step has its final block at or above the one before the step. */
  lemma HeldAbove(u: Store, cfg: Config, s: State, c: Consumer, b: Block, n: nat, k: Consumer, cur: Cursor)
    requires Inv(u, s, c) && GoodBlock(u, b) && (cfg.inclusive ==> s.last.Some?) && Held(u, cfg, s, c, b, n, k, cur)
    ensures c.fin <= k.fin && (k.fin == c.fin ==> k.Final() == s.db.lib.id)
  {
    hide Step, Linked, SentClosed, CacheOk, StalledBelow, Consumer.ApplyAll;
    FinalBlocksStay(c, Step(u, cfg, s, b).1[..n + 1]);
    if k.fin == c.fin && c.fin > 0 {
      assert k.blocks[c.fin - 1] == k.blocks[..c.fin][c.fin - 1] == c.blocks[..c.fin][c.fin - 1];
    }
  }

  /** The disconnected consumer's final block, within the kept number of the LIB, is still in reach. */
  lemma HeldReaches(u: Store, cfg: Config, s: State, c: Consumer, b: Block, n: nat, k: Consumer, cur: Cursor, bs: seq<Block>)
    requires Inv(u, s, c) && GoodBlock(u, b) && (cfg.inclusive ==> s.last.Some?) && Held(u, cfg, s, c, b, n, k, cur)
    requires (forall x <- bs :: GoodBlock(u, x)) && s.db.lib.id in Step(u, cfg, s, b).0.db.stored
    ensures var t := Step(u, cfg, s, b).0;
      var now := Run(u, cfg, t, bs).0;
      var seg := CompletePath(u, now.db.stored, HeadRef(now).id);
      k.Final() in u && now.last.Some? && (now.db.lib.num <= u[k.Final()].num + cfg.kept ==> seg != [] && seg[0].num <= u[k.Final()].num)
  {
    hide Step, Past, Held, Linked, Complete, SentClosed, CacheOk, InStep, StalledBelow, Positioned, Retained, Consumer.ApplyAll;
    var (t, es) := Step(u, cfg, s, b);
    HeldHasHead(u, cfg, s, c, b, n, k, cur);
    RunStep(u, cfg, s, c, b);
    HeldIsPast(u, cfg, s, c, b, n, k, cur);
    HeldIsPositioned(u, cfg, s, c, b, n, k, cur);
    HeldAbove(u, cfg, s, c, b, n, k, cur);
    NamesLib(u, k, cur);
    var d := c.ApplyAll(es).value;
    RetainedNow(u, cfg.kept, s, c);
    RetainedStep(u, cfg, s, c, b, c.fin);
    RetainedRun(u, cfg, t, d, bs, c.fin);
    RunCorrect(u, cfg, t, d, bs);
    PastStaysOverRuns(u, cfg, t, d, k, bs);
    RunKeepsHead(u, cfg, t, d, bs);
    KeptOverRuns(u, cfg, t, d, bs);
    var (now, fs) := Run(u, cfg, t, bs);
    if now.db.lib.num <= u[k.Final()].num + cfg.kept {
      StillReaches(u, cfg.kept, now, d.ApplyAll(fs).value, k, c.fin);
    }
  }

  lemma NamesLib(u: Store, k: Consumer, cur: Cursor)
    requires Positioned(u, k, cur) && RefOk(u, cur.lib)
    ensures k.Final() == cur.lib.id && k.Final() in u
  {
  }

  /**
   What keeping final blocks is for: a cursor whose LIB is no more than the kept number below the LIB brings its
   consumer to where the live consumer is, if the LIBs carry the numbers of their blocks and the block of an
   Undo cursor has not become final. Then the stored segment is long enough.
   */
  lemma ResumesWithinKept(u: Store, cfg: Config, s: State, c: Consumer, b: Block, n: nat, k: Consumer, cur: Cursor, bs: seq<Block>)
    requires Inv(u, s, c) && GoodBlock(u, b) && (cfg.inclusive ==> s.last.Some?) && Held(u, cfg, s, c, b, n, k, cur)
    requires (forall x <- bs :: GoodBlock(u, x)) && s.db.lib.id in Step(u, cfg, s, b).0.db.stored
    requires cur.lib.id in u && cur.lib.num == u[cur.lib.id].num
    ensures var (t, es) := Step(u, cfg, s, b);
      var (now, fs) := Run(u, cfg, t, bs);
      var live := c.ApplyAll(es + fs);
      && live.Some? && now.db.lib.id in u
      && (now.db.lib.num <= cur.lib.num + cfg.kept ==>
            (LeadsTo(u, now, cur, k, live.value.(stalled := k.stalled)) <==>
              && (now.db.lib.num < u[now.db.lib.id].num ==> cur.lib.id == now.db.lib.id)
              && UndoneIsOpen(now, cur, CompletePath(u, now.db.stored, HeadRef(now).id))))
  {
    hide Step, Held, Linked, InStep, SentClosed, CacheOk, StalledBelow, WellFormed, Within, LeadsTo, Resumable, Complete, RefOk,
         Consumer.ApplyAll, UndoneIsOpen;
    ResumeAfterRun(u, cfg, s, c, b, n, k, cur, bs);
    WithinKept(u, cfg, s, c, b, n, k, cur, bs);
  }

  lemma WithinKept(u: Store, cfg: Config, s: State, c: Consumer, b: Block, n: nat, k: Consumer, cur: Cursor, bs: seq<Block>)
    requires Inv(u, s, c) && GoodBlock(u, b) && (cfg.inclusive ==> s.last.Some?) && Held(u, cfg, s, c, b, n, k, cur)
    requires (forall x <- bs :: GoodBlock(u, x)) && s.db.lib.id in Step(u, cfg, s, b).0.db.stored
    requires cur.lib.id in u && cur.lib.num == u[cur.lib.id].num
    ensures var now := Run(u, cfg, Step(u, cfg, s, b).0, bs).0;
      && now.db.lib.id in u
      && (now.db.lib.num <= cur.lib.num + cfg.kept ==>
            (Resumable(u, now, cur) <==>
              && (now.db.lib.num < u[now.db.lib.id].num ==> cur.lib.id == now.db.lib.id)
              && UndoneIsOpen(now, cur, CompletePath(u, now.db.stored, HeadRef(now).id))))
  {
    hide Step, Held, Linked, InStep, SentClosed, CacheOk, StalledBelow, WellFormed, Within, Resumable, Complete, UndoneIsOpen,
         Consumer.ApplyAll, Positioned;
    HeldReaches(u, cfg, s, c, b, n, k, cur, bs);
    HeldIsPositioned(u, cfg, s, c, b, n, k, cur);
    NamesLib(u, k, cur);
    var now := Run(u, cfg, Step(u, cfg, s, b).0, bs).0;
    RunHasLib(u, cfg, s, c, b, bs);
    if now.db.lib.num <= cur.lib.num + cfg.kept {
      ResumableIs(u, now, cur);
    }
  }

  lemma RunHasLib(u: Store, cfg: Config, s: State, c: Consumer, b: Block, bs: seq<Block>)
    requires Inv(u, s, c) && GoodBlock(u, b) && (cfg.inclusive ==> s.last.Some?) && forall x <- bs :: GoodBlock(u, x)
    ensures var now := Run(u, cfg, Step(u, cfg, s, b).0, bs).0; DbOk(u, now.db) && now.db.HasLib()
  {
    hide Step, Run, Linked, SentClosed, CacheOk, InStep, StalledBelow, Consumer.ApplyAll;
    RunStep(u, cfg, s, c, b);
    RunCorrect(u, cfg, Step(u, cfg, s, b).0, c.ApplyAll(Step(u, cfg, s, b).1).value, bs);
  }

  lemma ResumableIs(u: Store, s: State, cur: Cursor)
    requires DbOk(u, s.db) && s.db.HasLib() && cur.lib.id in u && cur.lib.num == u[cur.lib.id].num
    requires var seg := CompletePath(u, s.db.stored, HeadRef(s).id); seg != [] && seg[0].num <= cur.lib.num
    ensures Resumable(u, s, cur) <==>
      && (s.db.lib.num < u[s.db.lib.id].num ==> cur.lib.id == s.db.lib.id)
      && UndoneIsOpen(s, cur, CompletePath(u, s.db.stored, HeadRef(s).id))
  {
    hide Linked, Complete, UndoneIsOpen;
  }
}
