/** What a subscriber of the hub receives, from its initial blocks on, is one legal stream. */
module HubStreams {
  import opened Chain
  import opened Consumers
  import opened ForkDbModel
  import opened ForkableModel
  import opened ForkableInvariant
  import opened ForkableRuns
  import opened ResumeModel
  import opened Resume
  import opened ResumeRuns
  import opened ResumeExact
  import opened ResumeThrough
  import opened ForkDbClass
  import opened ForkableClass
  import opened HubClass

  /** Two consumers with the same final block and the same blocks above it. */
  predicate SameView(c: Consumer, d: Consumer) {
    c.fin <= |c.blocks| && d.fin <= |d.blocks| && c.Final() == d.Final() && c.blocks[c.fin..] == d.blocks[d.fin..]
  }

  /** In any state there is only one view to be in step with. */
  lemma OneView(u: Store, s: State, c: Consumer, d: Consumer)
    requires Inv(u, s, c) && Inv(u, s, d)
    ensures SameView(c, d)
  {
    LinkedUnique(s.db.stored, s.db.lib.id, c.blocks[c.fin..], d.blocks[d.fin..], s.HeadId());
  }

  /** A consumer with the live view is a live consumer, wherever its own base is. */
  lemma JoinsInv(u: Store, s: State, c: Consumer, d: Consumer)
    requires Inv(u, s, c) && SameView(c, d) && d.Valid(u) && d.stalled <= c.stalled
    ensures Inv(u, s, d)
  {
    hide Linked, DbOk, SentClosed, CacheOk;
  }

  /** The initial blocks for a cursor bring the consumer in step exactly when the cursor is resumable. */
  lemma CursorJoins(u: Store, s: State, c: Consumer, k: Consumer, cur: Cursor)
    requires Inv(u, s, c) && Past(u, s, c, k) && s.last.Some? && FromCursor(u, s, cur).Ok? && Usable(u, s, k, cur)
    ensures var d := k.ApplyAll(FromCursor(u, s, cur).value);
      && (Resumable(u, s, cur) ==> d == Some(c.(stalled := k.stalled)) && Inv(u, s, d.value))
      && (!Resumable(u, s, cur) ==> d != Some(c.(stalled := k.stalled)))
  {
    hide FromCursor, Linked, SentClosed, CacheOk, Usable, Resumable, Complete;
    ResumesExactlyWhen(u, s, c, k, cur);
    JoinsInv(u, s, c, c.(stalled := k.stalled));
  }

  /** So do the initial blocks from a number, for the consumer that starts there, unless a LIB at a hole is sent. */
  lemma NumJoins(u: Store, s: State, c: Consumer, num: nat, a: nat, l: nat)
    requires Inv(u, s, c) && NumFits(u, s, num, a, l)
    ensures var (k, d) := FromNumViews(u, s, num, a, l);
      if SendsHole(CompletePath(u, s.db.stored, HeadRef(s).id), s.db.lib, a, l) then d.None?
      else d.Some? && Inv(u, s, d.value) && SameView(c, d.value)
  {
    hide FromNum, Inv, Linked, Complete, Starter, Led, SendsHole, SameView, StartsAtNum, Consumer.ApplyAll;
    var seg := CompletePath(u, s.db.stored, HeadRef(s).id);
    HasItsLib(u, s, c);
    FromNumIsLed(u, s, num, seg, a, l);
    LedViews(u, s, c, seg, a, l);
  }

  lemma HasItsLib(u: Store, s: State, c: Consumer)
    requires Inv(u, s, c)
    ensures s.db.HasLib()
  {
  }

  lemma LedViews(u: Store, s: State, c: Consumer, seg: seq<Block>, a: nat, l: nat)
    requires Inv(u, s, c) && s.last.Some? && seg == CompletePath(u, s.db.stored, HeadRef(s).id)
    requires a <= |seg| && l < |seg| && seg[l].id == s.db.lib.id
    ensures var d := Led(RootOf(seg, HeadRef(s).id), seg, a, l); Inv(u, s, d) && SameView(c, d)
  {
    hide Linked, SentClosed, CacheOk, StalledBelow, InStep, SameView, DbOk, RefOk, Complete;
    SegmentViews(u, s, c, seg, if a <= l then a else l + 1, l);
  }

  ghost predicate NumFits(u: Store, s: State, num: nat, a: nat, l: nat) {
    && DbOk(u, s.db) && s.last.Some? && FromNum(u, s, num).Ok?
    && var seg := CompletePath(u, s.db.stored, HeadRef(s).id);
      StartsAtNum(seg, num, a) && l < |seg| && seg[l].id == s.db.lib.id
  }

  /** The consumer that starts at `a`, and what the list makes of it. */
  ghost function FromNumViews(u: Store, s: State, num: nat, a: nat, l: nat): (Consumer, Option<Consumer>)
    requires NumFits(u, s, num, a, l)
  {
    var seg := CompletePath(u, s.db.stored, HeadRef(s).id);
    var k := Starter(RootOf(seg, HeadRef(s).id), seg, a, l);
    (k, k.ApplyAll(FromNum(u, s, num).value))
  }

  /** And the initial blocks through a cursor, for a fresh consumer, where the LIBs are in order. */
  lemma ThroughJoins(u: Store, s: State, c: Consumer, start: nat, cur: Cursor, i: nat, l: nat, a: nat)
    requires Inv(u, s, c) && ThroughCursorFits(u, s, start, cur, i, l, a)
    ensures var seg := CompletePath(u, s.db.stored, HeadRef(s).id);
      var root := RootOf(seg, HeadRef(s).id);
      var d := Fresh(At(root, seg, a)).ApplyAll(ThroughCursor(u, s, start, cur).value);
      if ThroughWorks(s, cur, seg, i, l) then d.Some? && Inv(u, s, d.value) && SameView(c, d.value)
      else d != Some(Led(root, seg, a, l))
  {
    hide ThroughCursor, Inv, Linked, Complete, SameView, Consumer.ApplyAll, Led, ThroughWorks, StartsAtNum;
    var seg := CompletePath(u, s.db.stored, HeadRef(s).id);
    ThroughCursorIsLed(u, s, start, cur, seg, i, l, a);
    LedViews(u, s, c, seg, a, l);
  }

  ghost predicate ThroughCursorFits(u: Store, s: State, start: nat, cur: Cursor, i: nat, l: nat, a: nat) {
    && DbOk(u, s.db)
    && var seg := CompletePath(u, s.db.stored, HeadRef(s).id);
      a <= |seg| && ThroughOk(u, s, start, cur, seg, i, l) && StartsAtNum(seg, start, a) && ThroughCursor(u, s, start, cur).Ok?
  }

  lemma SegmentAbove(u: Store, m: Store, root: Id, seg: seq<Block>, head: Id, a: nat, fin: nat)
    requires WellFormed(u) && Within(m, u) && Linked(m, root, seg, head) && a <= |seg| && fin <= |seg| - a
    ensures Consumer(At(root, seg, a), seg[a..], fin, {}).Valid(u)
  {
    hide Linked, WellFormed, Within;
    LinkedSuffix(u, m, root, seg, a, head);
    LinkedWithin(u, m, At(root, seg, a), seg[a..], head);
    LinkedElements(u, At(root, seg, a), seg[a..], head);
  }

  lemma SegmentFinal(root: Id, seg: seq<Block>, a: nat, l: nat)
    requires a <= l + 1 && l < |seg|
    ensures var d := Consumer(At(root, seg, a), seg[a..], l + 1 - a, {});
      d.Final() == seg[l].id && d.blocks[d.fin..] == seg[l + 1..]
  {
  }

  /** A consumer whose stack is the head's segment from position `a`, final up to the LIB, has the live view. */
  lemma SegmentViews(u: Store, s: State, c: Consumer, seg: seq<Block>, a: nat, l: nat)
    requires Inv(u, s, c) && s.last.Some? && seg == CompletePath(u, s.db.stored, HeadRef(s).id)
    requires a <= l + 1 && l < |seg| && seg[l].id == s.db.lib.id
    ensures var d := Consumer(At(RootOf(seg, HeadRef(s).id), seg, a), seg[a..], l + 1 - a, {});
      Inv(u, s, d) && SameView(c, d)
  {
    hide Linked, SentClosed, CacheOk, StalledBelow, RefOk, Consumer.Final;
    var root, head := RootOf(seg, HeadRef(s).id), HeadRef(s).id;
    SegmentAbove(u, s.db.stored, root, seg, head, a, l + 1 - a);
    SegmentFinal(root, seg, a, l);
    LinkedSuffix(u, s.db.stored, root, seg, l + 1, head);
    LinkedUnique(s.db.stored, s.db.lib.id, c.blocks[c.fin..], seg[l + 1..], head);
    JoinsInv(u, s, c, Consumer(At(root, seg, a), seg[a..], l + 1 - a, {}));
  }

  /** A stream that a consumer was led along so far goes on being legal as blocks arrive, prefix by prefix. */
  lemma StaysLive(u: Store, cfg: Config, s: State, k: Consumer, es: seq<Event>, bs: seq<Block>)
    requires k.ApplyAll(es).Some? && Inv(u, s, k.ApplyAll(es).value) && (cfg.inclusive ==> s.last.Some?)
    requires forall b <- bs :: GoodBlock(u, b)
    ensures var (t, fs) := Run(u, cfg, s, bs);
      && k.ApplyAll(es + fs).Some? && Inv(u, t, k.ApplyAll(es + fs).value)
      && forall n | 0 <= n <= |es + fs| :: k.ApplyAll((es + fs)[..n]).Some?
  {
    hide Run, Linked, SentClosed, CacheOk, InStep, StalledBelow;
    RunCorrect(u, cfg, s, k.ApplyAll(es).value, bs);
    var fs := Run(u, cfg, s, bs).1;
    ApplyConcat(k, es, fs);
    forall n | 0 <= n <= |es + fs| ensures k.ApplyAll((es + fs)[..n]).Some? {
      ApplyPrefix(k, es + fs, n);
    }
  }

  /** What happens while someone is subscribed: a block arrives, or its delivery loop takes a turn. */
  datatype Happening = Arrive(b: Block) | Turn(queueFirst: bool, fails: bool)

  /** The subscriber's consumer `k`, given everything due by now, would be in step with the Forkable. */
  ghost predicate InSession(u: Store, hub: ForkableHub, sub: Subscription, k: Consumer)
    reads hub, hub.joined, hub.forkable, hub.forkable.db, hub.forkable.Objects()
  {
    && hub.Valid() && hub.InStep() && DbOk(u, hub.forkable.db.Model()) && sub in hub.joined
    && (hub.forkable.cfg.inclusive ==> hub.forkable.lastBlockSent.Some?)
    && k.ApplyAll(sub.Due(hub.log)).Some? && Inv(u, hub.forkable.State(), k.ApplyAll(sub.Due(hub.log)).value)
  }

  method Happen(ghost u: Store, hub: ForkableHub, sub: Subscription, ghost k: Consumer, h: Happening)
    requires InSession(u, hub, sub, k) && (h.Arrive? ==> GoodBlock(u, h.b))
    modifies hub.forkable, hub.forkable.db, hub.forkable.Objects(), hub`subscribers, hub`log
    modifies hub.joined`blocks, hub.joined`handled, hub.joined`terminated
    ensures InSession(u, hub, sub, k) && hub.joined == old(hub.joined)
    ensures fresh(hub.forkable.Objects() - old(hub.forkable.Objects()))
  {
    hide DbOk, Inv, Step, Linked, Forkable.Live, Forkable.Shared, Forkable.Faithful, ForkDB.Consistent;
    ghost var s, log := hub.forkable.State(), hub.log;
    match h
    case Arrive(b) =>
      StepGoesOn(u, hub.forkable.cfg, s, k, sub.Due(log), b);
      var _ := hub.ProcessBlock(u, b);
      sub.DueGrows(log, Step(u, hub.forkable.cfg, s, b).1);
    case Turn(queueFirst, fails) =>
      var _ := hub.Deliver(sub, queueFirst, fails);
      assert hub.forkable.State() == s;
  }

  /**
   A subscriber whose initial blocks bring its consumer in step, and then any arrivals and deliveries in
   any order. What its handler was given is one legal stream, and unless it was cut off, what it was
   given and what waits for it end exactly where the Forkable is.
   */
  method Session(ghost u: Store, hub: ForkableHub, sub: Subscription, ghost k: Consumer, happenings: seq<Happening>)
    requires InSession(u, hub, sub, k) && forall h <- happenings | h.Arrive? :: GoodBlock(u, h.b)
    modifies hub.forkable, hub.forkable.db, hub.forkable.Objects(), hub`subscribers, hub`log
    modifies hub.joined`blocks, hub.joined`handled, hub.joined`terminated
    ensures InSession(u, hub, sub, k) && k.ApplyAll(sub.handled).Some?
    ensures !sub.terminated ==>
      var d := k.ApplyAll(sub.handled + sub.blocks); d.Some? && Inv(u, hub.forkable.State(), d.value)
  {
    hide Inv;
    ghost var objects := hub.forkable.Objects();
    for i := 0 to |happenings|
      invariant InSession(u, hub, sub, k) && hub.joined == old(hub.joined) && fresh(hub.forkable.Objects() - objects)
    {
      assert happenings[i] in happenings;
      Happen(u, hub, sub, k, happenings[i]);
    }
    Delivered(hub, sub, k);
  }

  lemma Delivered(hub: ForkableHub, sub: Subscription, k: Consumer)
    requires sub.Serves(hub.log) && k.ApplyAll(sub.Due(hub.log)).Some?
    ensures k.ApplyAll(sub.handled).Some?
  {
    ApplyPrefix(k, sub.Due(hub.log), |sub.handled|);
    assert sub.Due(hub.log)[..|sub.handled|] == sub.handled;
  }

  /** The subscription just made from a resumable cursor of the past starts such a session. */
  lemma CursorStartsSession(u: Store, hub: ForkableHub, sub: Subscription, c: Consumer, k: Consumer, cur: Cursor)
    requires hub.Valid() && hub.InStep() && DbOk(u, hub.forkable.db.Model()) && sub in hub.joined
    requires var s := hub.forkable.State();
      && Inv(u, s, c) && Past(u, s, c, k) && s.last.Some? && hub.Joins(sub, FromCursor(u, s, cur))
      && Usable(u, s, k, cur) && Resumable(u, s, cur)
    ensures InSession(u, hub, sub, k)
    ensures k.ApplyAll(sub.Due(hub.log)) == Some(c.(stalled := k.stalled))
  {
    hide FromCursor, Linked, SentClosed, CacheOk, Usable, Resumable, Complete;
    CursorJoins(u, hub.forkable.State(), c, k, cur);
    assert sub.Due(hub.log) == sub.initial;
  }

  /** And so does one just made from a number on the head's segment, or through a cursor. */
  lemma NumStartsSession(u: Store, hub: ForkableHub, sub: Subscription, c: Consumer, num: nat, a: nat, l: nat)
    requires hub.Valid() && hub.InStep() && DbOk(u, hub.forkable.db.Model()) && sub in hub.joined
    requires var s := hub.forkable.State();
      && Inv(u, s, c) && NumFits(u, s, num, a, l) && hub.Joins(sub, FromNum(u, s, num))
      && !SendsHole(CompletePath(u, s.db.stored, HeadRef(s).id), s.db.lib, a, l)
    ensures InSession(u, hub, sub, FromNumViews(u, hub.forkable.State(), num, a, l).0)
  {
    hide FromNum, Linked, SentClosed, CacheOk, Complete;
    NumJoins(u, hub.forkable.State(), c, num, a, l);
    assert sub.Due(hub.log) == sub.initial;
  }

  lemma ThroughStartsSession(u: Store, hub: ForkableHub, sub: Subscription, c: Consumer, start: nat, cur: Cursor,
                             i: nat, l: nat, a: nat)
    requires hub.Valid() && hub.InStep() && DbOk(u, hub.forkable.db.Model()) && sub in hub.joined
    requires var s := hub.forkable.State();
      && Inv(u, s, c) && ThroughCursorFits(u, s, start, cur, i, l, a) && hub.Joins(sub, ThroughCursor(u, s, start, cur))
      && ThroughWorks(s, cur, CompletePath(u, s.db.stored, HeadRef(s).id), i, l)
    ensures var s := hub.forkable.State();
      var seg := CompletePath(u, s.db.stored, HeadRef(s).id);
      InSession(u, hub, sub, Fresh(At(RootOf(seg, HeadRef(s).id), seg, a)))
  {
    hide ThroughCursor, Linked, SentClosed, CacheOk, Complete;
    ThroughJoins(u, hub.forkable.State(), c, start, cur, i, l, a);
    assert sub.Due(hub.log) == sub.initial;
  }

  lemma StepGoesOn(u: Store, cfg: Config, s: State, k: Consumer, es: seq<Event>, b: Block)
    requires k.ApplyAll(es).Some? && Inv(u, s, k.ApplyAll(es).value) && (cfg.inclusive ==> s.last.Some?) && GoodBlock(u, b)
    ensures b.id != b.parent
    ensures var (t, fs) := Step(u, cfg, s, b);
      k.ApplyAll(es + fs).Some? && Inv(u, t, k.ApplyAll(es + fs).value) && (cfg.inclusive ==> t.last.Some?)
  {
    hide Step;
    RunStep(u, cfg, s, k.ApplyAll(es).value, b);
    ApplyConcat(k, es, Step(u, cfg, s, b).1);
  }
}
