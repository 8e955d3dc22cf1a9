/** The hub: it shares what one Forkable emits among subscribers with bounded queues. */
module HubClass {
  import opened Chain
  import opened Consumers
  import opened ForkDbModel
  import opened ForkableModel
  import opened ResumeModel
  import opened ForkDbClass
  import opened ForkableClass

  /** Where a subscription stands: what its handler was given, what waits, and whether it was ended. */
  datatype Progress = Progress(handled: seq<Event>, blocks: seq<Event>, terminated: bool) {
    /** What one broadcast does: the event joins the queue, or finds it full and ends the subscription. */
    function Offer(size: nat, e: Event): Progress {
      if |blocks| == size then this.(terminated := true) else this.(blocks := blocks + [e])
    }
  }

  class Subscription {
    const size: nat
    var blocks: seq<Event>
    var terminated: bool
    /** What the handler was given. */
    var handled: seq<Event>
    /** What the subscriber was given to start with, and how many events the hub had broadcast by then. */
    ghost const initial: seq<Event>
    ghost const since: nat

    constructor (size: nat, ghost initial: seq<Event>, ghost since: nat)
      ensures this.size == size && this.initial == initial && this.since == since
      ensures blocks == [] && handled == [] && !terminated
    {
      this.size, this.initial, this.since := size, initial, since;
      blocks, handled, terminated := [], [], false;
    }

    ghost function Now(): Progress
      reads this
    {
      Progress(handled, blocks, terminated)
    }

    /** What is due to the subscriber when the hub has broadcast `log`. */
    ghost function Due(log: seq<Event>): seq<Event>
      requires since <= |log|
    {
      initial + log[since..]
    }

    /**
     The handler has been given a prefix of what is due, in order; while the subscription lives, all the
     rest waits in its queue.
     */
    ghost predicate Serves(log: seq<Event>)
      reads this
    {
      && since <= |log| && |blocks| <= size
      && handled <= Due(log)
      && (!terminated ==> handled + blocks == Due(log))
    }

    lemma DueGrows(log: seq<Event>, es: seq<Event>)
      requires since <= |log|
      ensures Due(log + es) == Due(log) + es
    {
    }

    lemma OfferServes(before: Progress, log: seq<Event>, e: Event)
      requires since <= |log| && |before.blocks| <= size && before.handled <= Due(log)
      requires !before.terminated ==> before.handled + before.blocks == Due(log)
      requires Now() == before.Offer(size, e)
      ensures Serves(log + [e])
    {
      DueGrows(log, [e]);
      assert before.handled + (before.blocks + [e]) == (before.handled + before.blocks) + [e];
    }

    method Push(e: Event) returns (ok: bool)
      modifies this`blocks
      ensures ok <==> |old(blocks)| != size
      ensures blocks == if ok then old(blocks) + [e] else old(blocks)
    {
      if |blocks| == size {
        return false;
      }
      blocks := blocks + [e];
      return true;
    }

    method Shutdown()
      modifies this`terminated
      ensures terminated
    {
      terminated := true;
    }

    /**
     One turn of the delivery loop. With something to choose from it may see either the queue or the
     shutdown first; `fails` is the handler's answer, which ends the subscription.
     */
    method Turn(queueFirst: bool, fails: bool, ghost log: seq<Event>) returns (running: bool)
      requires Serves(log)
      modifies this`blocks, this`handled, this`terminated
      ensures Serves(log) && old(handled) <= handled
      ensures handled == old(handled) + if old(blocks) != [] && !old(terminated) then [old(blocks)[0]] else []
      ensures blocks == if old(blocks) != [] && (queueFirst || !old(terminated)) then old(blocks)[1..] else old(blocks)
      ensures terminated <==> old(terminated) || (fails && handled != old(handled))
      ensures running <==> !terminated
    {
      if blocks != [] && (queueFirst || !terminated) {
        var e := blocks[0];
        blocks := blocks[1..];
        if terminated {
          return false;
        }
        assert old(handled) + old(blocks) == (old(handled) + [e]) + blocks;
        handled := handled + [e];
        if fails {
          Shutdown();
          return false;
        }
        return true;
      }
      return !terminated;
    }
  }

  class ForkableHub {
    const forkable: Forkable
    const sourceChannelSize: nat
    var subscribers: seq<Subscription>
    /** Everything broadcast so far, and everyone who ever subscribed. */
    ghost var log: seq<Event>
    ghost var joined: set<Subscription>

    ghost predicate Valid()
      reads this, joined
    {
      && (forall s <- subscribers :: s in joined)
      && (forall i, j | 0 <= i < j < |subscribers| :: subscribers[i] != subscribers[j])
      && (forall s <- joined :: s.Serves(log) && (!s.terminated ==> s in subscribers))
    }

    constructor (forkable: Forkable, sourceChannelSize: nat)
      ensures Valid() && subscribers == [] && joined == {} && log == forkable.emitted
      ensures this.forkable == forkable && this.sourceChannelSize == sourceChannelSize
    {
      this.forkable, this.sourceChannelSize := forkable, sourceChannelSize;
      subscribers, log, joined := [], forkable.emitted, {};
    }

    /** The queue is made large enough for the initial blocks: none of them is lost. */
    method Subscribe(initialBlocks: seq<Event>) returns (sub: Subscription)
      requires Valid()
      modifies this`subscribers, this`joined
      ensures Valid() && fresh(sub) && subscribers == old(subscribers) + [sub] && joined == old(joined) + {sub}
      ensures sub.since == |log| && sub.initial == initialBlocks == sub.blocks && sub.handled == [] && !sub.terminated
      ensures sub.size == sourceChannelSize + |initialBlocks|
    {
      sub := new Subscription(sourceChannelSize + |initialBlocks|, initialBlocks, |log|);
      for i := 0 to |initialBlocks|
        modifies sub
        invariant sub.blocks == initialBlocks[..i] && sub.handled == [] && !sub.terminated
      {
        var _ := sub.Push(initialBlocks[i]);
      }
      assert initialBlocks[..|initialBlocks|] == initialBlocks == sub.Due(log);
      subscribers := subscribers + [sub];
      joined := joined + {sub};
    }

    /** `now` is `was` without `sub`, the others in their order. */
    static ghost predicate TakesOut(was: seq<Subscription>, sub: Subscription, now: seq<Subscription>) {
      if sub in was then exists p | 0 <= p < |was| :: was[p] == sub && now == was[..p] + was[p + 1..] else now == was
    }

    method Unsubscribe(removeSub: Subscription)
      requires forall i, j | 0 <= i < j < |subscribers| :: subscribers[i] != subscribers[j]
      modifies this`subscribers
      ensures forall i, j | 0 <= i < j < |subscribers| :: subscribers[i] != subscribers[j]
      ensures forall s :: s in subscribers <==> s in old(subscribers) && s != removeSub
      ensures TakesOut(old(subscribers), removeSub, subscribers)
    {
      var newSubscriber := [];
      ghost var p: nat := |subscribers|;
      for i := 0 to |subscribers|
        invariant if p == |subscribers| then newSubscriber == subscribers[..i] && removeSub !in subscribers[..i]
                  else p < i && subscribers[p] == removeSub && newSubscriber == subscribers[..p] + subscribers[p + 1..i]
        invariant forall s :: s in newSubscriber <==> s in subscribers[..i] && s != removeSub
        invariant forall a, b | 0 <= a < b < |newSubscriber| :: newSubscriber[a] != newSubscriber[b]
      {
        assert subscribers[..i + 1] == subscribers[..i] + [subscribers[i]];
        assert forall s <- subscribers[..i] :: s != subscribers[i];
        assert forall a | 0 <= a < |newSubscriber| :: newSubscriber[a] in newSubscriber;
        if subscribers[i] != removeSub {
          assert p < i ==> subscribers[p + 1..i + 1] == subscribers[p + 1..i] + [subscribers[i]];
          newSubscriber := newSubscriber + [subscribers[i]];
        } else {
          p := i;
        }
      }
      assert subscribers[..|subscribers|] == subscribers;
      subscribers := newSubscriber;
    }

    method Offer(sub: Subscription, e: Event)
      requires forall i, j | 0 <= i < j < |subscribers| :: subscribers[i] != subscribers[j]
      modifies this`subscribers, sub`blocks, sub`terminated
      ensures forall i, j | 0 <= i < j < |subscribers| :: subscribers[i] != subscribers[j]
      ensures sub.Now() == old(sub.Now()).Offer(sub.size, e)
      ensures forall s :: s in subscribers <==> s in old(subscribers) && !(s == sub && old(|sub.blocks|) == sub.size)
    {
      var ok := sub.Push(e);
      if !ok {
        Unsubscribe(sub);
        sub.Shutdown();
      }
    }

    /** The Forkable's handler: every subscriber is offered the event; one with a full queue is cut off. */
    method BroadcastBlock(e: Event)
      requires Valid()
      modifies this`subscribers, this`log, joined`blocks, joined`terminated
      ensures Valid() && log == old(log) + [e] && joined == old(joined)
      ensures forall s <- old(subscribers) :: s.Now() == old(s.Now()).Offer(s.size, e)
      ensures forall s <- joined | s !in old(subscribers) :: s.Now() == old(s.Now())
      ensures forall s :: s in subscribers <==> s in old(subscribers) && old(|s.blocks|) != s.size
    {
      var subs := subscribers;
      var i := 0;
      while i < |subs|
        modifies this`subscribers, joined`blocks, joined`terminated
        invariant 0 <= i <= |subs|
        invariant forall a, b | 0 <= a < b < |subscribers| :: subscribers[a] != subscribers[b]
        invariant forall s :: s in subscribers <==> s in subs && !(s in subs[..i] && old(|s.blocks|) == s.size)
        invariant forall s <- subs[..i] :: s.Now() == old(s.Now()).Offer(s.size, e)
        invariant forall s <- joined :: s in subs[..i] || s.Now() == old(s.Now())
      {
        var sub := subs[i];
        assert sub in joined && sub !in subs[..i];
        assert subs[..i + 1] == subs[..i] + [sub];
        Offer(sub, e);
        i := i + 1;
      }
      assert subs[..|subs|] == subs;
      forall s <- joined ensures s.Serves(log + [e]) {
        if s in subs {
          s.OfferServes(old(s.Now()), log, e);
        } else {
          assert s.Due(log) <= s.Due(log + [e]);
        }
      }
      log := log + [e];
    }

    /** The Forkable is sound and has handed everything it emitted to the broadcast. */
    ghost predicate InStep()
      reads this, forkable, forkable.db
    {
      forkable.Valid() && log == forkable.emitted
    }

    /** One live block: whatever the Forkable makes of it is broadcast, event by event. */
    method ProcessBlock(ghost u: Store, blk: Block) returns (ok: bool)
      requires Valid() && InStep() && DbOk(u, forkable.db.Model()) && (blk.id == blk.parent || GoodBlock(u, blk))
      modifies forkable, forkable.db, forkable.Objects(), this`subscribers, this`log, joined`blocks, joined`terminated
      ensures Valid() && InStep() && joined == old(joined) && (ok <==> blk.id != blk.parent)
      ensures fresh(forkable.Objects() - old(forkable.Objects()))
      ensures !ok ==> forkable.State() == old(forkable.State()) && log == old(log)
      ensures ok ==> DbOk(u, forkable.db.Model()) && forkable.State() == Step(u, forkable.cfg, old(forkable.State()), blk).0
      ensures ok ==> log == old(log) + Step(u, forkable.cfg, old(forkable.State()), blk).1
    {
      hide DbOk, Step, Forkable.Valid;
      var before := |forkable.emitted|;
      ok := forkable.ProcessBlock(u, blk);
      Broadcast(forkable.emitted[before..]);
    }

    method Broadcast(es: seq<Event>)
      requires Valid()
      modifies this`subscribers, this`log, joined`blocks, joined`terminated
      ensures Valid() && log == old(log) + es && joined == old(joined)
    {
      for i := 0 to |es|
        invariant Valid() && log == old(log) + es[..i] && joined == old(joined)
      {
        BroadcastBlock(es[i]);
        assert es[..i + 1] == es[..i] + [es[i]];
      }
      assert es[..|es|] == es;
    }

    /** A turn of a subscription's delivery loop, at any moment between broadcasts. */
    method Deliver(sub: Subscription, queueFirst: bool, fails: bool) returns (running: bool)
      requires Valid() && sub in joined
      modifies sub`blocks, sub`handled, sub`terminated
      ensures Valid() && old(sub.handled) <= sub.handled
    {
      running := sub.Turn(queueFirst, fails, log);
    }

    method SubscribeTo(r: Result<seq<Event>>) returns (sub: Option<Subscription>)
      requires Valid()
      modifies this`subscribers, this`joined
      ensures Valid() && (sub.Some? <==> r.Ok?) && (sub.None? ==> subscribers == old(subscribers) && joined == old(joined))
      ensures sub.Some? ==> fresh(sub.value) && joined == old(joined) + {sub.value} && Joins(sub.value, r)
    {
      match r
      case Err(_) => sub := None;
      case Ok(initial) =>
        var s := Subscribe(initial);
        sub := Some(s);
    }

    /** `s` has just subscribed with the initial blocks `r`, and everything broadcast from now on is due to it. */
    ghost predicate Joins(s: Subscription, r: Result<seq<Event>>)
      reads this, s
    {
      r.Ok? && s in subscribers && s.initial == s.blocks == r.value && s.since == |log| && s.handled == [] && !s.terminated
    }

    method SourceFromBlockNum(ghost u: Store, num: nat) returns (sub: Option<Subscription>)
      requires Valid() && InStep() && DbOk(u, forkable.db.Model()) && forkable.HeadKnown(u)
      modifies this`subscribers, this`joined
      ensures Valid() && InStep() && forkable.State() == old(forkable.State())
      ensures sub.Some? <==> FromNum(u, forkable.State(), num).Ok?
      ensures sub.Some? ==> joined == old(joined) + {sub.value} && Joins(sub.value, FromNum(u, forkable.State(), num))
    {
      hide DbOk, FromNum, Forkable.Valid;
      ghost var s := forkable.State();
      var r := forkable.BlocksFromNum(u, num);
      assert forkable.State() == s;
      sub := SubscribeTo(r);
      assert forkable.State() == s;
    }

    method SourceFromCursor(ghost u: Store, cur: Cursor) returns (sub: Option<Subscription>)
      requires Valid() && InStep() && DbOk(u, forkable.db.Model()) && forkable.HeadKnown(u)
      modifies this`subscribers, this`joined
      ensures Valid() && InStep() && forkable.State() == old(forkable.State())
      ensures sub.Some? <==> FromCursor(u, forkable.State(), cur).Ok?
      ensures sub.Some? ==> joined == old(joined) + {sub.value} && Joins(sub.value, FromCursor(u, forkable.State(), cur))
    {
      hide DbOk, FromCursor, Forkable.Valid;
      ghost var s := forkable.State();
      var r := forkable.BlocksFromCursor(u, cur);
      assert forkable.State() == s;
      sub := SubscribeTo(r);
      assert forkable.State() == s;
    }

    /** A cursor that lies below the start block is ignored. */
    method SourceThroughCursor(ghost u: Store, startBlock: nat, cur: Cursor) returns (sub: Option<Subscription>)
      requires Valid() && InStep() && DbOk(u, forkable.db.Model()) && forkable.HeadKnown(u)
      requires cur.block.id in u ==> cur.block.num == u[cur.block.id].num
      modifies this`subscribers, this`joined
      ensures Valid() && InStep() && forkable.State() == old(forkable.State())
      ensures var r := if cur.block.num < startBlock then FromNum(u, forkable.State(), startBlock)
                       else ThroughCursor(u, forkable.State(), startBlock, cur);
        && (sub.Some? <==> r.Ok?)
        && (sub.Some? ==> joined == old(joined) + {sub.value} && Joins(sub.value, r))
    {
      hide DbOk, FromNum, ThroughCursor, Forkable.Valid;
      if cur.block.num < startBlock {
        sub := SourceFromBlockNum(u, startBlock);
        return;
      }
      ghost var s := forkable.State();
      var r := forkable.BlocksThroughCursor(u, startBlock, cur);
      assert forkable.State() == s;
      sub := SubscribeTo(r);
      assert forkable.State() == s;
    }
  }
}
