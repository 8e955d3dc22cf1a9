/**
 The reference consumer of a block stream: a stack of blocks above a base block, of which the
 lowest `fin` are final. An event the consumer cannot obey makes the stream illegal.
 */
module Consumers {
  import opened Chain

  datatype StepType = New | Undo | Irreversible | NewIrreversible | Stalled {
    function Code(): nat {
      match this
      case New => 1
      case Undo => 2
      case Irreversible => 16
      case NewIrreversible => 17
      case Stalled => 32
    }
  }

  datatype Cursor = Cursor(step: StepType, block: Ref, head: Ref, lib: Ref)

  datatype Event = Event(step: StepType, block: Block, lib: Ref, head: Ref, junction: Option<Ref>) {
    /** The position a consumer keeps; its LIB is never above its block. */
    function Position(): Cursor {
      Cursor(step, block.AsRef(), head, if lib.num > block.num then block.AsRef() else lib)
    }

    /** The final block an event names: that of its cursor, but a stalled block is below the LIB it reports. */
    function NamedLib(): Id { if step == Stalled then lib.id else Position().lib.id }
  }

  datatype Consumer = Consumer(base: Id, blocks: seq<Block>, fin: nat, stalled: set<Block>) {
    function Top(): Id { At(base, blocks, |blocks|) }

    function Final(): Id { if fin <= |blocks| then At(base, blocks, fin) else "" }

    ghost predicate Valid(u: Store) {
      && fin <= |blocks|
      && Linked(u, base, blocks, Top())
      && (forall b <- blocks :: b !in stalled)
    }

    function Move(step: StepType, b: Block): Option<Consumer> {
      match step
      case New =>
        if b.parent == Top() && b !in stalled then Some(this.(blocks := blocks + [b])) else None
      case Undo =>
        if fin < |blocks| && blocks[|blocks| - 1] == b then Some(this.(blocks := blocks[..|blocks| - 1])) else None
      case Irreversible =>
        if fin < |blocks| && blocks[fin] == b then Some(this.(fin := fin + 1)) else None
      case NewIrreversible =>
        if b.parent == Top() && fin == |blocks| && b !in stalled
        then Some(this.(blocks := blocks + [b], fin := fin + 1)) else None
      case Stalled =>
        if b !in blocks && b !in stalled then Some(this.(stalled := stalled + {b})) else None
    }

    /** An event is legal when its move is, and when it names the consumer's final block. */
    function Apply(e: Event): Option<Consumer> {
      match Move(e.step, e.block)
      case None => None
      case Some(c) => if e.NamedLib() == c.Final() then Some(c) else None
    }

    function ApplyAll(es: seq<Event>): Option<Consumer> {
      if es == [] then Some(this)
      else
        match ApplyAll(es[..|es| - 1])
        case None => None
        case Some(c) => c.Apply(es[|es| - 1])
    }
  }

  lemma {:induction false} ApplyConcat(c: Consumer, es: seq<Event>, fs: seq<Event>)
    ensures c.ApplyAll(es + fs) ==
            match c.ApplyAll(es) case None => None case Some(d) => d.ApplyAll(fs)
    decreases |fs|
  {
    if fs == [] {
      assert es + fs == es;
    } else {
      ApplyConcat(c, es, fs[..|fs| - 1]);
      assert (es + fs)[..|es + fs| - 1] == es + fs[..|fs| - 1];
    }
  }

  lemma ApplyPrefix(c: Consumer, es: seq<Event>, k: nat)
    requires c.ApplyAll(es).Some? && k <= |es|
    ensures c.ApplyAll(es[..k]).Some?
    ensures c.ApplyAll(es[..k]).value.ApplyAll(es[k..]) == c.ApplyAll(es)
  {
    hide Consumer.ApplyAll;
    ApplyConcat(c, es[..k], es[k..]);
    assert es[..k] + es[k..] == es;
  }

  ghost predicate AllIn(u: Store, es: seq<Event>) {
    forall e <- es :: GoodBlock(u, e.block)
  }

  lemma ApplyKeepsValid(u: Store, c: Consumer, e: Event)
    requires WellFormed(u) && c.Valid(u) && GoodBlock(u, e.block) && c.Apply(e).Some?
    ensures c.Apply(e).value.Valid(u)
  {
    hide Linked, WellFormed;
    match e.step
    case New | NewIrreversible => LinkedSnoc(u, c.base, c.blocks, e.block);
    case Undo => LinkedPrefix(u, c.base, c.blocks, |c.blocks| - 1, c.Top());
    case _ =>
  }

  /** The last event of a list. */
  lemma ApplyLast(c: Consumer, es: seq<Event>)
    requires es != []
    ensures c.ApplyAll(es) ==
            match c.ApplyAll(es[..|es| - 1]) case None => None case Some(d) => d.Apply(es[|es| - 1])
  {
  }

  lemma {:induction false} ApplyAllKeepsValid(u: Store, c: Consumer, es: seq<Event>)
    requires WellFormed(u) && c.Valid(u) && AllIn(u, es) && c.ApplyAll(es).Some?
    ensures c.ApplyAll(es).value.Valid(u)
    decreases |es|
  {
    if es != [] {
      var n := |es| - 1;
      assert es[n] in es;
      ApplyAllKeepsValid(u, c, es[..n]);
      ApplyKeepsValid(u, c.ApplyAll(es[..n]).value, es[n]);
    }
  }

  /** The blocks a stream declares final, in order. */
  function Finalized(es: seq<Event>): seq<Block> {
    if es == [] then []
    else
      var e := es[|es| - 1];
      Finalized(es[..|es| - 1]) + if e.step in {Irreversible, NewIrreversible} then [e.block] else []
  }

  /** The blocks a stream declares stalled. */
  function StalledIn(es: seq<Event>): set<Block> {
    if es == [] then {}
    else
      var e := es[|es| - 1];
      StalledIn(es[..|es| - 1]) + if e.step == Stalled then {e.block} else {}
  }

  lemma FinalBlocksStayOnce(c: Consumer, e: Event)
    requires c.fin <= |c.blocks| && c.Apply(e).Some?
    ensures var d := c.Apply(e).value;
      && d.base == c.base
      && c.fin <= d.fin <= |d.blocks|
      && d.blocks[..c.fin] == c.blocks[..c.fin]
      && d.blocks[c.fin..d.fin] == (if e.step in {Irreversible, NewIrreversible} then [e.block] else [])
      && d.stalled == c.stalled + (if e.step == Stalled then {e.block} else {})
  {
  }

  lemma SlicesJoin(c: seq<Block>, m: seq<Block>, d: seq<Block>, i: nat, j: nat, k: nat)
    requires i <= |c| && i <= j <= |m| && j <= k <= |d|
    requires m[..i] == c[..i] && d[..j] == m[..j]
    ensures d[..i] == c[..i]
    ensures d[i..k] == m[i..j] + d[j..k]
  {
    assert d[..i] == d[..j][..i] && m[..i] == m[..j][..i];
    assert d[i..j] == d[..j][i..] && m[i..j] == m[..j][i..];
    assert d[i..k] == d[i..j] + d[j..k];
  }

  /**
   What legality means for finality: final blocks are never undone, the blocks declared final are
   exactly those by which the final part of the stack grew, in stack order, and stalled blocks are
   remembered.
   */
  lemma {:induction false} FinalBlocksStay(c: Consumer, es: seq<Event>)
    requires c.fin <= |c.blocks| && c.ApplyAll(es).Some?
    ensures var d := c.ApplyAll(es).value;
      && d.base == c.base
      && c.fin <= d.fin <= |d.blocks|
      && d.blocks[..c.fin] == c.blocks[..c.fin]
      && d.blocks[c.fin..d.fin] == Finalized(es)
      && d.stalled == c.stalled + StalledIn(es)
    decreases |es|
  {
    if es != [] {
      var n := |es| - 1;
      FinalBlocksStay(c, es[..n]);
      var m, d := c.ApplyAll(es[..n]).value, c.ApplyAll(es).value;
      FinalBlocksStayOnce(m, es[n]);
      SlicesJoin(c.blocks, m.blocks, d.blocks, c.fin, m.fin, d.fin);
    }
  }

  /**
   Finality over a whole legal stream: the blocks declared final form one parent-linked chain that
   starts at the consumer's final block, no block is in it twice, and none of them is ever stalled.
   */
  lemma FinalityOfLegalStreams(u: Store, c: Consumer, es: seq<Event>)
    requires WellFormed(u) && c.Valid(u) && AllIn(u, es) && c.ApplyAll(es).Some?
    ensures var d := c.ApplyAll(es).value; Linked(u, c.Final(), Finalized(es), d.Final())
    ensures forall i, j | 0 <= i < j < |Finalized(es)| :: Finalized(es)[i] != Finalized(es)[j]
    ensures forall b <- Finalized(es) :: b !in StalledIn(es) && b !in c.stalled
  {
    var d := c.ApplyAll(es).value;
    FinalBlocksStay(c, es);
    ApplyAllKeepsValid(u, c, es);
    LinkedPrefix(u, d.base, d.blocks, d.fin, d.Top());
    var p := d.blocks[..d.fin];
    LinkedSuffix(u, u, d.base, p, c.fin, d.Final());
    assert p[c.fin..] == Finalized(es);
    assert At(d.base, p, c.fin) == c.Final() by {
      if c.fin > 0 { assert d.blocks[..c.fin][c.fin - 1] == c.blocks[..c.fin][c.fin - 1]; }
    }
    LinkedAscending(u, u, c.Final(), Finalized(es), d.Final());
    forall b <- Finalized(es) ensures b !in StalledIn(es) && b !in c.stalled {
      assert b in d.blocks && b !in d.stalled;
    }
  }

  lemma FewerStalledOnce(c: Consumer, c': Consumer, e: Event)
    requires c'.stalled <= c.stalled && c' == c.(stalled := c'.stalled) && c.Apply(e).Some?
    ensures c'.Apply(e).Some?
    ensures var d, d' := c.Apply(e).value, c'.Apply(e).value;
      d'.stalled <= d.stalled && d' == d.(stalled := d'.stalled)
  {
  }

  /** A consumer that knows fewer stalled blocks follows the same stream to the same place. */
  lemma {:induction false} FewerStalled(c: Consumer, c': Consumer, es: seq<Event>)
    requires c'.stalled <= c.stalled && c' == c.(stalled := c'.stalled) && c.ApplyAll(es).Some?
    ensures c'.ApplyAll(es).Some?
    ensures var d, d' := c.ApplyAll(es).value, c'.ApplyAll(es).value;
      d'.stalled <= d.stalled && d' == d.(stalled := d'.stalled)
    decreases |es|
  {
    if es != [] {
      var n := |es| - 1;
      FewerStalled(c, c', es[..n]);
      FewerStalledOnce(c.ApplyAll(es[..n]).value, c'.ApplyAll(es[..n]).value, es[n]);
    }
  }

  // Lists of events of one kind.

  function Emit(step: StepType, bs: seq<Block>, lib: Ref, head: Ref, junction: Option<Ref>): (es: seq<Event>)
    ensures |es| == |bs|
  {
    seq(|bs|, i requires 0 <= i < |bs| => Event(step, bs[i], lib, head, junction))
  }

  function EmitFinal(step: StepType, bs: seq<Block>, head: Ref): (es: seq<Event>)
    ensures |es| == |bs|
  {
    seq(|bs|, i requires 0 <= i < |bs| => Event(step, bs[i], bs[i].AsRef(), head, None))
  }

  ghost predicate Are(es: seq<Event>, step: StepType, bs: seq<Block>) {
    |es| == |bs| && forall i | 0 <= i < |es| :: es[i].step == step && es[i].block == bs[i]
  }

  ghost predicate Names(es: seq<Event>, lib: Id) {
    forall e <- es :: e.NamedLib() == lib
  }

  ghost predicate NameThemselves(es: seq<Event>) {
    forall e <- es :: e.NamedLib() == e.block.id
  }

  lemma PushNothing(u: Store, c: Consumer, top: Id)
    requires Linked(u, c.Top(), [], top)
    ensures top == c.Top() && c.ApplyAll([]) == Some(c) && c.blocks + [] == c.blocks
  {
  }

  lemma {:induction false} PushAll(u: Store, c: Consumer, es: seq<Event>, bs: seq<Block>, top: Id)
    requires c.fin <= |c.blocks|
    requires Are(es, New, bs) && Names(es, c.Final())
    requires Linked(u, c.Top(), bs, top)
    requires forall b <- bs :: b !in c.stalled
    ensures c.ApplyAll(es) == Some(c.(blocks := c.blocks + bs))
    ensures At(c.base, c.blocks + bs, |c.blocks + bs|) == top
    decreases |bs|
  {
    hide Linked, Consumer.ApplyAll;
    if bs == [] {
      PushNothing(u, c, top);
    } else {
      var n := |bs| - 1;
      LinkedTop(u, c.Top(), bs, top);
      assert es[n] in es && bs[n] in bs;
      PushAll(u, c, es[..n], bs[..n], bs[n].parent);
      PushLast(c, es, bs);
    }
  }

  lemma PushLast(c: Consumer, es: seq<Event>, bs: seq<Block>)
    requires bs != [] && |es| == |bs| && c.fin <= |c.blocks|
    requires var n := |bs| - 1; var d := c.(blocks := c.blocks + bs[..n]);
      && c.ApplyAll(es[..n]) == Some(d) && d.Top() == bs[n].parent && bs[n] !in c.stalled
      && es[n].step == New && es[n].block == bs[n] && es[n].NamedLib() == c.Final()
    ensures c.ApplyAll(es) == Some(c.(blocks := c.blocks + bs))
  {
    hide Consumer.ApplyAll;
    ApplyLast(c, es);
    assert c.blocks + bs == c.blocks + bs[..|bs| - 1] + [bs[|bs| - 1]];
  }

  lemma {:induction false} PushAllFinal(u: Store, c: Consumer, es: seq<Event>, bs: seq<Block>, top: Id)
    requires c.fin == |c.blocks|
    requires Are(es, NewIrreversible, bs) && NameThemselves(es)
    requires Linked(u, c.Top(), bs, top)
    requires forall b <- bs :: b !in c.stalled
    ensures c.ApplyAll(es) == Some(c.(blocks := c.blocks + bs, fin := c.fin + |bs|))
    ensures At(c.base, c.blocks + bs, |c.blocks + bs|) == top
    decreases |bs|
  {
    hide Linked, Consumer.ApplyAll;
    if bs == [] {
      PushNothing(u, c, top);
    } else {
      var n := |bs| - 1;
      LinkedTop(u, c.Top(), bs, top);
      assert es[n] in es && bs[n] in bs;
      PushAllFinal(u, c, es[..n], bs[..n], bs[n].parent);
      PushLastFinal(c, es, bs);
    }
  }

  lemma PushLastFinal(c: Consumer, es: seq<Event>, bs: seq<Block>)
    requires bs != [] && |es| == |bs| && c.fin == |c.blocks|
    requires var n := |bs| - 1; var d := c.(blocks := c.blocks + bs[..n], fin := c.fin + n);
      && c.ApplyAll(es[..n]) == Some(d) && d.Top() == bs[n].parent && bs[n] !in c.stalled
      && es[n].step == NewIrreversible && es[n].block == bs[n] && es[n].NamedLib() == bs[n].id
    ensures c.ApplyAll(es) == Some(c.(blocks := c.blocks + bs, fin := c.fin + |bs|))
  {
    hide Consumer.ApplyAll;
    ApplyLast(c, es);
    assert c.blocks + bs == c.blocks + bs[..|bs| - 1] + [bs[|bs| - 1]];
  }

  lemma {:induction false} PopAll(c: Consumer, es: seq<Event>, k: nat)
    requires c.fin <= k <= |c.blocks|
    requires Are(es, Undo, Reverse(c.blocks[k..])) && Names(es, c.Final())
    ensures c.ApplyAll(es) == Some(c.(blocks := c.blocks[..k]))
    decreases |c.blocks| - k
  {
    hide Reverse;
    if k == |c.blocks| {
      assert c.blocks[..k] == c.blocks;
    } else {
      var n := |es| - 1;
      assert es[n] in es;
      assert c.blocks[k..][1..] == c.blocks[k + 1..];
      PopAll(c, es[..n], k + 1);
      assert c.blocks[..k + 1][..k] == c.blocks[..k];
    }
  }

  lemma {:induction false} FinalizeAll(c: Consumer, es: seq<Event>, bs: seq<Block>)
    requires c.fin + |bs| <= |c.blocks| && bs == c.blocks[c.fin..c.fin + |bs|]
    requires Are(es, Irreversible, bs) && NameThemselves(es)
    ensures c.ApplyAll(es) == Some(c.(fin := c.fin + |bs|))
    decreases |bs|
  {
    if bs != [] {
      var n := |bs| - 1;
      assert es[n] in es && bs[n] == c.blocks[c.fin + n];
      assert bs[..n] == c.blocks[c.fin..c.fin + n];
      hide Consumer.Move;
      FinalizeAll(c, es[..n], bs[..n]);
      FinalizeOne(c, es, n);
    }
  }

  lemma FinalizeOne(c: Consumer, es: seq<Event>, n: nat)
    requires |es| == n + 1 && c.fin + n < |c.blocks| && c.ApplyAll(es[..n]) == Some(c.(fin := c.fin + n))
    requires var b := c.blocks[c.fin + n]; es[n].step == Irreversible && es[n].block == b && es[n].NamedLib() == b.id
    ensures c.ApplyAll(es) == Some(c.(fin := c.fin + n + 1))
  {
    hide Consumer.ApplyAll;
    ApplyLast(c, es);
  }

  lemma {:induction false} StallAll(c: Consumer, es: seq<Event>, bs: seq<Block>)
    requires c.fin <= |c.blocks|
    requires Are(es, Stalled, bs) && Names(es, c.Final())
    requires forall b <- bs :: b !in c.blocks && b !in c.stalled
    requires forall i, j | 0 <= i < j < |bs| :: bs[i] != bs[j]
    ensures c.ApplyAll(es) == Some(c.(stalled := c.stalled + StalledIn(es)))
    ensures forall b :: b in StalledIn(es) <==> b in bs
    decreases |bs|
  {
    hide Consumer.ApplyAll;
    if bs == [] {
      StallNothing(c);
    } else {
      var n := |bs| - 1;
      assert es[n] in es && bs[n] in bs;
      StallAll(c, es[..n], bs[..n]);
      ApplyLast(c, es);
      assert bs == bs[..n] + [bs[n]];
      assert c.stalled + StalledIn(es) == c.stalled + StalledIn(es[..n]) + {bs[n]};
    }
  }

  lemma StallNothing(c: Consumer)
    ensures c.ApplyAll([]) == Some(c) && StalledIn([]) == {} && c.stalled + {} == c.stalled
  {
  }
}
