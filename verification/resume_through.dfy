/** Streams for a consumer that starts afresh: from a block number, or along a cursor's branch. */
module ResumeThrough {
  import opened Chain
  import opened Consumers
  import opened ForkDbModel
  import opened ForkableModel
  import opened ForkableInvariant
  import opened ForkableRuns
  import opened ResumeModel
  import opened Resume
  import opened ResumeRuns
  import opened ResumeHoles
  import opened ResumeLists

  /** A consumer that has seen nothing above `base`. */
  function Fresh(base: Id): Consumer { Consumer(base, [], 0, {}) }

  /** `a` is where the blocks numbered `start` or more begin. */
  ghost predicate StartsAtNum(seg: seq<Block>, start: nat, a: nat) {
    a <= |seg| && (forall j | 0 <= j < a :: seg[j].num < start) && (forall j | a <= j < |seg| :: start <= seg[j].num)
  }

  /** Final blocks and then reversible ones, pushed on a fresh consumer. */
  lemma FreshIsLed(u: Store, m: Store, root: Id, seg: seq<Block>, head: Id, a: nat, l: nat, e: nat,
                   newIrr: seq<Event>, news: seq<Event>)
    requires WellFormed(u) && Within(m, u) && Linked(m, root, seg, head)
    requires a <= l + 1 <= e <= |seg|
    requires Are(newIrr, NewIrreversible, seg[a..l + 1]) && NameThemselves(newIrr)
    requires Are(news, New, seg[l + 1..e]) && Names(news, seg[l].id)
    ensures Fresh(At(root, seg, a)).ApplyAll(newIrr + news) == Some(Consumer(At(root, seg, a), seg[a..e], l + 1 - a, {}))
  {
    hide Linked, Consumer.ApplyAll, Are, Names, NameThemselves, At;
    var base := At(root, seg, a);
    FreshIsFinal(u, m, root, seg, head, a, l, newIrr);
    var c := Consumer(base, seg[a..l + 1], l + 1 - a, {});
    SegmentSlice(u, m, root, seg, head, l + 1, e);
    SliceTop(root, seg, a, l);
    PushAll(m, c, news, seg[l + 1..e], At(root, seg, e));
    SlicesMeet(seg, a, l + 1, e);
    ApplyConcat(Fresh(base), newIrr, news);
  }

  lemma FreshIsFinal(u: Store, m: Store, root: Id, seg: seq<Block>, head: Id, a: nat, l: nat, newIrr: seq<Event>)
    requires WellFormed(u) && Within(m, u) && Linked(m, root, seg, head) && a <= l + 1 <= |seg|
    requires Are(newIrr, NewIrreversible, seg[a..l + 1]) && NameThemselves(newIrr)
    ensures Fresh(At(root, seg, a)).ApplyAll(newIrr) == Some(Consumer(At(root, seg, a), seg[a..l + 1], l + 1 - a, {}))
  {
    hide Linked, Consumer.ApplyAll, Are, NameThemselves;
    SegmentSlice(u, m, root, seg, head, a, l + 1);
    PushAllFinal(m, Fresh(At(root, seg, a)), newIrr, seg[a..l + 1], seg[l].id);
    assert [] + seg[a..l + 1] == seg[a..l + 1];
  }

  lemma SliceTop(root: Id, seg: seq<Block>, a: nat, l: nat)
    requires a <= l + 1 <= |seg|
    ensures var c := Consumer(At(root, seg, a), seg[a..l + 1], l + 1 - a, {});
      c.Final() == c.Top() == At(root, seg, l + 1) == seg[l].id
  {
  }

  lemma SlicesMeet(s: seq<Block>, a: nat, b: nat, c: nat)
    requires a <= b <= c <= |s|
    ensures s[a..b] + s[b..c] == s[a..c]
  {
  }

  // blocksFromNum

  lemma {:induction false} SkipsToStart(seg: seq<Block>, num: nat, a: nat)
    requires Ascending(seg) && StartsAtNum(seg, num, a)
    ensures SkipTo(seg, num) == if a < |seg| && seg[a].num == num then seg[a..] else []
    decreases |seg|
  {
    if seg != [] && seg[0].num != num {
      if a == 0 {
        SkipsToStart(seg[1..], num, 0);
      } else {
        SkipsToStart(seg[1..], num, a - 1);
        assert seg[1..][a - 1..] == seg[a..];
      }
    }
  }

  ghost predicate UpTo(x: seq<Block>, lib: Ref) {
    forall i | 0 <= i < |x| :: x[i].num <= lib.num && (x[i].num == lib.num ==> x[i].id == lib.id)
  }

  ghost predicate Above(x: seq<Block>, lib: Ref) {
    forall i | 0 <= i < |x| :: lib.num < x[i].num
  }

  lemma CanonicalFinal(x: seq<Block>, lib: Ref, head: Ref)
    requires UpTo(x, lib)
    ensures Are(Collect(x, Canonical(lib, head)), NewIrreversible, x) && NameThemselves(Collect(x, Canonical(lib, head)))
  {
    CollectThemselves(x, Canonical(lib, head), NewIrreversible);
  }

  lemma CanonicalNew(x: seq<Block>, lib: Ref, head: Ref)
    requires Above(x, lib)
    ensures Are(Collect(x, Canonical(lib, head)), New, x) && Names(Collect(x, Canonical(lib, head)), lib.id)
  {
    CollectNames(x, Canonical(lib, head), New, lib.id);
  }

  /** The numbers of a segment on both sides of the LIB. */
  lemma AroundLib(seg: seq<Block>, lib: Ref, a: nat, l: nat, e: nat)
    requires Ascending(seg) && l < e <= |seg| && seg[l].id == lib.id && seg[l].num == lib.num && a <= l + 1
    ensures UpTo(seg[a..l + 1], lib) && Above(seg[l + 1..e], lib)
  {
  }

  lemma CanonicalIsLed(u: Store, m: Store, root: Id, seg: seq<Block>, lib: Ref, head: Ref, a: nat, l: nat)
    requires WellFormed(u) && Within(m, u) && Linked(m, root, seg, head.id) && Ascending(seg)
    requires l < |seg| && seg[l].id == lib.id && seg[l].num == lib.num && a <= l + 1
    ensures Fresh(At(root, seg, a)).ApplyAll(Collect(seg[a..], Canonical(lib, head)))
            == Some(Consumer(At(root, seg, a), seg[a..], l + 1 - a, {}))
  {
    hide Linked, Collect, Consumer.ApplyAll, Are, NameThemselves, Names, Canonical;
    var f, x, y := Canonical(lib, head), seg[a..l + 1], seg[l + 1..|seg|];
    AroundLib(seg, lib, a, l, |seg|);
    CanonicalFinal(x, lib, head);
    CanonicalNew(y, lib, head);
    CollectConcat(x, y, f);
    assert x + y == seg[a..] == seg[a..|seg|];
    FreshIsLed(u, m, root, seg, head.id, a, l, |seg|, Collect(x, f), Collect(y, f));
  }

  /** Who a list from position `a` is for: a fresh consumer, or one that already has the blocks above the LIB. */
  function Starter(root: Id, seg: seq<Block>, a: nat, l: nat): Consumer
    requires a <= |seg| && l < |seg|
  {
    if a <= l then Fresh(At(root, seg, a)) else Consumer(seg[l].id, seg[l + 1..a], 0, {})
  }

  /** Where it is led: to the head, with the LIB as its final block. */
  function Led(root: Id, seg: seq<Block>, a: nat, l: nat): Consumer
    requires a <= |seg| && l < |seg|
  {
    if a <= l then Consumer(At(root, seg, a), seg[a..], l + 1 - a, {}) else Consumer(seg[l].id, seg[l + 1..], 0, {})
  }

  /** The LIB, carrying a number below its block's, is itself on the list. */
  predicate SendsHole(seg: seq<Block>, lib: Ref, a: nat, l: nat)
    requires l < |seg|
  {
    a <= l && lib.num < seg[l].num
  }

  /**
   From a block number: the list exists exactly when that number is on the stored segment of the head. It
   takes the consumer that starts there to the head and the LIB, unless it sends a LIB that carries a
   number below its block's: that block is sent as new under its own finality, and nobody can obey it.
   */
  lemma FromNumIsLed(u: Store, s: State, num: nat, seg: seq<Block>, a: nat, l: nat)
    requires DbOk(u, s.db) && s.db.HasLib() && s.last.Some? && seg == CompletePath(u, s.db.stored, HeadRef(s).id)
    requires l < |seg| && seg[l].id == s.db.lib.id && StartsAtNum(seg, num, a)
    ensures FromNum(u, s, num).Ok? <==> a < |seg| && seg[a].num == num
    ensures var root := RootOf(seg, HeadRef(s).id);
      FromNum(u, s, num).Ok? ==>
        Starter(root, seg, a, l).ApplyAll(FromNum(u, s, num).value)
        == if SendsHole(seg, s.db.lib, a, l) then None else Some(Led(root, seg, a, l))
  {
    hide Linked, Collect, FromNum, Consumer.ApplyAll, Canonical, StartsAtNum;
    var root, head, st := RootOf(seg, HeadRef(s).id), HeadRef(s), s.db.stored;
    LinkedAscending(u, st, root, seg, head.id);
    LibInSegment(u, s, seg, l);
    FromNumIs(u, s, num, seg, a, l);
    if SendsHole(seg, s.db.lib, a, l) {
      HoleIsNotObeyed(u, st, root, seg, s.db.lib, head, a, l);
    } else if a <= l {
      CanonicalIsLed(u, st, root, seg, s.db.lib, head, a, l);
    } else {
      AboveIsLed(u, st, root, seg, s.db.lib, head, a, l);
    }
  }

  lemma LibInSegment(u: Store, s: State, seg: seq<Block>, l: nat)
    requires DbOk(u, s.db) && s.db.HasLib() && seg == CompletePath(u, s.db.stored, HeadRef(s).id)
    requires l < |seg| && seg[l].id == s.db.lib.id
    ensures s.db.lib.num <= seg[l].num && forall j | 0 <= j < l :: seg[j].num < s.db.lib.num
  {
    hide Linked;
    RefInSegment(u, s, seg, s.db.lib, l);
  }

  lemma RefInSegment(u: Store, s: State, seg: seq<Block>, lib: Ref, l: nat)
    requires DbOk(u, s.db) && seg == CompletePath(u, s.db.stored, HeadRef(s).id)
    requires RefOk(u, lib) && l < |seg| && seg[l].id == lib.id
    ensures lib.num <= seg[l].num && forall j | 0 <= j < l :: seg[j].num < lib.num
  {
    hide Linked;
    var root, head := RootOf(seg, HeadRef(s).id), HeadRef(s).id;
    SegmentStored(s.db.stored, seg, head);
    LinkedAscending(u, s.db.stored, root, seg, head);
    assert seg[l] in seg;
    if l > 0 {
      LinkedAt(s.db.stored, root, seg, l, head);
      assert seg[l - 1] in seg;
    }
  }

  /** From above the LIB only reversible blocks are sent. */
  lemma AboveIsLed(u: Store, m: Store, root: Id, seg: seq<Block>, lib: Ref, head: Ref, a: nat, l: nat)
    requires WellFormed(u) && Within(m, u) && Linked(m, root, seg, head.id) && Ascending(seg)
    requires l < a <= |seg| && seg[l].id == lib.id && lib.num <= seg[l].num
    ensures Consumer(seg[l].id, seg[l + 1..a], 0, {}).ApplyAll(Collect(seg[a..], Canonical(lib, head)))
            == Some(Consumer(seg[l].id, seg[l + 1..], 0, {}))
  {
    hide Linked, Collect, Consumer.ApplyAll, Are, Names, Canonical;
    var c, y := Consumer(seg[l].id, seg[l + 1..a], 0, {}), seg[a..];
    CanonicalNew(y, lib, head);
    LinkedSuffix(u, m, root, seg, a, head.id);
    PushAll(m, c, Collect(y, Canonical(lib, head)), y, head.id);
    assert seg[l + 1..a] + y == seg[l + 1..];
  }

  lemma HoleIsNotObeyed(u: Store, m: Store, root: Id, seg: seq<Block>, lib: Ref, head: Ref, a: nat, l: nat)
    requires WellFormed(u) && Within(m, u) && Linked(m, root, seg, head.id) && Ascending(seg)
    requires a <= l < |seg| && seg[l].id == lib.id && lib.num < seg[l].num && forall j | 0 <= j < l :: seg[j].num < lib.num
    ensures Fresh(At(root, seg, a)).ApplyAll(Collect(seg[a..], Canonical(lib, head))).None?
  {
    hide Linked, Collect, Consumer.ApplyAll, Are, NameThemselves;
    CanonicalFinal(seg[a..l], lib, head);
    HoleStops(u, m, root, seg, head.id, Canonical(lib, head), lib, head, a, l, |seg|);
    assert seg[a..|seg|] == seg[a..];
  }

  /** The final blocks below the hole can be obeyed, and the LIB at the hole cannot. */
  lemma HoleStops(u: Store, m: Store, root: Id, seg: seq<Block>, top: Id, f: Block -> seq<Event>, lib: Ref, head: Ref,
                  a: nat, l: nat, e: nat)
    requires WellFormed(u) && Within(m, u) && Linked(m, root, seg, top) && a <= l < e <= |seg|
    requires seg[l].id == lib.id && lib.num < seg[l].num && f(seg[l]) == [Event(New, seg[l], lib, head, None)]
    requires Are(Collect(seg[a..l], f), NewIrreversible, seg[a..l]) && NameThemselves(Collect(seg[a..l], f))
    ensures Fresh(At(root, seg, a)).ApplyAll(Collect(seg[a..e], f)).None?
  {
    hide Linked, Collect, Consumer.ApplyAll, Are, NameThemselves;
    var x, k := seg[a..l], Fresh(At(root, seg, a));
    SegmentSlice(u, m, root, seg, top, a, l);
    PushAllFinal(m, k, Collect(x, f), x, At(root, seg, l));
    LinkedElements(m, root, seg, top);
    LinkedAt(m, root, seg, l, top);
    assert [] + x == x && seg[l].parent != seg[l].id;
    NotFinalYet(k.(blocks := x, fin := |x|), Event(New, seg[l], lib, head, None));
    FailsAfter(k, seg, f, a, l, e);
  }

  /** A block that is new cannot be the final one. */
  lemma NotFinalYet(c: Consumer, e: Event)
    requires c.fin == |c.blocks| && c.Top() != e.block.id == e.lib.id && e.lib.num < e.block.num && e.step == New
    ensures c.ApplyAll([e]).None?
  {
    assert [e][..0] == [];
  }

  lemma FailsAfter(k: Consumer, seg: seq<Block>, f: Block -> seq<Event>, a: nat, l: nat, e: nat)
    requires a <= l < e <= |seg| && k.ApplyAll(Collect(seg[a..l], f)).Some?
    requires k.ApplyAll(Collect(seg[a..l], f)).value.ApplyAll(f(seg[l])).None?
    ensures k.ApplyAll(Collect(seg[a..e], f)).None?
  {
    hide Collect, Consumer.ApplyAll;
    var x, y, z := seg[a..l], [seg[l]], seg[l + 1..e];
    CollectConcat(x, y, f);
    CollectConcat(x + y, z, f);
    assert x + y + z == seg[a..e];
    CollectLast(y, f);
    CollectEmpty(y[..0], f);
    assert [] + f(seg[l]) == f(seg[l]);
    ApplyConcat(k, Collect(x, f), Collect(y, f));
    ApplyConcat(k, Collect(x, f) + Collect(y, f), Collect(z, f));
  }

  lemma FromNumIs(u: Store, s: State, num: nat, seg: seq<Block>, a: nat, l: nat)
    requires DbOk(u, s.db) && s.db.HasLib() && s.last.Some? && seg == CompletePath(u, s.db.stored, HeadRef(s).id)
    requires l < |seg| && seg[l].id == s.db.lib.id && Ascending(seg) && StartsAtNum(seg, num, a)
    ensures a <= |seg| && (FromNum(u, s, num).Ok? <==> a < |seg| && seg[a].num == num)
    ensures FromNum(u, s, num).Ok? ==> FromNum(u, s, num).value == Collect(seg[a..], Canonical(s.db.lib, HeadRef(s)))
  {
    hide Linked, Collect, CanonicalEvent;
    assert InPath(s.db.lib.id, seg);
    SkipsToStart(seg, num, a);
    EmptyCollect(Canonical(s.db.lib, HeadRef(s)));
    if a < |seg| {
      CollectIsLong(seg[a..], s.db.lib, HeadRef(s));
    }
  }

  lemma CollectIsLong(bs: seq<Block>, lib: Ref, head: Ref)
    requires bs != []
    ensures Collect(bs, Canonical(lib, head)) != []
  {
  }

  lemma EmptyCollect(f: Block -> seq<Event>)
    ensures Collect([], f) == []
  {
  }

  // blocksThroughCursor

  lemma ThroughFinal(x: seq<Block>, start: nat, lib: Ref, head: Ref)
    requires forall i | 0 <= i < |x| :: start <= x[i].num
    requires UpTo(x, lib)
    ensures var es := Collect(x, Through(start, lib, head)); Are(es, NewIrreversible, x) && NameThemselves(es)
  {
    CollectThemselves(x, Through(start, lib, head), NewIrreversible);
  }

  lemma ThroughNew(x: seq<Block>, start: nat, lib: Ref, head: Ref)
    requires forall i | 0 <= i < |x| :: start <= x[i].num
    requires Above(x, lib)
    ensures var es := Collect(x, Through(start, lib, head)); Are(es, New, x) && Names(es, lib.id)
  {
    CollectNames(x, Through(start, lib, head), New, lib.id);
  }

  lemma AroundStart(seg: seq<Block>, start: nat, a: nat, b: nat, e: nat)
    requires StartsAtNum(seg, start, a) && a <= b <= e <= |seg|
    ensures forall i | 0 <= i < |seg[b..e]| :: start <= seg[b..e][i].num
    ensures forall i | 0 <= i < |seg[..a]| :: seg[..a][i].num < start
  {
  }

  lemma ThroughBelow(x: seq<Block>, start: nat, lib: Ref, head: Ref)
    requires forall i | 0 <= i < |x| :: x[i].num < start
    ensures Collect(x, Through(start, lib, head)) == []
  {
    CollectNone(x, Through(start, lib, head));
  }

  lemma ThroughParts(seg: seq<Block>, f: Block -> seq<Event>, a: nat, b: nat, e: nat)
    requires a <= b <= e <= |seg| && Collect(seg[..a], f) == []
    ensures Collect(seg[..e], f) == Collect(seg[a..b], f) + Collect(seg[b..e], f)
  {
    hide Collect;
    CollectConcat(seg[..a], seg[a..b], f);
    CollectConcat(seg[..b], seg[b..e], f);
    assert seg[..a] + seg[a..b] == seg[..b] && seg[..b] + seg[b..e] == seg[..e];
  }

  lemma ThroughIsLed(u: Store, m: Store, root: Id, seg: seq<Block>, top: Id, start: nat, lib: Ref, head: Ref, a: nat, l: nat, e: nat)
    requires WellFormed(u) && Within(m, u) && Linked(m, root, seg, top) && Ascending(seg)
    requires StartsAtNum(seg, start, a) && a <= l < e <= |seg| && seg[l].id == lib.id && seg[l].num == lib.num
    ensures Fresh(At(root, seg, a)).ApplyAll(Collect(seg[..e], Through(start, lib, head)))
            == Some(Consumer(At(root, seg, a), seg[a..e], l + 1 - a, {}))
  {
    hide Linked, Collect, Consumer.ApplyAll, Are, NameThemselves, Names, Through, StartsAtNum;
    var f, x, y := Through(start, lib, head), seg[a..l + 1], seg[l + 1..e];
    AroundLib(seg, lib, a, l, e);
    AroundStart(seg, start, a, a, l + 1);
    AroundStart(seg, start, a, l + 1, e);
    ThroughFinal(x, start, lib, head);
    ThroughNew(y, start, lib, head);
    ThroughBelow(seg[..a], start, lib, head);
    ThroughParts(seg, f, a, l + 1, e);
    FreshIsLed(u, m, root, seg, top, a, l, e, Collect(x, f), Collect(y, f));
  }

  lemma ThroughHoleFails(u: Store, m: Store, root: Id, seg: seq<Block>, top: Id, start: nat, lib: Ref, head: Ref, a: nat, l: nat, e: nat)
    requires WellFormed(u) && Within(m, u) && Linked(m, root, seg, top)
    requires StartsAtNum(seg, start, a) && a <= l < e <= |seg| && seg[l].id == lib.id && lib.num < seg[l].num
    requires forall j | 0 <= j < l :: seg[j].num < lib.num
    ensures Fresh(At(root, seg, a)).ApplyAll(Collect(seg[..e], Through(start, lib, head))).None?
  {
    assert Through(start, lib, head)(seg[l]) == [Event(New, seg[l], lib, head, None)];
    hide Linked, Collect, Consumer.ApplyAll, Are, NameThemselves, Through, StartsAtNum;
    var f, x := Through(start, lib, head), seg[a..l];
    AroundStart(seg, start, a, a, l);
    ThroughFinal(x, start, lib, head);
    ThroughBelow(seg[..a], start, lib, head);
    HoleStops(u, m, root, seg, top, f, lib, head, a, l, e);
    ThroughParts(seg, f, a, a, e);
    CollectEmpty(seg[a..a], f);
    assert [] + Collect(seg[a..e], f) == Collect(seg[a..e], f);
  }

  lemma AlongOne(b: Block, start: nat, cur: Cursor, head: Ref)
    ensures b.num < cur.block.num ==> AlongBranch(start, cur, head)(b) == Through(start, cur.lib, head)(b)
    ensures b.num == cur.block.num ==>
      AlongBranch(start, cur, head)(b) == if cur.step == Undo then [] else Through(start, cur.lib, head)(b)
  {
  }

  lemma {:induction false} AlongBelow(x: seq<Block>, start: nat, cur: Cursor, head: Ref)
    requires forall b <- x :: b.num < cur.block.num
    ensures Collect(x, AlongBranch(start, cur, head)) == Collect(x, Through(start, cur.lib, head))
    decreases |x|
  {
    hide AlongBranch, Through;
    if x != [] {
      AlongBelow(x[..|x| - 1], start, cur, head);
      AlongOne(x[|x| - 1], start, cur, head);
    }
  }

  /** How much of the cursor's branch the consumer has: an undone block is left out. */
  function BranchEnd(branch: seq<Block>, cur: Cursor): int {
    if cur.step == Undo then |branch| - 1 else |branch|
  }

  lemma BranchIsThrough(branch: seq<Block>, start: nat, cur: Cursor, head: Ref)
    requires branch != [] && Ascending(branch) && cur.block.num == branch[|branch| - 1].num
    ensures Collect(branch, AlongBranch(start, cur, head))
            == Collect(branch[..BranchEnd(branch, cur)], Through(start, cur.lib, head))
  {
    hide AlongBranch, Through, Collect;
    var n := |branch| - 1;
    AlongBelow(branch[..n], start, cur, head);
    AlongOne(branch[n], start, cur, head);
    CollectLast(branch, AlongBranch(start, cur, head));
    if cur.step == Undo {
      AddsNothing(Collect(branch[..n], AlongBranch(start, cur, head)));
    } else {
      CollectLast(branch, Through(start, cur.lib, head));
      assert branch[..|branch|] == branch;
    }
  }

  lemma AddsNothing(es: seq<Event>)
    ensures es + [] == es
  {
  }

  /** The cursor of a consumer whose final block is at or below the head's LIB. */
  ghost predicate ThroughOk(u: Store, s: State, start: nat, cur: Cursor, seg: seq<Block>, i: nat, l: nat) {
    && DbOk(u, s.db) && s.db.HasLib() && s.last.Some? && seg == CompletePath(u, s.db.stored, HeadRef(s).id)
    && i <= l < |seg| && seg[i].id == cur.lib.id && seg[l].id == s.db.lib.id
    && RefOk(u, cur.lib) && start <= cur.lib.num
    && cur.block.id in u && cur.block.num == u[cur.block.id].num
    && cur.step in {New, Undo, NewIrreversible}
    && (exists p :: Linked(u, cur.lib.id, p, cur.block.id) && (cur.step == Undo ==> p != []))
  }

  /**
   Where LIBs do not carry the numbers of their blocks: the one that is sent must, and so must the Forkable's,
   unless a forked cursor has it already.
   */
  ghost predicate ThroughWorks(s: State, cur: Cursor, seg: seq<Block>, i: nat, l: nat)
    requires i <= l < |seg|
  {
    if InPath(cur.block.id, seg) then s.db.lib.num == seg[l].num
    else cur.lib.num == seg[i].num && (s.db.lib.num == seg[l].num || i == l)
  }

  lemma ThroughPlaces(u: Store, s: State, start: nat, cur: Cursor, seg: seq<Block>, i: nat, l: nat)
    requires ThroughOk(u, s, start, cur, seg, i, l)
    ensures s.db.lib.num <= seg[l].num && cur.lib.num <= seg[i].num
    ensures forall j | 0 <= j < l :: seg[j].num < s.db.lib.num
    ensures forall j | 0 <= j < i :: seg[j].num < cur.lib.num
  {
    hide Linked;
    LibInSegment(u, s, seg, l);
    RefInSegment(u, s, seg, cur.lib, i);
  }

  /** The first `n` events take a fresh consumer along the cursor's branch to the cursor itself. */
  ghost predicate PassesCursor(u: Store, base: Id, es: seq<Event>, n: nat, cur: Cursor, branch: seq<Block>) {
    n <= |es| && Fresh(base).ApplyAll(es[..n]).Some?
    && var k := Fresh(base).ApplyAll(es[..n]).value; k.blocks == branch && Positioned(u, k, cur)
  }

  /** Where the cursor's LIB is on the cursor's own branch: where it is on the head's segment. */
  lemma BranchMeets(u: Store, s: State, start: nat, cur: Cursor, seg: seq<Block>, i: nat, l: nat, branch: seq<Block>)
    requires ThroughOk(u, s, start, cur, seg, i, l)
    requires branch == CompletePath(u, s.db.stored, cur.block.id) && branch != [] && branch[0].num <= start
    ensures i < BranchEnd(branch, cur) <= |branch| && branch[..i + 1] == seg[..i + 1]
    ensures RootOf(branch, cur.block.id) == RootOf(seg, HeadRef(s).id)
    ensures branch[|branch| - 1] == u[cur.block.id]
  {
    hide Linked;
    var st := s.db.stored;
    var p :| Linked(u, cur.lib.id, p, cur.block.id) && (cur.step == Undo ==> p != []);
    SegmentStored(st, branch, cur.block.id);
    SegmentStored(st, seg, HeadRef(s).id);
    LinkedElements(st, RootOf(branch, cur.block.id), branch, cur.block.id);
    assert seg[i] in seg && seg[i] == u[cur.lib.id];
    assert branch[|branch| - 1] in branch;
    var j := AncestorInSegment(u, st, branch, cur.block.id, cur.lib.id, p);
    assert branch[j] in branch;
    PrefixIsComplete(u, st, branch, cur.block.id, j);
    PrefixIsComplete(u, st, seg, HeadRef(s).id, i);
    CompleteUnique(st, branch[..j + 1], seg[..i + 1], cur.lib.id);
    assert |branch[..j + 1]| == j + 1 && |seg[..i + 1]| == i + 1;
    assert branch[0] == branch[..j + 1][0] && seg[0] == seg[..i + 1][0];
  }

  lemma PrefixIsComplete(u: Store, m: Store, seg: seq<Block>, head: Id, i: nat)
    requires WellFormed(u) && Within(m, u) && Complete(m, seg, head) && i < |seg|
    ensures Complete(m, seg[..i + 1], seg[i].id)
  {
    hide Linked;
    LinkedPrefix(m, RootOf(seg, head), seg, i + 1, head);
    assert seg[..i + 1][0] == seg[0];
  }

  lemma StartsByLib(u: Store, s: State, start: nat, cur: Cursor, seg: seq<Block>, i: nat, l: nat, a: nat)
    requires ThroughOk(u, s, start, cur, seg, i, l) && StartsAtNum(seg, start, a)
    ensures a <= i
  {
    hide Linked, Complete;
    ThroughPlaces(u, s, start, cur, seg, i, l);
  }

  /** The cursor's branch up to the cursor's LIB is the head's segment. */
  lemma BranchFacts(u: Store, s: State, start: nat, cur: Cursor, seg: seq<Block>, i: nat, l: nat, branch: seq<Block>, a: nat)
    requires ThroughOk(u, s, start, cur, seg, i, l) && StartsAtNum(seg, start, a)
    requires branch == CompletePath(u, s.db.stored, cur.block.id) && branch != [] && branch[0].num <= start
    ensures a <= i < BranchEnd(branch, cur) <= |branch| && branch[i] == seg[i] && branch[|branch| - 1] == u[cur.block.id]
    ensures StartsAtNum(branch, start, a) && Ascending(branch) && forall j | 0 <= j < i :: branch[j].num < cur.lib.num
    ensures var root := RootOf(branch, cur.block.id);
      Linked(s.db.stored, root, branch, cur.block.id) && At(root, branch, a) == At(RootOf(seg, HeadRef(s).id), seg, a)
  {
    hide Linked, StartsAtNum;
    var st, root := s.db.stored, RootOf(branch, cur.block.id);
    LinkedAscending(u, st, root, branch, cur.block.id);
    BranchMeets(u, s, start, cur, seg, i, l, branch);
    ThroughPlaces(u, s, start, cur, seg, i, l);
    BranchStart(seg, branch, start, a, i);
    SamePrefix(seg, branch, i, a, root);
  }

  lemma SamePrefix(seg: seq<Block>, branch: seq<Block>, i: nat, a: nat, root: Id)
    requires a <= i < |seg| && i < |branch| && seg[..i + 1] == branch[..i + 1]
    ensures At(root, branch, a) == At(root, seg, a) && forall j | 0 <= j <= i :: branch[j] == seg[j]
  {
    assert forall j | 0 <= j <= i :: branch[j] == branch[..i + 1][j] == seg[..i + 1][j] == seg[j];
  }

  /** On the cursor's branch, from the start block to the cursor. */
  lemma BranchIsLed(u: Store, s: State, start: nat, cur: Cursor, seg: seq<Block>, i: nat, l: nat, branch: seq<Block>, a: nat)
    requires ThroughOk(u, s, start, cur, seg, i, l) && StartsAtNum(seg, start, a)
    requires branch == CompletePath(u, s.db.stored, cur.block.id) && branch != [] && branch[0].num <= start
    ensures a <= i < BranchEnd(branch, cur) <= |branch|
    ensures Fresh(At(RootOf(seg, HeadRef(s).id), seg, a)).ApplyAll(Collect(branch, AlongBranch(start, cur, HeadRef(s))))
            == if cur.lib.num < seg[i].num then None
               else Some(Consumer(At(RootOf(seg, HeadRef(s).id), seg, a), branch[a..BranchEnd(branch, cur)], i + 1 - a, {}))
  {
    hide Linked, Collect, Consumer.ApplyAll, Through, AlongBranch, StartsAtNum, Complete;
    var st, root, e := s.db.stored, RootOf(branch, cur.block.id), BranchEnd(branch, cur);
    BranchFacts(u, s, start, cur, seg, i, l, branch, a);
    BranchIsThrough(branch, start, cur, HeadRef(s));
    if cur.lib.num < seg[i].num {
      ThroughHoleFails(u, st, root, branch, cur.block.id, start, cur.lib, HeadRef(s), a, i, e);
    } else {
      ThroughPlaces(u, s, start, cur, seg, i, l);
      ThroughIsLed(u, st, root, branch, cur.block.id, start, cur.lib, HeadRef(s), a, i, e);
    }
  }

  lemma BranchStart(seg: seq<Block>, branch: seq<Block>, start: nat, a: nat, i: nat)
    requires i < |seg| && i < |branch| && seg[..i + 1] == branch[..i + 1] && start <= seg[i].num
    requires StartsAtNum(seg, start, a) && Ascending(branch)
    ensures a <= i && StartsAtNum(branch, start, a)
  {
    assert forall j | 0 <= j <= i :: branch[j] == branch[..i + 1][j] == seg[..i + 1][j] == seg[j];
  }

  /** There the consumer is where the cursor says, and can return to the head's segment. */
  lemma BranchCanReturn(u: Store, s: State, start: nat, cur: Cursor, seg: seq<Block>, i: nat, l: nat, branch: seq<Block>,
                        a: nat, base: Id)
    requires ThroughOk(u, s, start, cur, seg, i, l) && !InPath(cur.block.id, seg)
    requires branch == CompletePath(u, s.db.stored, cur.block.id) && branch != [] && branch[0].num <= start
    requires a <= i < BranchEnd(branch, cur) <= |branch|
    ensures var k := Consumer(base, branch[a..BranchEnd(branch, cur)], i + 1 - a, {});
      Positioned(u, k, cur) && CanReturn(u, s, seg, cur, i, k)
  {
    hide Linked, Complete;
    BranchMeets(u, s, start, cur, seg, i, l, branch);
    assert branch[i] == branch[..i + 1][i] == seg[i];
    BranchTop(u, s, cur, branch, i);
    SliceEnds(branch, base, a, i, BranchEnd(branch, cur));
  }

  lemma BranchTop(u: Store, s: State, cur: Cursor, branch: seq<Block>, i: nat)
    requires DbOk(u, s.db) && Complete(s.db.stored, branch, cur.block.id) && i < BranchEnd(branch, cur) <= |branch|
    ensures var e := BranchEnd(branch, cur);
      && GoodBlock(s.db.stored, branch[|branch| - 1]) && branch[|branch| - 1].id == cur.block.id
      && Linked(s.db.stored, branch[i].id, branch[i + 1..e], branch[e - 1].id)
      && (if cur.step == Undo then branch[|branch| - 1].parent == branch[e - 1].id else branch[e - 1].id == cur.block.id)
  {
    hide Linked;
    var st, root, e := s.db.stored, RootOf(branch, cur.block.id), BranchEnd(branch, cur);
    LinkedElements(st, root, branch, cur.block.id);
    SegmentSlice(u, st, root, branch, cur.block.id, i + 1, e);
    LinkedAt(st, root, branch, |branch| - 1, cur.block.id);
  }

  lemma SliceEnds(branch: seq<Block>, base: Id, a: nat, i: nat, e: nat)
    requires a <= i < e <= |branch|
    ensures var k := Consumer(base, branch[a..e], i + 1 - a, {});
      k.blocks[k.fin..] == branch[i + 1..e] && k.Top() == branch[e - 1].id && k.Final() == branch[i].id
  {
  }

  lemma ThroughHead(u: Store, s: State, start: nat, cur: Cursor, seg: seq<Block>, i: nat, l: nat)
    requires ThroughOk(u, s, start, cur, seg, i, l) && seg[0].num <= start
    requires !InPath(cur.block.id, seg) && ThroughWorks(s, cur, seg, i, l)
    ensures HeadSegment(u, s, seg, cur, i, l)
  {
    hide Linked;
    LinkedAscending(u, s.db.stored, RootOf(seg, HeadRef(s).id), seg, HeadRef(s).id);
    SegmentStored(s.db.stored, seg, HeadRef(s).id);
    assert seg[i] in seg && seg[l] in seg;
  }

  lemma ThroughIs(u: Store, s: State, start: nat, cur: Cursor, seg: seq<Block>, i: nat, l: nat)
    requires ThroughOk(u, s, start, cur, seg, i, l) && ThroughCursor(u, s, start, cur).Ok?
    ensures seg[0].num <= start
    ensures InPath(cur.block.id, seg) ==>
      ThroughCursor(u, s, start, cur).value == Collect(seg, Through(start, s.db.lib, HeadRef(s)))
    ensures var branch := CompletePath(u, s.db.stored, cur.block.id);
      !InPath(cur.block.id, seg) ==>
        && branch != [] && branch[0].num <= start && FromCursor(u, s, cur).Ok?
        && ThroughCursor(u, s, start, cur).value
           == Collect(branch, AlongBranch(start, cur, HeadRef(s))) + FromCursor(u, s, cur).value
  {
    hide Linked, Collect, FromCursor;
  }

  /**
   Streaming through a cursor, with the start at or below the cursor's LIB. The list takes a fresh consumer
   to the canonical chain from the start block to the head, final up to the LIB, exactly when the LIBs
   involved carry the numbers of their blocks; a forked cursor is passed on the way, along its own branch.
   */
  lemma ThroughCursorIsLed(u: Store, s: State, start: nat, cur: Cursor, seg: seq<Block>, i: nat, l: nat, a: nat)
    requires ThroughOk(u, s, start, cur, seg, i, l) && StartsAtNum(seg, start, a)
    requires ThroughCursor(u, s, start, cur).Ok?
    ensures var root, es := RootOf(seg, HeadRef(s).id), ThroughCursor(u, s, start, cur).value;
      Fresh(At(root, seg, a)).ApplyAll(es) == Some(Led(root, seg, a, l)) <==> ThroughWorks(s, cur, seg, i, l)
    ensures var base, es := At(RootOf(seg, HeadRef(s).id), seg, a), ThroughCursor(u, s, start, cur).value;
      var branch := CompletePath(u, s.db.stored, cur.block.id);
      !InPath(cur.block.id, seg) && cur.lib.num == seg[i].num ==>
        a <= BranchEnd(branch, cur) <= |branch| && exists n :: PassesCursor(u, base, es, n, cur, branch[a..BranchEnd(branch, cur)])
  {
    hide Linked, Collect, Consumer.ApplyAll, StartsAtNum, FromCursor, ThroughCursor, Complete, AlongBranch, Through, PassesCursor, Led;
    ThroughIs(u, s, start, cur, seg, i, l);
    StartsByLib(u, s, start, cur, seg, i, l, a);
    ThroughPlaces(u, s, start, cur, seg, i, l);
    if InPath(cur.block.id, seg) {
      ThroughCanonical(u, s, start, cur, seg, i, l, a);
    } else {
      ThroughForked(u, s, start, cur, seg, i, l, a, CompletePath(u, s.db.stored, cur.block.id));
    }
  }

  lemma ThroughCanonical(u: Store, s: State, start: nat, cur: Cursor, seg: seq<Block>, i: nat, l: nat, a: nat)
    requires ThroughOk(u, s, start, cur, seg, i, l) && StartsAtNum(seg, start, a)
    ensures var root := RootOf(seg, HeadRef(s).id);
      Fresh(At(root, seg, a)).ApplyAll(Collect(seg, Through(start, s.db.lib, HeadRef(s))))
      == if s.db.lib.num < seg[l].num then None else Some(Led(root, seg, a, l))
  {
    hide Linked, Collect, Consumer.ApplyAll, Through, StartsAtNum;
    var st, root, head := s.db.stored, RootOf(seg, HeadRef(s).id), HeadRef(s);
    LinkedAscending(u, st, root, seg, head.id);
    StartsByLib(u, s, start, cur, seg, i, l, a);
    ThroughPlaces(u, s, start, cur, seg, i, l);
    assert seg[..|seg|] == seg && seg[a..|seg|] == seg[a..];
    if s.db.lib.num < seg[l].num {
      ThroughHoleFails(u, st, root, seg, head.id, start, s.db.lib, head, a, l, |seg|);
    } else {
      ThroughIsLed(u, st, root, seg, head.id, start, s.db.lib, head, a, l, |seg|);
    }
  }

  lemma ThroughForked(u: Store, s: State, start: nat, cur: Cursor, seg: seq<Block>, i: nat, l: nat, a: nat, branch: seq<Block>)
    requires ThroughOk(u, s, start, cur, seg, i, l) && StartsAtNum(seg, start, a) && seg[0].num <= start && a <= i
    requires !InPath(cur.block.id, seg) && FromCursor(u, s, cur).Ok?
    requires branch == CompletePath(u, s.db.stored, cur.block.id) && branch != [] && branch[0].num <= start
    ensures var root := RootOf(seg, HeadRef(s).id);
      var es := Collect(branch, AlongBranch(start, cur, HeadRef(s))) + FromCursor(u, s, cur).value;
      && (Fresh(At(root, seg, a)).ApplyAll(es) == Some(Led(root, seg, a, l)) <==> ThroughWorks(s, cur, seg, i, l))
      && (cur.lib.num == seg[i].num ==>
          && a <= BranchEnd(branch, cur) <= |branch|
          && exists n :: PassesCursor(u, At(root, seg, a), es, n, cur, branch[a..BranchEnd(branch, cur)]))
  {
    hide Linked, Collect, Consumer.ApplyAll, AlongBranch, StartsAtNum, FromCursor, Complete, CanReturn, HeadSegment, InPath,
      At, Positioned, PassesCursor, AtHead, DbOk, RefOk;
    var base := At(RootOf(seg, HeadRef(s).id), seg, a);
    var first, back := Collect(branch, AlongBranch(start, cur, HeadRef(s))), FromCursor(u, s, cur).value;
    BranchIsLed(u, s, start, cur, seg, i, l, branch, a);
    ThroughPlaces(u, s, start, cur, seg, i, l);
    ApplyConcat(Fresh(base), first, back);
    if cur.lib.num == seg[i].num {
      BranchCanReturn(u, s, start, cur, seg, i, l, branch, a, base);
      var k := Consumer(base, branch[a..BranchEnd(branch, cur)], i + 1 - a, {});
      FirstThenBack(u, base, first, back, k, cur);
      if ThroughWorks(s, cur, seg, i, l) {
        ThroughHead(u, s, start, cur, seg, i, l);
        CursorResumes(u, s, seg, cur, i, l, k);
        BranchMeets(u, s, start, cur, seg, i, l, branch);
        JoinBranch(base, branch, seg, a, i, l, BranchEnd(branch, cur));
      } else {
        HoleNotReached(u, s, start, cur, seg, i, l, a, k);
      }
    }
  }

  /** The list never declares a LIB final that carries a number below its block's. */
  lemma HoleNotReached(u: Store, s: State, start: nat, cur: Cursor, seg: seq<Block>, i: nat, l: nat, a: nat, k: Consumer)
    requires ThroughOk(u, s, start, cur, seg, i, l) && FromCursor(u, s, cur).Ok? && a <= i < l
    requires s.db.lib.num < seg[l].num && k.fin == i + 1 - a <= |k.blocks|
    ensures k.ApplyAll(FromCursor(u, s, cur).value) != Some(Led(RootOf(seg, HeadRef(s).id), seg, a, l))
  {
    hide Linked, FromCursor, Consumer.ApplyAll, Complete;
    var back, d := FromCursor(u, s, cur).value, Led(RootOf(seg, HeadRef(s).id), seg, a, l);
    FinalizedByCursor(u, s, cur, seg[l]);
    assert seg[a..][i + 1 - a..l + 1 - a][l - i - 1] == seg[l];
    if k.ApplyAll(back) == Some(d) {
      FinalBlocksStay(k, back);
    }
  }

  lemma FirstThenBack(u: Store, base: Id, first: seq<Event>, back: seq<Event>, k: Consumer, cur: Cursor)
    requires Fresh(base).ApplyAll(first) == Some(k) && Positioned(u, k, cur)
    ensures PassesCursor(u, base, first + back, |first|, cur, k.blocks)
  {
    hide Consumer.ApplyAll, Positioned;
    assert (first + back)[..|first|] == first;
  }

  lemma JoinBranch(base: Id, branch: seq<Block>, seg: seq<Block>, a: nat, i: nat, l: nat, e: nat)
    requires a <= i < e <= |branch| && i <= l < |seg| && branch[..i + 1] == seg[..i + 1]
    ensures AtHead(Consumer(base, branch[a..e], i + 1 - a, {}), seg, i, l) == Consumer(base, seg[a..], l + 1 - a, {})
  {
    assert branch[a..e][..i + 1 - a] == branch[..i + 1][a..] == seg[..i + 1][a..];
    assert seg[..i + 1][a..] + seg[i + 1..] == seg[a..];
  }

  // When there is a list, and what its events tell

  /** The Forkable has a head whose stored segment holds the LIB at `l`. */
  ghost predicate LibAt(u: Store, s: State, seg: seq<Block>, l: nat) {
    && DbOk(u, s.db) && s.db.HasLib() && s.last.Some? && seg == CompletePath(u, s.db.stored, HeadRef(s).id)
    && l < |seg| && seg[l].id == s.db.lib.id
  }

  /**
   Whether there is a list to stream through a cursor, for any start block and cursor: the head's segment starts at
   or below the start block, and the cursor's block is on it. Or stored blocks lead from that block down to the LIB,
   the block is not below the start, and the cursor's LIB is on the segment. A fork that parts from the chain below
   the LIB is refused.
   */
  lemma ThroughExists(u: Store, s: State, start: nat, cur: Cursor, seg: seq<Block>, l: nat)
    requires LibAt(u, s, seg, l) && (cur.block.id in u ==> cur.block.num == u[cur.block.id].num)
    ensures ThroughCursor(u, s, start, cur).Ok? <==>
      && seg[0].num <= start
      && (|| InPath(cur.block.id, seg)
          || (Descends(s.db, s.db.lib.id, cur.block.id) && start <= cur.block.num
              && seg[0].num <= cur.lib.num && InPath(cur.lib.id, seg)))
  {
    hide Linked, FromCursor, Collect, Complete, Descends, ThroughCursor;
    HeadDescends(u, s, seg, l);
    ThroughExistsAnywhere(u, s, start, cur);
    CursorListExists(u, s, cur);
    if Descends(s.db, s.db.lib.id, cur.block.id) {
      BranchReachesLib(u, s, cur, seg, l);
      if !InPath(cur.block.id, seg) {
        DescendsMeets(s, cur, seg);
      }
    }
  }

  lemma HeadDescends(u: Store, s: State, seg: seq<Block>, l: nat)
    requires LibAt(u, s, seg, l)
    ensures InPath(s.db.lib.id, seg) && Descends(s.db, s.db.lib.id, HeadRef(s).id)
  {
    hide Linked, Complete;
    assert InPath(s.db.lib.id, seg);
    LeadsUp(u, s.db, seg, HeadRef(s).id);
  }

  /** The same in any state at all, the LIB stored or not. */
  lemma ThroughExistsAnywhere(u: Store, s: State, start: nat, cur: Cursor)
    requires DbOk(u, s.db) && (cur.block.id in u ==> cur.block.num == u[cur.block.id].num)
    ensures var seg, branch := CompletePath(u, s.db.stored, HeadRef(s).id), CompletePath(u, s.db.stored, cur.block.id);
      ThroughCursor(u, s, start, cur).Ok? <==>
        && s.db.HasLib() && seg != [] && Descends(s.db, s.db.lib.id, HeadRef(s).id) && seg[0].num <= start
        && (|| InPath(cur.block.id, seg)
            || (Descends(s.db, s.db.lib.id, cur.block.id) && branch != [] && branch[0].num <= start <= cur.block.num
                && Covers(u, s, cur) && Returns(u, s, cur)))
  {
    hide Linked, FromCursor, Collect, Complete, Descends, InPath, ReachesLib, Covers, Returns;
    ReachesLibMeans(u, s.db, HeadRef(s).id);
    ReachesLibMeans(u, s.db, cur.block.id);
    CursorListExists(u, s, cur);
  }

  /** So a start block at or below the cursor's LIB leaves only one question to a forked cursor. */
  lemma ThroughExistsFromLib(u: Store, s: State, start: nat, cur: Cursor, seg: seq<Block>, i: nat, l: nat)
    requires ThroughOk(u, s, start, cur, seg, i, l)
    ensures ThroughCursor(u, s, start, cur).Ok? <==>
      seg[0].num <= start && (InPath(cur.block.id, seg) || Descends(s.db, s.db.lib.id, cur.block.id))
  {
    hide Linked, ThroughCursor, Complete, Descends;
    assert InPath(cur.lib.id, seg);
    ThroughExists(u, s, start, cur, seg, l);
    AboveItsLib(u, s, start, cur, seg, i, l);
  }

  lemma DescendsMeets(s: State, cur: Cursor, seg: seq<Block>)
    requires InPath(s.db.lib.id, seg) && !InPath(cur.block.id, seg) && Descends(s.db, s.db.lib.id, cur.block.id)
    ensures Meets(s.db, seg, cur.block.id)
  {
    var p :| Linked(s.db.stored, s.db.lib.id, p, cur.block.id);
    MeetsAt(s.db, seg, cur.block.id, s.db.lib.id, p);
  }

  lemma AboveItsLib(u: Store, s: State, start: nat, cur: Cursor, seg: seq<Block>, i: nat, l: nat)
    requires ThroughOk(u, s, start, cur, seg, i, l)
    ensures cur.lib.num <= cur.block.num
  {
    var p :| Linked(u, cur.lib.id, p, cur.block.id);
    LinkedAscending(u, u, cur.lib.id, p, cur.block.id);
    LinkedElements(u, cur.lib.id, p, cur.block.id);
    hide Linked;
    assert p != [] ==> u[cur.block.id] == p[|p| - 1];
  }

  /** A block that descends from the LIB has a branch with the bottom of the head's segment. */
  lemma BranchReachesLib(u: Store, s: State, cur: Cursor, seg: seq<Block>, l: nat)
    requires LibAt(u, s, seg, l) && Descends(s.db, s.db.lib.id, cur.block.id)
    ensures var branch := CompletePath(u, s.db.stored, cur.block.id); branch != [] && branch[0] == seg[0]
  {
    hide Linked, Complete;
    BranchFromLib(u, s, seg, l, cur.block.id, CompletePath(u, s.db.stored, cur.block.id));
  }

  lemma BranchFromLib(u: Store, s: State, seg: seq<Block>, l: nat, id: Id, branch: seq<Block>)
    requires DbOk(u, s.db) && seg == CompletePath(u, s.db.stored, HeadRef(s).id) && branch == CompletePath(u, s.db.stored, id)
    requires l < |seg| && seg[l].id == s.db.lib.id && Descends(s.db, s.db.lib.id, id)
    ensures branch != [] && branch[0] == seg[0] && InPath(s.db.lib.id, branch)
  {
    hide Linked;
    var st, head := s.db.stored, HeadRef(s).id;
    var p :| Linked(st, s.db.lib.id, p, id);
    var root, down := RootOf(seg, head), seg[..l + 1];
    LinkedPrefix(st, root, seg, l + 1, head);
    LinkedConcat(u, st, root, down, s.db.lib.id, p, id);
    assert (down + p)[0] == seg[0] && (down + p)[l] == seg[l];
    CompleteUnique(st, branch, down + p, id);
    assert branch[l].id == s.db.lib.id;
  }

  lemma {:induction false} CanonicalTells(seg: seq<Block>, lib: Ref, head: Ref)
    ensures forall e <- Collect(seg, Canonical(lib, head)) ::
      && e.head == head && e.junction == None && e.lib == (if e.block.num < lib.num then e.block.AsRef() else lib)
      && e.step == if e.block.num <= lib.num then NewIrreversible else New
    decreases |seg|
  {
    if seg != [] {
      CanonicalTells(seg[..|seg| - 1], lib, head);
    }
  }

  /** Events from a number: the head, the LIB or the block itself below it, and no junction. */
  lemma NumTells(u: Store, s: State, num: nat)
    requires DbOk(u, s.db) && FromNum(u, s, num).Ok?
    ensures var lib := s.db.lib;
      forall e <- FromNum(u, s, num).value ::
        && e.head == HeadRef(s) && e.junction == None && e.lib == (if e.block.num < lib.num then e.block.AsRef() else lib)
        && e.step == if e.block.num <= lib.num then NewIrreversible else New
  {
    hide Collect, Linked;
    var seg := CompletePath(u, s.db.stored, HeadRef(s).id);
    CanonicalTells(SkipTo(seg, num), s.db.lib, HeadRef(s));
  }

  /** The event is about a block from the start on, and names the head and the LIB. */
  ghost predicate ThroughTells(e: Event, start: nat, lib: Ref, head: Ref) {
    && start <= e.block.num && e.head == head && e.lib == lib && e.junction == None
    && e.step == if e.block.num <= lib.num then NewIrreversible else New
  }

  lemma {:induction false} CollectTells(seg: seq<Block>, start: nat, cur: Cursor, lib: Ref, head: Ref)
    ensures forall e <- Collect(seg, Through(start, lib, head)) :: ThroughTells(e, start, lib, head)
    ensures forall e <- Collect(seg, AlongBranch(start, cur, head)) :: ThroughTells(e, start, cur.lib, head)
    decreases |seg|
  {
    if seg != [] {
      CollectTells(seg[..|seg| - 1], start, cur, lib, head);
    }
  }

  /** Events through a cursor: those of the list back to the chain come last, and the ones before name one LIB. */
  lemma ThroughCursorTells(u: Store, s: State, start: nat, cur: Cursor) returns (n: nat)
    requires DbOk(u, s.db) && (cur.block.id in u ==> cur.block.num == u[cur.block.id].num) && ThroughCursor(u, s, start, cur).Ok?
    ensures var es := ThroughCursor(u, s, start, cur).value;
      var canonical := InPath(cur.block.id, CompletePath(u, s.db.stored, HeadRef(s).id));
      && n <= |es| && (forall e <- es[..n] :: ThroughTells(e, start, if canonical then s.db.lib else cur.lib, HeadRef(s)))
      && if canonical then n == |es| else FromCursor(u, s, cur) == Ok(es[n..])
  {
    hide Collect, Linked, FromCursor, ThroughTells, InPath, ReachesLib;
    var seg := CompletePath(u, s.db.stored, HeadRef(s).id);
    var es := ThroughCursor(u, s, start, cur).value;
    CollectTells(seg, start, cur, s.db.lib, HeadRef(s));
    if InPath(cur.block.id, seg) {
      n := |es|;
    } else {
      var branch := CompletePath(u, s.db.stored, cur.block.id);
      CollectTells(branch, start, cur, s.db.lib, HeadRef(s));
      n := |Collect(branch, AlongBranch(start, cur, HeadRef(s)))|;
      assert es[n..] == FromCursor(u, s, cur).value;
    }
  }

  // From a number, in any state

  lemma {:induction false} SkipsTo(seg: seq<Block>, num: nat)
    ensures SkipTo(seg, num) != [] <==> exists x <- seg :: x.num == num
    decreases |seg|
  {
    if seg != [] {
      SkipsTo(seg[1..], num);
      assert forall x :: x in seg <==> x == seg[0] || x in seg[1..];
    }
  }

  /** Whether there is a list from a number, whatever the state, the LIB stored or not. */
  lemma FromNumExists(u: Store, s: State, num: nat)
    requires DbOk(u, s.db)
    ensures FromNum(u, s, num).Ok? <==>
      && s.db.HasLib() && s.last.Some? && Descends(s.db, s.db.lib.id, HeadRef(s).id)
      && exists x <- CompletePath(u, s.db.stored, HeadRef(s).id) :: x.num == num
  {
    hide Linked, Complete, Collect, SkipTo, ReachesLib, Descends, Canonical;
    var head := HeadRef(s);
    var seg := CompletePath(u, s.db.stored, head.id);
    ReachesLibMeans(u, s.db, head.id);
    SkipsTo(seg, num);
    EmptyCollect(Canonical(s.db.lib, head));
    if SkipTo(seg, num) != [] {
      CollectIsLong(SkipTo(seg, num), s.db.lib, head);
    }
  }

  /** With a LIB that is not stored everything on the segment is above it, and a list from a number is all new. */
  lemma FromNumAboveLib(u: Store, s: State, num: nat, seg: seq<Block>, a: nat)
    requires DbOk(u, s.db) && s.db.HasLib() && s.last.Some? && seg == CompletePath(u, s.db.stored, HeadRef(s).id)
    requires RootOf(seg, HeadRef(s).id) == s.db.lib.id && StartsAtNum(seg, num, a) && FromNum(u, s, num).Ok?
    ensures Consumer(s.db.lib.id, seg[..a], 0, {}).ApplyAll(FromNum(u, s, num).value) == Some(Consumer(s.db.lib.id, seg, 0, {}))
  {
    hide Linked, Collect, Consumer.ApplyAll, FromNum, Canonical, StartsAtNum;
    var lib, head := s.db.lib, HeadRef(s);
    LinkedAscending(u, s.db.stored, lib.id, seg, head.id);
    NumIs(u, s, num, seg, a);
    NewAboveLib(u, s.db.stored, seg, lib, head, a);
  }

  lemma NumIs(u: Store, s: State, num: nat, seg: seq<Block>, a: nat)
    requires DbOk(u, s.db) && seg == CompletePath(u, s.db.stored, HeadRef(s).id) && Ascending(seg)
    requires StartsAtNum(seg, num, a) && FromNum(u, s, num).Ok?
    ensures a <= |seg| && FromNum(u, s, num).value == Collect(seg[a..], Canonical(s.db.lib, HeadRef(s)))
  {
    hide Linked, Collect, Canonical;
    SkipsToStart(seg, num, a);
    EmptyCollect(Canonical(s.db.lib, HeadRef(s)));
  }

  lemma NewAboveLib(u: Store, m: Store, seg: seq<Block>, lib: Ref, head: Ref, a: nat)
    requires WellFormed(u) && Within(m, u) && RefOk(u, lib) && Linked(m, lib.id, seg, head.id) && Ascending(seg) && a <= |seg|
    ensures Consumer(lib.id, seg[..a], 0, {}).ApplyAll(Collect(seg[a..], Canonical(lib, head)))
            == Some(Consumer(lib.id, seg, 0, {}))
  {
    hide Linked, Collect, Consumer.ApplyAll, Are, Names, Canonical;
    var c, y := Consumer(lib.id, seg[..a], 0, {}), seg[a..];
    LinkedAscending(u, m, lib.id, seg, head.id);
    CanonicalNew(y, lib, head);
    LinkedSuffix(u, m, lib.id, seg, a, head.id);
    PushAll(m, c, Collect(y, Canonical(lib, head)), y, head.id);
    assert seg[..a] + y == seg;
  }
}
