/** Resuming from a cursor is the same as never having disconnected. */
module Resume {
  import opened Chain
  import opened Consumers
  import opened ForkDbModel
  import opened ForkableModel
  import opened ForkableInvariant
  import opened ForkableRuns
  import opened ResumeModel

  // Collecting

  lemma CollectLast(bs: seq<Block>, f: Block -> seq<Event>)
    requires bs != []
    ensures Collect(bs, f) == Collect(bs[..|bs| - 1], f) + f(bs[|bs| - 1])
  {
  }

  lemma {:induction false} CollectConcat(a: seq<Block>, b: seq<Block>, f: Block -> seq<Event>)
    ensures Collect(a + b, f) == Collect(a, f) + Collect(b, f)
    decreases |b|
  {
    hide Collect;
    if b == [] {
      assert a + b == a;
      CollectEmpty(b, f);
    } else {
      var n := |b| - 1;
      CollectConcat(a, b[..n], f);
      CollectLast(b, f);
      CollectLast(a + b, f);
      assert (a + b)[..|a + b| - 1] == a + b[..n];
    }
  }

  lemma CollectEmpty(b: seq<Block>, f: Block -> seq<Event>)
    requires b == []
    ensures Collect(b, f) == [] && forall es: seq<Event> :: es + Collect(b, f) == es
  {
  }

  lemma {:induction false} CollectNone(a: seq<Block>, f: Block -> seq<Event>)
    requires forall i | 0 <= i < |a| :: f(a[i]) == []
    ensures Collect(a, f) == []
    decreases |a|
  {
    if a != [] {
      CollectNone(a[..|a| - 1], f);
    }
  }

  lemma {:induction false} CollectOne(a: seq<Block>, f: Block -> seq<Event>, step: StepType)
    requires forall i | 0 <= i < |a| :: |f(a[i])| == 1 && f(a[i])[0].step == step && f(a[i])[0].block == a[i]
    ensures Are(Collect(a, f), step, a)
    ensures forall i | 0 <= i < |a| :: Collect(a, f)[i] == f(a[i])[0]
    decreases |a|
  {
    if a != [] {
      CollectOne(a[..|a| - 1], f, step);
    }
  }

  lemma CollectThemselves(a: seq<Block>, f: Block -> seq<Event>, step: StepType)
    requires forall i | 0 <= i < |a| ::
      |f(a[i])| == 1 && f(a[i])[0].step == step && f(a[i])[0].block == a[i] && f(a[i])[0].NamedLib() == a[i].id
    ensures Are(Collect(a, f), step, a) && NameThemselves(Collect(a, f))
  {
    hide Collect;
    CollectOne(a, f, step);
  }

  lemma CollectNames(a: seq<Block>, f: Block -> seq<Event>, step: StepType, lib: Id)
    requires forall i | 0 <= i < |a| ::
      |f(a[i])| == 1 && f(a[i])[0].step == step && f(a[i])[0].block == a[i] && f(a[i])[0].NamedLib() == lib
    ensures Are(Collect(a, f), step, a) && Names(Collect(a, f), lib)
  {
    hide Collect;
    CollectOne(a, f, step);
  }

  lemma CollectFour(seg: seq<Block>, f: Block -> seq<Event>, i: nat, j: nat, k: nat)
    requires i <= j <= k <= |seg|
    ensures Collect(seg, f) == Collect(seg[..i], f) + Collect(seg[i..j], f) + Collect(seg[j..k], f) + Collect(seg[k..], f)
  {
    hide Collect;
    var a, b, c, d := seg[..i], seg[i..j], seg[j..k], seg[k..];
    SlicesOfFour(seg, i, j, k);
    CollectConcat(a, b, f);
    CollectConcat(a + b, c, f);
    CollectConcat(a + b + c, d, f);
  }

  lemma SlicesOfFour<T>(s: seq<T>, i: nat, j: nat, k: nat)
    requires i <= j <= k <= |s|
    ensures s[..i] + s[i..j] + s[j..k] + s[k..] == s
  {
  }

  // The forward part: a cursor on the head's segment

  /**
   Positions on the head's segment: `i` is the cursor's LIB, `t` the consumer's top, `l` the LIB now.
   When a LIB's number is not that of its block (a numbering hole), the two LIBs are the same block.
   */
  ghost predicate Placed(seg: seq<Block>, cur: Cursor, lib: Ref, i: nat, t: nat, l: nat) {
    && i <= t < |seg| && i <= l < |seg| && Ascending(seg)
    && seg[i].id == cur.lib.id && seg[l].id == lib.id
    && (i > 0 ==> seg[i - 1].num < cur.lib.num) && cur.lib.num <= seg[i].num
    && (l > 0 ==> seg[l - 1].num < lib.num) && lib.num <= seg[l].num
    && (if lib.num < seg[l].num then i == l else cur.lib.num == seg[i].num)
    && (match cur.step
        case New | NewIrreversible => cur.block.num == seg[t].num
        case Undo => l <= t < |seg| - 1 && cur.block.num == seg[t + 1].num
        case _ => false)
  }

  /** What each block of the segment contributes, by position. */
  lemma ForwardAt(seg: seq<Block>, cur: Cursor, lib: Ref, head: Ref, i: nat, t: nat, l: nat, j: nat)
    requires Placed(seg, cur, lib, i, t, l) && j < |seg|
    ensures ForwardEvent(seg[j], cur, lib, head) ==
            if j <= i then []
            else if j <= l then [Event(if j > t then NewIrreversible else Irreversible, seg[j], seg[j].AsRef(), head, None)]
            else if j > t then [Event(New, seg[j], lib, head, None)]
            else []
  {
  }

  lemma ForwardNone(seg: seq<Block>, cur: Cursor, lib: Ref, head: Ref, i: nat, t: nat, l: nat, a: nat, b: nat)
    requires Placed(seg, cur, lib, i, t, l) && a <= b <= |seg|
    requires b <= i + 1 || (l < a && b <= t + 1)
    ensures Collect(seg[a..b], Forward(cur, lib, head)) == []
  {
    forall j | a <= j < b ensures Forward(cur, lib, head)(seg[j]) == [] {
      ForwardAt(seg, cur, lib, head, i, t, l, j);
    }
    CollectNone(seg[a..b], Forward(cur, lib, head));
  }

  lemma ForwardFinal(seg: seq<Block>, cur: Cursor, lib: Ref, head: Ref, i: nat, t: nat, l: nat, a: nat, b: nat, step: StepType)
    requires Placed(seg, cur, lib, i, t, l) && i < a <= b <= l + 1
    requires if step == Irreversible then b <= t + 1 else t < a && step == NewIrreversible
    ensures Are(Collect(seg[a..b], Forward(cur, lib, head)), step, seg[a..b])
    ensures NameThemselves(Collect(seg[a..b], Forward(cur, lib, head)))
  {
    var f := Forward(cur, lib, head);
    forall j | a <= j < b ensures f(seg[j]) == [Event(step, seg[j], seg[j].AsRef(), head, None)] {
      ForwardAt(seg, cur, lib, head, i, t, l, j);
    }
    hide Placed, Forward;
    CollectOne(seg[a..b], f, step);
  }

  lemma ForwardNew(seg: seq<Block>, cur: Cursor, lib: Ref, head: Ref, i: nat, t: nat, l: nat, a: nat)
    requires Placed(seg, cur, lib, i, t, l) && t < a <= |seg| && l < a
    ensures Are(Collect(seg[a..], Forward(cur, lib, head)), New, seg[a..])
    ensures Names(Collect(seg[a..], Forward(cur, lib, head)), lib.id)
  {
    var f := Forward(cur, lib, head);
    forall j | a <= j < |seg| ensures f(seg[j]) == [Event(New, seg[j], lib, head, None)] && lib.num <= seg[j].num {
      ForwardAt(seg, cur, lib, head, i, t, l, j);
    }
    hide Placed, Forward;
    CollectOne(seg[a..], f, New);
  }

  lemma SegmentSlice(u: Store, m: Store, root: Id, seg: seq<Block>, head: Id, x: nat, y: nat)
    requires WellFormed(u) && Within(m, u) && Linked(m, root, seg, head)
    requires x <= y <= |seg|
    ensures Linked(m, At(root, seg, x), seg[x..y], At(root, seg, y))
  {
    hide Linked;
    LinkedPrefix(m, root, seg, y, head);
    LinkedSuffix(u, m, root, seg[..y], x, At(root, seg, y));
    assert seg[..y][x..] == seg[x..y];
  }

  /** A consumer that stands on the head's segment, its final block at `i` and its top at `t`. */
  ghost predicate Stands(k: Consumer, seg: seq<Block>, i: nat, t: nat) {
    && i <= t < |seg|
    && k.fin <= |k.blocks| && k.Final() == seg[i].id && k.blocks[k.fin..] == seg[i + 1..t + 1]
    && (forall j | i < j < |seg| :: seg[j] !in k.stalled)
  }

  lemma StandsTop(k: Consumer, seg: seq<Block>, i: nat, t: nat)
    requires Stands(k, seg, i, t)
    ensures k.Top() == seg[t].id
    ensures k.blocks == k.blocks[..k.fin] + seg[i + 1..t + 1] && |k.blocks| == k.fin + t - i
  {
    if t > i {
      assert k.blocks[|k.blocks| - 1] == k.blocks[k.fin..][t - i - 1] == seg[i + 1..t + 1][t - i - 1];
    }
  }

  lemma MakeFinal(k: Consumer, seg: seq<Block>, i: nat, t: nat, j: nat, es: seq<Event>)
    requires Stands(k, seg, i, t) && i <= j <= t
    requires Are(es, Irreversible, seg[i + 1..j + 1]) && NameThemselves(es)
    ensures k.ApplyAll(es) == Some(k.(fin := k.fin + (j - i)))
    ensures Stands(k.(fin := k.fin + (j - i)), seg, j, t)
  {
    hide Consumer.ApplyAll, Are, NameThemselves;
    StandsUpTo(k, seg, i, t, j);
    StandsHigher(k, seg, i, t, j);
    FinalizeAll(k, es, seg[i + 1..j + 1]);
  }

  lemma StandsUpTo(k: Consumer, seg: seq<Block>, i: nat, t: nat, j: nat)
    requires Stands(k, seg, i, t) && i <= j <= t
    ensures k.fin + (j - i) <= |k.blocks| && k.blocks[k.fin..k.fin + (j - i)] == seg[i + 1..j + 1]
  {
    var n := j - i;
    assert k.blocks[k.fin..k.fin + n] == k.blocks[k.fin..][..n];
    assert seg[i + 1..t + 1][..n] == seg[i + 1..j + 1];
  }

  lemma StandsHigher(k: Consumer, seg: seq<Block>, i: nat, t: nat, j: nat)
    requires Stands(k, seg, i, t) && i <= j <= t
    ensures Stands(k.(fin := k.fin + (j - i)), seg, j, t)
  {
    var n := j - i;
    assert k.blocks[k.fin + n..] == k.blocks[k.fin..][n..];
    assert seg[i + 1..t + 1][n..] == seg[j + 1..t + 1];
    if n > 0 {
      assert k.blocks[k.fin + n - 1] == k.blocks[k.fin..][n - 1] == seg[i + 1..t + 1][n - 1] == seg[j];
    }
  }

  lemma StandsClear(k: Consumer, seg: seq<Block>, i: nat, t: nat, a: nat, b: nat)
    requires Stands(k, seg, i, t) && i < a <= b <= |seg|
    ensures forall x <- seg[a..b] :: x !in k.stalled
  {
  }

  lemma PushFinal(u: Store, m: Store, root: Id, seg: seq<Block>, head: Id, k: Consumer, t: nat, l: nat, es: seq<Event>)
    requires WellFormed(u) && Within(m, u) && Linked(m, root, seg, head)
    requires Stands(k, seg, t, t) && t <= l < |seg|
    requires Are(es, NewIrreversible, seg[t + 1..l + 1]) && NameThemselves(es)
    ensures |k.blocks| == k.fin
    ensures k.ApplyAll(es) == Some(k.(blocks := k.blocks + seg[t + 1..l + 1], fin := k.fin + (l - t)))
  {
    hide Linked, Consumer.ApplyAll, Are, NameThemselves;
    StandsTop(k, seg, t, t);
    SegmentSlice(u, m, root, seg, head, t + 1, l + 1);
    StandsClear(k, seg, t, t, t + 1, l + 1);
    PushAllFinal(m, k, es, seg[t + 1..l + 1], seg[l].id);
  }

  lemma StandsAfterPush(k: Consumer, seg: seq<Block>, t: nat, l: nat)
    requires Stands(k, seg, t, t) && t <= l < |seg| && |k.blocks| == k.fin
    ensures Stands(k.(blocks := k.blocks + seg[t + 1..l + 1], fin := k.fin + (l - t)), seg, l, l)
  {
  }

  lemma PushNew(u: Store, m: Store, root: Id, seg: seq<Block>, head: Id, k: Consumer, i: nat, t: nat, es: seq<Event>)
    requires WellFormed(u) && Within(m, u) && Linked(m, root, seg, head)
    requires Stands(k, seg, i, t)
    requires Are(es, New, seg[t + 1..]) && Names(es, k.Final())
    ensures k.ApplyAll(es) == Some(k.(blocks := k.blocks[..k.fin] + seg[i + 1..]))
  {
    hide Linked, Consumer.ApplyAll, Are, Names;
    StandsTop(k, seg, i, t);
    SegmentSlice(u, m, root, seg, head, t + 1, |seg|);
    assert seg[t + 1..|seg|] == seg[t + 1..];
    StandsClear(k, seg, i, t, t + 1, |seg|);
    PushAll(m, k, es, seg[t + 1..], At(root, seg, |seg|));
    JoinBlocks(k.blocks, k.blocks[..k.fin], seg, i, t);
  }

  lemma JoinBlocks(blocks: seq<Block>, final: seq<Block>, seg: seq<Block>, i: nat, t: nat)
    requires i <= t < |seg| && blocks == final + seg[i + 1..t + 1]
    ensures blocks + seg[t + 1..] == final + seg[i + 1..]
  {
  }

  /** The consumer once its final block is at `l` and its top at the head. */
  function AtHead(k: Consumer, seg: seq<Block>, i: nat, l: nat): Consumer
    requires k.fin <= |k.blocks| && i <= l < |seg|
  {
    k.(blocks := k.blocks[..k.fin] + seg[i + 1..], fin := k.fin + (l - i))
  }

  /** The consumer becomes final up to `l` and is led up to the head. */
  lemma ForwardIsLegal(u: Store, m: Store, root: Id, seg: seq<Block>, top: Id, cur: Cursor, lib: Ref, head: Ref,
                       i: nat, t: nat, l: nat, k: Consumer)
    requires WellFormed(u) && Within(m, u) && Linked(m, root, seg, top)
    requires Placed(seg, cur, lib, i, t, l) && Stands(k, seg, i, t)
    ensures k.ApplyAll(Collect(seg, Forward(cur, lib, head)))
            == Some(AtHead(k, seg, i, l))
  {
    if t < l {
      ForwardPastTop(u, m, root, seg, top, cur, lib, head, i, t, l, k);
    } else {
      ForwardFromTop(u, m, root, seg, top, cur, lib, head, i, t, l, k);
    }
  }

  lemma ForwardPastTop(u: Store, m: Store, root: Id, seg: seq<Block>, top: Id, cur: Cursor, lib: Ref, head: Ref,
                       i: nat, t: nat, l: nat, k: Consumer)
    requires WellFormed(u) && Within(m, u) && Linked(m, root, seg, top)
    requires Placed(seg, cur, lib, i, t, l) && Stands(k, seg, i, t) && t < l
    ensures k.ApplyAll(Collect(seg, Forward(cur, lib, head)))
            == Some(AtHead(k, seg, i, l))
  {
    hide Collect, Linked, Consumer.ApplyAll, Are, Names, NameThemselves, Forward, Stands;
    var f := Forward(cur, lib, head);
    CollectFour(seg, f, i + 1, t + 1, l + 1);
    ForwardNone(seg, cur, lib, head, i, t, l, 0, i + 1);
    assert seg[0..i + 1] == seg[..i + 1];
    ForwardFinal(seg, cur, lib, head, i, t, l, i + 1, t + 1, Irreversible);
    ForwardFinal(seg, cur, lib, head, i, t, l, t + 1, l + 1, NewIrreversible);
    ForwardNew(seg, cur, lib, head, i, t, l, l + 1);
    LedPastTop(u, m, root, seg, top, k, i, t, l,
               Collect(seg[i + 1..t + 1], f), Collect(seg[t + 1..l + 1], f), Collect(seg[l + 1..], f));
  }

  lemma ForwardFromTop(u: Store, m: Store, root: Id, seg: seq<Block>, top: Id, cur: Cursor, lib: Ref, head: Ref,
                       i: nat, t: nat, l: nat, k: Consumer)
    requires WellFormed(u) && Within(m, u) && Linked(m, root, seg, top)
    requires Placed(seg, cur, lib, i, t, l) && Stands(k, seg, i, t) && l <= t
    ensures k.ApplyAll(Collect(seg, Forward(cur, lib, head)))
            == Some(AtHead(k, seg, i, l))
  {
    hide Collect, Linked, Consumer.ApplyAll, Are, Names, NameThemselves, Forward, Stands;
    var f := Forward(cur, lib, head);
    CollectFour(seg, f, i + 1, l + 1, t + 1);
    ForwardNone(seg, cur, lib, head, i, t, l, 0, i + 1);
    assert seg[0..i + 1] == seg[..i + 1];
    ForwardFinal(seg, cur, lib, head, i, t, l, i + 1, l + 1, Irreversible);
    ForwardNone(seg, cur, lib, head, i, t, l, l + 1, t + 1);
    ForwardNew(seg, cur, lib, head, i, t, l, t + 1);
    LedFromTop(u, m, root, seg, top, k, i, t, l, Collect(seg[i + 1..l + 1], f), Collect(seg[t + 1..], f));
  }

  lemma LedPastTop(u: Store, m: Store, root: Id, seg: seq<Block>, head: Id, k: Consumer, i: nat, t: nat, l: nat,
                   irr: seq<Event>, newIrr: seq<Event>, news: seq<Event>)
    requires WellFormed(u) && Within(m, u) && Linked(m, root, seg, head)
    requires Stands(k, seg, i, t) && t < l < |seg|
    requires Are(irr, Irreversible, seg[i + 1..t + 1]) && NameThemselves(irr)
    requires Are(newIrr, NewIrreversible, seg[t + 1..l + 1]) && NameThemselves(newIrr)
    requires Are(news, New, seg[l + 1..]) && Names(news, seg[l].id)
    ensures k.ApplyAll([] + irr + newIrr + news) == Some(k.(blocks := k.blocks[..k.fin] + seg[i + 1..], fin := k.fin + (l - i)))
  {
    hide Linked, Consumer.ApplyAll, Are, Names, NameThemselves;
    MakeFinal(k, seg, i, t, t, irr);
    var k1 := k.(fin := k.fin + (t - i));
    PushFinal(u, m, root, seg, head, k1, t, l, newIrr);
    StandsAfterPush(k1, seg, t, l);
    var k2 := k1.(blocks := k1.blocks + seg[t + 1..l + 1], fin := k1.fin + (l - t));
    PushNew(u, m, root, seg, head, k2, l, l, news);
    StandsTop(k, seg, i, t);
    var k3 := k.(blocks := k.blocks[..k.fin] + seg[i + 1..], fin := k.fin + (l - i));
    assert k2.blocks[..k2.fin] == k2.blocks;
    JoinThree(k.blocks, k.blocks[..k.fin], seg, i, t, l);
    ApplyThree(k, k1, k2, k3, irr, newIrr, news);
    assert [] + irr == irr;
  }

  lemma JoinThree(blocks: seq<Block>, final: seq<Block>, seg: seq<Block>, i: nat, t: nat, l: nat)
    requires i <= t <= l < |seg| && blocks == final + seg[i + 1..t + 1]
    ensures blocks + seg[t + 1..l + 1] + seg[l + 1..] == final + seg[i + 1..]
  {
  }

  lemma JoinAbove(blocks: seq<Block>, fin: nat, seg: seq<Block>, i: nat, t: nat, l: nat)
    requires i <= l <= t < |seg| && fin <= |blocks| && blocks[fin..] == seg[i + 1..t + 1]
    ensures fin + (l - i) <= |blocks| && blocks[..fin + (l - i)] + seg[l + 1..] == blocks[..fin] + seg[i + 1..]
  {
    var n := fin + (l - i);
    assert blocks[..n] == blocks[..fin] + blocks[fin..][..l - i];
    assert seg[i + 1..t + 1][..l - i] + seg[l + 1..] == seg[i + 1..];
  }

  lemma LedFromTop(u: Store, m: Store, root: Id, seg: seq<Block>, head: Id, k: Consumer, i: nat, t: nat, l: nat,
                   irr: seq<Event>, news: seq<Event>)
    requires WellFormed(u) && Within(m, u) && Linked(m, root, seg, head)
    requires Stands(k, seg, i, t) && i <= l <= t
    requires Are(irr, Irreversible, seg[i + 1..l + 1]) && NameThemselves(irr)
    requires Are(news, New, seg[t + 1..]) && Names(news, seg[l].id)
    ensures k.ApplyAll([] + irr + [] + news) == Some(k.(blocks := k.blocks[..k.fin] + seg[i + 1..], fin := k.fin + (l - i)))
  {
    hide Linked, Consumer.ApplyAll, Are, Names, NameThemselves;
    MakeFinal(k, seg, i, t, l, irr);
    var k1 := k.(fin := k.fin + (l - i));
    PushNew(u, m, root, seg, head, k1, l, t, news);
    StandsTop(k, seg, i, t);
    JoinAbove(k.blocks, k.fin, seg, i, t, l);
    ApplyConcat(k, irr, news);
    WithoutEmpty(irr, news);
  }

  lemma WithoutEmpty(a: seq<Event>, b: seq<Event>)
    ensures [] + a + [] + b == a + b
  {
    assert [] + a == a && a + [] == a;
  }

  // Where a cursor puts its consumer

  /** The cursor names the consumer's final block, and its top: an undone block's parent is the top. */
  ghost predicate Positioned(u: Store, k: Consumer, cur: Cursor) {
    && k.fin <= |k.blocks| && k.Final() == cur.lib.id
    && cur.block.id in u && cur.block.num == u[cur.block.id].num
    && match cur.step
       case New | NewIrreversible => cur.block.id == k.Top()
       case Undo => u[cur.block.id].parent == k.Top()
       case _ => false
  }

  /**
   The LIBs of the cursor and of the Forkable carry the numbers of their blocks. At a numbering hole
   they need not, and then resuming works just when the LIB has not moved since.
   */
  ghost predicate Aligned(u: Store, cur: Cursor, lib: Ref)
    requires cur.lib.id in u && lib.id in u
  {
    if lib.num < u[lib.id].num then cur.lib.id == lib.id else cur.lib.num == u[cur.lib.id].num
  }

  /** The head's whole stored segment, with the cursor's LIB at `i` and the LIB at `l`. */
  ghost predicate HeadSegment(u: Store, s: State, seg: seq<Block>, cur: Cursor, i: nat, l: nat) {
    && DbOk(u, s.db) && s.db.HasLib() && seg == CompletePath(u, s.db.stored, HeadRef(s).id)
    && i <= l < |seg| && seg[i].id == cur.lib.id && seg[l].id == s.db.lib.id
    && seg[0].num <= cur.lib.num && RefOk(u, cur.lib) && Aligned(u, cur, s.db.lib)
  }

  /** Everything the consumer may have to undo is stored, and nothing it will be sent was stalled for it. */
  ghost predicate CanReturn(u: Store, s: State, seg: seq<Block>, cur: Cursor, i: nat, k: Consumer)
    requires i < |seg|
  {
    && Positioned(u, k, cur)
    && Linked(s.db.stored, cur.lib.id, k.blocks[k.fin..], k.Top())
    && (forall j | i < j < |seg| :: seg[j] !in k.stalled)
    && (cur.step == Undo ==> cur.block.id in s.db.stored && (InPath(cur.block.id, seg) ==> s.db.lib.num < cur.block.num))
  }

  ghost predicate LeadsTo(u: Store, s: State, cur: Cursor, k: Consumer, d: Consumer)
    requires DbOk(u, s.db)
  {
    FromCursor(u, s, cur).Ok? && k.ApplyAll(FromCursor(u, s, cur).value) == Some(d)
  }

  lemma SegmentNumbers(u: Store, s: State, seg: seq<Block>, cur: Cursor, i: nat, l: nat)
    requires HeadSegment(u, s, seg, cur, i, l)
    ensures Linked(s.db.stored, RootOf(seg, HeadRef(s).id), seg, HeadRef(s).id) && Ascending(seg)
    ensures forall j | 0 <= j < |seg| :: GoodBlock(u, seg[j])
    ensures forall j | 0 < j < |seg| :: seg[j].parent == seg[j - 1].id
    ensures (i > 0 ==> seg[i - 1].num < cur.lib.num) && cur.lib.num <= seg[i].num
    ensures (l > 0 ==> seg[l - 1].num < s.db.lib.num) && s.db.lib.num <= seg[l].num
  {
    hide Linked;
    var root, head := RootOf(seg, HeadRef(s).id), HeadRef(s).id;
    LinkedAscending(u, s.db.stored, root, seg, head);
    LinkedElements(s.db.stored, root, seg, head);
    forall j | 0 < j < |seg| ensures seg[j].parent == seg[j - 1].id {
      LinkedAt(s.db.stored, root, seg, j, head);
    }
    assert i > 0 ==> seg[i].parent == seg[i - 1].id;
    assert l > 0 ==> seg[l].parent == seg[l - 1].id;
  }

  /** The consumer's top is on the head's segment: its stack there is the segment's. */
  lemma StandsOnSegment(u: Store, s: State, seg: seq<Block>, cur: Cursor, i: nat, l: nat, k: Consumer, t: nat)
    requires HeadSegment(u, s, seg, cur, i, l) && CanReturn(u, s, seg, cur, i, k)
    requires t < |seg| && seg[t].id == k.Top()
    ensures i <= t && Stands(k, seg, i, t)
  {
    var root, head := RootOf(seg, HeadRef(s).id), HeadRef(s).id;
    SegmentNumbers(u, s, seg, cur, i, l);
    StackOnSegment(u, s.db.stored, root, seg, head, cur.lib.id, k.blocks[k.fin..], k.Top(), i, t);
  }

  lemma StackOnSegment(u: Store, m: Store, root: Id, seg: seq<Block>, head: Id, lib: Id, b: seq<Block>, top: Id, i: nat, t: nat)
    requires WellFormed(u) && Within(m, u) && Linked(m, root, seg, head) && Linked(m, lib, b, top)
    requires i < |seg| && t < |seg| && seg[i].id == lib && seg[t].id == top
    ensures i <= t && b == seg[i + 1..t + 1]
  {
    hide Linked;
    LinkedAscending(u, m, lib, b, top);
    LinkedElements(m, lib, b, top);
    LinkedAscending(u, m, root, seg, head);
    LinkedElements(m, root, seg, head);
    assert b != [] ==> b[|b| - 1] == seg[t];
    assert u[lib] == seg[i] && u[top] == seg[t];
    SegmentSlice(u, m, root, seg, head, i + 1, t + 1);
    LinkedUnique(m, lib, b, seg[i + 1..t + 1], top);
  }

  lemma CanonicalResumes(u: Store, s: State, seg: seq<Block>, cur: Cursor, i: nat, l: nat, k: Consumer)
    requires HeadSegment(u, s, seg, cur, i, l) && CanReturn(u, s, seg, cur, i, k)
    requires InPath(cur.block.id, seg)
    ensures LeadsTo(u, s, cur, k, AtHead(k, seg, i, l))
  {
    hide Linked, Collect, Consumer.ApplyAll, Stands, Placed, CanReturn;
    var x :| 0 <= x < |seg| && seg[x].id == cur.block.id;
    SegmentNumbers(u, s, seg, cur, i, l);
    TopOnSegment(u, s, seg, cur, i, l, k, x);
    var t := if cur.step == Undo then x - 1 else x;
    StandsOnSegment(u, s, seg, cur, i, l, k, t);
    ForwardIsLegal(u, s.db.stored, RootOf(seg, HeadRef(s).id), seg, HeadRef(s).id, cur, s.db.lib, HeadRef(s), i, t, l, k);
    CanonicalOk(u, s, seg, cur, i, l);
  }

  lemma CanonicalOk(u: Store, s: State, seg: seq<Block>, cur: Cursor, i: nat, l: nat)
    requires HeadSegment(u, s, seg, cur, i, l) && InPath(cur.block.id, seg)
    ensures FromCursor(u, s, cur) == Ok(Collect(seg, Forward(cur, s.db.lib, HeadRef(s))))
  {
    assert InPath(cur.lib.id, seg) && InPath(s.db.lib.id, seg);
  }

  lemma TopOnSegment(u: Store, s: State, seg: seq<Block>, cur: Cursor, i: nat, l: nat, k: Consumer, x: nat)
    requires HeadSegment(u, s, seg, cur, i, l) && CanReturn(u, s, seg, cur, i, k)
    requires x < |seg| && seg[x].id == cur.block.id
    ensures var t := if cur.step == Undo then x - 1 else x;
      t >= 0 && seg[t].id == k.Top() && Placed(seg, cur, s.db.lib, i, t, l)
  {
    hide Linked, Complete;
    var st, b := s.db.stored, k.blocks[k.fin..];
    SegmentNumbers(u, s, seg, cur, i, l);
    LinkedAscending(u, st, cur.lib.id, b, k.Top());
    LinkedElements(st, cur.lib.id, b, k.Top());
    assert k.Top() in u && u[cur.lib.id].num <= u[k.Top()].num;
    assert seg[x] == u[cur.block.id] && seg[i] == u[cur.lib.id];
  }

  // A forked cursor

  /** The walk from the cursor's block undoes the stack down to `n` blocks above the cursor's LIB. */
  ghost predicate WalksTo(u: Store, s: State, seg: seq<Block>, cur: Cursor, k: Consumer, n: nat)
    requires DbOk(u, s.db) && k.fin <= |k.blocks|
  {
    var b := k.blocks[k.fin..];
    && n <= |b| && InPath(At(cur.lib.id, b, n), seg)
    && WalkBack(u, s.db, seg, cur, cur.block.id) == Ok(Walked(Reverse(b[n..]), At(cur.lib.id, b, n)))
  }

  /** Walking down from a stacked block that is not on the segment: the undos end at a segment block. */
  lemma {:induction false} WalkDown(u: Store, db: Db, seg: seq<Block>, cur: Cursor, root: Id, b: seq<Block>, id: Id) returns (n: nat)
    requires DbOk(u, db) && Linked(db.stored, root, b, id) && InPath(root, seg) && !InPath(id, seg)
    requires cur.step == Undo ==> forall x <- b :: x.id != cur.block.id
    ensures n < |b| && InPath(At(root, b, n), seg)
    ensures WalkBack(u, db, seg, cur, id) == Ok(Walked(Reverse(b[n..]), At(root, b, n)))
    decreases |b|
  {
    hide WalkBack, InPath, DbOk;
    LinkedElements(db.stored, root, b, id);
    var m, x := |b| - 1, b[|b| - 1];
    WalkStep(u, db, seg, cur, x);
    if InPath(x.parent, seg) {
      n := m;
      LinkedElements(db.stored, root, b[..m], x.parent);
      assert b[m..] == [x] && Reverse([x]) == [x];
    } else {
      assert forall y :: y in b[..m] ==> y in b;
      n := WalkDown(u, db, seg, cur, root, b[..m], x.parent);
      assert b[n..][..m - n] == b[..m][n..];
      assert At(root, b[..m], n) == At(root, b, n);
    }
  }

  /** One step down from a stored block that the consumer still has. */
  lemma WalkStep(u: Store, db: Db, seg: seq<Block>, cur: Cursor, x: Block)
    requires DbOk(u, db) && GoodBlock(db.stored, x) && (cur.step == Undo ==> x.id != cur.block.id)
    ensures WalkBack(u, db, seg, cur, x.id) ==
      if InPath(x.parent, seg) then Ok(Walked([x], x.parent))
      else
        match WalkBack(u, db, seg, cur, x.parent)
        case Err(e) => Err(e)
        case Ok(w) => Ok(Walked([x] + w.undos, w.junction))
  {
  }

  /** The same from the cursor's block, which for an Undo cursor sits on the stack no more. */
  lemma WalkFromCursor(u: Store, s: State, seg: seq<Block>, cur: Cursor, i: nat, l: nat, k: Consumer) returns (n: nat)
    requires HeadSegment(u, s, seg, cur, i, l) && CanReturn(u, s, seg, cur, i, k)
    requires !InPath(cur.block.id, seg)
    ensures WalksTo(u, s, seg, cur, k, n)
  {
    hide Linked;
    var b, top := k.blocks[k.fin..], k.Top();
    LinkedAscending(u, s.db.stored, cur.lib.id, b, top);
    LinkedElements(s.db.stored, cur.lib.id, b, top);
    assert InPath(cur.lib.id, seg);
    if cur.step == Undo {
      assert u[top].num < u[cur.block.id].num;
      if InPath(top, seg) {
        n := |b|;
        assert b[n..] == [] && Reverse([]) == [];
      } else {
        n := WalkDown(u, s.db, seg, cur, cur.lib.id, b, top);
        assert [] + Reverse(b[n..]) == Reverse(b[n..]);
      }
    } else {
      n := WalkDown(u, s.db, seg, cur, cur.lib.id, b, top);
    }
  }

  function JunctionCursor(s: State, cur: Cursor, id: Id): Cursor {
    Cursor(New, Ref(id, NumOf(s.db, id)), HeadRef(s), cur.lib)
  }

  lemma ForkedOk(u: Store, s: State, seg: seq<Block>, cur: Cursor, i: nat, l: nat, w: Walked)
    requires HeadSegment(u, s, seg, cur, i, l) && !InPath(cur.block.id, seg)
    requires WalkBack(u, s.db, seg, cur, cur.block.id) == Ok(w)
    requires FromCursor(u, s, JunctionCursor(s, cur, w.junction)).Ok?
    ensures FromCursor(u, s, cur) ==
            Ok(Emit(Undo, w.undos, cur.lib, HeadRef(s), Some(Ref(w.junction, NumOf(s.db, w.junction))))
               + FromCursor(u, s, JunctionCursor(s, cur, w.junction)).value)
  {
    hide WalkBack, Linked;
    assert InPath(s.db.lib.id, seg);
  }

  lemma JunctionKnown(u: Store, s: State, seg: seq<Block>, cur: Cursor, i: nat, l: nat, id: Id)
    requires HeadSegment(u, s, seg, cur, i, l) && InPath(id, seg)
    ensures id in u && NumOf(s.db, id) == u[id].num
  {
    SegmentStored(s.db.stored, seg, HeadRef(s).id);
  }

  lemma UndoneAboveLib(u: Store, s: State, cur: Cursor, k: Consumer, n: nat)
    requires DbOk(u, s.db) && RefOk(u, cur.lib) && n <= |k.blocks| - k.fin
    requires Linked(s.db.stored, cur.lib.id, k.blocks[k.fin..], k.Top())
    ensures forall x <- k.blocks[k.fin + n..] :: cur.lib.num <= x.num
  {
    hide Linked;
    var b := k.blocks[k.fin..];
    LinkedAscending(u, s.db.stored, cur.lib.id, b, k.Top());
    assert k.blocks[k.fin + n..] == b[n..];
    forall x <- b[n..] ensures cur.lib.num <= x.num {
      assert x in b;
    }
  }

  /** What is left of the consumer once it is back at the junction. */
  lemma BackAtJunction(u: Store, s: State, seg: seq<Block>, cur: Cursor, i: nat, l: nat, k: Consumer, n: nat)
    requires HeadSegment(u, s, seg, cur, i, l) && CanReturn(u, s, seg, cur, i, k)
    requires n <= |k.blocks| - k.fin && InPath(At(cur.lib.id, k.blocks[k.fin..], n), seg)
    ensures CanReturn(u, s, seg, JunctionCursor(s, cur, At(cur.lib.id, k.blocks[k.fin..], n)), i, k.(blocks := k.blocks[..k.fin + n]))
  {
    hide Linked, HeadSegment, InPath;
    LinkedPrefix(s.db.stored, cur.lib.id, k.blocks[k.fin..], n, k.Top());
    JunctionKnown(u, s, seg, cur, i, l, At(cur.lib.id, k.blocks[k.fin..], n));
    CutStack(k, n);
  }

  lemma CutStack(k: Consumer, n: nat)
    requires k.fin + n <= |k.blocks|
    ensures var d := k.(blocks := k.blocks[..k.fin + n]);
      d.blocks[d.fin..] == k.blocks[k.fin..][..n] && d.Final() == k.Final() && d.Top() == At(k.Final(), k.blocks[k.fin..], n)
  {
  }

  /**
   The heart of resuming: a consumer at a cursor whose LIB is on the head's stored segment is sent
   exactly what takes its stack to the segment above that LIB, and its final block to the LIB.
   */
  lemma CursorResumes(u: Store, s: State, seg: seq<Block>, cur: Cursor, i: nat, l: nat, k: Consumer)
    requires HeadSegment(u, s, seg, cur, i, l) && CanReturn(u, s, seg, cur, i, k)
    ensures LeadsTo(u, s, cur, k, AtHead(k, seg, i, l))
  {
    if InPath(cur.block.id, seg) {
      CanonicalResumes(u, s, seg, cur, i, l, k);
    } else {
      var n := WalkFromCursor(u, s, seg, cur, i, l, k);
      ForkedResumes(u, s, seg, cur, i, l, k, n);
    }
  }

  lemma FromJunction(u: Store, s: State, seg: seq<Block>, cur: Cursor, i: nat, l: nat, k: Consumer, n: nat)
    requires HeadSegment(u, s, seg, cur, i, l) && CanReturn(u, s, seg, cur, i, k)
    requires n <= |k.blocks| - k.fin && InPath(At(cur.lib.id, k.blocks[k.fin..], n), seg)
    ensures var j := At(cur.lib.id, k.blocks[k.fin..], n);
      LeadsTo(u, s, JunctionCursor(s, cur, j), k.(blocks := k.blocks[..k.fin + n]), AtHead(k, seg, i, l))
  {
    hide Linked, FromCursor, Consumer.ApplyAll, Consumer.Final, Consumer.Top;
    BackAtJunction(u, s, seg, cur, i, l, k, n);
    var d := k.(blocks := k.blocks[..k.fin + n]);
    CanonicalResumes(u, s, seg, JunctionCursor(s, cur, At(cur.lib.id, k.blocks[k.fin..], n)), i, l, d);
    assert d.blocks[..d.fin] == k.blocks[..k.fin];
  }

  lemma ForkedResumes(u: Store, s: State, seg: seq<Block>, cur: Cursor, i: nat, l: nat, k: Consumer, n: nat)
    requires HeadSegment(u, s, seg, cur, i, l) && CanReturn(u, s, seg, cur, i, k) && !InPath(cur.block.id, seg)
    requires WalksTo(u, s, seg, cur, k, n)
    ensures LeadsTo(u, s, cur, k, AtHead(k, seg, i, l))
  {
    hide Linked, FromCursor, WalkBack, Consumer.ApplyAll, Reverse, AtHead, Consumer.Final, Consumer.Top;
    var b := k.blocks[k.fin..];
    var j := At(cur.lib.id, b, n);
    UndoneAboveLib(u, s, cur, k, n);
    FromJunction(u, s, seg, cur, i, l, k, n);
    ForkedOk(u, s, seg, cur, i, l, Walked(Reverse(b[n..]), j));
    UndoThen(k, k.fin + n, cur.lib, HeadRef(s), Some(Ref(j, NumOf(s.db, j))), FromCursor(u, s, JunctionCursor(s, cur, j)).value,
             AtHead(k, seg, i, l));
  }

  lemma UndoThen(k: Consumer, n: nat, lib: Ref, head: Ref, junction: Option<Ref>, es: seq<Event>, d: Consumer)
    requires k.fin <= n <= |k.blocks| && lib.id == k.Final()
    requires forall x <- k.blocks[n..] :: lib.num <= x.num
    requires k.(blocks := k.blocks[..n]).ApplyAll(es) == Some(d)
    ensures k.ApplyAll(Emit(Undo, Reverse(k.blocks[k.fin..][n - k.fin..]), lib, head, junction) + es) == Some(d)
  {
    hide Reverse, Consumer.ApplyAll, Emit;
    assert k.blocks[k.fin..][n - k.fin..] == k.blocks[n..];
    MoveDown(k, n, Reverse(k.blocks[n..]), lib, head, junction);
    ApplyConcat(k, Emit(Undo, Reverse(k.blocks[n..]), lib, head, junction), es);
  }
}
