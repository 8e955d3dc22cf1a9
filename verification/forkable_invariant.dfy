/** What every run of ProcessBlock keeps. */
module ForkableInvariant {
  import opened Chain
  import opened Consumers
  import opened ForkDbModel
  import opened ForkableModel

  // The cached longest chain

  lemma BlockOnTop(u: Store, db: Db, b: Block, p: seq<Block>)
    requires DbOk(u, db) && b.id in db.stored && db.stored[b.id] == b && db.lib.id in u
    requires Linked(db.stored, db.lib.id, p, b.parent)
    ensures Linked(db.stored, db.lib.id, p + [b], b.id)
  {
    LinkedAscending(u, db.stored, db.lib.id, p, b.parent);
    LinkedElements(db.stored, db.lib.id, p, b.parent);
    assert (p + [b])[..|p|] == p;
  }

  lemma AddLinkKeepsPaths(db: Db, b: Block, root: Id, p: seq<Block>, head: Id)
    requires b.id !in db.stored && Linked(db.stored, root, p, head)
    ensures Linked(AddLink(db, b).stored, root, p, head)
  {
    LinkedElements(db.stored, root, p, head);
    LinkedInStore(db.stored, AddLink(db, b).stored, root, p, head);
  }

  /** Appending to the cached chain gives what walking down from the new block gives. */
  lemma CacheIsExact(u: Store, s: State, b: Block)
    requires DbOk(u, s.db) && s.db.HasLib() && CacheOk(s)
    requires GoodBlock(u, b) && b.id !in s.db.stored
    ensures var s1 := s.(db := AddLink(s.db, b)); NewChain(s1, b) == Recomputed(s1.db, b.id)
    ensures var s1 := s.(db := AddLink(s.db, b)); CacheOk(s1.(chain := NewChain(s1, b)))
  {
    var s1 := s.(db := AddLink(s.db, b));
    AddLinkOk(u, s.db, b);
    if CanAppend(s, b) {
      AddLinkKeepsPaths(s.db, b, s.db.lib.id, s.chain, b.parent);
      BlockOnTop(u, s1.db, b, s.chain);
      PathToIs(s1.db.stored, s.db.lib.id, s.chain + [b], b.id);
    }
    var chain := NewChain(s1, b);
    if chain != [] {
      assert Linked(s1.db.stored, s1.db.lib.id, chain, b.id);
    }
  }

  // Undo, redo and new

  /** What has been sent of a path off the LIB is its lower part. */
  lemma {:induction false} SentIsPrefix(u: Store, db: Db, sent: set<Id>, p: seq<Block>, head: Id) returns (m: nat)
    requires DbOk(u, db) && db.HasLib() && SentClosed(u, db, sent)
    requires Linked(db.stored, db.lib.id, p, head)
    ensures m <= |p|
    ensures forall i | 0 <= i < |p| :: p[i].id in sent <==> i < m
    decreases |p|
  {
    if p == [] {
      m := 0;
    } else {
      var q, b := p[..|p| - 1], p[|p| - 1];
      m := SentIsPrefix(u, db, sent, q, b.parent);
      LinkedAscending(u, db.stored, db.lib.id, q, b.parent);
      LinkedElements(db.stored, db.lib.id, q, b.parent);
      if b.id in sent {
        m := |p|;
        if q != [] { assert q[|q| - 1].id in sent; }
      }
    }
  }

  lemma {:induction false} SelectSplit(p: seq<Block>, sent: set<Id>, m: nat)
    requires m <= |p| && forall i | 0 <= i < |p| :: p[i].id in sent <==> i < m
    ensures Select(p, sent, true) == p[..m] && Select(p, sent, false) == p[m..]
    decreases |p|
  {
    if m < |p| {
      SelectSplit(p[..|p| - 1], sent, m);
      assert p[..|p| - 1][..m] == p[..m] && p[m..] == p[..|p| - 1][m..] + [p[|p| - 1]];
    } else if p != [] {
      SelectSplit(p[..|p| - 1], sent, |p| - 1);
      assert p[..|p| - 1][..|p| - 1] == p[..|p| - 1] && p == p[..|p| - 1] + [p[|p| - 1]];
      assert p[..|p| - 1][|p| - 1..] == [] == p[m..];
    }
  }

  /** Where the new block's stored path leaves the consumer's chain, and what the chain switch says there. */
  lemma SwitchAtFork(u: Store, s: State, h: seq<Block>, p: seq<Block>, last: Block, parent: Id) returns (k: nat)
    requires DbOk(u, s.db) && s.db.HasLib() && s.last == Some(last)
    requires Linked(s.db.stored, s.db.lib.id, h, last.id) && Linked(s.db.stored, s.db.lib.id, p, parent)
    ensures k <= |p| && k <= |h| && h[..k] == p[..k]
    ensures SwitchOf(s.db.stored, last.id, parent) == Some(Switch(At(s.db.lib.id, p, k), h[k..], p[k..]))
    ensures last.id == parent ==> h == p && k == |p|
  {
    k := SwitchFromRoot(u, s.db.stored, s.db.lib.id, h, p, last.id, parent);
    if k > 0 {
      assert h[k - 1] == h[..k][k - 1] && p[k - 1] == p[..k][k - 1];
    }
    if last.id == parent {
      LinkedUnique(s.db.stored, s.db.lib.id, h, p, parent);
      SharesItself(p[k..]);
    }
  }

  lemma SharesItself(q: seq<Block>)
    ensures q != [] ==> exists i, l :: 0 <= i < |q| && 0 <= l < |q| && q[i].id == q[l].id
  {
    assert q != [] ==> q[0].id == q[0].id;
  }

  /** The stored path to the new block, cut where the consumer's chain ends and where unsent blocks begin. */
  ghost predicate Parts(s: State, h: seq<Block>, p: seq<Block>, b: Block, k: nat, m: nat) {
    && k <= m <= |p| && k <= |h| && h[..k] == p[..k]
    && SentSwitch(s, b).undos == Reverse(h[k..])
    && SentSwitch(s, b).redos == p[k..m]
    && Select(p + [b], s.sent, false) == p[m..] + [b]
    && var at := At(s.db.lib.id, p, k);
      SentSwitch(s, b).junction == if k < |h| && at in s.db.stored then Some(Ref(at, NumOf(s.db, at))) else None
  }

  lemma SentBeforeFork(s: State, h: seq<Block>, p: seq<Block>, k: nat, m: nat)
    requires k <= |h| && k <= |p| && h[..k] == p[..k] && m <= |p|
    requires forall x <- h :: x.id in s.sent
    requires forall i | 0 <= i < |p| :: p[i].id in s.sent <==> i < m
    ensures k <= m
  {
    if k > 0 {
      assert p[k - 1] == p[..k][k - 1] == h[..k][k - 1] == h[k - 1];
      assert h[k - 1] in h;
    }
  }

  lemma SentParts(u: Store, s: State, p: seq<Block>, b: Block) returns (m: nat)
    requires DbOk(u, s.db) && s.db.HasLib() && SentClosed(u, s.db, s.sent) && b.id !in s.sent
    requires Linked(s.db.stored, s.db.lib.id, p, b.parent)
    ensures m <= |p| && forall i | 0 <= i < |p| :: p[i].id in s.sent <==> i < m
    ensures Select(p + [b], s.sent, false) == p[m..] + [b]
    ensures forall k | 0 <= k <= m :: Select(p[k..], s.sent, true) == p[k..m]
  {
    hide Linked, Select, SentClosed, DbOk;
    m := SentIsPrefix(u, s.db, s.sent, p, b.parent);
    UnsentPart(p, s.sent, b, m);
    forall k | 0 <= k <= m ensures Select(p[k..], s.sent, true) == p[k..m] {
      SentPart(p, s.sent, m, k);
    }
  }

  lemma UnsentPart(p: seq<Block>, sent: set<Id>, b: Block, m: nat)
    requires m <= |p| && b.id !in sent && forall i | 0 <= i < |p| :: p[i].id in sent <==> i < m
    ensures Select(p + [b], sent, false) == p[m..] + [b]
  {
    hide Select;
    assert forall i | 0 <= i < |p| :: (p + [b])[i] == p[i];
    SelectSplit(p + [b], sent, m);
    assert (p + [b])[m..] == p[m..] + [b];
  }

  lemma SentPart(p: seq<Block>, sent: set<Id>, m: nat, k: nat)
    requires k <= m <= |p| && forall i | 0 <= i < |p| :: p[i].id in sent <==> i < m
    ensures Select(p[k..], sent, true) == p[k..m]
  {
    hide Select;
    assert forall i | 0 <= i < |p| - k :: p[k..][i] == p[k + i];
    SelectSplit(p[k..], sent, m - k);
    assert p[k..][..m - k] == p[k..m];
  }

  lemma ReorgParts(u: Store, s: State, c: Consumer, b: Block, p: seq<Block>) returns (k: nat, m: nat)
    requires Inv(u, s, c) && b.id !in s.db.stored
    requires Linked(s.db.stored, s.db.lib.id, p, b.parent)
    ensures Parts(s, c.blocks[c.fin..], p, b, k, m)
  {
    hide Linked, Select;
    var h := c.blocks[c.fin..];
    m := SentParts(u, s, p, b);
    assert m > 0 ==> p[0].id in s.sent;
    if s.last.None? {
      k := 0;
    } else {
      k := SwitchAtFork(u, s, h, p, s.last.value, b.parent);
      SentBeforeFork(s, h, p, k, m);
    }
  }

  lemma EmitNames(step: StepType, bs: seq<Block>, lib: Ref, head: Ref, junction: Option<Ref>)
    requires forall b <- bs :: lib.num <= b.num
    ensures Are(Emit(step, bs, lib, head, junction), step, bs)
    ensures Names(Emit(step, bs, lib, head, junction), lib.id)
  {
    var es := Emit(step, bs, lib, head, junction);
    forall e <- es ensures e.NamedLib() == lib.id {
      var i :| 0 <= i < |es| && es[i] == e;
      assert bs[i] in bs;
    }
  }

  lemma LinkedAt(m: Store, root: Id, p: seq<Block>, i: nat, head: Id)
    requires i < |p| && Linked(m, root, p, head)
    ensures p[i].parent == At(root, p, i)
  {
    LinkedPrefix(m, root, p, i + 1, head);
    LinkedElements(m, root, p[..i + 1][..i], p[i].parent);
    assert p[..i + 1][..i] == p[..i];
  }

  lemma PushOne(c: Consumer, p: seq<Block>, j: nat, e: Event)
    requires c.fin <= j < |p| && c.blocks == p[..j]
    requires e.step == New && e.block == p[j] && e.NamedLib() == c.Final()
    requires p[j].parent == At(c.base, p, j) && p[j] !in c.stalled
    ensures c.Apply(e) == Some(c.(blocks := p[..j + 1]))
  {
    assert p[..j] + [p[j]] == p[..j + 1];
  }

  /** Pushing one more stretch of a path the consumer is on. */
  lemma {:induction false} PushAlong(u: Store, c: Consumer, p: seq<Block>, head: Id, i: nat, j: nat, es: seq<Event>)
    requires Linked(u, c.base, p, head)
    requires c.fin <= i <= j <= |p| && c.blocks == p[..i]
    requires Are(es, New, p[i..j]) && Names(es, c.Final())
    requires forall x <- p[i..j] :: x !in c.stalled
    ensures c.ApplyAll(es) == Some(c.(blocks := p[..j]))
    decreases j
  {
    hide Linked, At, Consumer.ApplyAll;
    if i == j {
      PushNone(c, p, i);
    } else {
      var n := j - 1 - i;
      assert es[n] in es && p[i..j][n] in p[i..j];
      ApplyLast(c, es);
      assert p[i..j][..n] == p[i..j - 1];
      PushAlong(u, c, p, head, i, j - 1, es[..n]);
      LinkedAt(u, c.base, p, j - 1, head);
      SameFinalUp(c, p, i, j - 1);
      PushOne(c.(blocks := p[..j - 1]), p, j - 1, es[n]);
    }
  }

  lemma PushNone(c: Consumer, p: seq<Block>, i: nat)
    requires i <= |p| && c.blocks == p[..i]
    ensures c.ApplyAll([]) == Some(c.(blocks := p[..i]))
  {
  }

  lemma SameFinalUp(c: Consumer, p: seq<Block>, i: nat, j: nat)
    requires c.fin <= i <= j <= |p| && c.blocks == p[..i]
    ensures c.(blocks := p[..j]).Final() == c.Final()
  {
  }

  /** What the consumer and the new block have in common: numbers above the LIB, nothing stalled. */
  lemma AboveLib(u: Store, s: State, c: Consumer, p: seq<Block>, head: Id)
    requires Inv(u, s, c) && Linked(s.db.stored, s.db.lib.id, p, head)
    ensures forall x <- p :: s.KnownLib().num <= x.num && x !in c.stalled && x.id in u && u[x.id] == x
    ensures forall b: Block | GoodBlock(u, b) && b.parent == head :: s.KnownLib().num <= b.num && b !in c.stalled
  {
    LinkedAscending(u, s.db.stored, s.db.lib.id, p, head);
    LinkedElements(s.db.stored, s.db.lib.id, p, head);
    assert p != [] ==> u[head] == p[|p| - 1];
  }

  /** The whole stack after the new block: the final blocks, then the new longest chain. */
  function NewStack(c: Consumer, p: seq<Block>, b: Block): seq<Block>
    requires c.fin <= |c.blocks|
  {
    c.blocks[..c.fin] + (p + [b])
  }

  lemma NewStackLinked(u: Store, s: State, c: Consumer, b: Block, p: seq<Block>)
    requires Inv(u, s, c) && b.id !in s.db.stored && GoodBlock(u, b)
    requires Linked(s.db.stored, s.db.lib.id, p, b.parent)
    ensures Linked(AddLink(s.db, b).stored, s.db.lib.id, p + [b], b.id)
    ensures Linked(u, c.base, NewStack(c, p, b), b.id)
  {
    var db1 := AddLink(s.db, b);
    AddLinkOk(u, s.db, b);
    AddLinkKeepsPaths(s.db, b, s.db.lib.id, p, b.parent);
    BlockOnTop(u, db1, b, p);
    LinkedWithin(u, db1.stored, s.db.lib.id, p + [b], b.id);
    LinkedPrefix(u, c.base, c.blocks, c.fin, c.Top());
    LinkedConcat(u, u, c.base, c.blocks[..c.fin], s.db.lib.id, p + [b], b.id);
  }

  lemma NewStackSlices(c: Consumer, p: seq<Block>, b: Block, k: nat, m: nat)
    requires c.fin <= |c.blocks| && k <= m <= |p| && k <= |c.blocks| - c.fin && c.blocks[c.fin..][..k] == p[..k]
    ensures var s, f := NewStack(c, p, b), c.fin;
      && s[..f + k] == c.blocks[..f + k]
      && s[f + k..f + m] == p[k..m]
      && s[f + m..] == p[m..] + [b]
      && s[f..] == p + [b]
      && s[..f] == c.blocks[..f]
  {
    assert c.blocks[..c.fin + k] == c.blocks[..c.fin] + c.blocks[c.fin..][..k];
  }

  ghost predicate Follows(u: Store, c: Consumer, t: seq<Block>, b: Block, f: nat, k: nat, m: nat, p: seq<Block>,
                          lib: Ref, w: Reorg, news: seq<Block>) {
    && Linked(u, c.base, t, b.id) && lib.id == c.Final()
    && f == c.fin && k <= m <= |p| && f + k <= |c.blocks| && f + m <= |t|
    && t[..f + k] == c.blocks[..f + k] && t[f + k..f + m] == p[k..m] && t[f + m..] == p[m..] + [b]
    && w.undos == Reverse(c.blocks[f..][k..]) && w.redos == p[k..m] && news == p[m..] + [b]
  }

  lemma ReorgFollows(u: Store, s: State, c: Consumer, b: Block, p: seq<Block>) returns (k: nat, m: nat)
    requires Inv(u, s, c) && b.id !in s.db.stored && GoodBlock(u, b)
    requires Linked(s.db.stored, s.db.lib.id, p, b.parent)
    ensures Follows(u, c, NewStack(c, p, b), b, c.fin, k, m, p, s.KnownLib(), SentSwitch(s, b), Select(p + [b], s.sent, false))
  {
    k, m := ReorgParts(u, s, c, b, p);
    NewStackLinked(u, s, c, b, p);
    NewStackSlices(c, p, b, k, m);
  }

  /** A block that extends the longest chain: the consumer is led to exactly the new chain. */
  lemma ReorgIsLegal(u: Store, s: State, c: Consumer, b: Block, p: seq<Block>)
    requires Inv(u, s, c) && b.id !in s.db.stored && GoodBlock(u, b)
    requires Linked(s.db.stored, s.db.lib.id, p, b.parent)
    ensures var w, lib, head := SentSwitch(s, b), s.KnownLib(), b.AsRef();
      c.ApplyAll(Emit(Undo, w.undos, lib, head, w.junction)
                 + Emit(New, w.redos, lib, head, None)
                 + Emit(New, Select(p + [b], s.sent, false), lib, head, None))
      == Some(c.(blocks := NewStack(c, p, b)))
  {
    var k, m := ReorgFollows(u, s, c, b, p);
    AboveLib(u, s, c, p, b.parent);
    AboveLib(u, s, c, c.blocks[c.fin..], s.HeadId());
    LedAlongParts(u, c, NewStack(c, p, b), b, c.fin, k, m, p, s.KnownLib(), SentSwitch(s, b), Select(p + [b], s.sent, false));
  }

  lemma LedAlongParts(u: Store, c: Consumer, t: seq<Block>, b: Block, f: nat, k: nat, m: nat, p: seq<Block>,
                      lib: Ref, w: Reorg, news: seq<Block>)
    requires Follows(u, c, t, b, f, k, m, p, lib, w, news)
    requires forall x <- c.blocks[f..] :: lib.num <= x.num
    requires forall x <- p :: lib.num <= x.num && x !in c.stalled
    requires lib.num <= b.num && b !in c.stalled
    ensures c.ApplyAll(Emit(Undo, w.undos, lib, b.AsRef(), w.junction)
                       + Emit(New, w.redos, lib, b.AsRef(), None)
                       + Emit(New, news, lib, b.AsRef(), None)) == Some(c.(blocks := t))
  {
    hide Linked, Reverse, Emit, Consumer.ApplyAll, Consumer.Final, At;
    assert c.blocks[f..][k..] == c.blocks[f + k..];
    assert forall x <- c.blocks[f + k..] :: x in c.blocks[f..];
    assert forall x <- p[k..m] :: x in p;
    assert forall x <- p[m..] + [b] :: x in p || x == b;
    LedToNewStack(u, c, t, b.id, f + k, f + m, lib, b.AsRef(), w.junction);
  }

  lemma ApplyThree(c: Consumer, c1: Consumer, c2: Consumer, c3: Consumer, x: seq<Event>, y: seq<Event>, z: seq<Event>)
    requires c.ApplyAll(x) == Some(c1) && c1.ApplyAll(y) == Some(c2) && c2.ApplyAll(z) == Some(c3)
    ensures c.ApplyAll(x + y + z) == Some(c3)
  {
    ApplyConcat(c, x, y);
    ApplyConcat(c, x + y, z);
  }

  lemma MoveDown(c: Consumer, n: nat, bs: seq<Block>, lib: Ref, head: Ref, junction: Option<Ref>)
    requires c.fin <= n <= |c.blocks| && bs == Reverse(c.blocks[n..])
    requires lib.id == c.Final() && forall x <- c.blocks[n..] :: lib.num <= x.num
    ensures c.ApplyAll(Emit(Undo, bs, lib, head, junction)) == Some(c.(blocks := c.blocks[..n]))
  {
    EmitNames(Undo, bs, lib, head, junction);
    PopAll(c, Emit(Undo, bs, lib, head, junction), n);
  }

  lemma MoveUp(u: Store, c: Consumer, t: seq<Block>, top: Id, i: nat, j: nat, bs: seq<Block>, lib: Ref, head: Ref)
    requires Linked(u, c.base, t, top)
    requires c.fin <= i <= j <= |t| && c.blocks == t[..i] && bs == t[i..j]
    requires lib.id == c.Final() && forall x <- bs :: lib.num <= x.num && x !in c.stalled
    ensures c.ApplyAll(Emit(New, bs, lib, head, None)) == Some(c.(blocks := t[..j]))
  {
    EmitNames(New, bs, lib, head, None);
    PushAlong(u, c, t, top, i, j, Emit(New, bs, lib, head, None));
  }

  /** Undo down to position `i` of the stack, then new blocks up the stack `t`, in two stretches. */
  lemma LedToNewStack(u: Store, c: Consumer, t: seq<Block>, top: Id, i: nat, j: nat, lib: Ref, head: Ref, junction: Option<Ref>)
    requires Linked(u, c.base, t, top)
    requires c.fin <= i <= j <= |t| && i <= |c.blocks| && t[..i] == c.blocks[..i]
    requires lib.id == c.Final()
    requires forall x <- c.blocks[i..] :: lib.num <= x.num
    requires forall x <- t[i..j] :: lib.num <= x.num && x !in c.stalled
    requires forall x <- t[j..] :: lib.num <= x.num && x !in c.stalled
    ensures c.ApplyAll(Emit(Undo, Reverse(c.blocks[i..]), lib, head, junction)
                       + Emit(New, t[i..j], lib, head, None)
                       + Emit(New, t[j..], lib, head, None)) == Some(c.(blocks := t))
  {
    hide *;
    var c1, c2 := c.(blocks := t[..i]), c.(blocks := t[..j]);
    SameFinal(c, t, i);
    SameFinal(c, t, j);
    MoveDown(c, i, Reverse(c.blocks[i..]), lib, head, junction);
    MoveUp(u, c1, t, top, i, j, t[i..j], lib, head);
    assert t[j..|t|] == t[j..] && t[..|t|] == t;
    MoveUp(u, c2, t, top, j, |t|, t[j..], lib, head);
    ApplyThree(c, c1, c2, c.(blocks := t), Emit(Undo, Reverse(c.blocks[i..]), lib, head, junction),
               Emit(New, t[i..j], lib, head, None), Emit(New, t[j..], lib, head, None));
  }

  lemma SameFinal(c: Consumer, t: seq<Block>, n: nat)
    requires c.fin <= n <= |t| && c.fin <= |c.blocks| && t[..c.fin] == c.blocks[..c.fin]
    ensures c.(blocks := t[..n]).Final() == c.Final()
  {
    if c.fin > 0 { assert t[..c.fin][c.fin - 1] == c.blocks[..c.fin][c.fin - 1]; }
  }

  // What ProcessBlock keeps

  /** Storing a block that does not move the head. */
  lemma StoringKeepsInv(u: Store, s: State, c: Consumer, b: Block)
    requires Inv(u, s, c) && GoodBlock(u, b) && b.id !in s.db.stored
    ensures var s1 := s.(db := AddLink(s.db, b)); Inv(u, s1.(chain := NewChain(s1, b)), c)
  {
    var s1 := s.(db := AddLink(s.db, b));
    AddLinkOk(u, s.db, b);
    CacheIsExact(u, s, b);
    AddLinkKeepsPaths(s.db, b, s.db.lib.id, c.blocks[c.fin..], s.HeadId());
  }

  lemma PathSentClosed(u: Store, db: Db, sent: set<Id>, p: seq<Block>, head: Id)
    requires DbOk(u, db) && SentClosed(u, db, sent) && Linked(db.stored, db.lib.id, p, head)
    ensures SentClosed(u, db, sent + Ids(p))
  {
    LinkedElements(db.stored, db.lib.id, p, head);
    forall id <- sent + Ids(p)
      ensures id in db.stored
      ensures var q := db.stored[id].parent; q in sent + Ids(p) || q == db.lib.id || (q in u ==> u[q].num < db.lib.num)
    {
      if id !in sent {
        var i :| 0 <= i < |p| && p[i].id == id;
        LinkedAt(db.stored, db.lib.id, p, i, head);
        assert i > 0 ==> p[i - 1] in p;
      }
    }
  }

  lemma NewConsumerValid(u: Store, s: State, c: Consumer, b: Block, p: seq<Block>)
    requires Inv(u, s, c) && GoodBlock(u, b) && b.id !in s.db.stored
    requires Linked(s.db.stored, s.db.lib.id, p, b.parent)
    ensures var c1 := c.(blocks := NewStack(c, p, b)); c1.Valid(u) && c1.Final() == c.Final() && c1.Top() == b.id
  {
    var t := NewStack(c, p, b);
    NewStackLinked(u, s, c, b, p);
    NewStackSlices(c, p, b, 0, 0);
    SameFinal(c, t, |t|);
    assert t[..|t|] == t;
    AboveLib(u, s, c, p, b.parent);
    forall x <- t ensures x !in c.stalled {
      assert x in c.blocks[..c.fin] || x in p || x == b;
      assert x in c.blocks[..c.fin] ==> x in c.blocks;
    }
  }

  lemma NewHeadSentClosed(u: Store, s: State, c: Consumer, b: Block, p: seq<Block>)
    requires Inv(u, s, c) && GoodBlock(u, b) && b.id !in s.db.stored
    requires Linked(AddLink(s.db, b).stored, s.db.lib.id, p + [b], b.id)
    ensures SentClosed(u, AddLink(s.db, b), s.sent + Ids(p + [b]))
  {
    AddLinkOk(u, s.db, b);
    PathSentClosed(u, AddLink(s.db, b), s.sent, p + [b], b.id);
  }

  /** After the reorganisation the head is the new block and the stack is the new chain. */
  lemma NewHeadKeepsInv(u: Store, s: State, c: Consumer, b: Block, p: seq<Block>)
    requires Inv(u, s, c) && GoodBlock(u, b) && b.id !in s.db.stored
    requires b.num >= s.db.lib.num || s.last.None?
    requires Linked(s.db.stored, s.db.lib.id, p, b.parent)
    ensures var s3 := s.(db := AddLink(s.db, b), chain := p + [b], last := Some(b), sent := s.sent + Ids(p + [b]));
      Inv(u, s3, c.(blocks := NewStack(c, p, b)))
  {
    hide Linked, At, NewStack, RefOk;
    AddLinkOk(u, s.db, b);
    NewStackLinked(u, s, c, b, p);
    NewStackSlices(c, p, b, 0, 0);
    NewConsumerValid(u, s, c, b, p);
    NewHeadSentClosed(u, s, c, b, p);
  }

  // Moving the LIB

  /** `p` leads from the LIB to `lib`, both on the consumer's chain. */
  ghost predicate OnTheWay(u: Store, s: State, c: Consumer, lib: Ref, p: seq<Block>) {
    && RefOk(u, lib)
    && p != [] && Linked(s.db.stored, s.db.lib.id, p, lib.id)
    && c.fin + |p| <= |c.blocks| && c.blocks[c.fin..c.fin + |p|] == p
    && Linked(s.db.stored, lib.id, c.blocks[c.fin + |p|..], s.HeadId())
  }

  lemma NewLibOnTheWay(u: Store, s: State, c: Consumer, b: Block)
    requires Inv(u, s, c) && s.last == Some(b) && GoodBlock(u, b)
    requires var lib := BlockInChain(u, s.db, b.AsRef(), b.libNum);
      lib != EMPTY_REF && lib.id != s.db.lib.id && Recomputed(s.db, lib.id) != []
    ensures var lib := BlockInChain(u, s.db, b.AsRef(), b.libNum);
      OnTheWay(u, s, c, lib, Recomputed(s.db, lib.id))
  {
    var lib := BlockInChain(u, s.db, b.AsRef(), b.libNum);
    BlockInChainMeaning(u, s.db, b, b.libNum);
    var q :| Linked(s.db.stored, lib.id, q, b.id);
    AncestorOnTheWay(u, s, c, lib, Recomputed(s.db, lib.id), q, b.id);
  }

  lemma AncestorOnTheWay(u: Store, s: State, c: Consumer, lib: Ref, p: seq<Block>, q: seq<Block>, head: Id)
    requires DbOk(u, s.db) && s.db.HasLib() && RefOk(u, lib) && c.fin <= |c.blocks| && head == s.HeadId()
    requires Linked(s.db.stored, s.db.lib.id, c.blocks[c.fin..], head)
    requires p != [] && Linked(s.db.stored, s.db.lib.id, p, lib.id) && Linked(s.db.stored, lib.id, q, head)
    ensures OnTheWay(u, s, c, lib, p)
  {
    hide Linked;
    var h := c.blocks[c.fin..];
    LinkedConcat(u, s.db.stored, s.db.lib.id, p, lib.id, q, head);
    LinkedUnique(s.db.stored, s.db.lib.id, h, p + q, head);
    assert h[..|p|] == p && h[|p|..] == q;
    assert c.blocks[c.fin + |p|..] == h[|p|..] && c.blocks[c.fin..c.fin + |p|] == h[..|p|];
  }

  lemma EmitFinalNames(step: StepType, bs: seq<Block>, head: Ref)
    ensures Are(EmitFinal(step, bs, head), step, bs) && NameThemselves(EmitFinal(step, bs, head))
  {
  }

  /** Every block of the stack is at or below the old LIB, on the way to the new one, or above that. */
  lemma StackAround(u: Store, s: State, c: Consumer, lib: Ref, p: seq<Block>)
    requires Inv(u, s, c) && OnTheWay(u, s, c, lib, p)
    ensures forall x <- c.blocks :: x.num <= u[s.db.lib.id].num || InPath(x.id, p) || u[lib.id].num < x.num
  {
    hide Linked, Consumer.Final, Consumer.Top;
    var rest := c.blocks[c.fin + |p|..];
    LinkedAscending(u, s.db.stored, lib.id, rest, s.HeadId());
    BelowFinal(u, c);
    assert c.blocks == c.blocks[..c.fin] + p + rest;
    forall x <- c.blocks ensures x.num <= u[s.db.lib.id].num || InPath(x.id, p) || u[lib.id].num < x.num {
      if x in p {
        var i :| 0 <= i < |p| && p[i] == x;
        assert p[i].id == x.id;
      }
    }
  }

  lemma FirstAboveLib(u: Store, s: State, lib: Ref, p: seq<Block>)
    requires DbOk(u, s.db) && s.db.HasLib() && RefOk(u, lib) && p != [] && Linked(s.db.stored, s.db.lib.id, p, lib.id)
    ensures u[s.db.lib.id].num < FirstNum(p, lib.num)
  {
    LinkedAscending(u, s.db.stored, s.db.lib.id, p, lib.id);
    LinkedElements(s.db.stored, s.db.lib.id, p, lib.id);
  }

  /** Stalled blocks are new ones, and none of them is on the consumer's stack. */
  lemma StalledAreElsewhere(u: Store, s: State, c: Consumer, lib: Ref, p: seq<Block>, bs: seq<Block>)
    requires Inv(u, s, c) && OnTheWay(u, s, c, lib, p)
    requires Lists(bs, StalledSet(s.db.stored, p, FirstNum(p, lib.num), lib.num))
    ensures forall x <- bs :: GoodBlock(u, x) && x !in c.blocks && x !in c.stalled && x.num <= lib.num
    ensures forall i, j | 0 <= i < j < |bs| :: bs[i] != bs[j]
  {
    hide Linked;
    FirstAboveLib(u, s, lib, p);
    StackAround(u, s, c, lib, p);
    forall x <- bs ensures GoodBlock(u, x) && x !in c.blocks && x !in c.stalled && x.num <= lib.num {
      assert x in StalledSet(s.db.stored, p, FirstNum(p, lib.num), lib.num);
    }
    forall i, j | 0 <= i < j < |bs| ensures bs[i] != bs[j] {
      IdBelowTotal(bs[i].id, bs[j].id);
    }
  }

  lemma BelowFinal(u: Store, c: Consumer)
    requires WellFormed(u) && c.Valid(u) && c.Final() in u
    ensures forall i | 0 <= i < c.fin :: c.blocks[i].num <= u[c.Final()].num
  {
    LinkedAscending(u, u, c.base, c.blocks, c.Top());
    LinkedElements(u, c.base, c.blocks, c.Top());
  }

  /** The consumer after the LIB has moved to `lib`. */
  function Finalize(c: Consumer, p: seq<Block>, stalled: seq<Block>): Consumer {
    c.(fin := c.fin + |p|, stalled := c.stalled + set x <- stalled)
  }

  lemma AdvanceIsLegal(u: Store, s: State, c: Consumer, lib: Ref, p: seq<Block>, bs: seq<Block>, head: Ref)
    requires Inv(u, s, c) && OnTheWay(u, s, c, lib, p)
    requires Lists(bs, StalledSet(s.db.stored, p, FirstNum(p, lib.num), lib.num))
    ensures c.ApplyAll(EmitFinal(Irreversible, p, head) + Emit(Stalled, bs, lib, head, None)) == Some(Finalize(c, p, bs))
    ensures Finalize(c, p, bs).Final() == lib.id
  {
    StalledAreElsewhere(u, s, c, lib, p, bs);
    LinkedElements(s.db.stored, s.db.lib.id, p, lib.id);
    FinalizeAndStall(c, lib, p, bs, head);
  }

  lemma EmitStalledNames(bs: seq<Block>, lib: Ref, head: Ref)
    ensures var es := Emit(Stalled, bs, lib, head, None); Are(es, Stalled, bs) && Names(es, lib.id)
  {
  }

  lemma FinalizeAndStall(c: Consumer, lib: Ref, p: seq<Block>, bs: seq<Block>, head: Ref)
    requires p != [] && p[|p| - 1].id == lib.id
    requires c.fin + |p| <= |c.blocks| && c.blocks[c.fin..c.fin + |p|] == p
    requires forall x <- bs :: x !in c.blocks && x !in c.stalled
    requires forall i, j | 0 <= i < j < |bs| :: bs[i] != bs[j]
    ensures c.ApplyAll(EmitFinal(Irreversible, p, head) + Emit(Stalled, bs, lib, head, None)) == Some(Finalize(c, p, bs))
    ensures Finalize(c, p, bs).Final() == lib.id
  {
    hide Finalized, Emit, EmitFinal, Consumer.ApplyAll;
    EmitFinalNames(Irreversible, p, head);
    FinalizeAll(c, EmitFinal(Irreversible, p, head), p);
    var c1 := c.(fin := c.fin + |p|);
    assert c1.Final() == lib.id by { assert c.blocks[c.fin..c.fin + |p|][|p| - 1] == c.blocks[c.fin + |p| - 1]; }
    var es := Emit(Stalled, bs, lib, head, None);
    EmitStalledNames(bs, lib, head);
    StallAll(c1, es, bs);
    assert StalledIn(es) == set x <- bs;
    ApplyConcat(c, EmitFinal(Irreversible, p, head), es);
  }

  /** What the state holds once the LIB has moved and what lies too far below it is purged. */
  lemma MovedDb(u: Store, cfg: Config, s: State, c: Consumer, lib: Ref, p: seq<Block>)
    requires Inv(u, s, c) && OnTheWay(u, s, c, lib, p)
    ensures var db := Purge(s.db.(lib := lib), cfg.kept);
      && DbOk(u, db) && db.HasLib()
      && Linked(db.stored, lib.id, c.blocks[c.fin + |p|..], s.HeadId())
    ensures s.db.lib.num <= lib.num && u[s.db.lib.id].num < lib.num && lib.id != s.db.lib.id
  {
    LinkedElements(s.db.stored, s.db.lib.id, p, lib.id);
    LinkedAscending(u, s.db.stored, s.db.lib.id, p, lib.id);
    MoveAndPurgeOk(u, s.db, lib, cfg.kept);
    NumbersAboveLib(u, s.db, lib, p);
    var q := c.blocks[c.fin + |p|..];
    LinkedAscending(u, s.db.stored, lib.id, q, s.HeadId());
    LinkedElements(s.db.stored, lib.id, q, s.HeadId());
    LinkedInStore(s.db.stored, Purge(s.db.(lib := lib), cfg.kept).stored, lib.id, q, s.HeadId());
  }

  lemma MovedSent(u: Store, cfg: Config, s: State, lib: Ref)
    requires DbOk(u, s.db) && s.db.HasLib() && SentClosed(u, s.db, s.sent)
    requires s.db.lib.num <= lib.num && u[s.db.lib.id].num < lib.num
    ensures var db := Purge(s.db.(lib := lib), cfg.kept); SentClosed(u, db, s.sent * db.stored.Keys)
  {
  }

  lemma FinalizedValid(u: Store, c: Consumer, p: seq<Block>, bs: seq<Block>)
    requires c.Valid(u) && c.fin + |p| <= |c.blocks| && forall x <- bs :: x !in c.blocks
    ensures Finalize(c, p, bs).Valid(u)
  {
  }

  lemma FinalizedStalled(u: Store, s: State, c: Consumer, lib: Ref, p: seq<Block>, bs: seq<Block>, kept: nat)
    requires DbOk(u, s.db) && s.db.HasLib() && StalledBelow(u, s.db, c.stalled)
    requires RefOk(u, lib) && u[s.db.lib.id].num < lib.num
    requires forall x <- bs :: GoodBlock(u, x) && x.num <= lib.num
    ensures StalledBelow(u, Purge(s.db.(lib := lib), kept), Finalize(c, p, bs).stalled)
  {
  }

  lemma FinalizedInStep(u: Store, cfg: Config, s: State, c: Consumer, lib: Ref, p: seq<Block>, bs: seq<Block>)
    requires Inv(u, s, c) && OnTheWay(u, s, c, lib, p) && s.last.Some?
    requires forall x <- bs :: x !in c.blocks
    requires Finalize(c, p, bs).Final() == lib.id
    ensures var db := Purge(s.db.(lib := lib), cfg.kept);
      InStep(u, s.(db := db, libSeen := lib, sent := s.sent * db.stored.Keys), Finalize(c, p, bs))
  {
    hide Linked;
    MovedDb(u, cfg, s, c, lib, p);
    FinalizedValid(u, c, p, bs);
    var db, q := Purge(s.db.(lib := lib), cfg.kept), c.blocks[c.fin + |p|..];
    LinkedElements(db.stored, lib.id, q, s.HeadId());
    forall x <- q ensures x.id in s.sent * db.stored.Keys {
      assert x in c.blocks[c.fin..];
    }
  }

  lemma AdvanceKeepsInv(u: Store, cfg: Config, s: State, c: Consumer, lib: Ref, p: seq<Block>, bs: seq<Block>)
    requires Inv(u, s, c) && OnTheWay(u, s, c, lib, p) && s.last.Some?
    requires Lists(bs, StalledSet(s.db.stored, p, FirstNum(p, lib.num), lib.num))
    requires s.chain != [] ==> s.chain[0].parent == s.db.lib.id
    requires Finalize(c, p, bs).Final() == lib.id
    ensures var db := Purge(s.db.(lib := lib), cfg.kept);
      Inv(u, s.(db := db, libSeen := lib, sent := s.sent * db.stored.Keys), Finalize(c, p, bs))
  {
    hide Linked, InStep, Purge, SentClosed, Lists, Finalize, StalledBelow;
    StalledAreElsewhere(u, s, c, lib, p, bs);
    FinalizedInStep(u, cfg, s, c, lib, p, bs);
    MovedDb(u, cfg, s, c, lib, p);
    MovedSent(u, cfg, s, lib);
    FinalizedStalled(u, s, c, lib, p, bs, cfg.kept);
    assert Purge(s.db.(lib := lib), cfg.kept).lib == lib by { PurgeKeepsLib(s.db.(lib := lib), cfg.kept); }
  }

  lemma PurgeKeepsLib(db: Db, kept: nat)
    ensures Purge(db, kept).lib == db.lib
  {
  }

  ghost predicate Descends(db: Db, from: Id, to: Id) {
    exists p :: Linked(db.stored, from, p, to)
  }

  /** The end of a step: the LIB stays, or moves up the consumer's own chain, and the consumer follows. */
  lemma AdvanceLibCorrect(u: Store, cfg: Config, s: State, c: Consumer, b: Block)
    requires Inv(u, s, c) && s.last == Some(b) && GoodBlock(u, b)
    requires s.chain != [] ==> s.chain[0].parent == s.db.lib.id
    ensures var (t, es) := AdvanceLib(u, cfg, s, b, None);
      && c.ApplyAll(es).Some? && Inv(u, t, c.ApplyAll(es).value)
      && Descends(s.db, s.db.lib.id, t.db.lib.id)
  {
    var lib := BlockInChain(u, s.db, b.AsRef(), b.libNum);
    assert Linked(s.db.stored, s.db.lib.id, [], s.db.lib.id);
    BlockInChainMeaning(u, s.db, b, b.libNum);
    if lib.id != "" && lib.id != s.db.lib.id {
      var p := Recomputed(s.db, lib.id);
      if p != [] {
        var bs := StalledListed(s.db.stored, p, lib.num);
        hide Linked;
        NewLibOnTheWay(u, s, c, b);
        AdvanceIsLegal(u, s, c, lib, p, bs, b.AsRef());
        AdvanceKeepsInv(u, cfg, s, c, lib, p, bs);
        assert p + [] == p;
      }
    }
  }

  /** The links ProcessBlock works on: those stored, and the new block's. */
  function DbWith(s: State, b: Block): Db { AddLink(s.db, b) }

  function WithNewHead(s: State, b: Block, p: seq<Block>): State {
    s.(db := DbWith(s, b), chain := p + [b], last := Some(b), sent := s.sent + Ids(p + [b]))
  }

  ghost function ReorgEvents(s: State, b: Block, p: seq<Block>): seq<Event> {
    var w, lib, head := SentSwitch(s, b), s.KnownLib(), b.AsRef();
    Emit(Undo, w.undos, lib, head, w.junction)
    + Emit(New, w.redos, lib, head, None)
    + Emit(New, Select(p + [b], s.sent, false), lib, head, None)
  }

  lemma ExtendIs(u: Store, cfg: Config, s: State, b: Block, p: seq<Block>)
    requires DbOk(u, DbWith(s, b)) && s.db.HasLib() && GoodBlock(u, b)
    requires NewChain(s.(db := DbWith(s, b)), b) == p + [b] && s.Triggers(b)
    ensures var (t, es) := AdvanceLib(u, cfg, WithNewHead(s, b, p), b, None);
      Extend(u, cfg, s, s.(db := DbWith(s, b)), b, None) == (t, ReorgEvents(s, b, p) + es)
  {
    hide AdvanceLib, Linked, DbOk;
  }

  lemma ExtendCorrect(u: Store, cfg: Config, s: State, c: Consumer, b: Block)
    requires Inv(u, s, c) && GoodBlock(u, b) && b.id !in s.db.stored && (b.num >= s.db.lib.num || s.last.None?)
    requires DbOk(u, DbWith(s, b))
    ensures var (t, es) := Extend(u, cfg, s, s.(db := DbWith(s, b)), b, None);
      && c.ApplyAll(es).Some? && Inv(u, t, c.ApplyAll(es).value)
      && Descends(DbWith(s, b), s.db.lib.id, t.db.lib.id)
  {
    var s1 := s.(db := DbWith(s, b));
    assert Linked(s1.db.stored, s.db.lib.id, [], s.db.lib.id);
    CacheIsExact(u, s, b);
    var chain := NewChain(s1, b);
    if !s.Triggers(b) || chain == [] {
      StoringKeepsInv(u, s, c, b);
    } else {
      assert Linked(s1.db.stored, s.db.lib.id, chain, b.id);
      var p := chain[..|chain| - 1];
      NewPathWasStored(u, s, b, chain);
      hide Linked, Extend;
      ExtendToNewHead(u, cfg, s, c, b, p);
    }
  }

  lemma ExtendToNewHead(u: Store, cfg: Config, s: State, c: Consumer, b: Block, p: seq<Block>)
    requires Inv(u, s, c) && GoodBlock(u, b) && b.id !in s.db.stored && (b.num >= s.db.lib.num || s.last.None?)
    requires DbOk(u, DbWith(s, b)) && s.db.HasLib() && c.fin <= |c.blocks| && (p + [b])[0].parent == s.db.lib.id
    requires NewChain(s.(db := DbWith(s, b)), b) == p + [b] && s.Triggers(b)
    requires Linked(s.db.stored, s.db.lib.id, p, b.parent)
    ensures var (t, es) := Extend(u, cfg, s, s.(db := DbWith(s, b)), b, None);
      && c.ApplyAll(es).Some? && Inv(u, t, c.ApplyAll(es).value)
      && Descends(DbWith(s, b), s.db.lib.id, t.db.lib.id)
  {
    hide Linked, AdvanceLib, Inv, Extend;
    ReorgIsLegal(u, s, c, b, p);
    NewHeadKeepsInv(u, s, c, b, p);
    ExtendIs(u, cfg, s, b, p);
    AdvanceLibCorrect(u, cfg, WithNewHead(s, b, p), c.(blocks := NewStack(c, p, b)), b);
    ApplyConcat(c, ReorgEvents(s, b, p), AdvanceLib(u, cfg, WithNewHead(s, b, p), b, None).1);
  }

  lemma LastIsApart(p: seq<Block>, i: nat)
    requires Ascending(p) && i < |p| - 1
    ensures p[i] != p[|p| - 1] && p[i].num != p[|p| - 1].num
  {
  }

  lemma NewPathWasStored(u: Store, s: State, b: Block, chain: seq<Block>)
    requires DbOk(u, s.db) && GoodBlock(u, b) && b.id !in s.db.stored && chain != []
    requires Linked(DbWith(s, b).stored, s.db.lib.id, chain, b.id)
    ensures chain == chain[..|chain| - 1] + [b] && chain[0].parent == s.db.lib.id
    ensures Linked(s.db.stored, s.db.lib.id, chain[..|chain| - 1], b.parent)
  {
    hide Linked;
    AddLinkOk(u, s.db, b);
    var p, db1 := chain[..|chain| - 1], DbWith(s, b);
    LinkedTop(db1.stored, s.db.lib.id, chain, b.id);
    LinkedElements(db1.stored, s.db.lib.id, chain, b.id);
    LinkedAscending(u, db1.stored, s.db.lib.id, chain, b.id);
    hide DbOk, Ascending;
    forall i | 0 <= i < |p| ensures p[i].id in s.db.stored && s.db.stored[p[i].id] == p[i] {
      LastIsApart(chain, i);
      assert p[i] == chain[i];
    }
    LinkedInStore(db1.stored, s.db.stored, s.db.lib.id, p, b.parent);
  }

  /**
   One call of ProcessBlock, LIB known: what it emits is legal for the consumer, whose stack above the
   final block is again the stored chain from the LIB to the last block sent; and the LIB it leaves is
   the old one or a stored descendant of it.
   */
  lemma StepCorrect(u: Store, cfg: Config, s: State, c: Consumer, b: Block)
    requires Inv(u, s, c) && GoodBlock(u, b) && !(cfg.inclusive && s.last.None? && b.id == s.db.lib.id)
    ensures var (t, es) := Step(u, cfg, s, b);
      && c.ApplyAll(es).Some? && Inv(u, t, c.ApplyAll(es).value)
      && Descends(DbWith(s, b), s.db.lib.id, t.db.lib.id)
  {
    assert Linked(DbWith(s, b).stored, s.db.lib.id, [], s.db.lib.id);
    hide Linked, Extend;
    if !(b.num < s.db.lib.num && s.last.Some?) && b.id !in s.db.stored {
      AddLinkOk(u, s.db, b);
      ExtendCorrect(u, cfg, s, c, b);
    }
  }
}
