/** Two short runs on which a cursor of the run does not bring its consumer back. */
module ResumeWitness {
  import opened Chain
  import opened Consumers
  import opened ForkDbModel
  import opened ForkableModel
  import opened ForkableInvariant
  import opened ForkableRuns
  import opened ResumeModel
  import opened Resume

  const KEPT_ALL := Config(0, 10, false)

  /** The state after the LIB's own block has been stored; nothing is sent for it. */
  function LibStored(a: Block): State {
    State(Db(map[a.id := a], map[a.id := a.num], a.AsRef()), None, a.AsRef(), [], {})
  }

  lemma StepLib(u: Store, a: Block)
    requires WellFormed(u) && GoodBlock(u, a)
    ensures Inv(u, StartState(a.AsRef(), false), NewConsumer(a.id))
    ensures Step(u, KEPT_ALL, StartState(a.AsRef(), false), a) == (LibStored(a), [])
  {
    var s := StartState(a.AsRef(), false);
    StartInv(u, a.AsRef(), false);
    StepCases(u, KEPT_ALL, s, a);
    var s1 := s.(db := AddLink(s.db, a));
    ExtendCases(u, KEPT_ALL, s, s1, a, None);
    assert Linked(s1.db.stored, a.id, [], a.id);
    PathToIs(s1.db.stored, a.id, [], a.id);
    assert s1 == LibStored(a);
  }

  /** A block that becomes the head by the path `p` and the reorganisation `w`. */
  ghost predicate Arrives(u: Store, s: State, b: Block, p: seq<Block>, w: Reorg) {
    && DbOk(u, s.db) && s.db.HasLib() && GoodBlock(u, b) && b.id !in s.db.stored && s.db.lib.num <= b.num && s.Triggers(b)
    && p != [] && NewChain(s.(db := AddLink(s.db, b)), b) == p && SentSwitch(s, b) == w
  }

  function NewHead(s: State, b: Block, p: seq<Block>): State {
    s.(db := AddLink(s.db, b), chain := p, last := Some(b), sent := s.sent + Ids(p))
  }

  /** What is sent for it before the LIB is looked at. */
  function Sends(s: State, b: Block, p: seq<Block>, w: Reorg): seq<Event> {
    Emit(Undo, w.undos, s.KnownLib(), b.AsRef(), w.junction) + Emit(New, w.redos, s.KnownLib(), b.AsRef(), None)
    + Emit(New, Select(p, s.sent, false), s.KnownLib(), b.AsRef(), None)
  }

  lemma StepArrives(u: Store, s: State, b: Block, p: seq<Block>, w: Reorg, lib: Ref)
    requires Arrives(u, s, b, p, w) && DbOk(u, AddLink(s.db, b)) && lib == BlockInChain(u, AddLink(s.db, b), b.AsRef(), b.libNum)
    ensures lib == s.db.lib ==> Step(u, KEPT_ALL, s, b) == (NewHead(s, b, p), Sends(s, b, p, w))
    ensures lib.id != "" && lib.id != s.db.lib.id && Recomputed(AddLink(s.db, b), lib.id) != [] ==>
      var t := Step(u, KEPT_ALL, s, b).0;
      t.last == Some(b) && t.db == Purge(AddLink(s.db, b).(lib := lib), KEPT_ALL.kept)
  {
    hide NewChain, SentSwitch, AdvanceLib, Extend, BlockInChain, Recomputed, Purge, Emit, Select, Ids, EmitFinal, StalledListed;
    var s1 := s.(db := AddLink(s.db, b));
    StepCases(u, KEPT_ALL, s, b);
    ExtendCases(u, KEPT_ALL, s, s1, b, None);
    var t := NewHead(s, b, p);
    AdvanceLibCases(u, KEPT_ALL, t, b, None, lib);
    assert Sends(s, b, p, w) + [] == Sends(s, b, p, w);
  }

  /** With few blocks everything is kept. */
  lemma AllKept(db: Db)
    requires db.lib.num <= KEPT_ALL.kept && db.stored.Keys <= db.nums.Keys
    ensures Purge(db, KEPT_ALL.kept) == db.(nums := map id <- db.stored :: db.nums[id])
  {
    assert Purge(db, KEPT_ALL.kept).stored == db.stored;
    assert Purge(db, KEPT_ALL.kept).nums == map id <- db.stored :: db.nums[id];
  }

  lemma RunOf(u: Store, s: State, bs: seq<Block>, b: Block)
    requires DbOk(u, s.db) && (forall x <- bs :: GoodBlock(u, x)) && GoodBlock(u, b)
    ensures forall x <- bs + [b] :: GoodBlock(u, x)
    ensures var (m, es) := Run(u, KEPT_ALL, s, bs);
      var (t, fs) := Step(u, KEPT_ALL, m, b); Run(u, KEPT_ALL, s, bs + [b]) == (t, es + fs)
  {
    hide Step;
    assert (bs + [b])[..|bs|] == bs;
  }

  // Paths of one and of two blocks, and the heights at them

  lemma PathOfOne(u: Store, m: Store, root: Id, b: Block)
    requires WellFormed(u) && Within(m, u) && GoodBlock(m, b) && b.parent == root
    ensures Linked(m, root, [b], b.id) && PathTo(m, root, b.id) == Some([b])
  {
    assert [b][..0] == [] && Linked(m, root, [], root);
    PathToIs(m, root, [b], b.id);
  }

  lemma PathOfTwo(u: Store, m: Store, root: Id, b: Block, c: Block)
    requires WellFormed(u) && Within(m, u) && GoodBlock(m, b) && GoodBlock(m, c) && b.parent == root && c.parent == b.id && root in u
    ensures Linked(m, root, [b, c], c.id) && PathTo(m, root, c.id) == Some([b, c])
  {
    PathOfOne(u, m, root, b);
    assert [b, c][..1] == [b];
    PathToIs(m, root, [b, c], c.id);
  }

  /** The height of the parent itself. */
  lemma AtParent(u: Store, db: Db, b: Block)
    requires DbOk(u, db) && GoodBlock(u, b) && GoodBlock(db.stored, b) && b.parent in db.nums && db.nums[b.parent] == b.libNum
    ensures BlockInChain(u, db, b.AsRef(), b.libNum) == Ref(b.parent, b.libNum)
  {
  }

  /** A height between the parent's parent and the parent: the parent, under that height. */
  lemma AboveGrandparent(u: Store, db: Db, a: Block, b: Block, c: Block)
    requires DbOk(u, db) && GoodBlock(db.stored, a) && GoodBlock(db.stored, b) && GoodBlock(db.stored, c)
    requires b.parent == a.id && c.parent == b.id && a.num < c.libNum < b.num
    ensures BlockInChain(u, db, c.AsRef(), c.libNum) == Ref(b.id, c.libNum)
  {
    assert db.nums[a.id] == a.num && db.nums[b.id] == b.num;
    assert BlockBelow(u, db, b.id, c.libNum) == Ref(b.id, c.libNum);
  }

  lemma SegmentOfThree(u: Store, m: Store, a: Block, b: Block, c: Block)
    requires WellFormed(u) && Within(m, u) && GoodBlock(m, a) && GoodBlock(m, b) && GoodBlock(m, c)
    requires a.parent !in m && b.parent == a.id && c.parent == b.id
    ensures CompletePath(u, m, c.id) == [a, b, c]
  {
    assert CompletePath(u, m, a.id) == [a];
    assert CompletePath(u, m, b.id) == [a, b];
  }

  lemma SelectOne(b: Block, sent: set<Id>)
    ensures Select([b], sent, false) == if b.id in sent then [] else [b]
    ensures Select([b], sent, true) == if b.id in sent then [b] else []
    ensures Select([], sent, false) == Select([], sent, true) == []
  {
    assert [b][..0] == [];
  }

  lemma SendsOnly(s: State, b: Block, p: seq<Block>)
    requires Select(p, s.sent, false) == [b]
    ensures Sends(s, b, p, NO_REORG) == [Event(New, b, s.KnownLib(), b.AsRef(), None)]
  {
    hide Select;
    var lib, head := s.KnownLib(), b.AsRef();
    assert Emit(Undo, [], lib, head, None) == [] && Emit(New, [], lib, head, None) == [];
    assert Emit(New, [b], lib, head, None) == [Event(New, b, lib, head, None)];
  }

  lemma LibStoredOk(u: Store, a: Block, b: Block)
    requires WellFormed(u) && GoodBlock(u, a) && GoodBlock(u, b) && b.parent == a.id
    ensures a.id != b.id && DbOk(u, LibStored(a).db) && DbOk(u, AddLink(LibStored(a).db, b))
    ensures var db := AddLink(LibStored(a).db, b); GoodBlock(db.stored, a) && GoodBlock(db.stored, b) && Within(db.stored, u)
  {
    AddLinkOk(u, LibStored(a).db, b);
  }

  /** A first head right above the stored LIB block: it is sent as new. */
  lemma FirstHead(u: Store, a: Block, b: Block)
    requires WellFormed(u) && GoodBlock(u, a) && GoodBlock(u, b) && b.parent == a.id && b.libNum == a.num
    ensures DbOk(u, LibStored(a).db)
    ensures Step(u, KEPT_ALL, LibStored(a), b)
         == (NewHead(LibStored(a), b, [b]), [Event(New, b, a.AsRef(), b.AsRef(), None)])
  {
    hide BlockInChain, Step, DbOk, WellFormed, Linked, Sends, Select, PathTo;
    var s := LibStored(a);
    var db := AddLink(s.db, b);
    LibStoredOk(u, a, b);
    PathOfOne(u, db.stored, a.id, b);
    AtParent(u, db, b);
    SelectOne(b, {});
    SendsOnly(s, b, [b]);
    FirstArrives(u, a, b);
    StepArrives(u, s, b, [b], NO_REORG, a.AsRef());
  }

  lemma FirstArrives(u: Store, a: Block, b: Block)
    requires WellFormed(u) && GoodBlock(u, a) && GoodBlock(u, b) && b.parent == a.id && b.libNum == a.num
    requires PathTo(AddLink(LibStored(a).db, b).stored, a.id, b.id) == Some([b])
    ensures Arrives(u, LibStored(a), b, [b], NO_REORG)
  {
    hide Linked, PathTo;
    LibStoredOk(u, a, b);
  }

  // A LIB at a numbering hole

  /** A chain of three, where `c` reports a LIB number between those of the other two. */
  ghost predicate HoleBelow(u: Store, a: Block, b: Block, c: Block) {
    && WellFormed(u) && GoodBlock(u, a) && GoodBlock(u, b) && GoodBlock(u, c) && a.parent !in u
    && b.parent == a.id && c.parent == b.id && b.libNum == a.num && a.num < c.libNum < b.num && c.libNum <= KEPT_ALL.kept
  }

  function AfterFirst(a: Block, b: Block): State { NewHead(LibStored(a), b, [b]) }

  lemma AfterFirstOk(u: Store, a: Block, b: Block, c: Block)
    requires HoleBelow(u, a, b, c)
    ensures b.id != a.id && c.id != a.id && c.id != b.id
    ensures var db := AddLink(AfterFirst(a, b).db, c);
      && DbOk(u, AfterFirst(a, b).db) && DbOk(u, db) && Within(db.stored, u) && db.lib == a.AsRef()
      && GoodBlock(db.stored, a) && GoodBlock(db.stored, b) && GoodBlock(db.stored, c)
      && db.stored.Keys == {a.id, b.id, c.id}
  {
    LibStoredOk(u, a, b);
    AddLinkOk(u, LibStored(a).db, b);
    AddLinkOk(u, AfterFirst(a, b).db, c);
  }

  lemma SecondArrives(u: Store, a: Block, b: Block, c: Block)
    requires HoleBelow(u, a, b, c)
    ensures Arrives(u, AfterFirst(a, b), c, [b, c], NO_REORG)
  {
    hide DbOk, WellFormed, Recomputed, Select;
    AfterFirstOk(u, a, b, c);
    assert a.num < b.num < c.num by { Heights(u, a, b, c); }
  }

  lemma Heights(u: Store, a: Block, b: Block, c: Block)
    requires HoleBelow(u, a, b, c)
    ensures a.num < b.num < c.num
  {
  }

  /** The LIB becomes `b`, under the number that `c` reported. */
  lemma LibAtHole(u: Store, a: Block, b: Block, c: Block)
    requires HoleBelow(u, a, b, c)
    ensures DbOk(u, AfterFirst(a, b).db)
    ensures var t := Step(u, KEPT_ALL, AfterFirst(a, b), c).0;
      && t.last == Some(c) && t.db.lib == Ref(b.id, c.libNum)
      && t.db.stored == AddLink(AfterFirst(a, b).db, c).stored
  {
    hide BlockInChain, Step, DbOk, WellFormed, Linked, PathTo, Arrives, Purge;
    var s := AfterFirst(a, b);
    var db, lib := AddLink(s.db, c), Ref(b.id, c.libNum);
    AfterFirstOk(u, a, b, c);
    SecondArrives(u, a, b, c);
    AboveGrandparent(u, db, a, b, c);
    PathOfOne(u, db.stored, a.id, b);
    IdIsNamed(u, b);
    StepArrives(u, s, c, [b, c], NO_REORG, lib);
    KeysKnown(u, db);
    AllKept(db.(lib := lib));
  }

  lemma IdIsNamed(u: Store, b: Block)
    requires WellFormed(u) && GoodBlock(u, b)
    ensures b.id != ""
  {
  }

  lemma KeysKnown(u: Store, db: Db)
    requires DbOk(u, db)
    ensures db.stored.Keys <= db.nums.Keys
  {
  }

  /** The cursor the consumer got with `b`, and what it is sent when it comes back with it. */
  lemma ListAtHole(u: Store, t: State, a: Block, b: Block, c: Block)
    requires HoleBelow(u, a, b, c) && DbOk(u, t.db) && t.last == Some(c) && t.db.lib == Ref(b.id, c.libNum)
    requires t.db.stored == AddLink(AfterFirst(a, b).db, c).stored
    ensures FromCursor(u, t, Cursor(New, b.AsRef(), b.AsRef(), a.AsRef()))
         == Ok([Event(New, c, Ref(b.id, c.libNum), c.AsRef(), None)])
  {
    hide DbOk, WellFormed, Linked, WalkBack, CompletePath, AddLink;
    AfterFirstOk(u, a, b, c);
    Heights(u, a, b, c);
    var seg, cur := [a, b, c], Cursor(New, b.AsRef(), b.AsRef(), a.AsRef());
    SegmentOfThree(u, t.db.stored, a, b, c);
    IdIsNamed(u, b);
    OnSegment(seg, t.db, c.id);
    var f := Forward(cur, t.db.lib, c.AsRef());
    CollectThree(seg, f);
    var e := Event(New, c, Ref(b.id, c.libNum), c.AsRef(), None);
    assert f(a) == [] && f(b) == [] && f(c) == [e];
    assert [] + [] + [e] == [e];
    assert HeadRef(t) == c.AsRef() && InPath(cur.block.id, seg) && InPath(cur.lib.id, seg);
  }

  lemma OnSegment(seg: seq<Block>, db: Db, head: Id)
    requires |seg| == 3 && db.lib.id == seg[1].id
    ensures InPath(seg[0].id, seg) && InPath(seg[1].id, seg) && ReachesLib(db, seg, head)
  {
  }

  lemma CollectThree(seg: seq<Block>, f: Block -> seq<Event>)
    requires |seg| == 3
    ensures Collect(seg, f) == f(seg[0]) + f(seg[1]) + f(seg[2])
  {
    hide Collect;
    var two, one := seg[..2], seg[..1];
    assert two[..1] == one && one[..0] == [];
    CollectEmpty(one[..0], f);
    CollectLast(one, f);
    CollectLast(two, f);
    CollectLast(seg, f);
    assert [] + f(seg[0]) == f(seg[0]);
  }

  /**
   The consumer that was sent `b` and comes back with its cursor after `c` is told that `b` is final
   although it never was told to make it so: it cannot obey the list.
   */
  lemma HoleBreaksResuming(u: Store, a: Block, b: Block, c: Block)
    requires HoleBelow(u, a, b, c)
    ensures var s := StartState(a.AsRef(), false);
      && Inv(u, s, NewConsumer(a.id))
      && var (m, es) := Run(u, KEPT_ALL, s, [a, b]);
      && var t := Run(u, KEPT_ALL, s, [a, b, c]).0;
      && |es| == 1 && NewConsumer(a.id).ApplyAll(es).Some?
      && var list := FromCursor(u, t, es[0].Position());
      && list.Ok? && NewConsumer(a.id).ApplyAll(es).value.ApplyAll(list.value).None?
  {
    hide Step, FromCursor, Linked, AddLink;
    var s := StartState(a.AsRef(), false);
    StepLib(u, a);
    FirstHead(u, a, b);
    LibAtHole(u, a, b, c);
    RunOfTwo(u, s, a, b);
    RunOf(u, s, [a, b], c);
    assert [a, b] + [c] == [a, b, c];
    ListAtHole(u, Step(u, KEPT_ALL, AfterFirst(a, b), c).0, a, b, c);
    CannotFollow(a, b, c);
  }

  lemma RunOfTwo(u: Store, s: State, a: Block, b: Block)
    requires DbOk(u, s.db) && GoodBlock(u, a) && GoodBlock(u, b)
    ensures var (m, es) := Step(u, KEPT_ALL, s, a);
      var (t, fs) := Step(u, KEPT_ALL, m, b);
      Run(u, KEPT_ALL, s, [a, b]) == (t, es + fs)
  {
    hide Step, Run;
    RunNothing(u, s);
    RunOf(u, s, [], a);
    RunOf(u, s, [a], b);
    var es := Step(u, KEPT_ALL, s, a).1;
    assert [] + [a] == [a] && [a] + [b] == [a, b] && [] + es == es;
  }

  lemma RunNothing(u: Store, s: State)
    requires DbOk(u, s.db)
    ensures Run(u, KEPT_ALL, s, []) == (s, [])
  {
  }

  lemma CannotFollow(a: Block, b: Block, c: Block)
    requires b.parent == a.id && c.parent == b.id && a.id != b.id && a.num < c.libNum < b.num < c.num
    ensures var k := NewConsumer(a.id).ApplyAll([Event(New, b, a.AsRef(), b.AsRef(), None)]);
      k.Some? && k.value.ApplyAll([Event(New, c, Ref(b.id, c.libNum), c.AsRef(), None)]).None?
  {
    ApplySingle(NewConsumer(a.id), Event(New, b, a.AsRef(), b.AsRef(), None));
    var k := NewConsumer(a.id).Apply(Event(New, b, a.AsRef(), b.AsRef(), None)).value;
    ApplySingle(k, Event(New, c, Ref(b.id, c.libNum), c.AsRef(), None));
  }

  lemma ApplySingle(k: Consumer, e: Event)
    ensures k.ApplyAll([e]) == k.Apply(e)
  {
    assert [e][..0] == [];
  }

  /** Such a chain. */
  lemma HoleExample()
    ensures var a, b, c := Block("a", 1, "0", 0), Block("b", 5, "a", 1), Block("c", 6, "b", 3);
      HoleBelow(map["a" := a, "b" := b, "c" := c], a, b, c)
  {
  }

  // An undone block that has become final

  /** `d` takes the head from `b`, its sibling, and `c` gives it back and makes `b` final. */
  ghost predicate ThereAndBack(u: Store, a: Block, b: Block, d: Block, c: Block) {
    && WellFormed(u) && GoodBlock(u, a) && GoodBlock(u, b) && GoodBlock(u, d) && GoodBlock(u, c) && a.parent !in u
    && b.parent == a.id && d.parent == a.id && c.parent == b.id && b.num < d.num < c.num
    && b.libNum == a.num && d.libNum == a.num && c.libNum == b.num <= KEPT_ALL.kept
  }

  function AfterSibling(a: Block, b: Block, d: Block): State { NewHead(AfterFirst(a, b), d, [d]) }

  lemma SiblingIds(u: Store, a: Block, b: Block, d: Block, c: Block)
    requires ThereAndBack(u, a, b, d, c)
    ensures a.num < b.num && a.id != b.id && a.id != d.id && a.id != c.id && b.id != d.id && b.id != c.id && d.id != c.id
    ensures a.id != "" && b.id != "" && c.id != "" && d.id != "" && b.parent != b.id && d.parent != d.id && c.parent != c.id
  {
  }

  lemma SiblingsOk(u: Store, a: Block, b: Block, d: Block, c: Block)
    requires ThereAndBack(u, a, b, d, c)
    ensures DbOk(u, AfterFirst(a, b).db) && DbOk(u, AddLink(AfterFirst(a, b).db, d))
    ensures DbOk(u, AfterSibling(a, b, d).db) && DbOk(u, AddLink(AfterSibling(a, b, d).db, c))
    ensures AfterFirst(a, b).db.lib == a.AsRef() == AddLink(AfterSibling(a, b, d).db, c).lib
  {
    hide DbOk, WellFormed, AddLink, Ids, LibStored;
    LibStoredOk(u, a, b);
    AddLinkOk(u, AfterFirst(a, b).db, d);
    AddLinkOk(u, AfterSibling(a, b, d).db, c);
    LibsKept(a, b, d, c);
  }

  lemma LibsKept(a: Block, b: Block, d: Block, c: Block)
    ensures AfterFirst(a, b).db.lib == a.AsRef() == AddLink(AfterSibling(a, b, d).db, c).lib
  {
  }

  lemma SiblingStores(u: Store, a: Block, b: Block, d: Block, c: Block)
    requires ThereAndBack(u, a, b, d, c)
    ensures AfterFirst(a, b).db.stored == map[a.id := a, b.id := b]
    ensures AfterSibling(a, b, d).db.stored == map[a.id := a, b.id := b, d.id := d]
    ensures AddLink(AfterSibling(a, b, d).db, c).stored == map[a.id := a, b.id := b, d.id := d, c.id := c]
  {
    hide WellFormed, Ids;
    SiblingIds(u, a, b, d, c);
  }

  lemma SiblingsThere(u: Store, a: Block, b: Block, d: Block, c: Block)
    requires ThereAndBack(u, a, b, d, c)
    ensures var m := AfterFirst(a, b).db.stored; Within(m, u) && GoodBlock(m, a) && GoodBlock(m, b) && d.id !in m
    ensures AddLink(AfterFirst(a, b).db, d).stored == AfterSibling(a, b, d).db.stored
    ensures var m := AfterSibling(a, b, d).db.stored;
      Within(m, u) && GoodBlock(m, a) && GoodBlock(m, b) && GoodBlock(m, d) && c.id !in m
    ensures var m := AddLink(AfterSibling(a, b, d).db, c).stored;
      Within(m, u) && GoodBlock(m, a) && GoodBlock(m, b) && GoodBlock(m, c) && GoodBlock(m, d) && a.parent !in m
  {
    hide WellFormed, AddLink, AfterFirst, Ids;
    SiblingIds(u, a, b, d, c);
    SiblingStores(u, a, b, d, c);
  }

  lemma FirstShared(p: seq<Block>, q: seq<Block>, k: nat)
    requires k <= |p| && k <= |q| && p[..k] == q[..k]
    ensures k == 0 || p[0] == q[0]
  {
    if k > 0 {
      assert p[..k][0] == q[..k][0];
    }
  }

  /** Two siblings, or a block and its parent, part at the parent. */
  lemma PartAt(u: Store, m: Store, a: Block, b: Block, q: seq<Block>, newHead: Id)
    requires WellFormed(u) && Within(m, u) && GoodBlock(m, b) && b.parent == a.id && Linked(m, a.id, q, newHead)
    requires q != [] ==> q[0] != b
    ensures SwitchOf(m, b.id, newHead) == Some(Switch(a.id, [b], q))
  {
    hide Linked, SwitchOf, WellFormed, Within;
    PathOfOne(u, m, a.id, b);
    var k := SwitchFromRoot(u, m, a.id, [b], q, b.id, newHead);
    FirstShared([b], q, k);
    assert [b][0..] == [b] && q[0..] == q;
  }

  lemma SiblingSwitch(u: Store, a: Block, b: Block, d: Block, c: Block)
    requires ThereAndBack(u, a, b, d, c)
    ensures SentSwitch(AfterFirst(a, b), d) == Reorg([b], [], Some(a.AsRef()))
  {
    hide Linked, SwitchOf, WellFormed, DbOk, ThereAndBack, AddLink;
    SiblingFacts(u, a, b, d, c);
    var s := AfterFirst(a, b);
    EmptyPath(s.db.stored, a.id);
    PartAt(u, s.db.stored, a, b, [], a.id);
    SelectOne(b, s.sent);
    NumsKnown(u, s.db, a);
    assert Reverse([b]) == [b];
  }

  /** What the lemmas below need of the four blocks. */
  lemma SiblingFacts(u: Store, a: Block, b: Block, d: Block, c: Block)
    requires ThereAndBack(u, a, b, d, c)
    ensures WellFormed(u) && b.parent == a.id && d.parent == a.id && c.parent == b.id && b.num < d.num < c.num
    ensures a.num < b.num && b != d && a.id != b.id && b.id != d.id && a.id != d.id && a.id != "" && b.id != ""
    ensures DbOk(u, AfterFirst(a, b).db) && DbOk(u, AddLink(AfterFirst(a, b).db, d))
    ensures DbOk(u, AfterSibling(a, b, d).db) && DbOk(u, AddLink(AfterSibling(a, b, d).db, c))
    ensures AfterFirst(a, b).db.lib == a.AsRef() == AfterSibling(a, b, d).db.lib
    ensures var m := AfterFirst(a, b).db.stored; Within(m, u) && GoodBlock(m, a) && GoodBlock(m, b) && d.id !in m
    ensures var m := AfterSibling(a, b, d).db.stored;
      Within(m, u) && GoodBlock(m, a) && GoodBlock(m, b) && GoodBlock(m, d) && c.id !in m
  {
    hide DbOk, WellFormed, AddLink, Ids, LibStored;
    SiblingIds(u, a, b, d, c);
    SiblingsOk(u, a, b, d, c);
    SiblingsThere(u, a, b, d, c);
    LibsOfHeads(a, b, d);
  }

  lemma LibsOfHeads(a: Block, b: Block, d: Block)
    ensures AfterFirst(a, b).db.lib == a.AsRef() == AfterSibling(a, b, d).db.lib
  {
  }

  lemma SiblingArrives(u: Store, a: Block, b: Block, d: Block, c: Block)
    requires ThereAndBack(u, a, b, d, c)
    ensures Arrives(u, AfterFirst(a, b), d, [d], Reorg([b], [], Some(a.AsRef())))
  {
    hide Linked, Recomputed, PathTo, SwitchOf, SentSwitch, WellFormed, DbOk, AddLink;
    SiblingFacts(u, a, b, d, c);
    SiblingsThere(u, a, b, d, c);
    SiblingSwitch(u, a, b, d, c);
    var s := AfterFirst(a, b);
    PathOfOne(u, AddLink(s.db, d).stored, a.id, d);
    LibKept(s.db, d);
    RecomputedIs(AddLink(s.db, d), d.id, [d]);
  }

  lemma LibKept(db: Db, b: Block)
    ensures AddLink(db, b).lib == db.lib
  {
  }

  lemma EmptyPath(m: Store, root: Id)
    ensures Linked(m, root, [], root)
  {
  }

  lemma RecomputedIs(db: Db, head: Id, p: seq<Block>)
    requires PathTo(db.stored, db.lib.id, head) == Some(p)
    ensures Recomputed(db, head) == p
  {
  }

  lemma BackSwitch(u: Store, a: Block, b: Block, d: Block, c: Block)
    requires ThereAndBack(u, a, b, d, c)
    ensures SentSwitch(AfterSibling(a, b, d), c) == Reorg([d], [b], Some(a.AsRef()))
  {
    hide Linked, SwitchOf, WellFormed, DbOk, ThereAndBack, AddLink;
    SiblingFacts(u, a, b, d, c);
    var s := AfterSibling(a, b, d);
    PathOfOne(u, s.db.stored, a.id, b);
    PartAt(u, s.db.stored, a, d, [b], b.id);
    SelectOne(b, s.sent);
    NumsKnown(u, s.db, a);
    assert Reverse([d]) == [d];
  }

  lemma BackArrives(u: Store, a: Block, b: Block, d: Block, c: Block)
    requires ThereAndBack(u, a, b, d, c)
    ensures Arrives(u, AfterSibling(a, b, d), c, [b, c], Reorg([d], [b], Some(a.AsRef())))
  {
    hide Linked, Recomputed, PathTo, SwitchOf, SentSwitch, WellFormed, DbOk, AddLink;
    SiblingFacts(u, a, b, d, c);
    SiblingsThere(u, a, b, d, c);
    BackSwitch(u, a, b, d, c);
    var s := AfterSibling(a, b, d);
    PathOfTwo(u, AddLink(s.db, c).stored, a.id, b, c);
    LibKept(s.db, c);
    RecomputedIs(AddLink(s.db, c), c.id, [b, c]);
  }

  lemma StepSibling(u: Store, a: Block, b: Block, d: Block, c: Block)
    requires ThereAndBack(u, a, b, d, c)
    ensures DbOk(u, AfterFirst(a, b).db)
    ensures var (t, es) := Step(u, KEPT_ALL, AfterFirst(a, b), d);
      && t == AfterSibling(a, b, d)
      && es == [Event(Undo, b, a.AsRef(), d.AsRef(), Some(a.AsRef())), Event(New, d, a.AsRef(), d.AsRef(), None)]
  {
    hide Step, DbOk, WellFormed, Linked, Arrives, BlockInChain, Select, AddLink;
    var s, w := AfterFirst(a, b), Reorg([b], [], Some(a.AsRef()));
    SiblingFacts(u, a, b, d, c);
    SiblingsThere(u, a, b, d, c);
    SiblingArrives(u, a, b, d, c);
    NumsKnown(u, AddLink(s.db, d), a);
    AtParent(u, AddLink(s.db, d), d);
    StepArrives(u, s, d, [d], w, a.AsRef());
    SelectOne(d, s.sent);
    var lib, head := a.AsRef(), d.AsRef();
    assert Emit(Undo, [b], lib, head, w.junction) == [Event(Undo, b, lib, head, w.junction)];
    assert Emit(New, [], lib, head, None) == [] && Emit(New, [d], lib, head, None) == [Event(New, d, lib, head, None)];
  }

  lemma StepBack(u: Store, a: Block, b: Block, d: Block, c: Block)
    requires ThereAndBack(u, a, b, d, c)
    ensures DbOk(u, AfterSibling(a, b, d).db)
    ensures var t := Step(u, KEPT_ALL, AfterSibling(a, b, d), c).0;
      t.last == Some(c) && t.db.lib == b.AsRef() && t.db.stored == AddLink(AfterSibling(a, b, d).db, c).stored
  {
    hide BlockInChain, Step, DbOk, WellFormed, Linked, PathTo, Arrives, Purge, AddLink;
    var s := AfterSibling(a, b, d);
    var db := AddLink(s.db, c);
    SiblingFacts(u, a, b, d, c);
    SiblingsThere(u, a, b, d, c);
    BackArrives(u, a, b, d, c);
    KeysKnown(u, db);
    NumsKnown(u, db, b);
    AtParent(u, db, c);
    PathOfOne(u, db.stored, a.id, b);
    LibKept(s.db, c);
    RecomputedIs(db, b.id, [b]);
    IdIsNamed(u, b);
    StepArrives(u, s, c, [b, c], Reorg([d], [b], Some(a.AsRef())), b.AsRef());
    AllKept(db.(lib := b.AsRef()));
  }

  lemma NumsKnown(u: Store, db: Db, b: Block)
    requires DbOk(u, db) && GoodBlock(db.stored, b)
    ensures b.id in db.nums && db.nums[b.id] == b.num && Within(db.stored, u)
  {
  }

  lemma ListAfterReturn(u: Store, t: State, a: Block, b: Block, d: Block, c: Block)
    requires ThereAndBack(u, a, b, d, c) && DbOk(u, t.db) && t.last == Some(c) && t.db.lib == b.AsRef()
    requires t.db.stored == AddLink(AfterSibling(a, b, d).db, c).stored
    ensures FromCursor(u, t, Cursor(Undo, b.AsRef(), d.AsRef(), a.AsRef()))
         == Ok([Event(Irreversible, b, b.AsRef(), c.AsRef(), None), Event(New, c, b.AsRef(), c.AsRef(), None)])
  {
    hide DbOk, WellFormed, Linked, WalkBack, CompletePath, AddLink;
    SiblingFacts(u, a, b, d, c);
    SiblingsThere(u, a, b, d, c);
    var seg, cur := [a, b, c], Cursor(Undo, b.AsRef(), d.AsRef(), a.AsRef());
    NumsKnown(u, t.db, b);
    SegmentOfThree(u, t.db.stored, a, b, c);
    IdIsNamed(u, b);
    OnSegment(seg, t.db, c.id);
    var f := Forward(cur, t.db.lib, c.AsRef());
    CollectThree(seg, f);
    var e, e' := Event(Irreversible, b, b.AsRef(), c.AsRef(), None), Event(New, c, b.AsRef(), c.AsRef(), None);
    assert f(a) == [] && f(b) == [e] && f(c) == [e'];
    assert [] + [e] + [e'] == [e, e'];
    assert HeadRef(t) == c.AsRef() && InPath(cur.block.id, seg) && InPath(cur.lib.id, seg);
  }

  /**
   The consumer that went away when `b` had just been undone, and comes back when `b` is final, is told
   that `b` is irreversible without being sent it: it cannot obey the list.
   */
  lemma ReturnBreaksResuming(u: Store, a: Block, b: Block, d: Block, c: Block)
    requires ThereAndBack(u, a, b, d, c)
    ensures var s := StartState(a.AsRef(), false);
      && Inv(u, s, NewConsumer(a.id))
      && var (m, es) := Run(u, KEPT_ALL, s, [a, b, d]);
      && var t := Run(u, KEPT_ALL, s, [a, b, d, c]).0;
      && |es| == 3 && es[1].step == Undo && NewConsumer(a.id).ApplyAll(es[..2]).Some?
      && var list := FromCursor(u, t, es[1].Position());
      && list.Ok? && NewConsumer(a.id).ApplyAll(es[..2]).value.ApplyAll(list.value).None?
  {
    hide Step, FromCursor, Inv, WellFormed, Run, Consumer.ApplyAll, NewHead, DbOk, StartState;
    SiblingIds(u, a, b, d, c);
    RunThere(u, a, b, d, c);
    StepBack(u, a, b, d, c);
    RunOf(u, StartState(a.AsRef(), false), [a, b, d], c);
    assert [a, b, d] + [c] == [a, b, d, c];
    var t := Step(u, KEPT_ALL, AfterSibling(a, b, d), c).0;
    ListAfterReturn(u, t, a, b, d, c);
    var es := [Event(New, b, a.AsRef(), b.AsRef(), None)] + SwitchEvents(a, b, d);
    assert es[..2] == [es[0], es[1]];
    CannotFinalize(a, b, d, c);
  }

  /** What is sent when `d` takes the head from `b`. */
  function SwitchEvents(a: Block, b: Block, d: Block): seq<Event> {
    [Event(Undo, b, a.AsRef(), d.AsRef(), Some(a.AsRef())), Event(New, d, a.AsRef(), d.AsRef(), None)]
  }

  lemma RunThere(u: Store, a: Block, b: Block, d: Block, c: Block)
    requires ThereAndBack(u, a, b, d, c)
    ensures var s := StartState(a.AsRef(), false);
      && DbOk(u, s.db) && Inv(u, s, NewConsumer(a.id))
      && Run(u, KEPT_ALL, s, [a, b, d])
         == (AfterSibling(a, b, d), [Event(New, b, a.AsRef(), b.AsRef(), None)] + SwitchEvents(a, b, d))
  {
    hide Step, Linked, AddLink, Run, NewHead, DbOk, WellFormed;
    var s := StartState(a.AsRef(), false);
    StepLib(u, a);
    FirstHead(u, a, b);
    StepSibling(u, a, b, d, c);
    RunOfTwo(u, s, a, b);
    RunOf(u, s, [a, b], d);
    var e := [Event(New, b, a.AsRef(), b.AsRef(), None)];
    assert [a, b] + [d] == [a, b, d] && [] + e == e;
  }

  lemma CannotFinalize(a: Block, b: Block, d: Block, c: Block)
    requires b.parent == a.id && a.num < b.num
    ensures var k := NewConsumer(a.id).ApplyAll(
        [Event(New, b, a.AsRef(), b.AsRef(), None), Event(Undo, b, a.AsRef(), d.AsRef(), Some(a.AsRef()))]);
      k.Some? && k.value.ApplyAll(
        [Event(Irreversible, b, b.AsRef(), c.AsRef(), None), Event(New, c, b.AsRef(), c.AsRef(), None)]).None?
  {
    var k := NewConsumer(a.id);
    var e, e' := Event(New, b, a.AsRef(), b.AsRef(), None), Event(Undo, b, a.AsRef(), d.AsRef(), Some(a.AsRef()));
    var f, f' := Event(Irreversible, b, b.AsRef(), c.AsRef(), None), Event(New, c, b.AsRef(), c.AsRef(), None);
    assert [e, e'] == [e] + [e'] && [f, f'] == [f] + [f'];
    hide Consumer.ApplyAll;
    ApplySingle(k, e);
    ApplyConcat(k, [e], [e']);
    ApplySingle(k.Apply(e).value, e');
    var k' := k.Apply(e).value.Apply(e').value;
    ApplySingle(k', f);
    ApplyConcat(k', [f], [f']);
  }

  /** Such blocks. */
  lemma ReturnExample()
    ensures var a, b, d, c := Block("a", 1, "0", 0), Block("b", 2, "a", 1), Block("d", 3, "a", 1), Block("c", 4, "b", 2);
      ThereAndBack(map["a" := a, "b" := b, "d" := d, "c" := c], a, b, d, c)
  {
  }
}
