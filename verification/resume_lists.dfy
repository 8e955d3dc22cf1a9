/** Exactly when a cursor gets a list, whatever the state and the cursor, and what its events tell. */
module ResumeLists {
  import opened Chain
  import opened Consumers
  import opened ForkDbModel
  import opened ForkableModel
  import opened ForkableInvariant
  import opened ResumeModel
  import opened Resume

  /** Stored blocks lead down from `id` to a block of `seg` below it. */
  ghost predicate Meets(db: Db, seg: seq<Block>, id: Id) {
    exists j, p :: InPath(j, seg) && p != [] && Linked(db.stored, j, p, id)
  }

  lemma MeetsAt(db: Db, seg: seq<Block>, id: Id, j: Id, p: seq<Block>)
    requires InPath(j, seg) && p != [] && Linked(db.stored, j, p, id)
    ensures Meets(db, seg, id)
  {
  }

  lemma MeetsBelow(u: Store, db: Db, seg: seq<Block>, b: Block)
    requires DbOk(u, db) && GoodBlock(db.stored, b) && forall id | InPath(id, seg) :: id in db.stored
    ensures Meets(db, seg, b.id) <==> InPath(b.parent, seg) || Meets(db, seg, b.parent)
  {
    if InPath(b.parent, seg) {
      assert [b][..0] == [] && Linked(db.stored, b.parent, [], b.parent);
      assert u[b.id].parent != b.id;
      MeetsAt(db, seg, b.id, b.parent, [b]);
    } else if Meets(db, seg, b.parent) {
      var j, p :| InPath(j, seg) && p != [] && Linked(db.stored, j, p, b.parent);
      StepUp(u, db, j, p, b);
      MeetsAt(db, seg, b.id, j, p + [b]);
    }
    if Meets(db, seg, b.id) {
      var j, p :| InPath(j, seg) && p != [] && Linked(db.stored, j, p, b.id);
      var q := p[..|p| - 1];
      assert p[|p| - 1] == b && Linked(db.stored, j, q, b.parent);
      if q != [] {
        MeetsAt(db, seg, b.parent, j, q);
      }
    }
  }

  lemma MeetsStored(db: Db, seg: seq<Block>, id: Id)
    requires Meets(db, seg, id)
    ensures id in db.stored
  {
  }

  lemma {:induction false} WalkExists(u: Store, db: Db, seg: seq<Block>, cur: Cursor, id: Id)
    requires DbOk(u, db) && forall x | InPath(x, seg) :: x in db.stored
    ensures WalkBack(u, db, seg, cur, id).Ok? <==> Meets(db, seg, id)
    decreases if id in db.stored then db.stored[id].num + 1 else 0
  {
    hide Meets, InPath;
    if id in db.stored {
      var b := db.stored[id];
      MeetsBelow(u, db, seg, b);
      if !InPath(b.parent, seg) {
        WalkExists(u, db, seg, cur, b.parent);
      }
    } else if Meets(db, seg, id) {
      MeetsStored(db, seg, id);
    }
  }

  /** The walk down from `head` meets the LIB, stored or not, exactly when stored blocks lead from the LIB to it. */
  lemma ReachesLibMeans(u: Store, db: Db, head: Id)
    requires DbOk(u, db)
    ensures ReachesLib(db, CompletePath(u, db.stored, head), head) <==> Descends(db, db.lib.id, head)
  {
    hide Linked;
    var seg := CompletePath(u, db.stored, head);
    if Descends(db, db.lib.id, head) {
      var p :| Linked(db.stored, db.lib.id, p, head);
      MetByWalk(db, db.lib.id, p, seg, head);
    }
    if InPath(db.lib.id, seg) {
      LeadsUp(u, db, seg, head);
    }
  }

  lemma MetByWalk(db: Db, x: Id, p: seq<Block>, seg: seq<Block>, head: Id)
    requires Linked(db.stored, x, p, head) && Complete(db.stored, seg, head)
    ensures InPath(x, seg) || RootOf(seg, head) == x
  {
    LinkedIsWalk(db.stored, x, p, head);
    WalkOnComplete(db.stored, x, p, seg, head);
    hide Linked, Walk;
    var j := |seg| - |p|;
    assert j > 0 ==> seg[j - 1].id == x;
  }

  lemma LeadsUp(u: Store, db: Db, seg: seq<Block>, head: Id)
    requires DbOk(u, db) && Complete(db.stored, seg, head) && InPath(db.lib.id, seg)
    ensures Descends(db, db.lib.id, head)
  {
    hide Linked;
    var i :| 0 <= i < |seg| && seg[i].id == db.lib.id;
    LinkedSuffix(u, db.stored, RootOf(seg, head), seg, i + 1, head);
  }

  /** The head's stored segment meets the LIB, reaches down to the cursor's LIB number and has the cursor's LIB. */
  ghost predicate Covers(u: Store, s: State, cur: Cursor)
    requires DbOk(u, s.db)
  {
    var seg := CompletePath(u, s.db.stored, HeadRef(s).id);
    && s.db.HasLib() && Descends(s.db, s.db.lib.id, HeadRef(s).id) && seg != []
    && seg[0].num <= cur.lib.num && InPath(cur.lib.id, seg)
  }

  /** The cursor's block is on the segment, or stored blocks lead from it down to the segment. */
  ghost predicate Returns(u: Store, s: State, cur: Cursor)
    requires DbOk(u, s.db)
  {
    var seg := CompletePath(u, s.db.stored, HeadRef(s).id);
    InPath(cur.block.id, seg) || Meets(s.db, seg, cur.block.id)
  }

  /** In any state, for any cursor: whether there is a list. */
  lemma {:induction false} CursorListExists(u: Store, s: State, cur: Cursor)
    requires DbOk(u, s.db)
    ensures FromCursor(u, s, cur).Ok? <==> Covers(u, s, cur) && Returns(u, s, cur)
    decreases if cur.block.id in s.db.stored then s.db.stored[cur.block.id].num + 1 else 0
  {
    hide Meets, InPath, Collect, WalkBack, ReachesLib, Linked, Descends;
    var head := HeadRef(s);
    ReachesLibMeans(u, s.db, head.id);
    var seg := CompletePath(u, s.db.stored, head.id);
    SegmentStored(s.db.stored, seg, head.id);
    if s.db.HasLib() && ReachesLib(s.db, seg, head.id) && seg != [] && seg[0].num <= cur.lib.num
       && !(InPath(cur.block.id, seg) && InPath(cur.lib.id, seg)) {
      WalkExists(u, s.db, seg, cur, cur.block.id);
      match WalkBack(u, s.db, seg, cur, cur.block.id)
      case Err(_) =>
      case Ok(w) =>
        assert InPath(w.junction, seg);
        CursorListExists(u, s, Cursor(New, Ref(w.junction, NumOf(s.db, w.junction)), head, cur.lib));
    }
  }

  // What the events of a list tell

  /**
   Every event names the Forkable's head. New events name the LIB, final ones themselves, and undos the cursor's
   LIB and the junction.
   */
  ghost predicate ListTells(e: Event, lib: Ref, cursorLib: Ref, head: Ref, junction: Option<Ref>) {
    && e.head == head
    && match e.step
       case New => e.lib == lib && e.junction == None
       case Undo => e.lib == cursorLib && e.junction == junction
       case Irreversible => e.lib == e.block.AsRef() && e.junction == None
       case NewIrreversible => e.lib == e.block.AsRef() && e.junction == None
       case Stalled => false
  }

  /** The first `n` events are the undos, and they report where they stop. */
  ghost predicate CursorTells(s: State, cur: Cursor, es: seq<Event>, n: nat, junction: Option<Ref>) {
    && n <= |es|
    && (forall e <- es :: ListTells(e, s.db.lib, cur.lib, HeadRef(s), junction))
    && (forall e <- es[..n] :: e.step == Undo) && (forall e <- es[n..] :: e.step != Undo)
    && (n > 0 ==> es[n - 1].block.parent in s.db.stored && junction == Some(s.db.stored[es[n - 1].block.parent].AsRef()))
  }

  lemma {:induction false} ForwardTells(seg: seq<Block>, cur: Cursor, lib: Ref, head: Ref)
    ensures forall e <- Collect(seg, Forward(cur, lib, head)) :: e.step != Undo
    ensures forall e <- Collect(seg, Forward(cur, lib, head)), j :: ListTells(e, lib, cur.lib, head, j)
    decreases |seg|
  {
    if seg != [] {
      ForwardTells(seg[..|seg| - 1], cur, lib, head);
    }
  }

  lemma {:induction false} LastUndone(u: Store, db: Db, seg: seq<Block>, cur: Cursor, id: Id)
    requires DbOk(u, db) && WalkBack(u, db, seg, cur, id).Ok?
    requires id != cur.block.id ==> cur.block.id in u && u[id].num < u[cur.block.id].num
    ensures var w := WalkBack(u, db, seg, cur, id).value;
      && (w.undos != [] ==> w.undos[|w.undos| - 1].parent == w.junction)
      && (id != cur.block.id ==> w.undos != [])
    decreases if id in db.stored then db.stored[id].num + 1 else 0
  {
    hide InPath;
    var b := db.stored[id];
    if !InPath(b.parent, seg) {
      assert b.parent in db.stored;
      LastUndone(u, db, seg, cur, b.parent);
    }
  }

  /** The list for a cursor: undos first, down to the junction they report, and then only forward. */
  lemma ListForCursor(u: Store, s: State, cur: Cursor) returns (n: nat, junction: Option<Ref>)
    requires DbOk(u, s.db) && FromCursor(u, s, cur).Ok?
    ensures CursorTells(s, cur, FromCursor(u, s, cur).value, n, junction)
  {
    hide Linked, WalkBack, Collect, InPath, Meets, ListTells, Forward, Complete;
    CursorListExists(u, s, cur);
    var head := HeadRef(s);
    var seg := CompletePath(u, s.db.stored, head.id);
    SegmentStored(s.db.stored, seg, head.id);
    ForwardTells(seg, cur, s.db.lib, head);
    if InPath(cur.block.id, seg) {
      n, junction := 0, None;
      assert FromCursor(u, s, cur).value == Collect(seg, Forward(cur, s.db.lib, head));
    } else {
      var w := WalkBack(u, s.db, seg, cur, cur.block.id).value;
      LastUndone(u, s.db, seg, cur, cur.block.id);
      var j := Ref(w.junction, NumOf(s.db, w.junction));
      var next := Cursor(New, j, head, cur.lib);
      ForwardTells(seg, next, s.db.lib, head);
      n, junction := |w.undos|, Some(j);
      assert FromCursor(u, s, next).value == Collect(seg, Forward(next, s.db.lib, head));
      UndosThenForward(s, cur, w.undos, j, Collect(seg, Forward(next, s.db.lib, head)));
    }
  }

  lemma UndosThenForward(s: State, cur: Cursor, undos: seq<Block>, j: Ref, es: seq<Event>)
    requires (forall e <- es :: e.step != Undo) && forall e <- es :: ListTells(e, s.db.lib, cur.lib, HeadRef(s), Some(j))
    requires undos != [] ==> undos[|undos| - 1].parent == j.id && j.id in s.db.stored && s.db.stored[j.id].AsRef() == j
    ensures CursorTells(s, cur, Emit(Undo, undos, cur.lib, HeadRef(s), Some(j)) + es, |undos|, Some(j))
  {
    var es' := Emit(Undo, undos, cur.lib, HeadRef(s), Some(j)) + es;
    assert es'[|undos|..] == es;
  }
}
