/** What a consumer that reconnects is sent, as functions on values. */
module ResumeModel {
  import opened Chain
  import opened Consumers
  import opened ForkDbModel
  import opened ForkableModel

  datatype Result<+T> = Ok(value: T) | Err(message: string)

  function HeadRef(s: State): Ref {
    if s.last.Some? then s.last.value.AsRef() else EMPTY_REF
  }

  /** Whether the walk down from `head` that found `seg` met the LIB. */
  predicate ReachesLib(db: Db, seg: seq<Block>, head: Id) {
    InPath(db.lib.id, seg) || RootOf(seg, head) == db.lib.id
  }

  /** The events a loop over `seg` collects when block `b` contributes `f(b)`. */
  function Collect(seg: seq<Block>, f: Block -> seq<Event>): seq<Event> {
    if seg == [] then [] else Collect(seg[..|seg| - 1], f) + f(seg[|seg| - 1])
  }

  // blocksFromNum

  function SkipTo(seg: seq<Block>, num: nat): seq<Block> {
    if seg == [] || seg[0].num == num then seg else SkipTo(seg[1..], num)
  }

  function CanonicalEvent(b: Block, lib: Ref, head: Ref): seq<Event> {
    [Event(if b.num <= lib.num then NewIrreversible else New, b, if lib.num > b.num then b.AsRef() else lib, head, None)]
  }

  function Canonical(lib: Ref, head: Ref): Block -> seq<Event> {
    b => CanonicalEvent(b, lib, head)
  }

  ghost function FromNum(u: Store, s: State, num: nat): Result<seq<Event>>
    requires DbOk(u, s.db)
  {
    if !s.db.HasLib() then Err("no lib")
    else if s.last.None? then Err("no head")
    else
      var head := HeadRef(s);
      var seg := CompletePath(u, s.db.stored, head.id);
      if !ReachesLib(s.db, seg, head.id) then Err("head segment does not reach LIB")
      else
        var out := Collect(SkipTo(seg, num), Canonical(s.db.lib, head));
        if out == [] then Err("no block found in complete segment") else Ok(out)
  }

  // blocksFromCursor

  function ForwardEvent(b: Block, cur: Cursor, lib: Ref, head: Ref): seq<Event> {
    if b.num <= cur.lib.num then []
    else if b.num <= lib.num then
      [Event(if b.num > cur.block.num then NewIrreversible else Irreversible, b, b.AsRef(), head, None)]
    else if b.num > cur.block.num || (cur.step == Undo && b.num == cur.block.num) then
      [Event(New, b, lib, head, None)]
    else []
  }

  function Forward(cur: Cursor, lib: Ref, head: Ref): Block -> seq<Event> {
    b => ForwardEvent(b, cur, lib, head)
  }

  datatype Walked = Walked(undos: seq<Block>, junction: Id)

  /** From a forked block down to the first block of `seg`; the cursor's own block may be undone already. */
  ghost function WalkBack(u: Store, db: Db, seg: seq<Block>, cur: Cursor, id: Id): (r: Result<Walked>)
    requires DbOk(u, db)
    ensures r.Ok? ==> id in db.stored && InPath(r.value.junction, seg)
    ensures r.Ok? && r.value.junction in u ==> u[r.value.junction].num < u[id].num
    decreases if id in db.stored then db.stored[id].num + 1 else 0
  {
    if id !in db.stored then Err("cannot find block with ID")
    else
      var b := db.stored[id];
      var mine := if id == cur.block.id && cur.step == Undo then [] else [b];
      if InPath(b.parent, seg) then Ok(Walked(mine, b.parent))
      else
        match WalkBack(u, db, seg, cur, b.parent)
        case Err(e) => Err(e)
        case Ok(w) => Ok(Walked(mine + w.undos, w.junction))
  }

  ghost function FromCursor(u: Store, s: State, cur: Cursor): Result<seq<Event>>
    requires DbOk(u, s.db)
    decreases if cur.block.id in s.db.stored then s.db.stored[cur.block.id].num + 1 else 0
  {
    if !s.db.HasLib() then Err("no lib")
    else
      var head := HeadRef(s);
      var seg := CompletePath(u, s.db.stored, head.id);
      if !ReachesLib(s.db, seg, head.id) then Err("head segment does not reach LIB")
      else if seg == [] then Err("no complete segment")
      else if cur.lib.num < seg[0].num then Err("complete segment does not include cursor LIB")
      else if InPath(cur.block.id, seg) && InPath(cur.lib.id, seg) then
        Ok(Collect(seg, Forward(cur, s.db.lib, head)))
      else
        match WalkBack(u, s.db, seg, cur, cur.block.id)
        case Err(e) => Err(e)
        case Ok(w) =>
          SegmentStored(s.db.stored, seg, head.id);
          var junction := Ref(w.junction, NumOf(s.db, w.junction));
          match FromCursor(u, s, Cursor(New, junction, head, cur.lib))
          case Err(e) => Err(e)
          case Ok(es) => Ok(Emit(Undo, w.undos, cur.lib, head, Some(junction)) + es)
  }

  lemma SegmentStored(m: Store, seg: seq<Block>, head: Id)
    requires Complete(m, seg, head)
    ensures forall x <- seg :: GoodBlock(m, x)
    ensures forall id | InPath(id, seg) :: id in m
  {
    LinkedElements(m, RootOf(seg, head), seg, head);
  }

  // blocksThroughCursor

  function ThroughEvent(b: Block, start: nat, lib: Ref, head: Ref): seq<Event> {
    if b.num < start then [] else [Event(if b.num <= lib.num then NewIrreversible else New, b, lib, head, None)]
  }

  /** Along the cursor's branch; the cursor's block itself is left out when it was undone. */
  function BranchEvent(b: Block, start: nat, cur: Cursor, head: Ref): seq<Event> {
    if b.num < cur.block.num || (b.num == cur.block.num && cur.step != Undo)
    then ThroughEvent(b, start, cur.lib, head) else []
  }

  function Through(start: nat, lib: Ref, head: Ref): Block -> seq<Event> {
    b => ThroughEvent(b, start, lib, head)
  }

  function AlongBranch(start: nat, cur: Cursor, head: Ref): Block -> seq<Event> {
    b => BranchEvent(b, start, cur, head)
  }

  ghost function ThroughCursor(u: Store, s: State, start: nat, cur: Cursor): Result<seq<Event>>
    requires DbOk(u, s.db) && (cur.block.id in u ==> cur.block.num == u[cur.block.id].num)
  {
    if !s.db.HasLib() then Err("no lib")
    else
      var head := HeadRef(s);
      var seg := CompletePath(u, s.db.stored, head.id);
      if !ReachesLib(s.db, seg, head.id) then Err("head segment does not reach LIB")
      else if seg == [] then Err("no complete segment")
      else if seg[0].num > start then Err("startBlock not contained in segment")
      else if InPath(cur.block.id, seg) then Ok(Collect(seg, Through(start, s.db.lib, head)))
      else
        var branch := CompletePath(u, s.db.stored, cur.block.id);
        if !ReachesLib(s.db, branch, cur.block.id) then Err("head segment does not reach LIB")
        else if branch == [] then Err("no complete segment")
        else if start < branch[0].num then Err("complete segment does not include startBlock")
        else if cur.block.num < start then Err("error in blocksThroughCursor, cannot match requested block")
        else
          match FromCursor(u, s, cur)
          case Err(e) => Err(e)
          case Ok(back) => Ok(Collect(branch, AlongBranch(start, cur, head)) + back)
  }
}
