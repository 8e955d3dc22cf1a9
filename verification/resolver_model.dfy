/** How a cursor is resolved from final files and stored forked blocks, as functions on values. */
module ResolverModel {
  import opened Chain
  import opened Consumers
  import opened ForkDbModel
  import opened ResumeModel

  const ID_LENGTH := 16

  /** File names carry only the end of an id. */
  function Truncate(id: Id): Id {
    if |id| <= ID_LENGTH then id else id[|id| - ID_LENGTH..]
  }

  predicate HasSuffix(s: Id, suffix: Id) {
    |suffix| <= |s| && s[|s| - |suffix|..] == suffix
  }

  /** The truncated ids are enough to tell all blocks, and their parents, apart. */
  ghost predicate SuffixesTell(u: Store) {
    && (forall x, y | x in u && y in u :: HasSuffix(x, Truncate(y)) ==> x == y)
    && (forall x, y | x in u && y in u :: HasSuffix(x, Truncate(u[y].parent)) ==> x == u[y].parent)
  }

  /** The store of forked blocks holds blocks that exist, under their truncated ids. */
  ghost predicate FilesOk(u: Store, files: Store) {
    WellFormed(u) && SuffixesTell(u) && forall key <- files :: GoodBlock(u, files[key]) && key == Truncate(files[key].id)
  }

  /** The event handed over for a block read from the files. */
  function FileEvent(step: StepType, b: Block): Event { Event(step, b, b.AsRef(), b.AsRef(), None) }

  function FileEvents(step: StepType, bs: seq<Block>): (es: seq<Event>)
    ensures |es| == |bs| && forall i | 0 <= i < |es| :: es[i] == FileEvent(step, bs[i])
  {
    seq(|bs|, i requires 0 <= i < |bs| => FileEvent(step, bs[i]))
  }

  /** The blocks seen that are numbered above `low` and not above `high`. */
  function Between(seen: seq<Block>, low: nat, high: nat): seq<Block> {
    if seen == [] then []
    else
      var b := seen[|seen| - 1];
      Between(seen[..|seen| - 1], low, high) + if low < b.num <= high then [b] else []
  }

  function SeenWith(seen: seq<Block>, suffix: Id): Option<Block> {
    if seen == [] then None
    else if HasSuffix(seen[0].id, suffix) then Some(seen[0])
    else SeenWith(seen[1..], suffix)
  }

  datatype Found = Found(undos: seq<Block>, junction: Block)

  /** Only files numbered from the cursor's LIB on are listed. */
  predicate IsListed(files: Store, lib: Ref, key: Id) { key in files && lib.num <= files[key].num }

  /** From the cursor's block down through the forked blocks to the first one seen. */
  ghost function Resolve(u: Store, files: Store, seen: seq<Block>, cur: Cursor, key: Id): Result<Found>
    requires FilesOk(u, files)
    decreases if key in files then files[key].num + 1 else 0
  {
    match SeenWith(seen, key)
    case Some(b) => Ok(Found([], b))
    case None =>
      if !IsListed(files, cur.lib, key) then Err("missing link")
      else
        var b := files[key];
        ParentFileIsLower(u, files, b);
        match Resolve(u, files, seen, cur, Truncate(b.parent))
        case Err(e) => Err(e)
        case Ok(f) => Ok(Found((if b.num == cur.block.num && cur.step == Undo then [] else [b]) + f.undos, f.junction))
  }

  lemma ParentFileIsLower(u: Store, files: Store, b: Block)
    requires FilesOk(u, files) && GoodBlock(u, b)
    ensures var key := Truncate(b.parent); key in files ==> files[key].id == b.parent && files[key].num < b.num
  {
    var key := Truncate(b.parent);
    if key in files {
      TruncateIsSuffix(files[key].id);
      assert HasSuffix(files[key].id, key);
    }
  }

  lemma TruncateIsSuffix(id: Id)
    ensures HasSuffix(id, Truncate(id))
  {
  }

  datatype Progress = Progress(seen: seq<Block>, resolved: bool)

  const START := Progress([], false)

  datatype Outcome = Outcome(now: Progress, events: seq<Event>, error: Option<string>)

  /** What the resolver makes of one more final block from the files. */
  ghost function ResolverStep(u: Store, files: Store, cur: Cursor, passThrough: bool, s: Progress, b: Block): Outcome
    requires FilesOk(u, files)
  {
    var seen := s.seen + [b];
    if s.resolved then Outcome(s, [FileEvent(NewIrreversible, b)], None)
    else if passThrough && b.num <= cur.lib.num then
      Outcome(s.(resolved := cur.lib.num == cur.block.num && cur.block.id == b.id), [FileEvent(NewIrreversible, b)], None)
    else if b.num < cur.block.num then Outcome(Progress(seen, false), [], None)
    else if b.id == cur.block.id then
      Outcome(Progress(seen, true),
              if passThrough then FileEvents(NewIrreversible, Between(seen, cur.lib.num, cur.block.num))
              else if cur.step == Undo then
                (if cur.block.num > 0 then FileEvents(Irreversible, Between(seen, cur.lib.num, cur.block.num - 1)) else [])
                + [FileEvent(NewIrreversible, b)]
              else FileEvents(Irreversible, Between(seen, cur.lib.num, cur.block.num)),
              None)
    else if passThrough then Outcome(Progress(seen, false), [], Some("cannot resolve old cursor in passthrough mode"))
    else
      match Resolve(u, files, seen, cur, Truncate(cur.block.id))
      case Err(e) => Outcome(Progress(seen, false), [], Some(e))
      case Ok(f) => Outcome(Progress(seen, true), Reconciled(seen, cur, f, b), None)
  }

  /** The forked blocks undone, then the seen ones final up to the junction, then the rest new and final. */
  function Reconciled(seen: seq<Block>, cur: Cursor, f: Found, b: Block): seq<Event> {
    Emit(Undo, f.undos, cur.lib, cur.head, Some(f.junction.AsRef()))
    + FileEvents(Irreversible, Between(seen, cur.lib.num, f.junction.num))
    + FileEvents(NewIrreversible, Between(seen, f.junction.num, b.num))
  }

  /** Blocks fed one after the other, until the first error. */
  ghost function ResolverRun(u: Store, files: Store, cur: Cursor, passThrough: bool, bs: seq<Block>): Outcome
    requires FilesOk(u, files)
  {
    if bs == [] then Outcome(START, [], None)
    else
      var o := ResolverRun(u, files, cur, passThrough, bs[..|bs| - 1]);
      if o.error.Some? then o
      else
        var p := ResolverStep(u, files, cur, passThrough, o.now, bs[|bs| - 1]);
        p.(events := o.events + p.events)
  }
}
