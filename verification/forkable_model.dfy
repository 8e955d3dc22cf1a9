/** One step of the fork-aware stream, as a function on values, and what it keeps. */
module ForkableModel {
  import opened Chain
  import opened Consumers
  import opened ForkDbModel

  /** The first streamable block number, how many blocks to keep below the LIB, and whether the initial LIB is sent. */
  datatype Config = Config(first: nat, kept: nat, inclusive: bool)

  /** `sent` are the stored blocks flagged as sent as new; `chain` is the longest chain last computed. */
  datatype State = State(db: Db, last: Option<Block>, libSeen: Ref, chain: seq<Block>, sent: set<Id>) {
    function KnownLib(): Ref { if libSeen == EMPTY_REF then db.lib else libSeen }

    function HeadId(): Id { if last.Some? then last.value.id else db.lib.id }

    predicate Triggers(b: Block) { last.None? || b.num > last.value.num }
  }

  function Select(p: seq<Block>, sent: set<Id>, wanted: bool): seq<Block> {
    if p == [] then []
    else
      var b := p[|p| - 1];
      Select(p[..|p| - 1], sent, wanted) + if (b.id in sent) == wanted then [b] else []
  }

  function Ids(p: seq<Block>): set<Id> { set b <- p :: b.id }

  predicate CanAppend(s: State, b: Block) {
    s.chain != [] && b.parent == s.chain[|s.chain| - 1].id && s.db.lib.id == s.chain[0].parent
  }

  ghost function NewChain(s: State, b: Block): seq<Block> {
    if CanAppend(s, b) then s.chain + [b] else Recomputed(s.db, b.id)
  }

  datatype Reorg = Reorg(undos: seq<Block>, redos: seq<Block>, junction: Option<Ref>)

  const NO_REORG := Reorg([], [], None)

  ghost function SentSwitch(s: State, b: Block): Reorg {
    if s.last.None? || s.last.value.id == b.parent then NO_REORG
    else
      match SwitchOf(s.db.stored, s.last.value.id, b.parent)
      case None => NO_REORG
      case Some(w) =>
        Reorg(Reverse(w.undo), Select(w.redo, s.sent, true),
              if w.undo != [] && w.junction in s.db.stored then Some(Ref(w.junction, NumOf(s.db, w.junction))) else None)
  }

  /** The LIB was just discovered from `b`, and `first` is its block. */
  ghost predicate IsFirst(u: Store, db: Db, b: Block, first: Block)
    requires DbOk(u, db)
  {
    db.lib == BlockInChain(u, db, b.AsRef(), b.libNum) && db.lib.id in db.stored && first == db.stored[db.lib.id]
  }

  ghost function AdvanceLib(u: Store, cfg: Config, s: State, b: Block, first: Option<Block>): (r: (State, seq<Event>))
    requires DbOk(u, s.db) && s.db.HasLib() && GoodBlock(u, b)
    requires first.Some? ==> IsFirst(u, s.db, b, first.value)
    ensures DbOk(u, r.0.db)
  {
    BlockInChainMeaning(u, s.db, b, b.libNum);
    var lib := BlockInChain(u, s.db, b.AsRef(), b.libNum);
    if lib.id == "" then (s, [])
    else
      var seg := if lib.id == s.db.lib.id then [] else Recomputed(s.db, lib.id);
      if seg == [] && first.None? then (s, [])
      else
        assert seg != [] ==> lib.id in s.db.stored;
        var stalled := if seg == [] then [] else StalledListed(s.db.stored, seg, lib.num);
        var final := seg + if first.Some? then [first.value] else [];
        MoveAndPurgeOk(u, s.db, lib, cfg.kept);
        var db := Purge(s.db.(lib := lib), cfg.kept);
        var libSeen := if first.Some? then first.value.AsRef() else lib;
        (s.(db := db, libSeen := libSeen, sent := s.sent * db.stored.Keys),
         EmitFinal(Irreversible, final, b.AsRef()) + Emit(Stalled, stalled, libSeen, b.AsRef(), None))
  }

  lemma AdvanceLibCases(u: Store, cfg: Config, s: State, b: Block, first: Option<Block>, lib: Ref)
    requires DbOk(u, s.db) && s.db.HasLib() && GoodBlock(u, b) && lib == BlockInChain(u, s.db, b.AsRef(), b.libNum)
    requires first.Some? ==> IsFirst(u, s.db, b, first.value)
    ensures var r := AdvanceLib(u, cfg, s, b, first);
      var seg := if lib.id == s.db.lib.id then [] else Recomputed(s.db, lib.id);
      var stalled := if seg == [] then [] else StalledListed(s.db.stored, seg, lib.num);
      var libSeen := if first.Some? then first.value.AsRef() else lib;
      var db := Purge(s.db.(lib := lib), cfg.kept);
      r == if lib.id == "" || (seg == [] && first.None?) then (s, [])
           else (s.(db := db, libSeen := libSeen, sent := s.sent * db.stored.Keys),
                 EmitFinal(Irreversible, seg + if first.Some? then [first.value] else [], b.AsRef())
                 + Emit(Stalled, stalled, libSeen, b.AsRef(), None))
  {
  }

  /** `s` is the state before the block was stored, `s1` the one after. */
  ghost function Extend(u: Store, cfg: Config, s: State, s1: State, b: Block, first: Option<Block>): (r: (State, seq<Event>))
    requires DbOk(u, s1.db) && s1.db.HasLib() && GoodBlock(u, b)
    requires first.Some? ==> IsFirst(u, s1.db, b, first.value)
    ensures DbOk(u, r.0.db)
  {
    var s2 := s1.(chain := NewChain(s1, b));
    if !s.Triggers(b) || s2.chain == [] then (s2, [])
    else
      var reorg, lib, head := SentSwitch(s, b), s1.KnownLib(), b.AsRef();
      var moved := Emit(Undo, reorg.undos, lib, head, reorg.junction)
                   + Emit(New, reorg.redos, lib, head, None)
                   + Emit(New, Select(s2.chain, s2.sent, false), lib, head, None);
      var (s3, final) := AdvanceLib(u, cfg, s2.(last := Some(b), sent := s2.sent + Ids(s2.chain)), b, first);
      (s3, moved + final)
  }

  lemma ExtendCases(u: Store, cfg: Config, s: State, s1: State, b: Block, first: Option<Block>)
    requires DbOk(u, s1.db) && s1.db.HasLib() && GoodBlock(u, b)
    requires first.Some? ==> IsFirst(u, s1.db, b, first.value)
    ensures var s2, reorg, lib, head := s1.(chain := NewChain(s1, b)), SentSwitch(s, b), s1.KnownLib(), b.AsRef();
      var final := AdvanceLib(u, cfg, s2.(last := Some(b), sent := s2.sent + Ids(s2.chain)), b, first);
      Extend(u, cfg, s, s1, b, first) ==
        if !s.Triggers(b) || s2.chain == [] then (s2, [])
        else (final.0, Emit(Undo, reorg.undos, lib, head, reorg.junction) + Emit(New, reorg.redos, lib, head, None)
                       + Emit(New, Select(s2.chain, s2.sent, false), lib, head, None) + final.1)
  {
  }

  function SendInitial(s: State, b: Block): (State, seq<Event>) {
    (s.(last := Some(b), libSeen := b.AsRef()),
     Emit(New, [b], s.KnownLib(), b.AsRef(), None) + EmitFinal(Irreversible, [b], b.AsRef()))
  }

  /** Looks for a first LIB now that `b` is stored; blocks are held back until there is one. */
  ghost function Discover(u: Store, cfg: Config, s: State, s1: State, b: Block): (r: (State, seq<Event>))
    requires DbOk(u, s1.db) && !s1.db.HasLib() && b.id in s1.db.stored && s1.db.stored[b.id] == b
    ensures DbOk(u, r.0.db)
  {
    BlockInChainMeaning(u, s1.db, b, b.libNum);
    var lib := if b.num == cfg.first then b.AsRef() else BlockInChain(u, s1.db, b.AsRef(), b.libNum);
    if lib == EMPTY_REF then (s1, [])
    else
      assert lib.id in s1.db.stored by { StoredAncestor(u, s1.db, b, lib); }
      var s2 := s1.(db := s1.db.(lib := lib));
      if lib.num == b.num then SendInitial(s2, b)
      else
        BlockBelowIgnoresLib(u, s1.db, s2.db, b.id, b.libNum);
        Extend(u, cfg, s, s2, b, Some(s2.db.stored[lib.id]))
  }

  lemma StoredAncestor(u: Store, db: Db, b: Block, lib: Ref)
    requires DbOk(u, db) && !db.HasLib() && b.id in db.stored && db.stored[b.id] == b
    requires lib == b.AsRef() || lib == BlockInChain(u, db, b.AsRef(), b.libNum)
    requires lib != EMPTY_REF
    ensures lib.id in db.stored && RefOk(u, lib)
  {
    BlockInChainMeaning(u, db, b, b.libNum);
  }

  /** `first` is the block of a LIB just discovered from `b`, and the outcome `r` is up to `Extend`. */
  ghost predicate LeftToExtend(u: Store, cfg: Config, s: State, s1: State, b: Block, first: Block, r: (State, seq<Event>)) {
    DbOk(u, s1.db) && s1.db.HasLib() && GoodBlock(u, b) && IsFirst(u, s1.db, b, first) && r == Extend(u, cfg, s, s1, b, Some(first))
  }

  lemma LeftToExtendIs(u: Store, cfg: Config, s: State, s1: State, b: Block, first: Block, r: (State, seq<Event>))
    requires LeftToExtend(u, cfg, s, s1, b, first, r)
    ensures DbOk(u, s1.db) && s1.db.HasLib() && GoodBlock(u, b) && IsFirst(u, s1.db, b, first)
    ensures r == Extend(u, cfg, s, s1, b, Some(first))
  {
  }

  lemma DiscoverCases(u: Store, cfg: Config, s: State, s1: State, b: Block, lib: Ref)
    requires DbOk(u, s1.db) && !s1.db.HasLib() && b.id in s1.db.stored && s1.db.stored[b.id] == b
    requires lib == if b.num == cfg.first then b.AsRef() else BlockInChain(u, s1.db, b.AsRef(), b.libNum)
    ensures lib.id == "" ==> lib == EMPTY_REF
    ensures var r, s2 := Discover(u, cfg, s, s1, b), s1.(db := s1.db.(lib := lib));
      && DbOk(u, s2.db)
      && if lib == EMPTY_REF then r == (s1, [])
         else if lib.num == b.num then r == SendInitial(s2, b)
         else lib.id in s1.db.stored && LeftToExtend(u, cfg, s, s2, b, s2.db.stored[lib.id], r)
  {
    BlockInChainMeaning(u, s1.db, b, b.libNum);
    var s2 := s1.(db := s1.db.(lib := lib));
    if lib != EMPTY_REF {
      StoredAncestor(u, s1.db, b, lib);
      BlockBelowIgnoresLib(u, s1.db, s2.db, b.id, b.libNum);
    }
  }

  /** ProcessBlock on a well-formed block. */
  ghost function Step(u: Store, cfg: Config, s: State, b: Block): (r: (State, seq<Event>))
    requires DbOk(u, s.db) && GoodBlock(u, b)
    ensures DbOk(u, r.0.db)
  {
    if b.num < s.db.lib.num && s.last.Some? then (s, [])
    else if cfg.inclusive && s.last.None? && b.id == s.db.lib.id then SendInitial(s, b)
    else if b.id in s.db.stored then (s, [])
    else
      AddLinkOk(u, s.db, b);
      var s1 := s.(db := AddLink(s.db, b));
      if s1.db.HasLib() then Extend(u, cfg, s, s1, b, None) else Discover(u, cfg, s, s1, b)
  }

  lemma StepCases(u: Store, cfg: Config, s: State, b: Block)
    requires DbOk(u, s.db) && GoodBlock(u, b)
    ensures var r, s1 := Step(u, cfg, s, b), s.(db := AddLink(s.db, b));
      && DbOk(u, s1.db) && GoodBlock(s1.db.stored, b)
      && if b.num < s.db.lib.num && s.last.Some? then r == (s, [])
         else if cfg.inclusive && s.last.None? && b.id == s.db.lib.id then r == SendInitial(s, b)
         else if b.id in s.db.stored then r == (s, []) && s1 == s
         else r == if s1.db.HasLib() then Extend(u, cfg, s, s1, b, None) else Discover(u, cfg, s, s1, b)
  {
    AddLinkOk(u, s.db, b);
  }

  ghost function Run(u: Store, cfg: Config, s: State, bs: seq<Block>): (r: (State, seq<Event>))
    requires DbOk(u, s.db) && forall b <- bs :: GoodBlock(u, b)
    ensures DbOk(u, r.0.db)
  {
    if bs == [] then (s, [])
    else
      var (m, es) := Run(u, cfg, s, bs[..|bs| - 1]);
      var (t, fs) := Step(u, cfg, m, bs[|bs| - 1]);
      (t, es + fs)
  }

  // The invariant

  /** The parent of a block sent as new was sent as new too, unless it is the LIB or lies below it. */
  ghost predicate SentClosed(u: Store, db: Db, sent: set<Id>) {
    && sent <= db.stored.Keys
    && forall id <- sent ::
      var parent := db.stored[id].parent;
      parent in sent || parent == db.lib.id || (parent in u ==> u[parent].num < db.lib.num)
  }

  /** The cached chain, unless the LIB has left it behind, is the reversible segment of its last block. */
  ghost predicate CacheOk(s: State) {
    s.chain != [] && s.chain[0].parent == s.db.lib.id ==>
      Linked(s.db.stored, s.db.lib.id, s.chain, s.chain[|s.chain| - 1].id)
  }

  ghost predicate StalledBelow(u: Store, db: Db, stalled: set<Block>)
    requires db.lib.id in u
  {
    forall b <- stalled :: GoodBlock(u, b) && b.num <= u[db.lib.id].num
  }

  /** The consumer's stack above its final block is the stored chain from the LIB to the last block sent. */
  ghost predicate InStep(u: Store, s: State, c: Consumer) {
    && c.Valid(u)
    && c.Final() == s.db.lib.id
    && Linked(s.db.stored, s.db.lib.id, c.blocks[c.fin..], s.HeadId())
    && (forall b <- c.blocks[c.fin..] :: b.id in s.sent)
  }

  ghost predicate Inv(u: Store, s: State, c: Consumer) {
    && DbOk(u, s.db) && s.db.HasLib()
    && InStep(u, s, c)
    && (if s.last.Some? then GoodBlock(u, s.last.value) else s.sent == {})
    && SentClosed(u, s.db, s.sent)
    && CacheOk(s)
    && s.KnownLib().id == s.db.lib.id && RefOk(u, s.KnownLib())
    && StalledBelow(u, s.db, c.stalled)
  }

  /** While no LIB is known nothing has been sent. */
  ghost predicate Waiting(u: Store, s: State) {
    DbOk(u, s.db) && !s.db.HasLib() && s.last.None? && s.libSeen == EMPTY_REF && s.chain == [] && s.sent == {}
  }
}
