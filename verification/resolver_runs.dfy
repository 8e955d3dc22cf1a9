/** The resolver brings a consumer from its cursor to the final chain it is fed. */
module ResolverRuns {
  import opened Chain
  import opened Consumers
  import opened ForkDbModel
  import opened ResumeModel
  import opened Resume
  import opened ForkableInvariant
  import opened ResolverModel

  /** The files are read from the cursor's LIB on, whose own number the cursor carries. */
  ghost predicate Feeds(u: Store, cur: Cursor, fed: seq<Block>) {
    && fed != [] && GoodBlock(u, fed[0]) && fed[0].AsRef() == cur.lib
    && Linked(u, cur.lib.id, fed[1..], At(cur.lib.id, fed[1..], |fed| - 1))
  }

  /** The first block fed that is numbered as the cursor's block or higher: all is decided there. */
  ghost predicate DecidedAt(cur: Cursor, fed: seq<Block>, t: nat) {
    t < |fed| && cur.block.num <= fed[t].num && forall i | 0 <= i < t :: fed[i].num < cur.block.num
  }

  /** Where the consumer at the cursor stands; nothing it is fed was stalled for it. */
  ghost predicate Returning(u: Store, k: Consumer, cur: Cursor, fed: seq<Block>) {
    k.Valid(u) && Positioned(u, k, cur) && forall b <- fed :: b !in k.stalled
  }

  /** The cursor's branch above its LIB, with the block it has just undone. */
  ghost function Branch(u: Store, k: Consumer, cur: Cursor): seq<Block>
    requires k.fin <= |k.blocks| && cur.block.id in u
  {
    k.blocks[k.fin..] + if cur.step == Undo then [u[cur.block.id]] else []
  }

  /** The consumer that has been fed the first `n` blocks: they are all on its stack, and all final. */
  function Caught(k: Consumer, fed: seq<Block>, n: nat): Consumer
    requires 1 <= n <= |fed| && k.fin <= |k.blocks|
  {
    k.(blocks := k.blocks[..k.fin] + fed[1..n], fin := k.fin + n - 1)
  }

  // The chain fed

  lemma FedFacts(u: Store, cur: Cursor, fed: seq<Block>)
    requires WellFormed(u) && Feeds(u, cur, fed)
    ensures Ascending(fed) && forall i | 0 <= i < |fed| :: GoodBlock(u, fed[i])
    ensures forall i | 0 < i < |fed| :: fed[i].parent == fed[i - 1].id
  {
    hide Linked, WellFormed;
    var p := fed[1..];
    var top := At(cur.lib.id, p, |p|);
    LinkedAscending(u, u, cur.lib.id, p, top);
    LinkedElements(u, cur.lib.id, p, top);
    ParentsInLine(u, cur.lib.id, p, top);
    forall i | 0 < i < |fed| ensures GoodBlock(u, fed[i]) && fed[i].parent == fed[i - 1].id && fed[0].num < fed[i].num {
      assert fed[i] == p[i - 1];
    }
    forall i, j | 0 <= i < j < |fed| ensures fed[i].num < fed[j].num {
      assert i > 0 ==> fed[i] == p[i - 1] && fed[j] == p[j - 1];
    }
  }

  lemma ParentsInLine(m: Store, root: Id, p: seq<Block>, head: Id)
    requires Linked(m, root, p, head)
    ensures forall i | 0 <= i < |p| :: p[i].parent == At(root, p, i)
  {
    hide Linked, At;
    forall i | 0 <= i < |p| ensures p[i].parent == At(root, p, i) {
      LinkedAt(m, root, p, i, head);
    }
  }

  lemma FedPath(u: Store, cur: Cursor, fed: seq<Block>, i: nat, j: nat)
    requires WellFormed(u) && Feeds(u, cur, fed) && i <= j < |fed|
    ensures Linked(u, fed[i].id, fed[i + 1..j + 1], fed[j].id)
  {
    var p := fed[1..];
    var top := At(cur.lib.id, p, |p|);
    LinkedPrefix(u, cur.lib.id, p, j, top);
    LinkedSuffix(u, u, cur.lib.id, p[..j], i, At(cur.lib.id, p, j));
    assert p[..j][i..] == fed[i + 1..j + 1];
  }

  lemma {:induction false} BetweenIs(seen: seq<Block>, a: nat, b: nat, low: nat, high: nat)
    requires a <= b <= |seen|
    requires forall i | 0 <= i < a :: seen[i].num <= low
    requires forall i | a <= i < b :: low < seen[i].num <= high
    requires forall i | b <= i < |seen| :: high < seen[i].num
    ensures Between(seen, low, high) == seen[a..b]
    decreases |seen|
  {
    hide Between;
    if seen == [] {
      BetweenNone(low, high);
    } else {
      var n := |seen| - 1;
      BetweenIs(seen[..n], if a <= n then a else n, if b <= n then b else n, low, high);
      BetweenLast(seen, low, high);
      SliceLast(seen, a, b);
    }
  }

  lemma BetweenNone(low: nat, high: nat)
    ensures Between([], low, high) == []
  {
  }

  lemma BetweenLast(seen: seq<Block>, low: nat, high: nat)
    requires seen != []
    ensures var b := seen[|seen| - 1];
      Between(seen, low, high) == Between(seen[..|seen| - 1], low, high) + if low < b.num <= high then [b] else []
  {
  }

  lemma SliceLast(s: seq<Block>, a: nat, b: nat)
    requires s != [] && a <= b <= |s|
    ensures var n := |s| - 1;
      s[a..b] == s[..n][if a <= n then a else n..if b <= n then b else n] + if a <= n < b then [s[n]] else []
  {
  }

  /** The blocks seen between those at positions `i` and `j`. */
  lemma FedBetween(u: Store, cur: Cursor, fed: seq<Block>, t: nat, i: nat, j: nat)
    requires WellFormed(u) && Feeds(u, cur, fed) && i <= j <= t < |fed|
    ensures Between(fed[..t + 1], fed[i].num, fed[j].num) == fed[i + 1..j + 1]
  {
    FedFacts(u, cur, fed);
    BetweenIs(fed[..t + 1], i + 1, j + 1, fed[i].num, fed[j].num);
    assert fed[..t + 1][i + 1..j + 1] == fed[i + 1..j + 1];
  }

  // Up to the decision

  lemma {:induction false} Waits(u: Store, files: Store, cur: Cursor, fed: seq<Block>, t: nat, n: nat)
    requires FilesOk(u, files) && DecidedAt(cur, fed, t) && n <= t
    ensures ResolverRun(u, files, cur, false, fed[..n]) == Outcome(Progress(fed[..n], false), [], None)
    decreases n
  {
    hide ResolverRun, ResolverStep, FilesOk;
    if n == 0 {
      NothingRun(u, files, cur, false);
      assert fed[..0] == [];
    } else {
      Waits(u, files, cur, fed, t, n - 1);
      RunOne(u, files, cur, false, fed, n - 1);
      WaitingStep(u, files, cur, fed[..n - 1], fed[n - 1]);
      assert fed[..n - 1] + [fed[n - 1]] == fed[..n];
    }
  }

  lemma WaitingStep(u: Store, files: Store, cur: Cursor, seen: seq<Block>, b: Block)
    requires FilesOk(u, files) && b.num < cur.block.num
    ensures ResolverStep(u, files, cur, false, Progress(seen, false), b) == Outcome(Progress(seen + [b], false), [], None)
  {
    hide Resolve, SuffixesTell;
  }

  lemma Decides(u: Store, files: Store, cur: Cursor, fed: seq<Block>, t: nat)
    requires FilesOk(u, files) && DecidedAt(cur, fed, t)
    ensures ResolverRun(u, files, cur, false, fed[..t + 1])
         == ResolverStep(u, files, cur, false, Progress(fed[..t], false), fed[t])
  {
    hide ResolverStep;
    Waits(u, files, cur, fed, t, t);
    assert fed[..t + 1][..t] == fed[..t];
    var p := ResolverStep(u, files, cur, false, Progress(fed[..t], false), fed[t]);
    assert [] + p.events == p.events;
  }

  // After it

  lemma OnceResolved(u: Store, files: Store, cur: Cursor, passThrough: bool, bs: seq<Block>, n: nat)
    requires FilesOk(u, files) && n < |bs|
    requires var o := ResolverRun(u, files, cur, passThrough, bs[..n]); o.error.None? && o.now.resolved
    ensures var o := ResolverRun(u, files, cur, passThrough, bs[..n]);
      ResolverRun(u, files, cur, passThrough, bs[..n + 1]) == o.(events := o.events + [FileEvent(NewIrreversible, bs[n])])
  {
    hide Resolve;
    assert bs[..n + 1][..n] == bs[..n];
  }

  lemma FileEventsOne(step: StepType, bs: seq<Block>, i: nat, n: nat)
    requires i <= n < |bs|
    ensures FileEvents(step, bs[i..n + 1]) == FileEvents(step, bs[i..n]) + [FileEvent(step, bs[n])]
  {
  }

  lemma NoFileEvents(es: seq<Event>, bs: seq<Block>)
    requires bs == []
    ensures es + FileEvents(NewIrreversible, bs) == es
  {
  }

  /** Once resolved, the resolver hands on every block as it comes. */
  lemma {:induction false} GoesOn(u: Store, files: Store, cur: Cursor, passThrough: bool, fed: seq<Block>, t: nat, n: nat)
    requires FilesOk(u, files) && t < n <= |fed|
    requires var o := ResolverRun(u, files, cur, passThrough, fed[..t + 1]); o.error.None? && o.now.resolved
    ensures var o := ResolverRun(u, files, cur, passThrough, fed[..t + 1]);
      ResolverRun(u, files, cur, passThrough, fed[..n]) == o.(events := o.events + FileEvents(NewIrreversible, fed[t + 1..n]))
    decreases n
  {
    hide ResolverRun, FileEvents, FilesOk;
    var o := ResolverRun(u, files, cur, passThrough, fed[..t + 1]);
    if n == t + 1 {
      NoFileEvents(o.events, fed[t + 1..n]);
    } else {
      GoesOn(u, files, cur, passThrough, fed, t, n - 1);
      OnceResolved(u, files, cur, passThrough, fed, n - 1);
      FileEventsOne(NewIrreversible, fed, t + 1, n - 1);
      var es, e := FileEvents(NewIrreversible, fed[t + 1..n - 1]), FileEvent(NewIrreversible, fed[n - 1]);
      assert o.events + (es + [e]) == (o.events + es) + [e];
    }
  }

  lemma {:induction false} FailsForGood(u: Store, files: Store, cur: Cursor, fed: seq<Block>, t: nat, n: nat)
    requires FilesOk(u, files) && t < n <= |fed| && ResolverRun(u, files, cur, false, fed[..t + 1]).error.Some?
    ensures ResolverRun(u, files, cur, false, fed[..n]) == ResolverRun(u, files, cur, false, fed[..t + 1])
    decreases n
  {
    if n > t + 1 {
      FailsForGood(u, files, cur, fed, t, n - 1);
      assert fed[..n][..n - 1] == fed[..n - 1];
    }
  }

  // The decision when the cursor's block is fed

  lemma BranchLinked(u: Store, k: Consumer, cur: Cursor)
    requires WellFormed(u) && k.Valid(u) && Positioned(u, k, cur) && cur.lib.id in u
    ensures Linked(u, cur.lib.id, Branch(u, k, cur), cur.block.id)
  {
    hide Linked;
    var p := k.blocks[k.fin..];
    LinkedSuffix(u, u, k.base, k.blocks, k.fin, k.Top());
    if cur.step == Undo {
      LinkedSnoc(u, cur.lib.id, p, u[cur.block.id]);
    } else {
      assert p + [] == p;
    }
  }

  /** The branch of a cursor whose block is fed is what was fed up to it. */
  lemma BranchIsFed(u: Store, k: Consumer, cur: Cursor, fed: seq<Block>, t: nat)
    requires WellFormed(u) && Feeds(u, cur, fed) && Returning(u, k, cur, fed) && t < |fed| && fed[t].id == cur.block.id
    ensures Branch(u, k, cur) == fed[1..t + 1]
  {
    BranchLinked(u, k, cur);
    FedPath(u, cur, fed, 0, t);
    LinkedUnique(u, cur.lib.id, Branch(u, k, cur), fed[1..t + 1], cur.block.id);
  }

  lemma FileEventsName(step: StepType, bs: seq<Block>)
    requires step in {Irreversible, NewIrreversible}
    ensures Are(FileEvents(step, bs), step, bs) && NameThemselves(FileEvents(step, bs))
  {
  }

  /** The blocks still on the consumer's stack become final, and the rest comes new and final. */
  lemma FinalThenNew(u: Store, k: Consumer, fed: seq<Block>, m: nat, t: nat)
    requires m <= t < |fed| && k.fin <= |k.blocks| && k.blocks[k.fin..] == fed[1..m + 1]
    requires Linked(u, fed[m].id, fed[m + 1..t + 1], fed[t].id) && (m == 0 ==> fed[0].id == k.Final())
    requires forall b <- fed :: b !in k.stalled
    ensures k.ApplyAll(FileEvents(Irreversible, fed[1..m + 1]) + FileEvents(NewIrreversible, fed[m + 1..t + 1]))
         == Some(Caught(k, fed, t + 1))
  {
    hide Linked, Consumer.ApplyAll, FileEvents, Are, NameThemselves;
    var es, fs := FileEvents(Irreversible, fed[1..m + 1]), FileEvents(NewIrreversible, fed[m + 1..t + 1]);
    FileEventsName(Irreversible, fed[1..m + 1]);
    FileEventsName(NewIrreversible, fed[m + 1..t + 1]);
    FinalizeAll(k, es, fed[1..m + 1]);
    var d := k.(fin := k.fin + m);
    assert d.Top() == fed[m].id by {
      assert k.blocks == k.blocks[..k.fin] + fed[1..m + 1];
    }
    PushAllFinal(u, d, fs, fed[m + 1..t + 1], fed[t].id);
    assert d.blocks + fed[m + 1..t + 1] == k.blocks[..k.fin] + fed[1..t + 1];
    ApplyConcat(k, es, fs);
  }

  lemma CanonicalNew(u: Store, files: Store, cur: Cursor, fed: seq<Block>, t: nat)
    requires FilesOk(u, files) && Feeds(u, cur, fed) && DecidedAt(cur, fed, t) && fed[t].AsRef() == cur.block
    requires cur.step != Undo
    ensures ResolverStep(u, files, cur, false, Progress(fed[..t], false), fed[t])
         == Outcome(Progress(fed[..t + 1], true), FileEvents(Irreversible, fed[1..t + 1]), None)
  {
    hide Linked, Resolve, FileEvents, Between, Feeds, SuffixesTell;
    assert fed[..t] + [fed[t]] == fed[..t + 1];
    FedBetween(u, cur, fed, t, 0, t);
    FirstIsLib(u, cur, fed);
  }

  lemma FirstIsLib(u: Store, cur: Cursor, fed: seq<Block>)
    requires Feeds(u, cur, fed)
    ensures fed != [] && GoodBlock(u, fed[0]) && fed[0].num == cur.lib.num && fed[0].id == cur.lib.id
  {
  }

  lemma CanonicalUndo(u: Store, files: Store, cur: Cursor, fed: seq<Block>, t: nat)
    requires FilesOk(u, files) && Feeds(u, cur, fed) && DecidedAt(cur, fed, t) && fed[t].AsRef() == cur.block
    requires cur.step == Undo && t > 0
    ensures ResolverStep(u, files, cur, false, Progress(fed[..t], false), fed[t])
         == Outcome(Progress(fed[..t + 1], true),
                    FileEvents(Irreversible, fed[1..t]) + [FileEvent(NewIrreversible, fed[t])], None)
  {
    hide Linked, Resolve, FileEvents, Between, Feeds, SuffixesTell;
    assert fed[..t] + [fed[t]] == fed[..t + 1];
    FedFacts(u, cur, fed);
    FirstIsLib(u, cur, fed);
    BetweenIs(fed[..t + 1], 1, t, cur.lib.num, cur.block.num - 1);
    assert fed[..t + 1][1..t] == fed[1..t];
  }

  lemma CanonicalStep(u: Store, files: Store, cur: Cursor, fed: seq<Block>, t: nat)
    requires FilesOk(u, files) && Feeds(u, cur, fed) && DecidedAt(cur, fed, t) && fed[t].AsRef() == cur.block
    requires cur.step == Undo ==> t > 0
    ensures var m := if cur.step == Undo then t - 1 else t;
      ResolverStep(u, files, cur, false, Progress(fed[..t], false), fed[t])
      == Outcome(Progress(fed[..t + 1], true),
                 FileEvents(Irreversible, fed[1..m + 1]) + FileEvents(NewIrreversible, fed[m + 1..t + 1]), None)
  {
    hide ResolverStep, Feeds, FilesOk;
    if cur.step == Undo {
      CanonicalUndo(u, files, cur, fed, t);
      assert FileEvents(NewIrreversible, fed[t..t + 1]) == [FileEvent(NewIrreversible, fed[t])];
    } else {
      CanonicalNew(u, files, cur, fed, t);
      assert FileEvents(Irreversible, fed[1..t + 1]) + FileEvents(NewIrreversible, []) == FileEvents(Irreversible, fed[1..t + 1]);
    }
  }

  lemma CanonicalBrings(u: Store, files: Store, k: Consumer, cur: Cursor, fed: seq<Block>, t: nat)
    requires FilesOk(u, files) && Feeds(u, cur, fed) && DecidedAt(cur, fed, t) && fed[t].id == cur.block.id
    requires Returning(u, k, cur, fed)
    ensures var o := ResolverStep(u, files, cur, false, Progress(fed[..t], false), fed[t]);
      o.error.None? && o.now.resolved && k.ApplyAll(o.events) == Some(Caught(k, fed, t + 1))
  {
    hide Linked, ResolverStep, SuffixesTell;
    FedFacts(u, cur, fed);
    BranchIsFed(u, k, cur, fed, t);
    CanonicalStep(u, files, cur, fed, t);
    var m := if cur.step == Undo then t - 1 else t;
    assert k.blocks[k.fin..] == Branch(u, k, cur)[..m] == fed[1..m + 1];
    FedPath(u, cur, fed, m, t);
    FinalThenNew(u, k, fed, m, t);
  }

  // The decision when the cursor's block is on a fork

  lemma {:induction false} SeenFinds(u: Store, seen: seq<Block>, id: Id)
    requires SuffixesTell(u) && id in u && forall b <- seen :: GoodBlock(u, b)
    ensures match SeenWith(seen, Truncate(id))
            case Some(b) => b in seen && b.id == id
            case None => forall b <- seen :: b.id != id
    decreases |seen|
  {
    TruncateIsSuffix(id);
    if seen != [] && !HasSuffix(seen[0].id, Truncate(id)) {
      SeenFinds(u, seen[1..], id);
      assert forall b <- seen :: b == seen[0] || b in seen[1..];
    }
  }

  /** `m` is where branch `f` leaves the blocks seen. */
  ghost predicate LeavesAt(u: Store, cur: Cursor, seen: seq<Block>, f: seq<Block>, m: nat) {
    && m < |f| && cur.lib.id in u && cur.lib.num == u[cur.lib.id].num && cur.block.num == f[|f| - 1].num
    && Linked(u, cur.lib.id, f, cur.block.id)
    && (forall b <- seen :: GoodBlock(u, b))
    && (exists b <- seen :: b.id == At(cur.lib.id, f, m))
    && (forall i, b | m <= i < |f| && b in seen :: b.id != f[i].id)
  }

  /** Every block of the branch above the junction has a file. */
  ghost predicate Linkable(files: Store, f: seq<Block>, m: nat, n: nat)
    requires m <= n <= |f|
  {
    forall i | m <= i < n :: Truncate(f[i].id) in files
  }

  /** The blocks of the branch that the consumer still has to undo, bottom first. */
  function ToUndo(cur: Cursor, f: seq<Block>, m: nat, n: nat): seq<Block>
    requires m <= n <= |f|
  {
    if cur.step == Undo && m < n == |f| then f[m..n - 1] else f[m..n]
  }

  lemma ForkedStep(u: Store, files: Store, cur: Cursor, seen: seq<Block>, f: seq<Block>, m: nat, n: nat)
    requires FilesOk(u, files) && LeavesAt(u, cur, seen, f, m) && m < n <= |f|
    ensures var b, r := f[n - 1], Resolve(u, files, seen, cur, Truncate(At(cur.lib.id, f, n)));
      if Truncate(b.id) !in files then r.Err?
      else
        match Resolve(u, files, seen, cur, Truncate(At(cur.lib.id, f, n - 1)))
        case Err(_) => r.Err?
        case Ok(w) => r == Ok(Found((if n == |f| && cur.step == Undo then [] else [b]) + w.undos, w.junction))
  {
    hide LeavesAt, Linked, Truncate, HasSuffix, SuffixesTell;
    var b := f[n - 1];
    BranchBlock(u, cur, seen, f, m, n);
    SeenFinds(u, seen, b.id);
    FileIsBlock(u, files, b);
  }

  lemma BranchBlock(u: Store, cur: Cursor, seen: seq<Block>, f: seq<Block>, m: nat, n: nat)
    requires WellFormed(u) && LeavesAt(u, cur, seen, f, m) && m < n <= |f|
    ensures var b := f[n - 1];
      && GoodBlock(u, b) && cur.lib.num < b.num && b.parent == At(cur.lib.id, f, n - 1)
      && b.num <= cur.block.num && (b.num == cur.block.num <==> n == |f|)
    ensures forall x <- seen :: GoodBlock(u, x) && x.id != f[n - 1].id
  {
    hide Linked, WellFormed;
    LinkedAscending(u, u, cur.lib.id, f, cur.block.id);
    LinkedElements(u, cur.lib.id, f, cur.block.id);
    ParentsInLine(u, cur.lib.id, f, cur.block.id);
  }

  lemma FileIsBlock(u: Store, files: Store, b: Block)
    requires FilesOk(u, files) && GoodBlock(u, b)
    ensures Truncate(b.id) in files ==> files[Truncate(b.id)] == b
  {
    if Truncate(b.id) in files {
      TruncateIsSuffix(files[Truncate(b.id)].id);
    }
  }

  /** The walk gives what is to be undone, top first, exactly when every file is there. */
  lemma {:induction false} WalksFork(u: Store, files: Store, cur: Cursor, seen: seq<Block>, f: seq<Block>, m: nat, n: nat)
    requires FilesOk(u, files) && LeavesAt(u, cur, seen, f, m) && m <= n <= |f|
    ensures var r := Resolve(u, files, seen, cur, Truncate(At(cur.lib.id, f, n)));
      && (r.Ok? <==> Linkable(files, f, m, n))
      && (r.Ok? ==> r.value.undos == Reverse(ToUndo(cur, f, m, n)) && r.value.junction in seen
                    && r.value.junction.id == At(cur.lib.id, f, m))
    decreases n
  {
    hide LeavesAt, Resolve, Truncate, Reverse, ToUndo;
    if n == m {
      NothingToUndo(cur, f, m);
      JunctionIsSeen(u, files, cur, seen, f, m);
    } else {
      WalksFork(u, files, cur, seen, f, m, n - 1);
      ForkedStep(u, files, cur, seen, f, m, n);
      ReverseToUndo(cur, f, m, n);
    }
  }

  lemma JunctionIsSeen(u: Store, files: Store, cur: Cursor, seen: seq<Block>, f: seq<Block>, m: nat)
    requires FilesOk(u, files) && LeavesAt(u, cur, seen, f, m)
    ensures var j := At(cur.lib.id, f, m);
      var r := Resolve(u, files, seen, cur, Truncate(j));
      r.Ok? && r.value.undos == [] && r.value.junction in seen && r.value.junction.id == j
  {
    hide Linked, Truncate, HasSuffix;
    SeenFinds(u, seen, At(cur.lib.id, f, m));
  }

  lemma NothingToUndo(cur: Cursor, f: seq<Block>, m: nat)
    requires m <= |f|
    ensures Reverse(ToUndo(cur, f, m, m)) == []
  {
  }

  lemma ReverseToUndo(cur: Cursor, f: seq<Block>, m: nat, n: nat)
    requires m < n <= |f|
    ensures Reverse(ToUndo(cur, f, m, n))
         == (if n == |f| && cur.step == Undo then [] else [f[n - 1]]) + Reverse(ToUndo(cur, f, m, n - 1))
  {
    hide Reverse;
    if !(n == |f| && cur.step == Undo) {
      assert f[m..n] == f[m..n - 1] + [f[n - 1]];
    }
  }

  /** A branch that was not fed up to its end leaves what was fed at one place. */
  lemma LeavesFed(u: Store, k: Consumer, cur: Cursor, fed: seq<Block>, t: nat) returns (m: nat)
    requires WellFormed(u) && Feeds(u, cur, fed) && DecidedAt(cur, fed, t) && fed[t].id != cur.block.id
    requires Returning(u, k, cur, fed)
    ensures var f := Branch(u, k, cur); m <= t && m < |f| && f[..m] == fed[1..m + 1] && LeavesAt(u, cur, fed[..t + 1], f, m)
  {
    hide Linked, WellFormed, LeavesAt, Feeds;
    var f := Branch(u, k, cur);
    FirstIsLib(u, cur, fed);
    BranchLinked(u, k, cur);
    m := PartsAt(u, cur, fed, t, f);
    NotFedToTheEnd(u, cur, fed, t, f, m);
    BranchTop(u, cur, f);
    LeavesThere(u, cur, fed, t, f, m);
  }

  ghost predicate NoneShared(p: seq<Block>, q: seq<Block>) {
    forall x, y | 0 <= x < |p| && 0 <= y < |q| :: p[x].id != q[y].id
  }

  lemma PartsAt(u: Store, cur: Cursor, fed: seq<Block>, t: nat, f: seq<Block>) returns (m: nat)
    requires WellFormed(u) && Feeds(u, cur, fed) && t < |fed| && Linked(u, cur.lib.id, f, cur.block.id)
    ensures m <= t && m <= |f| && f[..m] == fed[1..m + 1] && NoneShared(f[m..], fed[m + 1..t + 1])
  {
    hide Linked, WellFormed;
    var g := fed[1..t + 1];
    FedPath(u, cur, fed, 0, t);
    m := PathsPart(u, u, cur.lib.id, f, g, cur.block.id, fed[t].id);
    assert g[..m] == fed[1..m + 1] && g[m..] == fed[m + 1..t + 1];
  }

  lemma LeavesThere(u: Store, cur: Cursor, fed: seq<Block>, t: nat, f: seq<Block>, m: nat)
    requires WellFormed(u) && Feeds(u, cur, fed) && Linked(u, cur.lib.id, f, cur.block.id)
    requires m <= t < |fed| && m < |f| && f[..m] == fed[1..m + 1] && NoneShared(f[m..], fed[m + 1..t + 1])
    requires cur.block.num == f[|f| - 1].num
    ensures LeavesAt(u, cur, fed[..t + 1], f, m)
  {
    hide Linked, WellFormed, NoneShared;
    FedFacts(u, cur, fed);
    forall i, j | m <= i < |f| && 0 <= j <= t ensures fed[j].id != f[i].id {
      AfterParting(u, cur, fed, t, f, m, i, j, f[m..], fed[m + 1..t + 1]);
    }
    assert fed[m] in fed[..t + 1] && fed[m].id == At(cur.lib.id, f, m) by {
      assert m > 0 ==> f[m - 1] == f[..m][m - 1] == fed[1..m + 1][m - 1];
    }
  }

  lemma BranchTop(u: Store, cur: Cursor, f: seq<Block>)
    requires f != [] && Linked(u, cur.lib.id, f, cur.block.id) && cur.block.id in u && cur.block.num == u[cur.block.id].num
    ensures f[|f| - 1].num == cur.block.num
  {
  }

  lemma NotFedToTheEnd(u: Store, cur: Cursor, fed: seq<Block>, t: nat, f: seq<Block>, m: nat)
    requires WellFormed(u) && Feeds(u, cur, fed) && DecidedAt(cur, fed, t) && fed[t].id != cur.block.id
    requires cur.block.id in u && cur.block.num == u[cur.block.id].num
    requires Linked(u, cur.lib.id, f, cur.block.id) && m <= |f| && m <= t && f[..m] == fed[1..m + 1]
    ensures m < |f|
  {
    hide Linked, WellFormed, Feeds;
    if m == |f| {
      TopIsFed(u, cur, fed, t, f);
    }
  }

  lemma TopIsFed(u: Store, cur: Cursor, fed: seq<Block>, t: nat, f: seq<Block>)
    requires WellFormed(u) && Feeds(u, cur, fed) && t < |fed| && |f| <= t && f == fed[1..|f| + 1]
    requires Linked(u, cur.lib.id, f, cur.block.id)
    ensures fed[|f|].id == cur.block.id && GoodBlock(u, fed[|f|])
  {
    hide Linked, WellFormed;
    FedFacts(u, cur, fed);
    LinkedElements(u, cur.lib.id, f, cur.block.id);
    assert f != [] ==> fed[|f|] == fed[1..|f| + 1][|f| - 1];
  }

  lemma AfterParting(u: Store, cur: Cursor, fed: seq<Block>, t: nat, f: seq<Block>, m: nat, i: nat, j: nat,
                     p: seq<Block>, q: seq<Block>)
    requires WellFormed(u) && Feeds(u, cur, fed) && m <= t < |fed| && m <= i < |f| && j <= t && f[..m] == fed[1..m + 1]
    requires Linked(u, cur.lib.id, f, cur.block.id)
    requires p == f[m..] && q == fed[m + 1..t + 1] && NoneShared(p, q)
    ensures fed[j].id != f[i].id
  {
    LinkedElements(u, cur.lib.id, f, cur.block.id);
    if 0 < j <= m {
      assert fed[j] == fed[1..m + 1][j - 1] == f[..m][j - 1] == f[j - 1];
      if fed[j].id == f[i].id {
        IdsAreDistinct(u, cur.lib.id, f, cur.block.id, j - 1, i);
      }
    } else if j > m {
      assert fed[j] == q[j - 1 - m] && f[i] == p[i - m];
    }
  }

  lemma UndosName(cur: Cursor, bs: seq<Block>, junction: Option<Ref>)
    requires forall b <- bs :: cur.lib.num <= b.num
    ensures var es := Emit(Undo, bs, cur.lib, cur.head, junction); Are(es, Undo, bs) && Names(es, cur.lib.id)
  {
  }

  /** What is undone, top first, leaves the consumer where its branch left what was fed. */
  lemma UndoneToJunction(u: Store, k: Consumer, cur: Cursor, fed: seq<Block>, t: nat, m: nat, junction: Option<Ref>)
    requires WellFormed(u) && Returning(u, k, cur, fed) && cur.lib.id in u && t < |fed|
    requires LeavesAt(u, cur, fed[..t + 1], Branch(u, k, cur), m)
    ensures var f := Branch(u, k, cur); var undos := Reverse(ToUndo(cur, f, m, |f|));
      && k.fin + m <= |k.blocks|
      && k.ApplyAll(Emit(Undo, undos, cur.lib, cur.head, junction)) == Some(k.(blocks := k.blocks[..k.fin + m]))
  {
    hide Linked, WellFormed, Reverse, Consumer.ApplyAll, Emit, Are, Names, LeavesAt;
    var f := Branch(u, k, cur);
    AboveCursorLib(u, cur, fed[..t + 1], f, m);
    var mine := ToUndo(cur, f, m, |f|);
    assert mine == k.blocks[k.fin + m..];
    assert forall b <- Reverse(mine) :: cur.lib.num <= b.num;
    UndosName(cur, Reverse(mine), junction);
    PopAll(k, Emit(Undo, Reverse(mine), cur.lib, cur.head, junction), k.fin + m);
  }

  lemma AboveCursorLib(u: Store, cur: Cursor, seen: seq<Block>, f: seq<Block>, m: nat)
    requires WellFormed(u) && LeavesAt(u, cur, seen, f, m)
    ensures m < |f| && forall b <- f :: cur.lib.num < b.num
  {
    hide Linked, WellFormed;
    LinkedAscending(u, u, cur.lib.id, f, cur.block.id);
  }

  lemma StepDecides(u: Store, files: Store, cur: Cursor, fed: seq<Block>, t: nat)
    requires FilesOk(u, files) && DecidedAt(cur, fed, t) && fed[t].id != cur.block.id
    ensures var seen := fed[..t + 1];
      ResolverStep(u, files, cur, false, Progress(fed[..t], false), fed[t])
      == match Resolve(u, files, seen, cur, Truncate(cur.block.id))
         case Err(e) => Outcome(Progress(seen, false), [], Some(e))
         case Ok(w) => Outcome(Progress(seen, true), Reconciled(seen, cur, w, fed[t]), None)
  {
    hide Resolve, Reconciled, SuffixesTell;
    assert fed[..t] + [fed[t]] == fed[..t + 1];
  }

  lemma BranchTopIs(u: Store, cur: Cursor, seen: seq<Block>, f: seq<Block>, m: nat)
    requires LeavesAt(u, cur, seen, f, m)
    ensures At(cur.lib.id, f, |f|) == cur.block.id
  {
  }

  lemma JunctionIsFed(u: Store, cur: Cursor, fed: seq<Block>, t: nat, f: seq<Block>, m: nat, j: Block)
    requires WellFormed(u) && Feeds(u, cur, fed) && m <= t < |fed| && m <= |f| && f[..m] == fed[1..m + 1]
    requires j in fed[..t + 1] && j.id == At(cur.lib.id, f, m)
    ensures j == fed[m]
  {
    FedFacts(u, cur, fed);
    assert m > 0 ==> f[m - 1] == f[..m][m - 1] == fed[1..m + 1][m - 1];
  }

  lemma Reconciles(u: Store, k: Consumer, cur: Cursor, fed: seq<Block>, t: nat, m: nat, w: Found)
    requires WellFormed(u) && Feeds(u, cur, fed) && Returning(u, k, cur, fed) && t < |fed|
    requires var f := Branch(u, k, cur);
      && m <= t && m < |f| && f[..m] == fed[1..m + 1] && LeavesAt(u, cur, fed[..t + 1], f, m)
      && w.undos == Reverse(ToUndo(cur, f, m, |f|)) && w.junction in fed[..t + 1] && w.junction.id == At(cur.lib.id, f, m)
    ensures k.ApplyAll(Reconciled(fed[..t + 1], cur, w, fed[t])) == Some(Caught(k, fed, t + 1))
  {
    hide Linked, WellFormed, Reverse, LeavesAt, Consumer.ApplyAll, Emit, FileEvents, Between, ToUndo, Feeds;
    var f := Branch(u, k, cur);
    FirstIsLib(u, cur, fed);
    JunctionIsFed(u, cur, fed, t, f, m, w.junction);
    UndoneToJunction(u, k, cur, fed, t, m, Some(w.junction.AsRef()));
    FedBetween(u, cur, fed, t, 0, m);
    FedBetween(u, cur, fed, t, m, t);
    FedPath(u, cur, fed, m, t);
    var d := k.(blocks := k.blocks[..k.fin + m]);
    assert d.blocks[d.fin..] == f[..m];
    assert m == 0 ==> d.Final() == k.Final();
    FinalThenNew(u, d, fed, m, t);
    SameCaught(k, d, fed, t + 1);
    var es := Emit(Undo, w.undos, cur.lib, cur.head, Some(w.junction.AsRef()));
    var fs, gs := FileEvents(Irreversible, fed[1..m + 1]), FileEvents(NewIrreversible, fed[m + 1..t + 1]);
    assert Reconciled(fed[..t + 1], cur, w, fed[t]) == es + (fs + gs);
    ApplyConcat(k, es, fs + gs);
  }

  lemma SameCaught(k: Consumer, d: Consumer, fed: seq<Block>, n: nat)
    requires 1 <= n <= |fed| && k.fin <= |k.blocks| && k.fin <= |d.blocks| && d == k.(blocks := d.blocks)
    requires d.blocks[..k.fin] == k.blocks[..k.fin]
    ensures Caught(d, fed, n) == Caught(k, fed, n)
  {
  }

  lemma ForkBrings(u: Store, files: Store, k: Consumer, cur: Cursor, fed: seq<Block>, t: nat, m: nat)
    requires FilesOk(u, files) && Feeds(u, cur, fed) && DecidedAt(cur, fed, t) && fed[t].id != cur.block.id
    requires Returning(u, k, cur, fed)
    requires var f := Branch(u, k, cur); m <= t && m < |f| && f[..m] == fed[1..m + 1] && LeavesAt(u, cur, fed[..t + 1], f, m)
    ensures var o := ResolverStep(u, files, cur, false, Progress(fed[..t], false), fed[t]);
      && (o.error.None? <==> Linkable(files, Branch(u, k, cur), m, |Branch(u, k, cur)|))
      && if o.error.None? then o.now.resolved && k.ApplyAll(o.events) == Some(Caught(k, fed, t + 1)) else o.events == []
  {
    hide Linked, SuffixesTell, Resolve, Reverse, LeavesAt, Consumer.ApplyAll, Emit, FileEvents, Between, Truncate, Linkable, Feeds, ToUndo;
    var f, seen := Branch(u, k, cur), fed[..t + 1];
    StepDecides(u, files, cur, fed, t);
    WalksFork(u, files, cur, seen, f, m, |f|);
    BranchTopIs(u, cur, seen, f, m);
    var r := Resolve(u, files, seen, cur, Truncate(cur.block.id));
    if r.Ok? {
      Reconciles(u, k, cur, fed, t, m, r.value);
    }
  }

  // The whole run

  /** Every block of branch `f` was fed or has a file among the forked blocks. */
  ghost predicate AllFound(files: Store, f: seq<Block>, seen: seq<Block>) {
    forall b <- f :: b in seen || Truncate(b.id) in files
  }

  lemma LinkableIsFound(u: Store, files: Store, cur: Cursor, fed: seq<Block>, t: nat, f: seq<Block>, m: nat)
    requires t < |fed| && LeavesAt(u, cur, fed[..t + 1], f, m) && m <= t && f[..m] == fed[1..m + 1]
    ensures Linkable(files, f, m, |f|) <==> AllFound(files, f, fed[..t + 1])
  {
    hide Linked, Truncate;
    var seen := fed[..t + 1];
    forall i | 0 <= i < m ensures f[i] in seen {
      assert f[i] == f[..m][i] == fed[1..m + 1][i] == seen[i + 1];
    }
    forall i | m <= i < |f| ensures f[i] !in seen && f[i] in f {
    }
  }

  lemma Decision(u: Store, files: Store, k: Consumer, cur: Cursor, fed: seq<Block>, t: nat)
    requires FilesOk(u, files) && Feeds(u, cur, fed) && DecidedAt(cur, fed, t) && Returning(u, k, cur, fed)
    ensures var o := ResolverStep(u, files, cur, false, Progress(fed[..t], false), fed[t]);
      && (o.error.None? <==> AllFound(files, Branch(u, k, cur), fed[..t + 1]))
      && if o.error.None? then o.now.resolved && k.ApplyAll(o.events) == Some(Caught(k, fed, t + 1)) else o.events == []
  {
    hide Linked, SuffixesTell, ResolverStep, Feeds, DecidedAt, LeavesAt, Linkable, Consumer.ApplyAll, Truncate, Caught;
    InRange(cur, fed, t);
    if fed[t].id == cur.block.id {
      CanonicalBrings(u, files, k, cur, fed, t);
      BranchIsFed(u, k, cur, fed, t);
      var f, seen := fed[1..t + 1], fed[..t + 1];
      forall b | b in f ensures b in seen {
        var i :| 0 <= i < t && f[i] == b;
        assert seen[i + 1] == b;
      }
    } else {
      var m := LeavesFed(u, k, cur, fed, t);
      ForkBrings(u, files, k, cur, fed, t, m);
      LinkableIsFound(u, files, cur, fed, t, Branch(u, k, cur), m);
    }
  }

  lemma InRange(cur: Cursor, fed: seq<Block>, t: nat)
    requires DecidedAt(cur, fed, t)
    ensures t < |fed|
  {
  }

  /**
   Fed final blocks in chain order from the cursor's LIB, the resolver is silent until it meets the
   height of the cursor's block. It then fails, having sent nothing, exactly when a block of the
   cursor's branch was neither fed nor stored; otherwise everything fed so far and from then on is on
   the consumer's stack and final.
   */
  lemma ResolverBrings(u: Store, files: Store, k: Consumer, cur: Cursor, fed: seq<Block>, t: nat, n: nat)
    requires FilesOk(u, files) && Feeds(u, cur, fed) && DecidedAt(cur, fed, t) && Returning(u, k, cur, fed) && n <= |fed|
    ensures var o := ResolverRun(u, files, cur, false, fed[..n]);
      if n <= t then o.error.None? && o.events == []
      else
        && (o.error.None? <==> AllFound(files, Branch(u, k, cur), fed[..t + 1]))
        && if o.error.None? then k.ApplyAll(o.events) == Some(Caught(k, fed, n)) else o.events == []
  {
    hide Linked, SuffixesTell, ResolverRun, ResolverStep, Feeds, Consumer.ApplyAll, AllFound, Caught;
    if n <= t {
      Waits(u, files, cur, fed, t, n);
    } else {
      Decides(u, files, cur, fed, t);
      Decision(u, files, k, cur, fed, t);
      if ResolverRun(u, files, cur, false, fed[..t + 1]).error.None? {
        GoesOn(u, files, cur, false, fed, t, n);
        CaughtGoesOn(u, k, cur, fed, t, n);
        ApplyConcat(k, ResolverRun(u, files, cur, false, fed[..t + 1]).events, FileEvents(NewIrreversible, fed[t + 1..n]));
      } else {
        FailsForGood(u, files, cur, fed, t, n);
      }
    }
  }

  lemma CaughtGoesOn(u: Store, k: Consumer, cur: Cursor, fed: seq<Block>, t: nat, n: nat)
    requires WellFormed(u) && Feeds(u, cur, fed) && Returning(u, k, cur, fed) && t < n <= |fed|
    ensures Caught(k, fed, t + 1).ApplyAll(FileEvents(NewIrreversible, fed[t + 1..n])) == Some(Caught(k, fed, n))
  {
    hide Linked, WellFormed, Consumer.ApplyAll, FileEvents, Are, NameThemselves, Feeds;
    var d, bs := Caught(k, fed, t + 1), fed[t + 1..n];
    FirstIsLib(u, cur, fed);
    FedPath(u, cur, fed, t, n - 1);
    FileEventsName(NewIrreversible, bs);
    CaughtTop(k, cur, fed, t + 1);
    PushAllFinal(u, d, FileEvents(NewIrreversible, bs), bs, fed[n - 1].id);
    assert d.blocks + bs == k.blocks[..k.fin] + fed[1..n];
  }

  lemma CaughtTop(k: Consumer, cur: Cursor, fed: seq<Block>, n: nat)
    requires 1 <= n <= |fed| && k.fin <= |k.blocks| && fed[0].id == k.Final()
    ensures var d := Caught(k, fed, n); d.fin == |d.blocks| && d.Top() == d.Final() == fed[n - 1].id
  {
    var d := Caught(k, fed, n);
    if n == 1 {
      assert d.blocks == k.blocks[..k.fin];
    }
  }

  // Passing through the cursor

  /** `a` is where the blocks numbered above the cursor's LIB begin. */
  ghost predicate AboveLibFrom(cur: Cursor, fed: seq<Block>, a: nat) {
    && a <= |fed|
    && (forall i | 0 <= i < a :: fed[i].num <= cur.lib.num)
    && (forall i | a <= i < |fed| :: cur.lib.num < fed[i].num)
  }

  lemma RunOne(u: Store, files: Store, cur: Cursor, passThrough: bool, bs: seq<Block>, n: nat)
    requires FilesOk(u, files) && n < |bs| && ResolverRun(u, files, cur, passThrough, bs[..n]).error.None?
    ensures var o := ResolverRun(u, files, cur, passThrough, bs[..n]);
      var p := ResolverStep(u, files, cur, passThrough, o.now, bs[n]);
      ResolverRun(u, files, cur, passThrough, bs[..n + 1]) == p.(events := o.events + p.events)
  {
    hide ResolverStep;
    assert bs[..n + 1][..n] == bs[..n];
  }

  lemma PassingStep(u: Store, files: Store, cur: Cursor, seen: seq<Block>, b: Block)
    requires FilesOk(u, files)
    ensures var o := ResolverStep(u, files, cur, true, Progress(seen, false), b);
      && (b.num <= cur.lib.num ==>
          o == Outcome(Progress(seen, cur.lib.num == cur.block.num && cur.block.id == b.id), [FileEvent(NewIrreversible, b)], None))
      && (cur.lib.num < b.num < cur.block.num ==> o == Outcome(Progress(seen + [b], false), [], None))
      && (cur.lib.num < b.num && b.AsRef() == cur.block ==>
          o == Outcome(Progress(seen + [b], true),
                       FileEvents(NewIrreversible, Between(seen + [b], cur.lib.num, cur.block.num)), None))
  {
    hide Resolve, SuffixesTell, FileEvents, Between;
  }

  lemma {:induction false} HoldsBack(u: Store, files: Store, cur: Cursor, fed: seq<Block>, t: nat, a: nat, n: nat)
    requires FilesOk(u, files) && Ascending(fed) && AboveLibFrom(cur, fed, a)
    requires n <= t < |fed| && fed[t].AsRef() == cur.block && forall i | 0 <= i < t :: fed[i].id != cur.block.id
    ensures var o, c := ResolverRun(u, files, cur, true, fed[..n]), if a <= n then a else n;
      o == Outcome(Progress(fed[c..n], false), FileEvents(NewIrreversible, fed[..c]), None)
    decreases n
  {
    hide ResolverStep, ResolverRun, FilesOk, FileEvents;
    if n == 0 {
      NothingRun(u, files, cur, true);
      assert fed[..0] == [] && fed[0..0] == [];
    } else {
      HoldsBack(u, files, cur, fed, t, a, n - 1);
      RunOne(u, files, cur, true, fed, n - 1);
      var c := if a <= n - 1 then a else n - 1;
      PassingStep(u, files, cur, fed[c..n - 1], fed[n - 1]);
      if n <= a {
        FileEventsOne(NewIrreversible, fed, 0, n - 1);
      } else {
        assert fed[a..n - 1] + [fed[n - 1]] == fed[a..n];
        assert FileEvents(NewIrreversible, fed[..a]) + [] == FileEvents(NewIrreversible, fed[..a]);
      }
    }
  }

  lemma NothingRun(u: Store, files: Store, cur: Cursor, passThrough: bool)
    requires FilesOk(u, files)
    ensures ResolverRun(u, files, cur, passThrough, []) == Outcome(START, [], None) && FileEvents(NewIrreversible, []) == []
  {
  }

  /**
   In passing through, the blocks up to the cursor's LIB come at once, and those up to the cursor's
   block when it comes; in the end every block fed has come once, in order, new and final.
   */
  lemma PassesThrough(u: Store, files: Store, cur: Cursor, fed: seq<Block>, t: nat, a: nat, n: nat)
    requires FilesOk(u, files) && Ascending(fed) && AboveLibFrom(cur, fed, a) && n <= |fed|
    requires t < |fed| && fed[t].AsRef() == cur.block && forall i | 0 <= i < t :: fed[i].id != cur.block.id
    requires cur.lib.num <= cur.block.num
    ensures var o := ResolverRun(u, files, cur, true, fed[..n]);
      o.error.None? && o.events == FileEvents(NewIrreversible, if n <= t && a <= n then fed[..a] else fed[..n])
  {
    hide ResolverRun, FileEvents, FilesOk, Ascending;
    if n <= t {
      HoldsBack(u, files, cur, fed, t, a, n);
    } else {
      Releases(u, files, cur, fed, t, a);
      GoesOn(u, files, cur, true, fed, t, n);
      FileEventsJoin(fed, t + 1, n);
    }
  }

  lemma Releases(u: Store, files: Store, cur: Cursor, fed: seq<Block>, t: nat, a: nat)
    requires FilesOk(u, files) && Ascending(fed) && AboveLibFrom(cur, fed, a)
    requires t < |fed| && fed[t].AsRef() == cur.block && forall i | 0 <= i < t :: fed[i].id != cur.block.id
    requires cur.lib.num <= cur.block.num
    ensures var o := ResolverRun(u, files, cur, true, fed[..t + 1]);
      o.error.None? && o.now.resolved && o.events == FileEvents(NewIrreversible, fed[..t + 1])
  {
    hide ResolverStep, ResolverRun, FilesOk, FileEvents, Between;
    HoldsBack(u, files, cur, fed, t, a, t);
    RunOne(u, files, cur, true, fed, t);
    var c := if a <= t then a else t;
    PassingStep(u, files, cur, fed[c..t], fed[t]);
    if t < a {
      FileEventsOne(NewIrreversible, fed, 0, t);
    } else {
      var seen := fed[a..t] + [fed[t]];
      assert seen == fed[a..t + 1];
      BetweenIs(seen, 0, |seen|, cur.lib.num, cur.block.num);
      FileEventsJoin(fed, a, t + 1);
    }
  }

  lemma FileEventsJoin(bs: seq<Block>, a: nat, n: nat)
    requires a <= n <= |bs|
    ensures FileEvents(NewIrreversible, bs[..a]) + FileEvents(NewIrreversible, bs[a..n]) == FileEvents(NewIrreversible, bs[..n])
  {
  }

  // What the events tell

  /** Undos name the cursor's LIB and head and the junction; everything else, being final, names itself. */
  ghost predicate FileTells(e: Event, cur: Cursor, junction: Option<Ref>) {
    if e.step == Undo then e.lib == cur.lib && e.head == cur.head && e.junction == junction
    else e.step in {Irreversible, NewIrreversible} && e.lib == e.head == e.block.AsRef() && e.junction == None
  }

  lemma {:induction false} JunctionIsParent(u: Store, files: Store, seen: seq<Block>, cur: Cursor, key: Id)
    requires FilesOk(u, files) && (forall x <- seen :: GoodBlock(u, x)) && Resolve(u, files, seen, cur, key).Ok?
    requires key in files ==> key == Truncate(cur.block.id) || files[key].num < cur.block.num
    requires Truncate(cur.block.id) in files ==> files[Truncate(cur.block.id)].num == cur.block.num
    ensures var f := Resolve(u, files, seen, cur, key).value;
      && f.junction in seen
      && (f.undos != [] ==> f.undos[|f.undos| - 1].parent == f.junction.id)
      && (f.undos == [] && SeenWith(seen, key).None? ==> key == Truncate(cur.block.id))
    decreases if key in files then files[key].num + 1 else 0
  {
    hide Truncate, HasSuffix;
    SeenWithIs(seen, key);
    if SeenWith(seen, key).None? {
      var b := files[key];
      var up := Truncate(b.parent);
      ParentFileIsLower(u, files, b);
      SeenWithIs(seen, up);
      JunctionIsParent(u, files, seen, cur, up);
      if SeenWith(seen, up).Some? {
        ParentTold(u, files, b, SeenWith(seen, up).value);
      }
    }
  }

  lemma {:induction false} SeenWithIs(seen: seq<Block>, suffix: Id)
    ensures SeenWith(seen, suffix).Some? ==> SeenWith(seen, suffix).value in seen && HasSuffix(SeenWith(seen, suffix).value.id, suffix)
    decreases |seen|
  {
    if seen != [] {
      SeenWithIs(seen[1..], suffix);
    }
  }

  lemma ParentTold(u: Store, files: Store, b: Block, x: Block)
    requires FilesOk(u, files) && GoodBlock(u, b) && GoodBlock(u, x) && HasSuffix(x.id, Truncate(b.parent))
    ensures x.id == b.parent
  {
  }

  /** What one block makes the resolver hand over: undos first, down to the junction they report, the rest final. */
  lemma ResolverTells(u: Store, files: Store, cur: Cursor, passThrough: bool, s: Progress, b: Block)
    returns (n: nat, junction: Option<Ref>)
    requires FilesOk(u, files) && (forall x <- s.seen + [b] :: GoodBlock(u, x))
    requires cur.block.id in u && u[cur.block.id].num == cur.block.num
    ensures var es := ResolverStep(u, files, cur, passThrough, s, b).events;
      && n <= |es| && (forall e <- es :: FileTells(e, cur, junction))
      && (forall e <- es[..n] :: e.step == Undo) && (forall e <- es[n..] :: e.step != Undo)
      && (n > 0 ==> exists x <- s.seen + [b] :: junction == Some(x.AsRef()) && es[n - 1].block.parent == x.id)
  {
    hide Resolve, Between, Truncate, FilesOk;
    var es := ResolverStep(u, files, cur, passThrough, s, b).events;
    var seen := s.seen + [b];
    n, junction := 0, None;
    if !s.resolved && !passThrough && cur.block.num <= b.num && b.id != cur.block.id {
      var r := Resolve(u, files, seen, cur, Truncate(cur.block.id));
      if r.Ok? {
        CursorFile(u, files, cur);
        JunctionIsParent(u, files, seen, cur, Truncate(cur.block.id));
        n, junction := |r.value.undos|, Some(r.value.junction.AsRef());
        ReconciledTells(seen, cur, r.value, b);
      }
    }
  }

  lemma CursorFile(u: Store, files: Store, cur: Cursor)
    requires FilesOk(u, files) && cur.block.id in u && u[cur.block.id].num == cur.block.num
    ensures Truncate(cur.block.id) in files ==> files[Truncate(cur.block.id)].num == cur.block.num
  {
    var key := Truncate(cur.block.id);
    if key in files {
      TruncateIsSuffix(files[key].id);
      assert HasSuffix(files[key].id, key);
    }
  }

  lemma ReconciledTells(seen: seq<Block>, cur: Cursor, f: Found, b: Block)
    ensures var es := Reconciled(seen, cur, f, b);
      var n, junction := |f.undos|, Some(f.junction.AsRef());
      && n <= |es| && (forall e <- es :: FileTells(e, cur, junction))
      && (forall i | 0 <= i < n :: es[i].step == Undo && es[i].block == f.undos[i])
      && (forall e <- es[..n] :: e.step == Undo) && (forall e <- es[n..] :: e.step != Undo)
  {
    hide Between;
    var undos := Emit(Undo, f.undos, cur.lib, cur.head, Some(f.junction.AsRef()));
    var rest := FileEvents(Irreversible, Between(seen, cur.lib.num, f.junction.num))
      + FileEvents(NewIrreversible, Between(seen, f.junction.num, b.num));
    assert Reconciled(seen, cur, f, b) == undos + rest;
    assert (undos + rest)[|f.undos|..] == rest;
  }
}
