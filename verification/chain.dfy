/** Blocks, references to blocks, and parent-linked paths. */
module Chain {

  datatype Option<+T> = None | Some(value: T)

  type Id = string

  datatype Ref = Ref(id: Id, num: nat)

  const EMPTY_REF := Ref("", 0)

  datatype Block = Block(id: Id, num: nat, parent: Id, libNum: nat) {
    function AsRef(): Ref { Ref(id, num) }
  }

  /** Blocks by id: what a ForkDB stores, and also the set of all blocks that exist. */
  type Store = map<Id, Block>

  /** An id determines its block, ids are not empty, and a parent is numbered below its child. */
  ghost predicate WellFormed(u: Store) {
    forall id <- u ::
      && u[id].id == id
      && id != "" && u[id].parent != "" && u[id].parent != id
      && u[id].libNum <= u[id].num
      && (u[id].parent in u ==> u[u[id].parent].num < u[id].num)
  }

  predicate GoodBlock(m: Store, b: Block) {
    b.id in m && m[b.id] == b
  }

  /** `m` holds some of the blocks of `u`. */
  ghost predicate Within(m: Store, u: Store) {
    forall id <- m :: id in u && m[id] == u[id]
  }

  /** The id that comes just before position `i` of a path that hangs off `root`. */
  function At(root: Id, p: seq<Block>, i: nat): Id
    requires i <= |p|
  {
    if i == 0 then root else p[i - 1].id
  }

  /** `p` is the parent-linked path of `m` from just above `root` up to `head`. */
  ghost predicate Linked(m: Store, root: Id, p: seq<Block>, head: Id)
    decreases |p|
  {
    if p == [] then head == root
    else
      var b := p[|p| - 1];
      b.id == head && head != root && head in m && m[head] == b && Linked(m, root, p[..|p| - 1], b.parent)
  }

  predicate InPath(id: Id, p: seq<Block>) {
    exists i | 0 <= i < |p| :: p[i].id == id
  }

  function Reverse(s: seq<Block>): (r: seq<Block>)
    ensures |r| == |s|
    ensures forall i | 0 <= i < |s| :: r[i] == s[|s| - 1 - i]
  {
    if s == [] then [] else [s[|s| - 1]] + Reverse(s[..|s| - 1])
  }

  lemma LinkedTop(m: Store, root: Id, p: seq<Block>, head: Id)
    requires p != [] && Linked(m, root, p, head)
    ensures var b := p[|p| - 1];
      GoodBlock(m, b) && b.id == head && p == p[..|p| - 1] + [b] && Linked(m, root, p[..|p| - 1], b.parent)
  {
  }

  lemma {:induction false} LinkedElements(m: Store, root: Id, p: seq<Block>, head: Id)
    requires Linked(m, root, p, head)
    ensures forall i | 0 <= i < |p| :: p[i].id in m && m[p[i].id] == p[i] && p[i].id != root
    ensures At(root, p, |p|) == head
    ensures p != [] ==> p[0].parent == root
    decreases |p|
  {
    if p != [] {
      LinkedElements(m, root, p[..|p| - 1], p[|p| - 1].parent);
    }
  }

  /** Two walks down from the same block agree for as long as both go on. */
  lemma {:induction false} WalksAgree(m: Store, r: Id, p: seq<Block>, r': Id, p': seq<Block>, head: Id)
    requires Linked(m, r, p, head) && Linked(m, r', p', head)
    requires |p| <= |p'|
    ensures p == p'[|p'| - |p|..]
    ensures r == At(r', p', |p'| - |p|)
    decreases |p|
  {
    if p == [] {
      LinkedElements(m, r', p', head);
    } else {
      WalksAgree(m, r, p[..|p| - 1], r', p'[..|p'| - 1], p[|p| - 1].parent);
    }
  }

  lemma LinkedUnique(m: Store, root: Id, p: seq<Block>, p': seq<Block>, head: Id)
    requires Linked(m, root, p, head) && Linked(m, root, p', head)
    ensures p == p'
  {
    var s, l := if |p| <= |p'| then p else p', if |p| <= |p'| then p' else p;
    if |s| < |l| {
      var below := l[|l| - |s| - 1];
      LinkedElements(m, root, l, head);
      assert below.id != root;
    }
    WalksAgree(m, root, s, root, l, head);
  }

  lemma {:induction false} LinkedPrefix(m: Store, root: Id, p: seq<Block>, k: nat, head: Id)
    requires k <= |p|
    requires Linked(m, root, p, head)
    ensures Linked(m, root, p[..k], At(root, p, k))
    decreases |p|
  {
    if k < |p| {
      LinkedPrefix(m, root, p[..|p| - 1], k, p[|p| - 1].parent);
      assert p[..|p| - 1][..k] == p[..k];
    } else {
      LinkedElements(m, root, p, head);
      assert p[..k] == p;
    }
  }

  lemma {:induction false} LinkedInStore(m: Store, m': Store, root: Id, p: seq<Block>, head: Id)
    requires Linked(m, root, p, head)
    requires forall i | 0 <= i < |p| :: p[i].id in m' && m'[p[i].id] == p[i]
    ensures Linked(m', root, p, head)
    decreases |p|
  {
    if p != [] {
      LinkedInStore(m, m', root, p[..|p| - 1], p[|p| - 1].parent);
    }
  }

  ghost predicate Ascending(p: seq<Block>) {
    forall i, j | 0 <= i < j < |p| :: p[i].num < p[j].num
  }

  /** Numbers go up along a path, from above the root's number when the root exists. */
  lemma {:induction false} LinkedAscending(u: Store, m: Store, root: Id, p: seq<Block>, head: Id)
    requires WellFormed(u) && Within(m, u) && Linked(m, root, p, head)
    ensures Ascending(p)
    ensures root in u ==> forall i | 0 <= i < |p| :: u[root].num < p[i].num
    decreases |p|
  {
    if p != [] {
      var q, b := p[..|p| - 1], p[|p| - 1];
      LinkedAscending(u, m, root, q, b.parent);
      LinkedElements(m, root, q, b.parent);
      assert q != [] ==> u[b.parent] == q[|q| - 1];
    }
  }

  lemma LinkedWithin(u: Store, m: Store, root: Id, p: seq<Block>, head: Id)
    requires Within(m, u) && Linked(m, root, p, head)
    ensures Linked(u, root, p, head)
  {
    LinkedElements(m, root, p, head);
    LinkedInStore(m, u, root, p, head);
  }

  lemma {:induction false} LinkedSuffix(u: Store, m: Store, root: Id, p: seq<Block>, k: nat, head: Id)
    requires k <= |p|
    requires WellFormed(u) && Within(m, u) && Linked(m, root, p, head)
    ensures Linked(m, At(root, p, k), p[k..], head)
    decreases |p|
  {
    if k < |p| {
      LinkedAscending(u, m, root, p, head);
      LinkedElements(m, root, p, head);
      LinkedSuffix(u, m, root, p[..|p| - 1], k, p[|p| - 1].parent);
      assert p[..|p| - 1][k..] == p[k..][..|p| - k - 1];
    } else {
      LinkedElements(m, root, p, head);
    }
  }

  lemma OnTop(m: Store, root: Id, p: seq<Block>, b: Block)
    requires Linked(m, root, p, b.parent) && GoodBlock(m, b) && b.id != root
    ensures Linked(m, root, p + [b], b.id)
  {
    assert (p + [b])[..|p|] == p;
  }

  /** A block on top of a path: numbers, or the store, tell it from the root. */
  lemma LinkedSnoc(u: Store, root: Id, p: seq<Block>, b: Block)
    requires WellFormed(u) && GoodBlock(u, b) && Linked(u, root, p, b.parent)
    ensures Linked(u, root, p + [b], b.id)
  {
    hide Linked;
    LinkedAscending(u, u, root, p, b.parent);
    LinkedElements(u, root, p, b.parent);
    assert root in u ==> b.parent in u;
    OnTop(u, root, p, b);
  }

  lemma {:induction false} LinkedConcat(u: Store, m: Store, root: Id, p: seq<Block>, mid: Id, q: seq<Block>, head: Id)
    requires WellFormed(u) && Within(m, u)
    requires Linked(m, root, p, mid) && Linked(m, mid, q, head)
    ensures Linked(m, root, p + q, head)
    decreases |q|
  {
    if q == [] {
      assert p + q == p;
    } else {
      LinkedConcat(u, m, root, p, mid, q[..|q| - 1], q[|q| - 1].parent);
      assert (p + q)[..|p + q| - 1] == p + q[..|q| - 1];
      LinkedAscending(u, m, mid, q, head);
      LinkedAscending(u, m, root, p, mid);
      LinkedElements(m, root, p, mid);
      assert p != [] && root in u ==> mid in u && u[root].num < u[mid].num;
    }
  }

  /** The path of `m` from just above `root` to `head`, when there is one. */
  ghost function PathTo(m: Store, root: Id, head: Id): (r: Option<seq<Block>>)
    ensures r.Some? ==> Linked(m, root, r.value, head)
    ensures r.None? ==> forall p :: !Linked(m, root, p, head)
  {
    if p :| Linked(m, root, p, head) then Some(p) else None
  }

  lemma PathToIs(m: Store, root: Id, p: seq<Block>, head: Id)
    requires Linked(m, root, p, head)
    ensures PathTo(m, root, head) == Some(p)
  {
    LinkedUnique(m, root, p, PathTo(m, root, head).value, head);
  }

  /** The id below the first block of `p`, where `head` itself counts for an empty path. */
  function RootOf(p: seq<Block>, head: Id): Id {
    if p == [] then head else p[0].parent
  }

  /** `p` is everything that `m` stores from `head` down: its root is not stored. */
  ghost predicate Complete(m: Store, p: seq<Block>, head: Id) {
    Linked(m, RootOf(p, head), p, head) && RootOf(p, head) !in m
  }

  lemma CompleteUnique(m: Store, p: seq<Block>, p': seq<Block>, head: Id)
    requires Complete(m, p, head) && Complete(m, p', head)
    ensures p == p'
  {
    var s, l := if |p| <= |p'| then p else p', if |p| <= |p'| then p' else p;
    if |s| < |l| {
      var below := l[|l| - |s| - 1];
      LinkedElements(m, RootOf(l, head), l, head);
      assert below.id in m;
    }
    WalksAgree(m, RootOf(s, head), s, RootOf(l, head), l, head);
  }

  ghost function CompletePath(u: Store, m: Store, head: Id): (p: seq<Block>)
    requires WellFormed(u) && Within(m, u)
    ensures Complete(m, p, head)
    decreases if head in m then m[head].num + 1 else 0
  {
    if head !in m then []
    else
      var below := CompletePath(u, m, m[head].parent);
      var p := below + [m[head]];
      assert RootOf(p, head) == RootOf(below, m[head].parent);
      assert p[..|p| - 1] == below;
      p
  }

  /** Blocks linked from `root` up to `head`, read from the bottom, perhaps round a cycle. */
  ghost predicate Walk(m: Store, root: Id, p: seq<Block>, head: Id)
    decreases |p|
  {
    if p == [] then root == head else GoodBlock(m, p[0]) && p[0].parent == root && Walk(m, p[0].id, p[1..], head)
  }

  lemma {:induction false} WalkTop(m: Store, root: Id, p: seq<Block>, head: Id)
    requires Walk(m, root, p, head) && p != []
    ensures var b := p[|p| - 1]; GoodBlock(m, b) && b.id == head && Walk(m, root, p[..|p| - 1], b.parent)
    decreases |p|
  {
    if |p| > 1 {
      WalkTop(m, p[0].id, p[1..], head);
      assert p[1..][..|p| - 2] == p[..|p| - 1][1..];
    }
  }

  lemma {:induction false} WalkStored(m: Store, root: Id, p: seq<Block>, head: Id)
    requires Walk(m, root, p, head)
    ensures forall i | 0 <= i < |p| :: GoodBlock(m, p[i])
    decreases |p|
  {
    if p != [] {
      WalkStored(m, p[0].id, p[1..], head);
      assert forall i | 0 < i < |p| :: p[i] == p[1..][i - 1];
    }
  }

  /** A walk that does not come back to its root is a path. */
  lemma {:induction false} WalkIsLinked(m: Store, root: Id, p: seq<Block>, head: Id)
    requires Walk(m, root, p, head) && forall i | 0 <= i < |p| :: p[i].id != root
    ensures Linked(m, root, p, head)
    decreases |p|
  {
    if p != [] {
      WalkTop(m, root, p, head);
      WalkIsLinked(m, root, p[..|p| - 1], p[|p| - 1].parent);
    }
  }

  lemma {:induction false} LinkedIsWalk(m: Store, root: Id, p: seq<Block>, head: Id)
    requires Linked(m, root, p, head)
    ensures Walk(m, root, p, head)
    decreases |p|
  {
    if p != [] {
      var q, b := p[..|p| - 1], p[|p| - 1];
      LinkedIsWalk(m, root, q, b.parent);
      WalkSnoc(m, root, q, b);
      assert q + [b] == p;
    }
  }

  lemma {:induction false} WalkSnoc(m: Store, root: Id, q: seq<Block>, b: Block)
    requires Walk(m, root, q, b.parent) && GoodBlock(m, b)
    ensures Walk(m, root, q + [b], b.id)
    decreases |q|
  {
    if q != [] {
      WalkSnoc(m, q[0].id, q[1..], b);
      assert (q + [b])[1..] == q[1..] + [b];
    }
  }

  /** A walk down from `head` stays on the complete path of `head`. */
  lemma {:induction false} WalkOnComplete(m: Store, x: Id, w: seq<Block>, p: seq<Block>, head: Id)
    requires Walk(m, x, w, head) && Complete(m, p, head)
    ensures |w| <= |p| && w == p[|p| - |w|..] && x == At(RootOf(p, head), p, |p| - |w|)
    decreases |w|
  {
    var root := RootOf(p, head);
    LinkedElements(m, root, p, head);
    if w != [] {
      WalkTop(m, x, w, head);
      LinkedTop(m, root, p, head);
      var n, k := |w| - 1, |p| - 1;
      assert RootOf(p[..k], p[k].parent) == root by {
        if k == 0 { LinkedElements(m, root, p[..k], p[k].parent); }
      }
      WalkOnComplete(m, x, w[..n], p[..k], p[k].parent);
      assert w == w[..n] + [w[n]] && p == p[..k] + [p[k]];
      assert p[..k][k - n..] + [p[k]] == p[k - n..];
    }
  }

  lemma IdsAreDistinct(m: Store, root: Id, p: seq<Block>, head: Id, i: nat, j: nat)
    requires Linked(m, root, p, head) && i < |p| && j < |p| && p[i].id == p[j].id
    ensures i == j
  {
    LinkedPrefix(m, root, p, i + 1, head);
    LinkedPrefix(m, root, p, j + 1, head);
    LinkedUnique(m, root, p[..i + 1], p[..j + 1], p[i].id);
    assert |p[..i + 1]| == i + 1 && |p[..j + 1]| == j + 1;
  }

  /** A walk that comes back on itself never ends: its start has no complete path. */
  lemma CycleHasNoEnd(m: Store, x: Id, w: seq<Block>, head: Id)
    requires Walk(m, x, w, head) && InPath(x, w)
    ensures forall p :: !Complete(m, p, head)
  {
    forall p | Complete(m, p, head) ensures false {
      WalkOnComplete(m, x, w, p, head);
      var j :| 0 <= j < |w| && w[j].id == x;
      var k := |p| - |w|;
      assert p[k + j] == w[j];
      LinkedElements(m, RootOf(p, head), p, head);
      if k > 0 {
        IdsAreDistinct(m, RootOf(p, head), p, head, k - 1, k + j);
      }
    }
  }
}
