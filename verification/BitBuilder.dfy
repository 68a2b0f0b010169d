/** The streaming bulk loader of index files (lsm_tree.c:135-361).

Entries fill a leaf; a full leaf takes the next position of the file, closes every level that it
completes, and is written last, when the position of the next leaf is known.  Nodes are staged in
a buffer that is flushed when it may not hold another round. */
module BitBuilder {
  import opened Common
  import opened Tables
  import opened BitTree
  import opened BitShape

  datatype Slot = Slot(node: Node, pos: nat)

  /// __bit_inner: the child references of one level.
  function Kids(slots: seq<Slot>): (r: seq<Child>)
    ensures |r| == |slots| && forall i :: 0 <= i < |slots| ==> r[i] == ChildOf(slots[i].node, slots[i].pos)
  {
    seq(|slots|, i requires 0 <= i < |slots| => ChildOf(slots[i].node, slots[i].pos))
  }

  function SizeOf(g: Geometry, n: Node): nat {
    if n.Leaf? then g.leafSize else g.innerSize
  }

  // ---------------------------------------------------------------- the unfinished tree

  /// The leaves of the unfinished trees, the tallest first.
  function Walk(s: Store, ctx: seq<seq<Slot>>, h: nat): seq<nat>
    requires h <= |ctx|
    decreases |ctx| - h
  {
    if h == |ctx| then [] else Walk(s, ctx, h + 1) + UnderAll(s, h, Kids(ctx[h]))
  }

  /// Level h lists sound trees of height h, and together they are all the leaves in order.
  ghost predicate Shaped(s: Store, ctx: seq<seq<Slot>>, chain: seq<nat>) {
    && (forall h :: 0 <= h < |ctx| ==> SoundAll(s, h, Kids(ctx[h])))
    && chain == Walk(s, ctx, 0)
  }

  /// Nodes lie between `start` and `end` and do not overlap.
  ghost predicate Packed(g: Geometry, s: Store, start: nat, end: nat) {
    && (forall p :: p in s ==> start <= p && p + SizeOf(g, s[p]) <= end)
    && (forall p, q :: p in s && q in s && p < q ==> p + SizeOf(g, s[p]) <= q)
  }

  lemma {:induction false} PackedAdd(g: Geometry, s: Store, start: nat, end: nat, n: Node)
    requires g.Valid() && Packed(g, s, start, end) && start <= end
    ensures end !in s && Packed(g, s[end := n], start, end + SizeOf(g, n)) && Agrees(s, s[end := n])
  {
  }

  lemma {:induction false} WalkFrame(s: Store, t: Store, ctx: seq<seq<Slot>>, h: nat)
    requires h <= |ctx| && (forall i :: 0 <= i < |ctx| ==> SoundAll(s, i, Kids(ctx[i]))) && Agrees(s, t)
    ensures forall i :: h <= i < |ctx| ==> SoundAll(t, i, Kids(ctx[i]))
    ensures Walk(t, ctx, h) == Walk(s, ctx, h)
    decreases |ctx| - h
  {
    if h < |ctx| {
      WalkFrame(s, t, ctx, h + 1);
      FrameAll(s, t, h, Kids(ctx[h]));
    }
  }

  /// Equal from level h on, and the same slots below: equal from the bottom.
  lemma {:induction false} WalkLower(s: Store, a: seq<seq<Slot>>, b: seq<seq<Slot>>, h: nat, l: nat)
    requires l <= h <= |a| == |b| && (forall i :: 0 <= i < h ==> a[i] == b[i]) && Walk(s, a, h) == Walk(s, b, h)
    ensures Walk(s, a, l) == Walk(s, b, l)
    decreases h - l
  {
    if l < h { WalkLower(s, a, b, h, l + 1); }
  }

  lemma {:induction false} WalkUpper(s: Store, a: seq<seq<Slot>>, b: seq<seq<Slot>>, h: nat)
    requires h <= |a| == |b| && (forall i :: h <= i < |a| ==> a[i] == b[i])
    ensures Walk(s, a, h) == Walk(s, b, h)
    decreases |a| - h
  {
    if h < |a| { WalkUpper(s, a, b, h + 1); }
  }

  lemma {:induction false} KidsAppend(slots: seq<Slot>, x: Slot)
    ensures Kids(slots + [x]) == Kids(slots) + [ChildOf(x.node, x.pos)]
  {
  }

  /// A new leaf joins the bottom level.
  lemma {:induction false} LeafJoins(s: Store, ctx: seq<seq<Slot>>, chain: seq<nat>, p: nat, leaf: Node)
    requires Shaped(s, ctx, chain) && |ctx| >= 1 && p !in s && leaf.Leaf? && leaf.es != []
    ensures Shaped(s[p := leaf], ctx[0 := ctx[0] + [Slot(leaf, p)]], chain + [p])
  {
    var t, ctx', c := s[p := leaf], ctx[0 := ctx[0] + [Slot(leaf, p)]], ChildOf(leaf, p);
    assert Agrees(s, t) && Sound(t, 0, c);
    assert ctx'[0] == ctx[0] + [Slot(leaf, p)];
    hide Sound, SoundAll, Agrees, Under, UnderAll, Walk;
    WalkFrame(s, t, ctx, 0);
    WalkUpper(t, ctx, ctx', 1);
    KidsAppend(ctx[0], Slot(leaf, p));
    JoinedWalk(t, ctx, ctx', c);
    forall i | 0 <= i < |ctx'| ensures SoundAll(t, i, Kids(ctx'[i])) {
      assert SoundAll(t, i, Kids(ctx[i]));
      if i == 0 {
        SoundAppend(t, Kids(ctx[0]), c);
      } else {
        assert ctx'[i] == ctx[i];
      }
    }
  }

  lemma {:induction false} SoundAppend(t: Store, cs: seq<Child>, c: Child)
    requires SoundAll(t, 0, cs) && Sound(t, 0, c)
    ensures SoundAll(t, 0, cs + [c])
  {
  }

  lemma {:induction false} JoinedWalk(t: Store, ctx: seq<seq<Slot>>, ctx': seq<seq<Slot>>, c: Child)
    requires 1 <= |ctx| == |ctx'| && Walk(t, ctx', 1) == Walk(t, ctx, 1) && Kids(ctx'[0]) == Kids(ctx[0]) + [c]
    ensures Walk(t, ctx', 0) == Walk(t, ctx, 0) + [c.pos]
  {
    UnderConcat(t, 0, Kids(ctx[0]), [c]);
    UnderOne(t, 0, c);
    var w, a := Walk(t, ctx, 1), UnderAll(t, 0, Kids(ctx[0]));
    assert w + (a + [c.pos]) == w + a + [c.pos];
  }

  /// The level above after a level is closed into one inner node.
  function Closed(ctx: seq<seq<Slot>>, h: nat, p: nat): seq<seq<Slot>>
    requires h + 1 < |ctx|
  {
    ctx[h + 1 := ctx[h + 1] + [Slot(Inner(Kids(ctx[h])), p)]][h := []]
  }

  /// Closing a level keeps the leaves and their order.
  lemma {:induction false} LevelCloses(s: Store, ctx: seq<seq<Slot>>, chain: seq<nat>, h: nat, p: nat)
    requires Shaped(s, ctx, chain) && h + 1 < |ctx| && ctx[h] != [] && p !in s
    ensures Shaped(s[p := Inner(Kids(ctx[h]))], Closed(ctx, h, p), chain)
  {
    var node := Inner(Kids(ctx[h]));
    var t, ctx', c := s[p := node], Closed(ctx, h, p), ChildOf(node, p);
    WalkFrame(s, t, ctx, 0);
    ClosedWalk(t, ctx, h, p);
    assert Sound(t, h + 1, c) && t == s[p := node];
    KidsAppend(ctx[h+1], Slot(node, p));
    assert ctx'[h+1] == ctx[h+1] + [Slot(node, p)];
    hide Sound, Agrees, Walk, Under, UnderAll;
    WalkLower(t, ctx, ctx', h, 0);
    forall i | 0 <= i < |ctx| ensures SoundAll(t, i, Kids(ctx'[i])) {
      assert SoundAll(t, i, Kids(ctx[i]));
      if i != h && i != h + 1 { assert ctx'[i] == ctx[i]; }
    }
  }

  lemma {:induction false} ClosedWalk(t: Store, ctx: seq<seq<Slot>>, h: nat, p: nat)
    requires h + 1 < |ctx| && p in t && t[p] == Inner(Kids(ctx[h]))
    ensures Walk(t, Closed(ctx, h, p), h) == Walk(t, ctx, h)
  {
    var node := Inner(Kids(ctx[h]));
    var ctx', c := Closed(ctx, h, p), ChildOf(node, p);
    WalkUpper(t, ctx, ctx', h + 2);
    KidsAppend(ctx[h+1], Slot(node, p));
    UnderConcat(t, h + 1, Kids(ctx[h+1]), [c]);
    UnderOne(t, h + 1, c);
    assert Under(t, h + 1, c) == UnderAll(t, h, Kids(ctx[h]));
    assert UnderAll(t, h, Kids([])) == [];
    var w, a, b := Walk(t, ctx, h + 2), UnderAll(t, h + 1, Kids(ctx[h+1])), UnderAll(t, h, Kids(ctx[h]));
    assert w + (a + b) + [] == w + a + b;
  }

  /// Rewriting a leaf with another link changes nothing in the shape.
  lemma {:induction false} Relinked(g: Geometry, s: Store, ctx: seq<seq<Slot>>, chain: seq<nat>, p: nat,
                                    es: seq<Entry>, a: nat, b: nat, start: nat, end: nat)
    requires s[p := Leaf(es, a)] == s && Shaped(s, ctx, chain) && Packed(g, s, start, end)
    ensures Shaped(s[p := Leaf(es, b)], ctx, chain) && Packed(g, s[p := Leaf(es, b)], start, end)
  {
    var t := s[p := Leaf(es, b)];
    assert s[p] == Leaf(es, a);
    assert Agrees(s, t);
    WalkFrame(s, t, ctx, 0);
    assert Packed(g, t, start, end) by { hide Shaped, Walk, Sound, Agrees; }
  }

  // ---------------------------------------------------------------- counting nodes

  /// `cnt[j]` nodes of level j were made; those not in `lens[j]` are children of the next level.
  ghost predicate Counted(degree: nat, lens: seq<nat>, cnt: seq<nat>) {
    && |lens| == |cnt| >= 1
    && (forall j :: 0 <= j < |cnt| - 1 ==> cnt[j] == degree * cnt[j+1] + lens[j])
    && cnt[|cnt|-1] == lens[|cnt|-1]
  }

  /// No level has more nodes than a full tree.
  ghost predicate Bounded(degree: nat, cnt: seq<nat>) {
    forall j :: 0 <= j < |cnt| ==> cnt[j] <= Pow(degree, |cnt| - 1 - j)
  }

  function Lens(ctx: seq<seq<Slot>>): (r: seq<nat>)
    ensures |r| == |ctx| && forall i :: 0 <= i < |ctx| ==> r[i] == |ctx[i]|
  {
    seq(|ctx|, i requires 0 <= i < |ctx| => |ctx[i]|)
  }

  /// Closing a non-empty level h of at most `degree` nodes keeps the bound; above h the account stays exact.
  lemma {:induction false} CloseCount(degree: nat, lens: seq<nat>, cnt: seq<nat>, h: nat)
    requires degree >= 2 && |lens| == |cnt| && h + 1 < |cnt| && Bounded(degree, cnt)
    requires forall j :: h <= j < |cnt| - 1 ==> cnt[j] == degree * cnt[j+1] + lens[j]
    requires cnt[|cnt|-1] == lens[|cnt|-1] && 1 <= lens[h] <= degree
    ensures var lens', cnt' := lens[h+1 := lens[h+1] + 1][h := 0], cnt[h+1 := cnt[h+1] + 1];
      && Bounded(degree, cnt')
      && (forall j :: h + 1 <= j < |cnt| - 1 ==> cnt'[j] == degree * cnt'[j+1] + lens'[j])
      && cnt'[|cnt|-1] == lens'[|cnt|-1]
      && (lens[h] == degree ==> cnt'[h] == degree * cnt'[h+1] + lens'[h])
  {
    var m := |cnt| - 1 - h;
    assert Pow(degree, m) == degree * Pow(degree, m - 1);
    assert degree * cnt[h+1] < degree * Pow(degree, m - 1);
    LessByFactor(degree, cnt[h+1], Pow(degree, m - 1));
    assert degree * (cnt[h+1] + 1) == degree * cnt[h+1] + degree;
    hide Pow;
  }

  lemma {:induction false} LessByFactor(d: nat, a: nat, b: nat)
    requires d * a < d * b
    ensures a < b
  {
    ScaleIf(d, b, a);
  }

  lemma {:induction false} ScaleIf(d: nat, a: nat, b: nat)
    ensures a <= b ==> d * a <= d * b
  {
    if a <= b { Scale(d, a, b); }
  }

  /// A tree that is not full at the bottom has no root yet.
  lemma {:induction false} NoRootYet(degree: nat, lens: seq<nat>, cnt: seq<nat>, j: nat)
    requires Counted(degree, lens, cnt) && degree >= 1 && j < |cnt|
    ensures Pow(degree, j) * cnt[j] <= cnt[0]
  {
    if j > 0 {
      NoRootYet(degree, lens, cnt, j - 1);
      assert cnt[j-1] == degree * cnt[j] + lens[j-1];
      assert Pow(degree, j) == degree * Pow(degree, j - 1);
      hide *;
      Transfer(Pow(degree, j - 1), degree, cnt[j], cnt[j-1], cnt[0]);
    }
  }

  lemma {:induction false} Transfer(q: nat, d: nat, x: nat, y: nat, c: nat)
    requires d * x <= y && q * y <= c
    ensures d * q * x <= c
  {
    Scale(q, d * x, y);
    assert q * (d * x) == d * q * x;
  }

  /// Total of cnt[j..].
  ghost function SumFrom(cnt: seq<nat>, j: nat): nat
    requires j <= |cnt|
    decreases |cnt| - j
  {
    if j == |cnt| then 0 else cnt[j] + SumFrom(cnt, j + 1)
  }

  lemma {:induction false} SumUpdate(cnt: seq<nat>, j: nat, i: nat)
    requires j <= |cnt| && i < |cnt|
    ensures SumFrom(cnt[i := cnt[i] + 1], j) == SumFrom(cnt, j) + if i >= j then 1 else 0
    decreases |cnt| - j
  {
    if j < |cnt| { SumUpdate(cnt, j + 1, i); }
  }

  lemma {:induction false} SumBound(degree: nat, cnt: seq<nat>, j: nat)
    requires Bounded(degree, cnt) && j <= |cnt|
    ensures SumFrom(cnt, j) <= Geo(degree, |cnt| - j)
    decreases |cnt| - j
  {
    if j < |cnt| { SumBound(degree, cnt, j + 1); }
  }

  /// Bytes written for `cnt`.
  ghost function Bytes(g: Geometry, cnt: seq<nat>): nat
    requires |cnt| >= 1
  {
    cnt[0] * g.leafSize + SumFrom(cnt, 1) * g.innerSize
  }

  lemma {:induction false} BytesFit(g: Geometry, cnt: seq<nat>)
    requires g.Valid() && |cnt| == g.height && Bounded(g.degree, cnt) && cnt[0] <= NrLeaf(g.capacity, g.leafLen)
    ensures Bytes(g, cnt) <= g.BitSize()
  {
    assert g.height >= 2;
    hide *;
    BytesAre(g, cnt);
    SumBound(g.degree, cnt, 1);
    Scale(g.leafSize, cnt[0], NrLeaf(g.capacity, g.leafLen));
    Scale(g.innerSize, SumFrom(cnt, 1), Geo(g.degree, g.height - 1));
  }

  lemma {:induction false} BytesAre(g: Geometry, cnt: seq<nat>)
    requires g.Valid() && |cnt| >= 1
    ensures g.height >= 2 && g.leafLen >= 1
    ensures Bytes(g, cnt) == g.leafSize * cnt[0] + g.innerSize * SumFrom(cnt, 1)
    ensures g.BitSize() == g.innerSize * Geo(g.degree, g.height - 1) + g.leafSize * NrLeaf(g.capacity, g.leafLen)
  {
    hide IsHeight, NrLeaf, Geo, Pow, SumFrom;
    assert cnt[0] * g.leafSize == g.leafSize * cnt[0];
    assert SumFrom(cnt, 1) * g.innerSize == g.innerSize * SumFrom(cnt, 1);
  }

  // ---------------------------------------------------------------- the leaf chain

  /// Leaf i holds piece i and links to leaf i + 1; the last one links to `end`, where the next goes.
  ghost predicate Chained(l: nat, s: Store, chain: seq<nat>, es: seq<Entry>, end: nat) {
    forall i :: 0 <= i < |chain| ==> chain[i] in s && s[chain[i]] == Leaf(Piece(l, es, i), Link(chain, i, end))
  }

  /// Where leaf `i` points.
  function Link(chain: seq<nat>, i: nat, end: nat): nat {
    if i + 1 < |chain| then chain[i+1] else end
  }

  lemma {:induction false} PieceEnd(l: nat, es: seq<Entry>, n: nat)
    requires l * n == |es|
    ensures Piece(l, es, n) == []
  {
    Scale(l, n, n + 1);
  }

  lemma {:induction false} PieceAppend(l: nat, es: seq<Entry>, e: Entry, i: nat)
    requires l * (i + 1) <= |es|
    ensures Piece(l, es + [e], i) == Piece(l, es, i)
  {
    Scale(l, i, i + 1);
  }

  lemma {:induction false} ChainedAppend(l: nat, s: Store, chain: seq<nat>, es: seq<Entry>, end: nat, e: Entry)
    requires Chained(l, s, chain, es, end) && l * |chain| <= |es|
    ensures Chained(l, s, chain, es + [e], end)
  {
    forall i | 0 <= i < |chain| ensures Piece(l, es + [e], i) == Piece(l, es, i) {
      Scale(l, i + 1, |chain|);
      PieceAppend(l, es, e, i);
    }
    hide Piece;
  }

  /// The chained leaves spell out the entries.
  lemma {:induction false} ChainText(l: nat, s: Store, chain: seq<nat>, es: seq<Entry>)
    requires forall i :: 0 <= i < |chain| ==> LeafText(s, chain[i]) == Piece(l, es, i)
    ensures Text(s, chain) == es[..Min(l * |chain|, |es|)]
  {
    if chain == [] {
      assert l * 0 == 0;
    } else {
      var n := |chain| - 1;
      assert forall i :: 0 <= i < n ==> chain[..n][i] == chain[i];
      assert LeafText(s, chain[n]) == Piece(l, es, n);
      hide Piece, LeafText;
      ChainText(l, s, chain[..n], es);
      PieceExtends(l, es, n);
    }
  }

  lemma {:induction false} PieceExtends(l: nat, es: seq<Entry>, n: nat)
    ensures es[..Min(l * n, |es|)] + Piece(l, es, n) == es[..Min(l * (n + 1), |es|)]
  {
    Scale(l, n, n + 1);
  }

  // ---------------------------------------------------------------- the builder between two entries

  /// Once there is a root it is alone in the tree, and it is the last thing written.
  ghost predicate RootDone(g: Geometry, ctx: seq<seq<Slot>>, end: nat) {
    var top := |ctx| - 1;
    top >= 0 && ctx[top] != [] ==>
      |ctx[top]| == 1 && ctx[top][0].pos + g.innerSize == end && forall j :: 0 <= j < top ==> ctx[j] == []
  }

  ghost predicate Ready(g: Geometry, s: Store, ctx: seq<seq<Slot>>, chain: seq<nat>, cnt: seq<nat>,
                        es: seq<Entry>, start: nat, end: nat) {
    && g.Valid() && |ctx| == |cnt| == g.height
    && Shaped(s, ctx, chain) && Packed(g, s, start, end) && Chained(g.leafLen, s, chain, es, end)
    && Counted(g.degree, Lens(ctx), cnt) && Bounded(g.degree, cnt) && cnt[0] == |chain|
    && (forall h :: 0 <= h < |ctx| - 1 ==> |ctx[h]| < g.degree)
    && end == start + Bytes(g, cnt) && RootDone(g, ctx, end)
    && g.leafLen * |chain| <= |es| <= g.capacity
  }

  /// While levels are closed after a leaf: levels below h are empty, level h may be full.
  ghost predicate Cascading(g: Geometry, s: Store, ctx: seq<seq<Slot>>, chain: seq<nat>, cnt: seq<nat>,
                            start: nat, end: nat, h: nat) {
    && g.Valid() && |ctx| == |cnt| == g.height && h < g.height
    && Shaped(s, ctx, chain) && Packed(g, s, start, end)
    && Counted(g.degree, Lens(ctx), cnt) && Bounded(g.degree, cnt) && cnt[0] == |chain|
    && (forall j :: 0 <= j < h ==> ctx[j] == [])
    && (forall j :: h < j < |ctx| - 1 ==> |ctx[j]| < g.degree)
    && |ctx[h]| <= g.degree && end == start + Bytes(g, cnt)
    && (if h < |ctx| - 1 then ctx[|ctx|-1] == [] else RootDone(g, ctx, end))
  }

  lemma {:induction false} BytesLeaf(g: Geometry, cnt: seq<nat>)
    requires |cnt| >= 1
    ensures Bytes(g, cnt[0 := cnt[0] + 1]) == Bytes(g, cnt) + g.leafSize
  {
    SumUpdate(cnt, 1, 0);
    assert (cnt[0] + 1) * g.leafSize == cnt[0] * g.leafSize + g.leafSize;
  }

  lemma {:induction false} BytesInner(g: Geometry, cnt: seq<nat>, j: nat)
    requires 1 <= j < |cnt|
    ensures Bytes(g, cnt[j := cnt[j] + 1]) == Bytes(g, cnt) + g.innerSize
  {
    SumUpdate(cnt, 1, j);
    var n := SumFrom(cnt, 1);
    assert (n + 1) * g.innerSize == n * g.innerSize + g.innerSize;
  }

  /// With a whole leaf still to come, the tree has no root and its bottom level has a free place.
  lemma {:induction false} LeafRoom(g: Geometry, lens: seq<nat>, cnt: seq<nat>, n: nat)
    requires g.Valid() && |cnt| == g.height && Counted(g.degree, lens, cnt)
    requires g.leafLen * cnt[0] < n <= g.capacity
    ensures cnt[0] + 1 <= NrLeaf(n, g.leafLen) <= NrLeaf(g.capacity, g.leafLen) <= Pow(g.degree, g.height - 1)
    ensures lens[|lens|-1] == 0
  {
    var top := g.height - 1;
    var q := Pow(g.degree, top);
    LeafBound(g, n);
    CeilBounds(n, g.leafLen);
    ScaleIf(g.leafLen, NrLeaf(n, g.leafLen), cnt[0]);
    NoRootYet(g.degree, lens, cnt, top);
    assert q * cnt[top] <= cnt[0] < q;
    if cnt[top] >= 1 { Scale(q, 1, cnt[top]); }
  }

  // ---------------------------------------------------------------- the steps of closing a leaf

  lemma {:induction false} LeafCount(g: Geometry, lens: seq<nat>, cnt: seq<nat>)
    requires |cnt| == g.height >= 2 && Counted(g.degree, lens, cnt) && Bounded(g.degree, cnt)
    requires cnt[0] + 1 <= Pow(g.degree, g.height - 1)
    ensures Counted(g.degree, lens[0 := lens[0] + 1], cnt[0 := cnt[0] + 1])
    ensures Bounded(g.degree, cnt[0 := cnt[0] + 1])
  {
    hide Pow;
  }

  lemma {:induction false} LensUpdate(ctx: seq<seq<Slot>>, h: nat, slots: seq<Slot>)
    requires h < |ctx|
    ensures Lens(ctx[h := slots]) == Lens(ctx)[h := |slots|]
  {
  }

  lemma {:induction false} ReadyParts(g: Geometry, s: Store, ctx: seq<seq<Slot>>, chain: seq<nat>, cnt: seq<nat>,
                                      es: seq<Entry>, start: nat, end: nat)
    requires Ready(g, s, ctx, chain, cnt, es, start, end)
    ensures g.Valid() && g.height >= 2 && g.leafLen >= 1 && |ctx| == |cnt| == g.height && Shaped(s, ctx, chain) && Packed(g, s, start, end)
    ensures Counted(g.degree, Lens(ctx), cnt) && Bounded(g.degree, cnt) && cnt[0] == |chain|
    ensures forall h :: 0 <= h < |ctx| - 1 ==> |ctx[h]| < g.degree
    ensures start <= end == start + Bytes(g, cnt) && g.leafLen * |chain| <= |es| <= g.capacity
    ensures Chained(g.leafLen, s, chain, es, end) && RootDone(g, ctx, end)
  {
  }

  /// A leaf takes the next position.
  lemma {:induction false} BeginCascade(g: Geometry, s: Store, ctx: seq<seq<Slot>>, chain: seq<nat>, cnt: seq<nat>,
                                        es: seq<Entry>, start: nat, end: nat, leaf: Node, n: nat)
    requires Ready(g, s, ctx, chain, cnt, es, start, end) && leaf.Leaf? && leaf.es != []
    requires |ctx| >= 1 && |cnt| >= 1 && g.leafLen * |chain| < n <= g.capacity
    ensures end !in s
    ensures Cascading(g, s[end := leaf], ctx[0 := ctx[0] + [Slot(leaf, end)]], chain + [end], cnt[0 := cnt[0] + 1],
                      start, end + g.leafSize, 0)
  {
    hide *;
    ReadyParts(g, s, ctx, chain, cnt, es, start, end);
    PackedAdd(g, s, start, end, leaf);
    LeafSize(g, leaf);
    LeafJoins(s, ctx, chain, end, leaf);
    LeafRoom(g, Lens(ctx), cnt, n);
    LeafCount(g, Lens(ctx), cnt);
    LensUpdate(ctx, 0, ctx[0] + [Slot(leaf, end)]);
    BytesLeaf(g, cnt);
    CascadeStarts(g, s[end := leaf], ctx, ctx[0] + [Slot(leaf, end)], chain + [end], cnt[0 := cnt[0] + 1], start, end + g.leafSize);
  }

  lemma {:induction false} LeafSize(g: Geometry, n: Node)
    ensures SizeOf(g, n) == if n.Leaf? then g.leafSize else g.innerSize
  {
  }

  lemma {:induction false} CascadeStarts(g: Geometry, s: Store, ctx: seq<seq<Slot>>, slots: seq<Slot>, chain: seq<nat>,
                                         cnt: seq<nat>, start: nat, end: nat)
    requires g.Valid() && |ctx| == |cnt| == g.height >= 2 && |slots| == |ctx[0]| + 1
    requires Shaped(s, ctx[0 := slots], chain) && Packed(g, s, start, end)
    requires Counted(g.degree, Lens(ctx)[0 := |slots|], cnt) && Bounded(g.degree, cnt) && cnt[0] == |chain|
    requires Lens(ctx[0 := slots]) == Lens(ctx)[0 := |slots|]
    requires forall h :: 0 <= h < |ctx| - 1 ==> |ctx[h]| < g.degree
    requires Lens(ctx)[|ctx|-1] == 0 && end == start + Bytes(g, cnt)
    ensures Cascading(g, s, ctx[0 := slots], chain, cnt, start, end, 0)
  {
    hide Shaped, Packed, Counted, Bounded, Bytes, RootDone;
  }

  lemma {:induction false} CascadeParts(g: Geometry, s: Store, ctx: seq<seq<Slot>>, chain: seq<nat>, cnt: seq<nat>,
                                        start: nat, end: nat, h: nat)
    requires Cascading(g, s, ctx, chain, cnt, start, end, h)
    ensures g.Valid() && g.degree >= 2 && |ctx| == |cnt| == g.height >= 2 && h < g.height
    ensures Shaped(s, ctx, chain) && Packed(g, s, start, end)
    ensures Counted(g.degree, Lens(ctx), cnt) && Bounded(g.degree, cnt) && cnt[0] == |chain|
    ensures forall j :: 0 <= j < h ==> ctx[j] == []
    ensures forall j :: h < j < |ctx| - 1 ==> |ctx[j]| < g.degree
    ensures |ctx[h]| <= g.degree && start <= end == start + Bytes(g, cnt)
    ensures if h < |ctx| - 1 then ctx[|ctx|-1] == [] else RootDone(g, ctx, end) && |ctx[h]| <= 1
  {
    var top := |cnt| - 1;
    assert cnt[top] <= Pow(g.degree, 0) == 1;
    hide Shaped, Packed, Bytes, RootDone;
  }

  /// A full level is closed.
  lemma {:induction false} CascadeStep(g: Geometry, s: Store, ctx: seq<seq<Slot>>, chain: seq<nat>, cnt: seq<nat>,
                                       start: nat, end: nat, h: nat)
    requires Cascading(g, s, ctx, chain, cnt, start, end, h) && h < |ctx| && |ctx[h]| == g.degree
    ensures h + 1 < |ctx| == |cnt| && end !in s && |Closed(ctx, h, end)| == |ctx|
    ensures Cascading(g, s[end := Inner(Kids(ctx[h]))], Closed(ctx, h, end), chain, cnt[h+1 := cnt[h+1] + 1],
                      start, end + g.innerSize, h + 1)
  {
    hide *;
    CascadeParts(g, s, ctx, chain, cnt, start, end, h);
    var node := Inner(Kids(ctx[h]));
    PackedAdd(g, s, start, end, node);
    LeafSize(g, node);
    LevelCloses(s, ctx, chain, h, end);
    CountedParts(g.degree, Lens(ctx), cnt);
    CloseCount(g.degree, Lens(ctx), cnt, h);
    ClosedLens(ctx, h, end);
    StillCounted(g.degree, Lens(ctx), cnt, h);
    BytesInner(g, cnt, h + 1);
    ClosedCtx(ctx, h, end);
    CascadeMoves(g, s[end := node], ctx, Closed(ctx, h, end), chain, cnt[h+1 := cnt[h+1] + 1], start, end, h);
  }

  lemma {:induction false} CountedParts(degree: nat, lens: seq<nat>, cnt: seq<nat>)
    requires Counted(degree, lens, cnt)
    ensures |lens| == |cnt| >= 1 && cnt[|cnt|-1] == lens[|cnt|-1]
    ensures forall j :: 0 <= j < |cnt| - 1 ==> cnt[j] == degree * cnt[j+1] + lens[j]
  {
  }

  lemma {:induction false} StillCounted(degree: nat, lens: seq<nat>, cnt: seq<nat>, h: nat)
    requires Counted(degree, lens, cnt) && h + 1 < |cnt| && lens[h] == degree
    requires var lens', cnt' := lens[h+1 := lens[h+1] + 1][h := 0], cnt[h+1 := cnt[h+1] + 1];
      && (forall j :: h + 1 <= j < |cnt| - 1 ==> cnt'[j] == degree * cnt'[j+1] + lens'[j])
      && cnt'[|cnt|-1] == lens'[|cnt|-1] && cnt'[h] == degree * cnt'[h+1] + lens'[h]
    ensures Counted(degree, lens[h+1 := lens[h+1] + 1][h := 0], cnt[h+1 := cnt[h+1] + 1])
  {
  }

  lemma {:induction false} ClosedLens(ctx: seq<seq<Slot>>, h: nat, p: nat)
    requires h + 1 < |ctx|
    ensures Lens(Closed(ctx, h, p)) == Lens(ctx)[h+1 := Lens(ctx)[h+1] + 1][h := 0]
  {
  }

  lemma {:induction false} ClosedCtx(ctx: seq<seq<Slot>>, h: nat, p: nat)
    requires h + 1 < |ctx|
    ensures var c := Closed(ctx, h, p);
      && |c| == |ctx| && c[h] == [] && |c[h+1]| == |ctx[h+1]| + 1 && c[h+1][|ctx[h+1]|].pos == p
      && (forall j :: 0 <= j < |ctx| && j != h && j != h + 1 ==> c[j] == ctx[j])
  {
  }

  lemma {:induction false} CascadeMoves(g: Geometry, s: Store, ctx: seq<seq<Slot>>, ctx': seq<seq<Slot>>, chain: seq<nat>,
                                        cnt: seq<nat>, start: nat, end: nat, h: nat)
    requires g.Valid() && |ctx| == |ctx'| == |cnt| == g.height && h + 1 < g.height
    requires Shaped(s, ctx', chain) && Packed(g, s, start, end + g.innerSize)
    requires Counted(g.degree, Lens(ctx'), cnt) && Bounded(g.degree, cnt) && cnt[0] == |chain|
    requires end + g.innerSize == start + Bytes(g, cnt)
    requires ctx'[h] == [] && |ctx'[h+1]| == |ctx[h+1]| + 1 && ctx'[h+1][|ctx[h+1]|].pos == end
    requires forall j :: 0 <= j < |ctx| && j != h && j != h + 1 ==> ctx'[j] == ctx[j]
    requires forall j :: 0 <= j < h ==> ctx[j] == []
    requires forall j :: h < j < |ctx| - 1 ==> |ctx[j]| < g.degree
    requires ctx[|ctx|-1] == []
    ensures Cascading(g, s, ctx', chain, cnt, start, end + g.innerSize, h + 1)
  {
    hide Shaped, Packed, Counted, Bounded, Bytes;
  }

  /// No level is full: the leaf is written with its link, and the builder is ready again.
  lemma {:induction false} EndCascade(g: Geometry, s0: Store, chain0: seq<nat>, s: Store, ctx: seq<seq<Slot>>, cnt: seq<nat>,
                                      es: seq<Entry>, start: nat, p: nat, end: nat, h: nat, leaf: Node)
    requires Cascading(g, s, ctx, chain0 + [p], cnt, start, end, h) && h < |ctx| && |ctx[h]| < g.degree
    requires Chained(g.leafLen, s0, chain0, es, p) && p !in s0 && (forall q :: q in s0 ==> q in s && s[q] == s0[q])
    requires leaf == Leaf(Piece(g.leafLen, es, |chain0|), 0) && p in s && s[p] == leaf
    requires g.leafLen * (|chain0| + 1) == |es| <= g.capacity
    ensures Ready(g, s[p := Leaf(leaf.es, end)], ctx, chain0 + [p], cnt, es, start, end)
  {
    hide *;
    CascadeParts(g, s, ctx, chain0 + [p], cnt, start, end, h);
    assert s[p := Leaf(leaf.es, 0)] == s;
    Relinked(g, s, ctx, chain0 + [p], p, leaf.es, 0, end, start, end);
    ChainGrows(g.leafLen, s0, s[p := Leaf(leaf.es, end)], chain0, es, p, end);
    RootKept(g, ctx, end, h);
    ReadyAgain(g, s[p := Leaf(leaf.es, end)], ctx, chain0 + [p], cnt, es, start, end, h);
  }

  lemma {:induction false} ChainGrows(l: nat, s0: Store, t: Store, chain: seq<nat>, es: seq<Entry>, p: nat, end: nat)
    requires Chained(l, s0, chain, es, p) && p !in s0 && (forall q :: q in s0 ==> q in t && t[q] == s0[q])
    requires p in t && t[p] == Leaf(Piece(l, es, |chain|), end)
    ensures Chained(l, t, chain + [p], es, end)
  {
    var c := chain + [p];
    forall i | 0 <= i < |c| ensures c[i] in t && t[c[i]] == Leaf(Piece(l, es, i), Link(c, i, end)) {
      if i < |chain| {
        assert c[i] == chain[i] && s0[chain[i]] == t[chain[i]];
        assert Link(c, i, end) == Link(chain, i, p);
      } else {
        assert i == |chain| && c[i] == p;
      }
    }
  }

  lemma {:induction false} RootKept(g: Geometry, ctx: seq<seq<Slot>>, end: nat, h: nat)
    requires h < |ctx| && if h < |ctx| - 1 then ctx[|ctx|-1] == [] else RootDone(g, ctx, end)
    ensures RootDone(g, ctx, end)
  {
  }

  lemma {:induction false} ReadyAgain(g: Geometry, s: Store, ctx: seq<seq<Slot>>, chain: seq<nat>, cnt: seq<nat>,
                                      es: seq<Entry>, start: nat, end: nat, h: nat)
    requires g.Valid() && |ctx| == |cnt| == g.height && h < g.height
    requires Shaped(s, ctx, chain) && Packed(g, s, start, end) && Chained(g.leafLen, s, chain, es, end)
    requires Counted(g.degree, Lens(ctx), cnt) && Bounded(g.degree, cnt) && cnt[0] == |chain|
    requires (forall j :: 0 <= j < h ==> ctx[j] == []) && |ctx[h]| < g.degree
    requires forall j :: h < j < |ctx| - 1 ==> |ctx[j]| < g.degree
    requires end == start + Bytes(g, cnt) && RootDone(g, ctx, end) && g.leafLen * |chain| <= |es| <= g.capacity
    ensures Ready(g, s, ctx, chain, cnt, es, start, end)
  {
    hide Shaped, Packed, Counted, Bounded, Bytes, RootDone, Chained;
  }

  // ---------------------------------------------------------------- completing a file

  /// A finished file: a sound tree of the right height whose leaves, in order, hold the entries, are
  /// linked to each other, and lie with the inner nodes inside the space of one file.
  ghost predicate FileHolds(g: Geometry, s: Store, root: nat, es: seq<Entry>, chain: seq<nat>, start: nat) {
    && g.Valid() && root in s && s[root].Inner? && Sound(s, g.height - 1, ChildOf(s[root], root))
    && chain == Under(s, g.height - 1, ChildOf(s[root], root))
    && Text(s, chain) == es && Linked(g.leafLen, s, chain, es)
    && Packed(g, s, start, start + g.BitSize())
  }

  ghost predicate Linked(l: nat, s: Store, chain: seq<nat>, es: seq<Entry>) {
    && l * |chain| >= |es|
    && (forall i :: 0 <= i < |chain| ==> LeafText(s, chain[i]) == Piece(l, es, i))
    && (forall i :: 0 <= i < |chain| - 1 ==> chain[i] in s && s[chain[i]].Leaf? && s[chain[i]].next == chain[i+1])
  }

  /// While the remaining levels are closed: levels below h are empty, and only the last step makes a root.
  ghost predicate Finishing(g: Geometry, s: Store, ctx: seq<seq<Slot>>, chain: seq<nat>, cnt: seq<nat>,
                            start: nat, end: nat, h: nat) {
    && g.Valid() && |ctx| == |cnt| == g.height && h < g.height && chain != []
    && Shaped(s, ctx, chain) && Packed(g, s, start, end)
    && Bounded(g.degree, cnt) && cnt[0] == |chain|
    && (forall j :: h <= j < |cnt| - 1 ==> cnt[j] == g.degree * cnt[j+1] + |ctx[j]|)
    && cnt[|cnt|-1] == |ctx[|cnt|-1]|
    && (forall j :: 0 <= j < h ==> ctx[j] == [])
    && (forall j :: h < j < |ctx| - 1 ==> |ctx[j]| < g.degree)
    && |ctx[h]| <= g.degree && end == start + Bytes(g, cnt)
    && (if h < |ctx| - 1 then ctx[|ctx|-1] == []
        else |ctx[h]| == 1 && ctx[h][0].pos + g.innerSize == end)
  }

  lemma {:induction false} BeginFinish(g: Geometry, s: Store, ctx: seq<seq<Slot>>, chain: seq<nat>, cnt: seq<nat>,
                                       start: nat, end: nat)
    requires Cascading(g, s, ctx, chain, cnt, start, end, 0) && chain != []
    ensures Finishing(g, s, ctx, chain, cnt, start, end, 0)
  {
    CascadeParts(g, s, ctx, chain, cnt, start, end, 0);
    CountedParts(g.degree, Lens(ctx), cnt);
    hide Cascading, Shaped, Packed, Bounded, Counted, Bytes, RootDone;
  }

  lemma {:induction false} ReadyToFinish(g: Geometry, s: Store, ctx: seq<seq<Slot>>, chain: seq<nat>, cnt: seq<nat>,
                                         es: seq<Entry>, start: nat, end: nat)
    requires Ready(g, s, ctx, chain, cnt, es, start, end) && chain != [] && |ctx| >= 1 && ctx[|ctx|-1] == []
    ensures Finishing(g, s, ctx, chain, cnt, start, end, 0)
  {
    ReadyParts(g, s, ctx, chain, cnt, es, start, end);
    CountedParts(g.degree, Lens(ctx), cnt);
    hide Ready, Shaped, Packed, Bounded, Counted, Bytes, RootDone, Chained;
  }

  lemma {:induction false} EmptyWalk(s: Store, ctx: seq<seq<Slot>>, h: nat)
    requires h <= |ctx| && forall j :: h <= j < |ctx| ==> ctx[j] == []
    ensures Walk(s, ctx, h) == []
    decreases |ctx| - h
  {
    if h < |ctx| { EmptyWalk(s, ctx, h + 1); }
  }

  /// Just below the top something is left to close.
  lemma {:induction false} LastLevelBusy(g: Geometry, s: Store, ctx: seq<seq<Slot>>, chain: seq<nat>, cnt: seq<nat>,
                                         start: nat, end: nat, h: nat)
    requires Finishing(g, s, ctx, chain, cnt, start, end, h) && h + 2 == g.height
    ensures h < |ctx| && ctx[h] != []
  {
    if ctx[h] == [] {
      assert forall j :: 0 <= j < |ctx| ==> ctx[j] == [];
      EmptyWalk(s, ctx, 0);
    }
  }

  lemma {:induction false} FinishSkip(g: Geometry, s: Store, ctx: seq<seq<Slot>>, chain: seq<nat>, cnt: seq<nat>,
                                      start: nat, end: nat, h: nat)
    requires Finishing(g, s, ctx, chain, cnt, start, end, h) && h < |ctx| && ctx[h] == [] && h + 2 < g.height
    ensures Finishing(g, s, ctx, chain, cnt, start, end, h + 1)
  {
    hide Shaped, Packed, Bounded, Bytes;
  }

  lemma {:induction false} FinishParts(g: Geometry, s: Store, ctx: seq<seq<Slot>>, chain: seq<nat>, cnt: seq<nat>,
                                       start: nat, end: nat, h: nat)
    requires Finishing(g, s, ctx, chain, cnt, start, end, h)
    ensures g.Valid() && g.degree >= 2 && g.height >= 2 && g.leafLen >= 1 && |ctx| == |cnt| == g.height && h < g.height && chain != []
    ensures Shaped(s, ctx, chain) && Packed(g, s, start, end) && Bounded(g.degree, cnt) && cnt[0] == |chain|
    ensures forall j :: h <= j < |cnt| - 1 ==> cnt[j] == g.degree * cnt[j+1] + Lens(ctx)[j]
    ensures cnt[|cnt|-1] == Lens(ctx)[|cnt|-1]
    ensures forall j :: 0 <= j < h ==> ctx[j] == []
    ensures forall j :: h < j < |ctx| - 1 ==> |ctx[j]| < g.degree
    ensures |ctx[h]| <= g.degree && start <= end == start + Bytes(g, cnt)
    ensures if h < |ctx| - 1 then ctx[|ctx|-1] == [] else |ctx[h]| == 1 && ctx[h][0].pos + g.innerSize == end
  {
    hide Shaped, Packed, Bounded, Bytes;
  }

  /// A level with something in it is closed.
  lemma {:induction false} FinishStep(g: Geometry, s: Store, ctx: seq<seq<Slot>>, chain: seq<nat>, cnt: seq<nat>,
                                      start: nat, end: nat, h: nat)
    requires Finishing(g, s, ctx, chain, cnt, start, end, h) && h + 1 < g.height && h < |ctx| && ctx[h] != []
    ensures h + 1 < |ctx| == |cnt| && end !in s && |Closed(ctx, h, end)| == |ctx|
    ensures Finishing(g, s[end := Inner(Kids(ctx[h]))], Closed(ctx, h, end), chain, cnt[h+1 := cnt[h+1] + 1],
                      start, end + g.innerSize, h + 1)
  {
    hide *;
    FinishParts(g, s, ctx, chain, cnt, start, end, h);
    var node := Inner(Kids(ctx[h]));
    PackedAdd(g, s, start, end, node);
    LeafSize(g, node);
    LevelCloses(s, ctx, chain, h, end);
    CloseCount(g.degree, Lens(ctx), cnt, h);
    ClosedLens(ctx, h, end);
    BytesInner(g, cnt, h + 1);
    ClosedCtx(ctx, h, end);
    FinishMoves(g, s[end := node], ctx, Closed(ctx, h, end), chain, cnt[h+1 := cnt[h+1] + 1], start, end, h);
  }

  lemma {:induction false} FinishMoves(g: Geometry, s: Store, ctx: seq<seq<Slot>>, ctx': seq<seq<Slot>>, chain: seq<nat>,
                                       cnt: seq<nat>, start: nat, end: nat, h: nat)
    requires g.Valid() && |ctx| == |ctx'| == |cnt| == g.height && h + 1 < g.height && chain != []
    requires Shaped(s, ctx', chain) && Packed(g, s, start, end + g.innerSize) && Bounded(g.degree, cnt) && cnt[0] == |chain|
    requires forall j :: h + 1 <= j < |cnt| - 1 ==> cnt[j] == g.degree * cnt[j+1] + Lens(ctx')[j]
    requires cnt[|cnt|-1] == Lens(ctx')[|cnt|-1]
    requires end + g.innerSize == start + Bytes(g, cnt)
    requires ctx'[h] == [] && |ctx'[h+1]| == |ctx[h+1]| + 1 && ctx'[h+1][|ctx[h+1]|].pos == end
    requires forall j :: 0 <= j < |ctx| && j != h && j != h + 1 ==> ctx'[j] == ctx[j]
    requires forall j :: 0 <= j < h ==> ctx[j] == []
    requires forall j :: h < j < |ctx| - 1 ==> |ctx[j]| < g.degree
    requires ctx[|ctx|-1] == []
    ensures Finishing(g, s, ctx', chain, cnt, start, end + g.innerSize, h + 1)
  {
    hide Shaped, Packed, Bounded, Bytes;
  }

  /// All levels closed: the node just below `end` is the root of the whole tree.
  lemma {:induction false} OneTree(g: Geometry, s: Store, ctx: seq<seq<Slot>>, chain: seq<nat>, root: nat)
    requires |ctx| == g.height >= 2 && Shaped(s, ctx, chain) && |ctx[|ctx|-1]| == 1 && ctx[|ctx|-1][0].pos == root
    requires forall j :: 0 <= j < |ctx| - 1 ==> ctx[j] == []
    ensures root in s && s[root].Inner? && Sound(s, g.height - 1, ChildOf(s[root], root))
    ensures chain == Under(s, g.height - 1, ChildOf(s[root], root))
  {
    var top := |ctx| - 1;
    var c := Kids(ctx[top])[0];
    assert Kids(ctx[top]) == [c];
    assert Sound(s, top, c);
    UnderOne(s, top, c);
    assert Walk(s, ctx, top + 1) == [];
    assert Walk(s, ctx, top) == Under(s, top, c);
    WalkOnlyTop(s, ctx, 0);
  }

  lemma {:induction false} WalkOnlyTop(s: Store, ctx: seq<seq<Slot>>, h: nat)
    requires |ctx| >= 1 && h <= |ctx| - 1 && forall j :: h <= j < |ctx| - 1 ==> ctx[j] == []
    ensures Walk(s, ctx, h) == Walk(s, ctx, |ctx| - 1)
    decreases |ctx| - h
  {
    hide Under, UnderAll, Kids;
    if h < |ctx| - 1 {
      WalkOnlyTop(s, ctx, h + 1);
      NothingUnder(s, h);
    }
  }

  lemma {:induction false} NothingUnder(s: Store, h: nat)
    ensures UnderAll(s, h, Kids([])) == []
  {
  }

  /// The file is what was promised.
  lemma {:induction false} FileDone(g: Geometry, s: Store, ctx: seq<seq<Slot>>, chain: seq<nat>, cnt: seq<nat>,
                                    es: seq<Entry>, start: nat, end: nat)
    requires g.Valid() && |ctx| == |cnt| == g.height && Shaped(s, ctx, chain) && Packed(g, s, start, end)
    requires Bounded(g.degree, cnt) && cnt[0] == |chain| && end == start + Bytes(g, cnt)
    requires |ctx[|ctx|-1]| == 1 && ctx[|ctx|-1][0].pos + g.innerSize == end
    requires forall j :: 0 <= j < |ctx| - 1 ==> ctx[j] == []
    requires Linked(g.leafLen, s, chain, es) && |chain| <= NrLeaf(g.capacity, g.leafLen)
    ensures end >= g.innerSize && FileHolds(g, s, end - g.innerSize, es, chain, start)
  {
    assert g.height >= 2 && g.leafLen >= 1;
    hide *;
    BytesFit(g, cnt);
    OneTree(g, s, ctx, chain, end - g.innerSize);
    LinkedText(g.leafLen, s, chain, es);
    PackedWiden(g, s, start, end, start + g.BitSize());
    FileAssembled(g, s, end - g.innerSize, es, chain, start);
  }

  lemma {:induction false} LinkedText(l: nat, s: Store, chain: seq<nat>, es: seq<Entry>)
    requires Linked(l, s, chain, es)
    ensures Text(s, chain) == es
  {
    ChainText(l, s, chain, es);
    assert es[..|es|] == es;
  }

  lemma {:induction false} PackedWiden(g: Geometry, s: Store, start: nat, end: nat, end': nat)
    requires Packed(g, s, start, end) && end <= end'
    ensures Packed(g, s, start, end')
  {
  }

  lemma {:induction false} FileAssembled(g: Geometry, s: Store, root: nat, es: seq<Entry>, chain: seq<nat>, start: nat)
    requires g.Valid() && g.leafLen >= 1 && g.height >= 2
    requires root in s && s[root].Inner? && Sound(s, g.height - 1, ChildOf(s[root], root))
    requires chain == Under(s, g.height - 1, ChildOf(s[root], root))
    requires Text(s, chain) == es && Linked(g.leafLen, s, chain, es) && Packed(g, s, start, start + g.BitSize())
    ensures FileHolds(g, s, root, es, chain, start)
  {
    hide Sound, Under, Text, Linked, Packed, IsHeight, NrLeaf, Geo;
  }

  /// Full leaves only: the chain is linked.
  lemma {:induction false} FullLinked(l: nat, s: Store, chain: seq<nat>, es: seq<Entry>, end: nat)
    requires Chained(l, s, chain, es, end) && l * |chain| >= |es|
    ensures Linked(l, s, chain, es)
  {
    forall i | 0 <= i < |chain|
      ensures LeafText(s, chain[i]) == Piece(l, es, i)
      ensures i < |chain| - 1 ==> chain[i] in s && s[chain[i]].Leaf? && s[chain[i]].next == chain[i+1]
    {
      assert s[chain[i]] == Leaf(Piece(l, es, i), Link(chain, i, end));
    }
  }

  /// A last, partly filled leaf behind full ones.
  lemma {:induction false} PartLinked(l: nat, s0: Store, s: Store, chain: seq<nat>, es: seq<Entry>, p: nat)
    requires Chained(l, s0, chain, es, p) && (forall q :: q in s0 ==> q in s && s[q] == s0[q])
    requires p in s && s[p] == Leaf(Piece(l, es, |chain|), 0) && l * (|chain| + 1) >= |es|
    ensures Linked(l, s, chain + [p], es)
  {
    var c := chain + [p];
    forall i | 0 <= i < |c|
      ensures LeafText(s, c[i]) == Piece(l, es, i)
      ensures i < |c| - 1 ==> c[i] in s && s[c[i]].Leaf? && s[c[i]].next == c[i+1]
    {
      if i < |chain| {
        assert c[i] == chain[i] && s0[chain[i]] == s[chain[i]];
        assert s0[chain[i]] == Leaf(Piece(l, es, i), Link(chain, i, p));
        assert Link(chain, i, p) == c[i+1];
      } else {
        assert i == |chain| && c[i] == p;
      }
    }
  }

  function NoSlots(n: nat): (r: seq<seq<Slot>>)
    ensures |r| == n && forall i :: 0 <= i < n ==> r[i] == []
  {
    seq(n, i => [])
  }

  lemma {:induction false} ReadyAtStart(g: Geometry, start: nat)
    requires g.Valid()
    ensures g.leafLen >= 1 && Ready(g, map[], NoSlots(g.height), [], Lens(NoSlots(g.height)), [], start, start)
    ensures Piece(g.leafLen, [], 0) == []
  {
    var ctx, cnt := NoSlots(g.height), Lens(NoSlots(g.height));
    assert g.height >= 2 && g.capacity >= 1;
    assert g.leafLen * 0 == 0;
    EmptyWalk(map[], ctx, 0);
    hide IsHeight, Walk, Geometry.Valid;
    ZeroCount(g, cnt);
    forall i | 0 <= i < |ctx| ensures Kids(ctx[i]) == [] { assert ctx[i] == []; }
  }

  lemma {:induction false} ZeroCount(g: Geometry, cnt: seq<nat>)
    requires |cnt| >= 1 && forall i :: 0 <= i < |cnt| ==> cnt[i] == 0
    ensures Bytes(g, cnt) == 0
  {
    ZeroSum(cnt, 1);
  }

  lemma {:induction false} ZeroSum(cnt: seq<nat>, j: nat)
    requires j <= |cnt| && forall i :: 0 <= i < |cnt| ==> cnt[i] == 0
    ensures SumFrom(cnt, j) == 0
    decreases |cnt| - j
  {
    if j < |cnt| { ZeroSum(cnt, j + 1); }
  }

  class BitBuilder {
    const g: Geometry
    ghost const start: nat
    var begin: nat
    var cur: nat
    var size: nat
    var hasFirstKey: bool
    var firstKey: nat
    var lastKey: nat
    /// Nodes in the staging buffer, by the position they will have in the file.
    var buffer: Store
    var file: Store
    var ctx: seq<seq<Slot>>
    var curLeaf: seq<Entry>
    ghost var added: seq<Entry>
    ghost var chain: seq<nat>
    ghost var cnt: seq<nat>

    /// The invariant, but for a leaf that may just have filled up.
    ghost predicate Settled()
      reads this
    {
      && Ready(g, file + buffer, ctx, chain, cnt, added, start, begin + cur)
      && cur <= g.bufSize && start <= begin
      && size == |added| == g.leafLen * |chain| + |curLeaf| && |curLeaf| <= g.leafLen
      && curLeaf == Piece(g.leafLen, added, |chain|)
      && hasFirstKey == (added != [])
      && (added != [] ==> firstKey == added[0].key && lastKey == added[|added|-1].key)
    }

    ghost predicate Valid()
      reads this
    {
      Settled() && |curLeaf| < g.leafLen
    }

    /// bit_builder_init.
    constructor (geometry: Geometry, position: nat)
      requires geometry.Valid()
      ensures g == geometry && start == position && added == [] && size == 0 && Valid()
    {
      g, start, begin, cur, size := geometry, position, position, 0, 0;
      hasFirstKey, firstKey, lastKey := false, 0, 0;
      buffer, file := map[], map[];
      ctx := NoSlots(geometry.height);
      curLeaf, added, chain := [], [], [];
      cnt := Lens(NoSlots(geometry.height));
      new;
      ReadyAtStart(g, start);
      assert file + buffer == map[];
      hide Ready, IsHeight;
    }

    /// bit_builder_buffer_flush_if_full.
    method FlushIfFull()
      requires cur <= g.bufSize && g.Valid()
      modifies this`begin, this`cur, this`buffer, this`file
      ensures begin + cur == old(begin + cur) && file + buffer == old(file + buffer) && begin >= old(begin)
      ensures cur + g.height * g.leafSize <= g.bufSize
    {
      if cur + g.height * g.leafSize > g.bufSize {
        file := file + buffer;
        buffer := map[];
        begin := begin + cur;
        cur := 0;
      }
    }

    lemma {:induction false} Parts()
      requires Settled()
      ensures Ready(g, file + buffer, ctx, chain, cnt, added, start, begin + cur)
      ensures g.Valid() && |ctx| == |cnt| == g.height >= 2 && g.leafLen >= 1 && 1 <= g.innerSize <= g.leafSize
      ensures cur <= g.bufSize && start <= begin && size == |added| <= g.capacity
      ensures |added| == g.leafLen * |chain| + |curLeaf| && curLeaf == Piece(g.leafLen, added, |chain|)
      ensures hasFirstKey == (added != [])
      ensures added != [] ==> firstKey == added[0].key && lastKey == added[|added|-1].key
      ensures |curLeaf| <= g.leafLen
    {
      hide Shaped, Packed, Chained, Counted, Bounded, Bytes, RootDone;
    }

    /// Closes every level that is full, from the bottom; the leaf at `pos` is still to be written.
    method Cascade(pos: nat, leaf: Node) returns (h: nat)
      requires |ctx| >= 1 && Cascading(g, (file + buffer)[pos := leaf], ctx, chain, cnt, start, begin + cur, 0)
      requires cur + (g.height - 1) * g.leafSize <= g.bufSize
      modifies this`buffer, this`ctx, this`cnt, this`cur
      ensures h < |ctx| && Cascading(g, (file + buffer)[pos := leaf], ctx, chain, cnt, start, begin + cur, h)
      ensures |ctx[h]| < g.degree && cur <= g.bufSize
      ensures Keeps(old(file + buffer)[pos := leaf], (file + buffer)[pos := leaf])
    {
      hide *;
      h := 0;
      ghost var s: Store := (file + buffer)[pos := leaf];
      ghost var s0 := s;
      CascadeLevel(g, s, ctx, chain, cnt, start, begin + cur, 0);
      KeepsSelf(s);
      while |ctx[h]| == g.degree
        invariant h < |ctx| == g.height && |cnt| == g.height && |ctx[h]| <= g.degree && g.innerSize <= g.leafSize
        invariant Cascading(g, s, ctx, chain, cnt, start, begin + cur, h)
        invariant s == (file + buffer)[pos := leaf] && pos in s && Keeps(s0, s)
        invariant cur + (g.height - 1 - h) * g.leafSize <= g.bufSize
        decreases g.height - h
      {
        ghost var end := begin + cur;
        CascadeStep(g, s, ctx, chain, cnt, start, end, h);
        LevelsLeft(g, h + 1);
        assert cur + g.innerSize <= g.bufSize;
        var node := Inner(Kids(ctx[h]));
        Staged(file, buffer, pos, leaf, end, node);
        KeepsAdd(s0, s, end, node);
        buffer := buffer[begin + cur := node];
        s := s[end := node];
        ctx := Closed(ctx, h, begin + cur);
        cnt := cnt[h+1 := cnt[h+1] + 1];
        cur := cur + g.innerSize;
        h := h + 1;
        CascadeLevel(g, s, ctx, chain, cnt, start, begin + cur, h);
      }
      LevelsLeft(g, h);
    }

    /// Reserves the next position for the current leaf and puts it in the bottom level.
    method PlaceLeaf() returns (pos: nat, at: nat)
      requires Settled() && curLeaf != []
      modifies this`begin, this`cur, this`buffer, this`file, this`ctx, this`chain, this`cnt
      ensures pos == old(begin + cur) == begin + at && start <= begin && |ctx| >= 1
      ensures chain == old(chain) + [pos] && file + buffer == old(file + buffer) && pos !in file + buffer
      ensures Cascading(g, (file + buffer)[pos := Leaf(curLeaf, 0)], ctx, chain, cnt, start, begin + cur, 0)
      ensures Chained(g.leafLen, file + buffer, old(chain), added, pos)
      ensures cur == at + g.leafSize && cur + (g.height - 1) * g.leafSize <= g.bufSize
    {
      hide *;
      Parts();
      pos := begin + cur;
      ReadyParts(g, file + buffer, ctx, chain, cnt, added, start, pos);
      BeginCascade(g, file + buffer, ctx, chain, cnt, added, start, pos, Leaf(curLeaf, 0), |added|);
      FlushIfFull();
      at := cur;
      LevelsLeft(g, 0);
      ctx := ctx[0 := ctx[0] + [Slot(Leaf(curLeaf, 0), pos)]];
      cur := cur + g.leafSize;
      chain, cnt := chain + [pos], cnt[0 := cnt[0] + 1];
    }

    /// The current leaf is full: it takes its place in the file and in the tree.
    method CloseLeaf()
      requires Settled() && |curLeaf| == g.leafLen
      modifies this`begin, this`cur, this`buffer, this`file, this`ctx, this`curLeaf, this`chain, this`cnt
      ensures Valid()
    {
      hide *;
      ghost var s0: Store, chain0 := file + buffer, chain;
      Parts();
      var pos, at := PlaceLeaf();
      var h := Cascade(pos, Leaf(curLeaf, 0));
      FinishLeaf(s0, chain0, pos, h);
      buffer := buffer[begin + at := Leaf(curLeaf, begin + cur)];
      curLeaf := [];
      SettledAgain();
    }

    /// The leaf written last, with the position of the next one.
    lemma {:induction false} FinishLeaf(s0: Store, chain0: seq<nat>, pos: nat, h: nat)
      requires chain == chain0 + [pos] && pos !in s0 && Chained(g.leafLen, s0, chain0, added, pos)
      requires h < |ctx| && |ctx[h]| < g.degree
      requires Cascading(g, (file + buffer)[pos := Leaf(curLeaf, 0)], ctx, chain, cnt, start, begin + cur, h)
      requires Keeps(s0[pos := Leaf(curLeaf, 0)], (file + buffer)[pos := Leaf(curLeaf, 0)])
      requires g.leafLen >= 1 && |added| == g.leafLen * |chain0| + |curLeaf| && |curLeaf| == g.leafLen && |added| <= g.capacity
      requires curLeaf == Piece(g.leafLen, added, |chain0|)
      ensures Ready(g, file + buffer[pos := Leaf(curLeaf, begin + cur)], ctx, chain, cnt, added, start, begin + cur)
      ensures |added| == g.leafLen * |chain|
    {
      hide *;
      var leaf := Leaf(curLeaf, 0);
      var s: Store := (file + buffer)[pos := leaf];
      KeepsOld(s0, pos, leaf, s);
      NextPiece(g.leafLen, |chain0|);
      EndCascade(g, s0, chain0, s, ctx, cnt, added, start, pos, begin + cur, h, leaf);
      StagedLeaf(file, buffer, pos, leaf, Leaf(curLeaf, begin + cur));
    }

    /// bit_builder_add_entry.
    method AddEntry(e: Entry)
      requires Valid() && size < g.capacity
      modifies this
      ensures Valid() && added == old(added) + [e] && size == old(size) + 1
    {
      hide *;
      NotFull();
      Parts();
      EntryReady(g, file + buffer, ctx, chain, cnt, added, start, begin + cur, e);
      NextEntry(g.leafLen, added, |chain|, e);
      if !hasFirstKey {
        firstKey := e.key;
        hasFirstKey := true;
      }
      lastKey := e.key;
      size := size + 1;
      curLeaf := curLeaf + [e];
      added := added + [e];
      SettledNow();
      if |curLeaf| < g.leafLen {
        ValidNow();
        return;
      }
      CloseLeaf();
    }

    lemma {:induction false} NotFull()
      requires Valid()
      ensures |curLeaf| < g.leafLen && Settled()
    {
    }

    lemma {:induction false} SettledNow()
      requires Ready(g, file + buffer, ctx, chain, cnt, added, start, begin + cur)
      requires cur <= g.bufSize && start <= begin && g.leafLen >= 1
      requires size == |added| == g.leafLen * |chain| + |curLeaf| && |curLeaf| <= g.leafLen
      requires curLeaf == Piece(g.leafLen, added, |chain|) && hasFirstKey && added != []
      requires firstKey == added[0].key && lastKey == added[|added|-1].key
      ensures Settled()
    {
      hide Ready;
    }

    lemma {:induction false} ValidNow()
      requires Settled() && |curLeaf| < g.leafLen
      ensures Valid()
    {
      hide Ready;
    }

    /// Closes what is left of every level below the top.
    method CloseLevels(ghost pend: Store)
      requires |ctx| >= 1 && Finishing(g, file + buffer + pend, ctx, chain, cnt, start, begin + cur, 0)
      requires cur + (g.height - 1) * g.leafSize <= g.bufSize
      modifies this`buffer, this`ctx, this`cnt, this`cur
      ensures g.height >= 1 && Finishing(g, file + buffer + pend, ctx, chain, cnt, start, begin + cur, g.height - 1)
      ensures cur <= g.bufSize && Keeps(old(file + buffer) + pend, file + buffer + pend)
    {
      hide *;
      var h := 0;
      ghost var s: Store := file + buffer + pend;
      ghost var s0 := s;
      FinishParts(g, s, ctx, chain, cnt, start, begin + cur, 0);
      FinishSizes(g, s, ctx, chain, cnt, start, begin + cur, 0);
      KeepsSelf(s);
      while h < g.height - 1
        invariant h < |ctx| == g.height && |cnt| == g.height && g.innerSize <= g.leafSize
        invariant Finishing(g, s, ctx, chain, cnt, start, begin + cur, h)
        invariant s == file + buffer + pend && Keeps(s0, s)
        invariant cur + (g.height - 1 - h) * g.leafSize <= g.bufSize
      {
        LevelsLeft(g, h + 1);
        ghost var end := begin + cur;
        if h + 2 == g.height { LastLevelBusy(g, s, ctx, chain, cnt, start, end, h); }
        if ctx[h] == [] {
          FinishSkip(g, s, ctx, chain, cnt, start, end, h);
          h := h + 1;
          continue;
        }
        FinishStep(g, s, ctx, chain, cnt, start, end, h);
        assert cur + g.innerSize <= g.bufSize;
        var node := Inner(Kids(ctx[h]));
        InPend(file, buffer, pend, end, node);
        KeepsAdd(s0, s, end, node);
        buffer := buffer[begin + cur := node];
        s := s[end := node];
        ctx := Closed(ctx, h, begin + cur);
        cnt := cnt[h+1 := cnt[h+1] + 1];
        cur := cur + g.innerSize;
        h := h + 1;
      }
      LevelsLeft(g, g.height - 1);
    }

    /// bit_builder_complete, for a builder that was given at least one entry.
    method Complete() returns (root: nat, first: nat, last: nat, nrRecord: nat)
      requires Valid() && size >= 1
      modifies this
      ensures FileHolds(g, file, root, added, chain, start) && |added| >= 1
      ensures first == added[0].key && last == added[|added|-1].key && nrRecord == |added|
      ensures added == old(added) && g.Valid() && g.bufSize >= cur && begin + cur <= start + g.BitSize()
    {
      hide *;
      NotFull();
      Parts();
      first, last, nrRecord := firstKey, lastKey, size;
      if ctx[g.height - 1] != [] {
        RootIsThere(g, file + buffer, ctx, chain, cnt, added, start, begin + cur);
      } else {
        FinishTree();
      }
      file := file + buffer;
      DoneSize(g, file, ctx, chain, cnt, added, start, begin + cur);
      root := begin + cur - g.innerSize;
    }

    /// The levels and, if the last leaf holds anything, that leaf.
    method FinishTree()
      requires Valid() && size >= 1 && |ctx| >= 1 && ctx[|ctx|-1] == []
      modifies this
      ensures Done(g, file + buffer, ctx, chain, cnt, added, start, begin + cur)
      ensures added == old(added) && cur <= g.bufSize
    {
      hide *;
      NotFull();
      Parts();
      ghost var s0: Store, chain0 := file + buffer, chain;
      ReadyParts(g, s0, ctx, chain, cnt, added, start, begin + cur);
      if curLeaf != [] {
        var pos, at := PlaceLeaf();
        ghost var pend: Store := map[pos := Leaf(curLeaf, 0)];
        Pending(file + buffer, pos, Leaf(curLeaf, 0));
        BeginFinish(g, file + buffer + pend, ctx, chain, cnt, start, begin + cur);
        CloseLevels(pend);
        PartDone(g, s0, chain0, pos, file + buffer + pend, ctx, cnt, added, curLeaf, start, begin + cur);
        LastLeaf(file, buffer, pos, Leaf(curLeaf, 0));
        buffer := buffer[begin + at := Leaf(curLeaf, 0)];
      } else {
        FlushIfFull();
        LevelsLeft(g, 0);
        NoPending(file + buffer);
        SomeLeaf(g.leafLen, |chain|);
        ReadyToFinish(g, s0, ctx, chain, cnt, added, start, begin + cur);
        ghost var end0 := begin + cur;
        CloseLevels(map[]);
        NoPending(file + buffer);
        FullDone(g, s0, file + buffer, ctx, chain, cnt, added, start, end0, begin + cur);
      }
    }

    lemma {:induction false} SettledAgain()
      requires Ready(g, file + buffer, ctx, chain, cnt, added, start, begin + cur) && g.leafLen >= 1
      requires cur <= g.bufSize && start <= begin && size == |added| == g.leafLen * |chain| && curLeaf == []
      requires hasFirstKey == (added != [])
      requires added != [] ==> firstKey == added[0].key && lastKey == added[|added|-1].key
      ensures Valid()
    {
      PieceEnd(g.leafLen, added, |chain|);
      hide Ready, Piece;
    }
  }

  /// Room for one node more for every level that is left.
  lemma {:induction false} LevelsLeft(g: Geometry, h: nat)
    requires h < g.height
    ensures (g.height - h) * g.leafSize == (g.height - 1 - h) * g.leafSize + g.leafSize
    ensures (g.height - 1 - h) * g.leafSize >= 0
  {
    MulStep(g.height - h, g.leafSize);
  }

  lemma {:induction false} MulStep(a: nat, l: nat)
    requires a >= 1
    ensures a * l == (a - 1) * l + l && (a - 1) * l >= 0
  {
  }

  lemma {:induction false} CascadeLevel(g: Geometry, s: Store, ctx: seq<seq<Slot>>, chain: seq<nat>, cnt: seq<nat>,
                                        start: nat, end: nat, h: nat)
    requires Cascading(g, s, ctx, chain, cnt, start, end, h)
    ensures h < |ctx| == |cnt| == g.height && |ctx[h]| <= g.degree && g.innerSize <= g.leafSize
  {
  }

  /// Staging a node next to the leaf that is still to be written.
  lemma {:induction false} Staged(file: Store, buffer: Store, pos: nat, leaf: Node, p: nat, n: Node)
    requires p != pos
    ensures (file + buffer[p := n])[pos := leaf] == (file + buffer)[pos := leaf][p := n]
  {
  }

  lemma {:induction false} StagedLeaf(file: Store, buffer: Store, pos: nat, a: Node, b: Node)
    ensures file + buffer[pos := b] == (file + buffer)[pos := a][pos := b]
  {
  }

  /// Nothing of `s` is lost or changed in `t`.
  ghost predicate Keeps(s: Store, t: Store) {
    forall q :: q in s ==> q in t && t[q] == s[q]
  }

  lemma {:induction false} KeepsSelf(s: Store)
    ensures Keeps(s, s)
  {
  }

  lemma {:induction false} KeepsAdd(s: Store, t: Store, p: nat, n: Node)
    requires Keeps(s, t) && p !in t
    ensures Keeps(s, t[p := n])
  {
  }

  lemma {:induction false} KeepsOld(s: Store, pos: nat, leaf: Node, t: Store)
    requires pos !in s && Keeps(s[pos := leaf], t)
    ensures (forall q :: q in s ==> q in t && t[q] == s[q]) && pos in t && t[pos] == leaf
  {
    assert forall q :: q in s ==> s[pos := leaf][q] == s[q];
    assert s[pos := leaf][pos] == leaf;
  }

  lemma {:induction false} InPend(file: Store, buffer: Store, pend: Store, p: nat, n: Node)
    requires p !in file + buffer + pend
    ensures file + buffer[p := n] + pend == (file + buffer + pend)[p := n]
  {
  }

  lemma {:induction false} FinishSizes(g: Geometry, s: Store, ctx: seq<seq<Slot>>, chain: seq<nat>, cnt: seq<nat>,
                                       start: nat, end: nat, h: nat)
    requires Finishing(g, s, ctx, chain, cnt, start, end, h)
    ensures g.innerSize <= g.leafSize
  {
  }

  lemma {:induction false} EntryReady(g: Geometry, s: Store, ctx: seq<seq<Slot>>, chain: seq<nat>, cnt: seq<nat>,
                                      es: seq<Entry>, start: nat, end: nat, e: Entry)
    requires Ready(g, s, ctx, chain, cnt, es, start, end) && |es| < g.capacity
    ensures Ready(g, s, ctx, chain, cnt, es + [e], start, end)
  {
    ReadyParts(g, s, ctx, chain, cnt, es, start, end);
    ChainedAppend(g.leafLen, s, chain, es, end, e);
    hide Shaped, Packed, Chained, Counted, Bounded, Bytes, RootDone;
  }

  lemma {:induction false} NextEntry(l: nat, es: seq<Entry>, n: nat, e: Entry)
    requires l * n <= |es| < l * n + l
    ensures Piece(l, es + [e], n) == Piece(l, es, n) + [e]
  {
    NextPiece(l, n);
  }

  lemma {:induction false} Pending(s: Store, pos: nat, leaf: Node)
    ensures s + map[pos := leaf] == s[pos := leaf]
  {
  }

  lemma {:induction false} LastLeaf(file: Store, buffer: Store, pos: nat, leaf: Node)
    ensures file + buffer + map[pos := leaf] == file + buffer[pos := leaf]
  {
  }

  lemma {:induction false} NoPending(s: Store)
    ensures s + map[] == s
  {
  }

  /// A finished tree, seen from the builder.
  ghost predicate Done(g: Geometry, s: Store, ctx: seq<seq<Slot>>, chain: seq<nat>, cnt: seq<nat>,
                       es: seq<Entry>, start: nat, end: nat) {
    && g.Valid() && |ctx| == |cnt| == g.height && Shaped(s, ctx, chain) && Packed(g, s, start, end)
    && Bounded(g.degree, cnt) && cnt[0] == |chain| && end == start + Bytes(g, cnt)
    && |ctx[|ctx|-1]| == 1 && ctx[|ctx|-1][0].pos + g.innerSize == end
    && (forall j :: 0 <= j < |ctx| - 1 ==> ctx[j] == [])
    && Linked(g.leafLen, s, chain, es) && |chain| <= NrLeaf(g.capacity, g.leafLen)
  }

  lemma {:induction false} DoneSize(g: Geometry, s: Store, ctx: seq<seq<Slot>>, chain: seq<nat>, cnt: seq<nat>,
                                    es: seq<Entry>, start: nat, end: nat)
    requires Done(g, s, ctx, chain, cnt, es, start, end)
    ensures g.Valid() && end >= g.innerSize && FileHolds(g, s, end - g.innerSize, es, chain, start)
    ensures g.leafLen >= 1 && g.height >= 1 && end <= start + g.BitSize()
  {
    assert g.height >= 2;
    BytesFit(g, cnt);
    hide Shaped, Packed, Bounded, Bytes, Linked, IsHeight, FileHolds;
    FileDone(g, s, ctx, chain, cnt, es, start, end);
  }

  /// A tree that already has its root is finished.
  lemma {:induction false} RootIsThere(g: Geometry, s: Store, ctx: seq<seq<Slot>>, chain: seq<nat>, cnt: seq<nat>,
                                       es: seq<Entry>, start: nat, end: nat)
    requires Ready(g, s, ctx, chain, cnt, es, start, end) && |ctx| >= 1 && ctx[|ctx|-1] != []
    ensures Done(g, s, ctx, chain, cnt, es, start, end)
  {
    hide *;
    ReadyParts(g, s, ctx, chain, cnt, es, start, end);
    RootFacts(g, ctx, end);
    AllLeaves(g, Lens(ctx), cnt, |es|);
    FullLinked(g.leafLen, s, chain, es, end);
    DoneIs(g, s, ctx, chain, cnt, es, start, end);
  }

  lemma {:induction false} RootFacts(g: Geometry, ctx: seq<seq<Slot>>, end: nat)
    requires RootDone(g, ctx, end) && |ctx| >= 1 && ctx[|ctx|-1] != []
    ensures |ctx[|ctx|-1]| == 1 && ctx[|ctx|-1][0].pos + g.innerSize == end
    ensures forall j :: 0 <= j < |ctx| - 1 ==> ctx[j] == []
    ensures Lens(ctx)[|ctx|-1] >= 1
  {
  }

  lemma {:induction false} DoneIs(g: Geometry, s: Store, ctx: seq<seq<Slot>>, chain: seq<nat>, cnt: seq<nat>,
                                  es: seq<Entry>, start: nat, end: nat)
    requires g.Valid() && g.leafLen >= 1 && |ctx| == |cnt| == g.height && Shaped(s, ctx, chain) && Packed(g, s, start, end)
    requires Bounded(g.degree, cnt) && |cnt| >= 1 && cnt[0] == |chain| && end == start + Bytes(g, cnt)
    requires |ctx[|ctx|-1]| == 1 && ctx[|ctx|-1][0].pos + g.innerSize == end
    requires forall j :: 0 <= j < |ctx| - 1 ==> ctx[j] == []
    requires Linked(g.leafLen, s, chain, es) && |chain| <= NrLeaf(g.capacity, g.leafLen)
    ensures Done(g, s, ctx, chain, cnt, es, start, end)
  {
    hide Shaped, Packed, Bounded, Bytes, Linked, IsHeight, NrLeaf;
  }

  /// With a root, every place for a leaf is used, and there is nothing beyond the full leaves.
  lemma {:induction false} AllLeaves(g: Geometry, lens: seq<nat>, cnt: seq<nat>, n: nat)
    requires g.Valid() && |cnt| == g.height && Counted(g.degree, lens, cnt) && |cnt| >= 1 && lens[|cnt|-1] >= 1
    requires g.leafLen * cnt[0] <= n <= g.capacity
    ensures g.leafLen * cnt[0] == n && cnt[0] <= NrLeaf(g.capacity, g.leafLen)
  {
    assert g.leafLen >= 1 && g.degree >= 2 && g.height >= 2;
    LeafBound(g, g.capacity);
    hide *;
    CountedParts(g.degree, lens, cnt);
    NoRootYet(g.degree, lens, cnt, g.height - 1);
    CeilBounds(g.capacity, g.leafLen);
    Squeeze(g.leafLen, cnt[0], NrLeaf(g.capacity, g.leafLen), Pow(g.degree, g.height - 1), cnt[g.height-1], n, g.capacity);
  }

  lemma {:induction false} Squeeze(l: nat, c: nat, m: nat, q: nat, x: nat, n: nat, cap: nat)
    requires l >= 1 && l * c <= n <= cap <= l * m && m <= q && x >= 1 && q * x <= c
    ensures l * c == n && c <= m
  {
    Scale(q, 1, x);
    Scale(l, m, c);
    ScaleIf(l, m + 1, c);
    NextPiece(l, m);
  }

  /// The last leaf is partly filled.
  lemma {:induction false} PartDone(g: Geometry, s0: Store, chain0: seq<nat>, pos: nat, s: Store, ctx: seq<seq<Slot>>,
                                    cnt: seq<nat>, es: seq<Entry>, r: seq<Entry>, start: nat, end: nat)
    requires g.height >= 1 && Finishing(g, s, ctx, chain0 + [pos], cnt, start, end, g.height - 1)
    requires Keeps(s0 + map[pos := Leaf(r, 0)], s) && pos !in s0 && Chained(g.leafLen, s0, chain0, es, pos)
    requires r == Piece(g.leafLen, es, |chain0|) && 1 <= |r| <= g.leafLen
    requires |es| == g.leafLen * |chain0| + |r| && |es| <= g.capacity
    ensures Done(g, s, ctx, chain0 + [pos], cnt, es, start, end)
  {
    hide *;
    var chain := chain0 + [pos];
    FinishParts(g, s, ctx, chain, cnt, start, end, g.height - 1);
    Pending(s0, pos, Leaf(r, 0));
    KeepsOld(s0, pos, Leaf(r, 0), s);
    NextPiece(g.leafLen, |chain0|);
    PartLinked(g.leafLen, s0, s, chain0, es, pos);
    FewLeaves(g.leafLen, |chain0|, |es|, g.capacity);
    DoneIs(g, s, ctx, chain, cnt, es, start, end);
  }

  /// There are no more leaves than a full file has.
  lemma {:induction false} FewLeaves(l: nat, c: nat, n: nat, cap: nat)
    requires l >= 1 && l * c < n <= cap
    ensures c + 1 <= NrLeaf(cap, l)
  {
    CeilBounds(cap, l);
    LessByFactor(l, c, NrLeaf(cap, l));
  }

  /// The last leaf is full.
  lemma {:induction false} FullDone(g: Geometry, s0: Store, s: Store, ctx: seq<seq<Slot>>, chain: seq<nat>, cnt: seq<nat>,
                                    es: seq<Entry>, start: nat, end0: nat, end: nat)
    requires g.height >= 1 && Finishing(g, s, ctx, chain, cnt, start, end, g.height - 1)
    requires Keeps(s0, s) && Chained(g.leafLen, s0, chain, es, end0)
    requires |es| == g.leafLen * |chain| <= g.capacity
    ensures Done(g, s, ctx, chain, cnt, es, start, end)
  {
    hide *;
    FinishParts(g, s, ctx, chain, cnt, start, end, g.height - 1);
    ChainKept(g.leafLen, s0, s, chain, es, end0);
    FullLinked(g.leafLen, s, chain, es, end0);
    NextPiece(g.leafLen, |chain| - 1);
    FewLeaves(g.leafLen, |chain| - 1, |es|, g.capacity);
    DoneIs(g, s, ctx, chain, cnt, es, start, end);
  }

  lemma {:induction false} ChainKept(l: nat, s0: Store, s: Store, chain: seq<nat>, es: seq<Entry>, end: nat)
    requires Keeps(s0, s) && Chained(l, s0, chain, es, end)
    ensures Chained(l, s, chain, es, end)
  {
    hide Piece, Link;
  }

  lemma {:induction false} SomeLeaf(l: nat, n: nat)
    requires l * n >= 1
    ensures n >= 1
  {
  }
}
