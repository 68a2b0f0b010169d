/** The tree inside an index file: nodes addressed by position, a chain of leaves at the bottom.

A store maps positions to nodes.  A tree of height h is named by a child reference; `Under`
lists the positions of its leaves from left to right, and `Text` reads their entries. */
module BitTree {
  import opened Common
  import opened Tables

  datatype Child = Child(isLeaf: bool, key: nat, pos: nat)
  datatype Node = Leaf(es: seq<Entry>, next: nat) | Inner(kids: seq<Child>)
  type Store = map<nat, Node>

  /// The key a parent records for a node: its last one (__bit_inner).
  function LastKey(n: Node): nat {
    if n.Leaf? then (if n.es == [] then 0 else n.es[|n.es|-1].key)
    else (if n.kids == [] then 0 else n.kids[|n.kids|-1].key)
  }

  function ChildOf(n: Node, pos: nat): Child {
    Child(n.Leaf?, LastKey(n), pos)
  }

  /// The leaves below a child, left to right.
  function Under(s: Store, h: nat, c: Child): seq<nat>
    decreases h, 0
  {
    if h == 0 then [c.pos]
    else if c.pos in s && s[c.pos].Inner? then UnderAll(s, h - 1, s[c.pos].kids) else []
  }

  function UnderAll(s: Store, h: nat, cs: seq<Child>): seq<nat>
    decreases h, 1 + |cs|
  {
    if cs == [] then [] else UnderAll(s, h, cs[..|cs|-1]) + Under(s, h, cs[|cs|-1])
  }

  /// A well-formed subtree of height h: nodes present, of the right kind, none empty, keys right.
  ghost predicate Sound(s: Store, h: nat, c: Child)
    decreases h
  {
    && c.pos in s && c == ChildOf(s[c.pos], c.pos)
    && if h == 0 then s[c.pos].Leaf? && s[c.pos].es != []
       else s[c.pos].Inner? && s[c.pos].kids != []
            && forall i :: 0 <= i < |s[c.pos].kids| ==> Sound(s, h - 1, s[c.pos].kids[i])
  }

  ghost predicate SoundAll(s: Store, h: nat, cs: seq<Child>) {
    forall i :: 0 <= i < |cs| ==> Sound(s, h, cs[i])
  }

  function LeafText(s: Store, p: nat): seq<Entry> {
    if p in s && s[p].Leaf? then s[p].es else []
  }

  /// The entries of the listed leaves.
  function Text(s: Store, ps: seq<nat>): seq<Entry> {
    if ps == [] then [] else Text(s, ps[..|ps|-1]) + LeafText(s, ps[|ps|-1])
  }

  lemma {:induction false} UnderConcat(s: Store, h: nat, a: seq<Child>, b: seq<Child>)
    ensures UnderAll(s, h, a + b) == UnderAll(s, h, a) + UnderAll(s, h, b)
    decreases |b|
  {
    if b == [] {
      assert a + b == a;
    } else {
      var n := |b| - 1;
      assert (a + b)[..|a| + n] == a + b[..n] && (a + b)[|a| + n] == b[n];
      UnderConcat(s, h, a, b[..n]);
    }
  }

  lemma {:induction false} UnderOne(s: Store, h: nat, c: Child)
    ensures UnderAll(s, h, [c]) == Under(s, h, c)
  {
    assert [c][..0] == [];
  }

  lemma {:induction false} TextConcat(s: Store, a: seq<nat>, b: seq<nat>)
    ensures Text(s, a + b) == Text(s, a) + Text(s, b)
    decreases |b|
  {
    if b == [] {
      assert a + b == a;
    } else {
      var n := |b| - 1;
      assert (a + b)[..|a| + n] == a + b[..n] && (a + b)[|a| + n] == b[n];
      TextConcat(s, a, b[..n]);
    }
  }

  // ---------------------------------------------------------------- what later writes leave alone

  /// Everything stored in `s` is still in `t`, except that a leaf's link may differ.
  ghost predicate Agrees(s: Store, t: Store) {
    forall p :: p in s ==>
      p in t && (if s[p].Leaf? then t[p].Leaf? && t[p].es == s[p].es else t[p] == s[p])
  }

  lemma {:induction false} Frame(s: Store, t: Store, h: nat, c: Child)
    requires Sound(s, h, c) && Agrees(s, t)
    ensures Sound(t, h, c) && Under(t, h, c) == Under(s, h, c)
    decreases h, 0
  {
    if h > 0 { FrameAll(s, t, h - 1, s[c.pos].kids); }
  }

  lemma {:induction false} FrameAll(s: Store, t: Store, h: nat, cs: seq<Child>)
    requires SoundAll(s, h, cs) && Agrees(s, t)
    ensures SoundAll(t, h, cs) && UnderAll(t, h, cs) == UnderAll(s, h, cs)
    decreases h, 1 + |cs|
  {
    if cs != [] {
      var n := |cs| - 1;
      FrameAll(s, t, h, cs[..n]);
      Frame(s, t, h, cs[n]);
      hide Sound, Agrees;
      forall i | 0 <= i < |cs| ensures Sound(t, h, cs[i]) {
        if i < n { assert cs[..n][i] == cs[i]; }
      }
    }
  }

  /// The leaves of a sound tree are stored and not empty.
  ghost predicate LeavesIn(s: Store, ps: seq<nat>) {
    forall i :: 0 <= i < |ps| ==> ps[i] in s && s[ps[i]].Leaf? && s[ps[i]].es != []
  }

  lemma {:induction false} UnderIn(s: Store, h: nat, c: Child)
    requires Sound(s, h, c)
    ensures LeavesIn(s, Under(s, h, c)) && Under(s, h, c) != []
    decreases h, 0
  {
    if h > 0 { UnderAllIn(s, h - 1, s[c.pos].kids); }
  }

  lemma {:induction false} UnderAllIn(s: Store, h: nat, cs: seq<Child>)
    requires SoundAll(s, h, cs)
    ensures LeavesIn(s, UnderAll(s, h, cs)) && (cs != [] ==> UnderAll(s, h, cs) != [])
    decreases h, 1 + |cs|
  {
    if cs != [] {
      UnderAllIn(s, h, cs[..|cs|-1]);
      UnderIn(s, h, cs[|cs|-1]);
    }
  }

  lemma {:induction false} TextFrame(s: Store, t: Store, ps: seq<nat>)
    requires LeavesIn(s, ps) && Agrees(s, t)
    ensures Text(t, ps) == Text(s, ps) && LeavesIn(t, ps)
  {
    if ps != [] { TextFrame(s, t, ps[..|ps|-1]); }
  }

  // ---------------------------------------------------------------- keys

  /// The last entry of a sound tree has the key its parent records.
  lemma {:induction false} EndsWith(s: Store, h: nat, c: Child)
    requires Sound(s, h, c)
    ensures var t := Text(s, Under(s, h, c)); t != [] && t[|t|-1].key == c.key
    decreases h, 0
  {
    if h > 0 {
      EndsWithAll(s, h - 1, s[c.pos].kids);
    } else {
      assert [c.pos][..0] == [];
    }
  }

  lemma {:induction false} EndsWithAll(s: Store, h: nat, cs: seq<Child>)
    requires SoundAll(s, h, cs) && cs != []
    ensures var t := Text(s, UnderAll(s, h, cs)); t != [] && t[|t|-1].key == cs[|cs|-1].key
    decreases h, 1 + |cs|
  {
    hide *;
    var n := |cs| - 1;
    LastSound(s, h, cs);
    EndsWith(s, h, cs[n]);
    TextConcat(s, UnderAll(s, h, cs[..n]), Under(s, h, cs[n]));
    LastOf(Text(s, UnderAll(s, h, cs[..n])), Text(s, Under(s, h, cs[n])));
  }

  lemma {:induction false} LastSound(s: Store, h: nat, cs: seq<Child>)
    requires SoundAll(s, h, cs) && cs != []
    ensures var n := |cs| - 1; Sound(s, h, cs[n]) && UnderAll(s, h, cs) == UnderAll(s, h, cs[..n]) + Under(s, h, cs[n])
  {
  }

  lemma {:induction false} LastOf(a: seq<Entry>, b: seq<Entry>)
    requires b != []
    ensures a + b != [] && (a + b)[|a + b| - 1] == b[|b|-1]
  {
  }

  ghost predicate Nondecreasing(es: seq<Entry>) {
    forall i, j :: 0 <= i < j < |es| ==> es[i].key <= es[j].key
  }

  lemma {:induction false} PartsNondecreasing(a: seq<Entry>, b: seq<Entry>)
    requires Nondecreasing(a + b)
    ensures Nondecreasing(a) && Nondecreasing(b)
    ensures forall i, j :: 0 <= i < |a| && 0 <= j < |b| ==> a[i].key <= b[j].key
  {
    var c := a + b;
    assert forall i :: 0 <= i < |a| ==> c[i] == a[i];
    assert forall j :: 0 <= j < |b| ==> c[|a| + j] == b[j];
  }

  /// Three neighbouring stretches: a key above the first and at most the last key of the second
  /// has its first match in the second, if anywhere.
  lemma {:induction false} MiddleMatch(a: seq<Entry>, b: seq<Entry>, c: seq<Entry>, k: nat)
    requires Nondecreasing(a + b + c) && b != [] && k <= b[|b|-1].key && (a != [] ==> a[|a|-1].key < k)
    ensures FirstMatch(a + b + c, k) == FirstMatch(b, k)
  {
    PartsNondecreasing(a + b, c);
    PartsNondecreasing(a, b);
    FirstMatchConcat(a + b, c, k);
    FirstMatchConcat(a, b, k);
    FirstMatchNone(a, k);
    FirstMatchNone(b, k);
    FirstMatchNone(c, k);
    assert forall i :: 0 <= i < |a| ==> a[i].key <= a[|a|-1].key;
    hide FirstMatch, Nondecreasing;
    if FirstMatch(b, k).None? {
      assert b[|b|-1].key != k;
      assert (a + b)[|a| + |b| - 1] == b[|b|-1];
    }
  }

  /// The first child whose key is not below `k` holds the first match of `k`, if there is one.
  lemma {:induction false} PickKid(s: Store, h: nat, cs: seq<Child>, k: nat, i: nat)
    requires SoundAll(s, h, cs) && i < |cs| && k <= cs[i].key && forall j :: 0 <= j < i ==> cs[j].key < k
    requires Nondecreasing(Text(s, UnderAll(s, h, cs)))
    ensures FirstMatch(Text(s, UnderAll(s, h, cs)), k) == FirstMatch(Text(s, Under(s, h, cs[i])), k)
    ensures Nondecreasing(Text(s, Under(s, h, cs[i])))
  {
    var a, c := cs[..i], cs[i+1..];
    var ta, tb, tc := Text(s, UnderAll(s, h, a)), Text(s, Under(s, h, cs[i])), Text(s, UnderAll(s, h, c));
    assert Sound(s, h, cs[i]) && SoundAll(s, h, a);
    hide *;
    TextSplit(s, h, cs, i);
    EndsWith(s, h, cs[i]);
    if a == [] { NoText(s, h); } else { EndsWithAll(s, h, a); }
    PartsNondecreasing(ta + tb, tc);
    PartsNondecreasing(ta, tb);
    MiddleMatch(ta, tb, tc, k);
  }

  lemma {:induction false} NoText(s: Store, h: nat)
    ensures Text(s, UnderAll(s, h, [])) == []
  {
  }

  lemma {:induction false} TextSplit(s: Store, h: nat, cs: seq<Child>, i: nat)
    requires i < |cs|
    ensures Text(s, UnderAll(s, h, cs)) ==
      Text(s, UnderAll(s, h, cs[..i])) + Text(s, Under(s, h, cs[i])) + Text(s, UnderAll(s, h, cs[i+1..]))
  {
    hide *;
    var a, c := cs[..i], cs[i+1..];
    assert cs == a + [cs[i]] + c;
    UnderConcat(s, h, a + [cs[i]], c);
    UnderConcat(s, h, a, [cs[i]]);
    UnderOne(s, h, cs[i]);
    TextConcat(s, UnderAll(s, h, a + [cs[i]]), UnderAll(s, h, c));
    TextConcat(s, UnderAll(s, h, a), Under(s, h, cs[i]));
  }

  // ---------------------------------------------------------------- leaves of a sequence

  function Min(a: nat, b: nat): nat {
    if a < b then a else b
  }

  /// The entries of leaf `i`.
  function Piece(l: nat, es: seq<Entry>, i: nat): seq<Entry> {
    es[Min(l * i, |es|)..Min(l * (i + 1), |es|)]
  }

  lemma {:induction false} NextPiece(l: nat, n: nat)
    ensures l * (n + 1) == l * n + l
  {
  }
}
