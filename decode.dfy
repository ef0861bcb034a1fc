/** Trees of `push_node` calls and a decoder that rebuilds them from the
    record view of a buffer.

    The decoder reads a record, then as many complete subtrees as the
    record's count says, and so on down. It stands in for the JavaScript
    reader of the buffer, which is not part of this model; it is used here
    only to state what a well-formed buffer is. */
module Decode {
  import opened Wrappers
  import opened Wire
  import K = Tags

  /** A node kind with its children, in the order the encoder visits them. */
  datatype Tree = Node(kind: K.AstNode, children: seq<Tree>)

  /** What a decoder rebuilds: the kind byte of each record and its children. */
  datatype RecordTree = RNode(tag: K.u8, children: seq<RecordTree>)

  /** The calls that write a tree in pre-order: the node, declaring its
      number of children, then each child. */
  function Flatten(t: Tree): (hs: seq<Header>)
    ensures |hs| >= 1 && hs[0] == Header(t.kind, |t.children|)
    ensures t.children == [] ==> hs == [Header(t.kind, 0)]
    decreases t, 1
  {
    [Header(t.kind, |t.children|)] + FlattenAll(t.children)
  }

  function FlattenAll(ts: seq<Tree>): seq<Header>
    decreases ts, 0
  {
    if ts == [] then [] else Flatten(ts[0]) + FlattenAll(ts[1..])
  }

  /** Every node of the tree has fewer than 127 children, so the count field
      of every record holds its count. */
  predicate Small(t: Tree)
    decreases t, 1
  {
    |t.children| < CountLimit && AllSmall(t.children)
  }

  predicate AllSmall(ts: seq<Tree>)
    decreases ts, 0
  {
    forall i | 0 <= i < |ts| :: Small(ts[i])
  }

  /** The tree a decoder should rebuild: each kind replaced by its tag. */
  function Erase(t: Tree): (r: RecordTree)
    ensures r.tag == K.Tag(t.kind) && |r.children| == |t.children|
    decreases t, 1
  {
    RNode(K.Tag(t.kind), EraseAll(t.children))
  }

  function EraseAll(ts: seq<Tree>): (rs: seq<RecordTree>)
    ensures |rs| == |ts|
    decreases ts, 0
  {
    if ts == [] then [] else [Erase(ts[0])] + EraseAll(ts[1..])
  }

  /** Reads one record and the subtrees its count declares; returns the tree
      and the records after it, or `None` if the records run out first. */
  function DecodeTree(rs: seq<Record>): (r: Option<(RecordTree, seq<Record>)>)
    ensures r.Some? ==> |r.value.1| < |rs|
    decreases |rs|, 1
  {
    if rs == [] then None
    else
      var kids :- DecodeForest(rs[1..], rs[0].count);
      Some((RNode(rs[0].kind, kids.0), kids.1))
  }

  /** Reads `n` subtrees one after another. */
  function DecodeForest(rs: seq<Record>, n: nat): (r: Option<(seq<RecordTree>, seq<Record>)>)
    ensures r.Some? ==> |r.value.0| == n && |r.value.1| <= |rs|
    decreases |rs|, 2
  {
    if n == 0 then Some(([], rs))
    else
      var first :- DecodeTree(rs);
      var more :- DecodeForest(first.1, n - 1);
      Some(([first.0] + more.0, more.1))
  }

  /** Decodes a whole buffer: one tree that uses up every record. */
  function DecodeBuffer(bs: seq<K.u8>): Option<RecordTree>
    requires |bs| % RecordSize == 0
  {
    var r :- DecodeTree(Records(bs));
    if r.1 == [] then Some(r.0) else None
  }

  lemma ViewAppend(a: seq<Header>, b: seq<Header>)
    ensures View(a + b) == View(a) + View(b)
  {
  }

  /** The calls of two forests in a row are the calls of the joined forest. */
  lemma {:induction false} FlattenAllAppend(xs: seq<Tree>, ys: seq<Tree>)
    ensures FlattenAll(xs + ys) == FlattenAll(xs) + FlattenAll(ys)
  {
    if xs == [] {
      assert xs + ys == ys;
    } else {
      assert (xs + ys)[0] == xs[0];
      assert (xs + ys)[1..] == xs[1..] + ys;
      FlattenAllAppend(xs[1..], ys);
    }
  }

  lemma FlattenAllOne(t: Tree)
    ensures FlattenAll([t]) == Flatten(t)
  {
    assert [t][1..] == [];
  }

  /** The calls of a node with one, two, three or four children, in the
      order the encoder makes them. */
  lemma FlattenNode1(k: K.AstNode, a: Tree)
    ensures Flatten(Node(k, [a])) == [Header(k, 1)] + Flatten(a)
  {
    FlattenAllOne(a);
  }

  lemma FlattenNode2(k: K.AstNode, a: Tree, b: Tree)
    ensures Flatten(Node(k, [a, b])) == [Header(k, 2)] + Flatten(a) + Flatten(b)
  {
    FlattenAllTwo(a, b);
  }

  lemma FlattenNode3(k: K.AstNode, a: Tree, b: Tree, c: Tree)
    ensures Flatten(Node(k, [a, b, c])) == [Header(k, 3)] + Flatten(a) + Flatten(b) + Flatten(c)
  {
    FlattenAllThree(a, b, c);
  }

  lemma FlattenNode4(k: K.AstNode, a: Tree, b: Tree, c: Tree, d: Tree)
    ensures Flatten(Node(k, [a, b, c, d])) == [Header(k, 4)] + Flatten(a) + Flatten(b) + Flatten(c) + Flatten(d)
  {
    FlattenAllFour(a, b, c, d);
    var h, fa, fb, fc, fd := [Header(k, 4)], Flatten(a), Flatten(b), Flatten(c), Flatten(d);
    assert h + (fa + (fb + (fc + fd))) == h + fa + fb + fc + fd;
  }

  lemma FlattenAllTwo(a: Tree, b: Tree)
    ensures FlattenAll([a, b]) == Flatten(a) + Flatten(b)
  {
    assert [a, b][1..] == [b];
    FlattenAllOne(b);
  }

  lemma FlattenAllThree(a: Tree, b: Tree, c: Tree)
    ensures FlattenAll([a, b, c]) == Flatten(a) + (Flatten(b) + Flatten(c))
  {
    assert [a, b, c][1..] == [b, c];
    FlattenAllTwo(b, c);
  }

  lemma FlattenAllFour(a: Tree, b: Tree, c: Tree, d: Tree)
    ensures FlattenAll([a, b, c, d]) == Flatten(a) + (Flatten(b) + (Flatten(c) + Flatten(d)))
  {
    assert [a, b, c, d][1..] == [b, c, d];
    FlattenAllThree(b, c, d);
  }

  /** A node whose first child is followed by a list of others. */
  lemma FlattenCons(k: K.AstNode, a: Tree, ts: seq<Tree>)
    ensures Flatten(Node(k, [a] + ts)) == [Header(k, 1 + |ts|)] + Flatten(a) + FlattenAll(ts)
  {
    FlattenAllAppend([a], ts);
    FlattenAllOne(a);
  }

  /** Decoding the records of a tree whose counts all fit rebuilds the tree
      and stops exactly at its last record, whatever follows. */
  lemma {:induction false} DecodeFlatten(t: Tree, rest: seq<Record>)
    requires Small(t)
    ensures DecodeTree(View(Flatten(t)) + rest) == Some((Erase(t), rest))
    decreases t, 1
  {
    var rs := View(Flatten(t)) + rest;
    ViewAppend([Header(t.kind, |t.children|)], FlattenAll(t.children));
    assert rs[0] == RecordOf(Header(t.kind, |t.children|));
    assert rs[0].count == |t.children|;
    assert rs[1..] == View(FlattenAll(t.children)) + rest;
    DecodeFlattenAll(t.children, rest);
  }

  lemma {:induction false} DecodeFlattenAll(ts: seq<Tree>, rest: seq<Record>)
    requires AllSmall(ts)
    ensures DecodeForest(View(FlattenAll(ts)) + rest, |ts|) == Some((EraseAll(ts), rest))
    decreases ts, 0
  {
    if ts != [] {
      var tail := View(FlattenAll(ts[1..])) + rest;
      ViewAppend(Flatten(ts[0]), FlattenAll(ts[1..]));
      assert View(FlattenAll(ts)) + rest == View(Flatten(ts[0])) + tail;
      DecodeFlatten(ts[0], tail);
      DecodeFlattenAll(ts[1..], rest);
      assert EraseAll(ts) == [Erase(ts[0])] + EraseAll(ts[1..]);
    } else {
      assert View(FlattenAll(ts)) + rest == rest;
    }
  }

  /** The bytes of a tree whose counts all fit decode back to that tree,
      using up the whole buffer. */
  lemma DecodeBytes(t: Tree)
    requires Small(t)
    ensures DecodeBuffer(Bytes(Flatten(t))) == Some(Erase(t))
  {
    RecordsOfBytes(Flatten(t));
    assert View(Flatten(t)) + [] == View(Flatten(t));
    DecodeFlatten(t, []);
  }
}
