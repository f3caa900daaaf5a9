/** The binary Merkle tree over chunk digests: the in-place reduction, its meaning and what it binds. */
module Merkle {
  import opened Bytes
  import opened Status
  import opened Fips180
  import opened Text

  const MAX_CHUNKS := 4194304

  /** What a parent digests: a domain byte and the two children. */
  function ParentInput(left: Digest, right: Digest): (block: seq<Byte>)
    ensures |block| == 65
  {
    [1] + left + right
  }

  function Parent(left: Digest, right: Digest): Digest {
    Sha256(ParentInput(left, right))
  }

  /** The i-th pair of a level; an odd last node is paired with itself. */
  function PairInput(nodes: seq<Digest>, i: nat): (block: seq<Byte>)
    requires 2 * i < |nodes|
  {
    ParentInput(nodes[2 * i], if 2 * i + 1 < |nodes| then nodes[2 * i + 1] else nodes[2 * i])
  }

  function Level(nodes: seq<Digest>): (parents: seq<Digest>)
    ensures |parents| == (|nodes| + 1) / 2
    ensures forall i :: 0 <= i < |parents| ==> parents[i] == Sha256(PairInput(nodes, i))
  {
    seq((|nodes| + 1) / 2, i requires 0 <= i < (|nodes| + 1) / 2 => Sha256(PairInput(nodes, i)))
  }

  /** Level by level down to one node. */
  function Root(nodes: seq<Digest>): Digest
    requires |nodes| > 0
    decreases |nodes|
  {
    if |nodes| == 1 then nodes[0] else Root(Level(nodes))
  }

  function RootOf(leaves: seq<Digest>, memory: bool): Result<Digest> {
    if |leaves| == 0 || |leaves| > MAX_CHUNKS then Failure(InvalidArgument)
    else if !memory then Failure(NoMemory)
    else Success(Root(leaves))
  }

  /** Reduces one level inside the array: parents overwrite nodes that are still to be read from. */
  method ReduceLevel(level: array<Digest>, count: nat) returns (parents: nat)
    requires 1 < count <= level.Length
    modifies level
    ensures parents == (count + 1) / 2
    ensures level[..parents] == Level(old(level[..count]))
  {
    hide Sha256;
    ghost var nodes := level[..count];
    parents := (count + 1) / 2;
    for i := 0 to parents
      invariant forall j :: 2 * i <= j < count ==> level[j] == nodes[j]
      invariant forall j :: 0 <= j < i ==> level[j] == Level(nodes)[j]
    {
      var left := level[2 * i];
      var right := if 2 * i + 1 < count then level[2 * i + 1] else left;
      level[i] := Parent(left, right);
    }
  }

  /** The reduction over a private copy of the leaves. */
  method MerkleRoot(leaves: seq<Digest>, memory: bool) returns (r: Result<Digest>)
    ensures r == RootOf(leaves, memory)
  {
    hide Level;
    if |leaves| == 0 || |leaves| > MAX_CHUNKS {
      return Failure(InvalidArgument);
    }
    if !memory {
      return Failure(NoMemory);
    }
    var level := new Digest[|leaves|](i requires 0 <= i < |leaves| => leaves[i]);
    var count := |leaves|;
    assert level[..count] == leaves;
    while count > 1
      invariant 1 <= count <= level.Length
      invariant Root(level[..count]) == Root(leaves)
      decreases count
    {
      count := ReduceLevel(level, count);
    }
    r := Success(level[0]);
  }

  datatype HashTree = Leaf(digest: Digest) | Node(left: HashTree, right: HashTree)

  /** A tree's digest, bottom up. */
  function TreeDigest(tree: HashTree): Digest {
    match tree
    case Leaf(digest) => digest
    case Node(left, right) => Parent(TreeDigest(left), TreeDigest(right))
  }

  /** The tree seen from the top: a perfect tree of height h whose missing right halves repeat the left. */
  function Tree(h: nat, leaves: seq<Digest>): HashTree
    requires 1 <= |leaves| <= Pow2(h)
  {
    if h == 0 then Leaf(leaves[0])
    else
      var half := Pow2(h - 1);
      var left := Tree(h - 1, leaves[..Min(half, |leaves|)]);
      Node(left, if |leaves| <= half then left else Tree(h - 1, leaves[half..]))
  }

  /** The least height whose perfect tree holds n leaves. */
  function Height(n: nat): (h: nat)
    requires n > 0
    ensures n <= Pow2(h)
    ensures h > 0 ==> Pow2(h - 1) < n
  {
    if n == 1 then 0 else 1 + Height((n + 1) / 2)
  }

  lemma PairSplits(left: seq<Digest>, right: seq<Digest>, i: nat)
    requires |left| % 2 == 0 && 2 * i < |left| + |right|
    ensures PairInput(left + right, i)
            == if 2 * i < |left| then PairInput(left, i) else PairInput(right, i - |left| / 2)
  {
    hide ParentInput;
    var both := left + right;
    if 2 * i < |left| {
      assert both[2 * i] == left[2 * i] && both[2 * i + 1] == left[2 * i + 1];
    } else {
      var j := i - |left| / 2;
      assert 2 * i - |left| == 2 * j;
      assert both[2 * i] == right[2 * j] && (2 * i + 1 < |both| ==> both[2 * i + 1] == right[2 * j + 1]);
    }
  }

  lemma LevelSplits(left: seq<Digest>, right: seq<Digest>)
    requires |left| % 2 == 0
    ensures Level(left + right) == Level(left) + Level(right)
  {
    hide Sha256, PairInput;
    forall i | 0 <= i < (|left| + |right| + 1) / 2
      ensures Level(left + right)[i] == (Level(left) + Level(right))[i]
    {
      PairSplits(left, right, i);
    }
  }

  lemma TreeSplits(h: nat, left: seq<Digest>, right: seq<Digest>)
    requires h > 0 && |left| == Pow2(h - 1) && 1 <= |right| <= Pow2(h - 1)
    ensures Tree(h, left + right) == Node(Tree(h - 1, left), Tree(h - 1, right))
  {
    var both := left + right;
    assert both[..|left|] == left && both[|left|..] == right;
  }

  lemma TreeRepeats(h: nat, leaves: seq<Digest>)
    requires h > 0 && 1 <= |leaves| <= Pow2(h - 1)
    ensures Tree(h, leaves) == Node(Tree(h - 1, leaves), Tree(h - 1, leaves))
  {
    assert leaves[..|leaves|] == leaves;
  }

  lemma Doubles(h: nat)
    requires h > 0
    ensures Pow2(h) == 2 * Pow2(h - 1)
  {
  }

  /** Cutting the bottom level off a tree leaves the tree over the parents. */
  lemma {:induction false} TreeOverParents(h: nat, leaves: seq<Digest>)
    requires h > 0 && 1 <= |leaves| <= Pow2(h)
    ensures |Level(leaves)| <= Pow2(h - 1)
    ensures TreeDigest(Tree(h, leaves)) == TreeDigest(Tree(h - 1, Level(leaves)))
  {
    hide Parent, PairInput, Tree, Level, Pow2;
    Doubles(h);
    var half := Pow2(h - 1);
    if h == 1 {
      BottomTree(leaves);
    } else if |leaves| <= half {
      TreeRepeats(h, leaves);
      TreeOverParents(h - 1, leaves);
      TreeRepeats(h - 1, Level(leaves));
    } else {
      var left, right := leaves[..half], leaves[half..];
      Doubles(h - 1);
      assert leaves == left + right;
      TreeSplits(h, left, right);
      TreeOverParents(h - 1, left);
      TreeOverParents(h - 1, right);
      LevelSplits(left, right);
      TreeSplits(h - 1, Level(left), Level(right));
    }
  }

  lemma BottomTree(leaves: seq<Digest>)
    requires 1 <= |leaves| <= Pow2(1)
    ensures |Level(leaves)| <= Pow2(0)
    ensures TreeDigest(Tree(1, leaves)) == TreeDigest(Tree(0, Level(leaves)))
  {
    hide Sha256, ParentInput;
    assert Pow2(0) == 1 && Pow2(1) == 2;
    assert Tree(0, leaves[..1]) == Leaf(leaves[0]);
    if |leaves| == 2 {
      assert Tree(0, leaves[1..]) == Leaf(leaves[1]);
    }
    assert PairInput(leaves, 0) == ParentInput(leaves[0], leaves[|leaves| - 1]);
  }

  /** The level-wise root is the root of the recursive tree of least height, for every leaf count. */
  lemma {:induction false} RootIsTree(leaves: seq<Digest>)
    requires |leaves| > 0
    ensures Root(leaves) == TreeDigest(Tree(Height(|leaves|), leaves))
    decreases |leaves|
  {
    hide Sha256, ParentInput;
    if |leaves| > 1 {
      TreeOverParents(Height(|leaves|), leaves);
      RootIsTree(Level(leaves));
    }
  }

  /** Two trees of one shape hold, at one position, different parent inputs with one digest. */
  ghost predicate TreeCollision(a: seq<Digest>, b: seq<Digest>)
    requires |a| == |b|
    decreases |a|
  {
    |a| > 1 &&
    ((exists i :: 0 <= i < (|a| + 1) / 2 && Collision(PairInput(a, i), PairInput(b, i)))
     || TreeCollision(Level(a), Level(b)))
  }

  /** A pair's input holds both children. */
  lemma PairHoldsChildren(a: seq<Digest>, b: seq<Digest>, j: nat)
    requires |a| == |b| && j < |a| && PairInput(a, j / 2) == PairInput(b, j / 2)
    ensures a[j] == b[j]
  {
    var i := j / 2;
    if j % 2 == 0 {
      assert PairInput(a, i)[1..33] == a[j] && PairInput(b, i)[1..33] == b[j];
    } else {
      assert PairInput(a, i)[33..] == a[j] && PairInput(b, i)[33..] == b[j];
    }
  }

  /** One level: different nodes under equal parents collide. */
  lemma LevelBinds(a: seq<Digest>, b: seq<Digest>)
    requires |a| == |b| && a != b && Level(a) == Level(b)
    ensures exists i :: 0 <= i < (|a| + 1) / 2 && Collision(PairInput(a, i), PairInput(b, i))
  {
    hide Sha256, PairInput;
    var j :| 0 <= j < |a| && a[j] != b[j];
    var i := j / 2;
    assert Level(a)[i] == Sha256(PairInput(a, i)) && Level(b)[i] == Sha256(PairInput(b, i));
    if PairInput(a, i) == PairInput(b, i) {
      PairHoldsChildren(a, b, j);
    }
    assert Collision(PairInput(a, i), PairInput(b, i));
  }

  /** For leaf lists of one length, equal roots mean equal leaves or a collision inside the trees. */
  lemma {:induction false} RootBinds(a: seq<Digest>, b: seq<Digest>)
    requires |a| == |b| > 0 && Root(a) == Root(b)
    ensures a == b || TreeCollision(a, b)
    decreases |a|
  {
    hide Collision, PairInput;
    if |a| > 1 && a != b {
      if Level(a) == Level(b) {
        LevelBinds(a, b);
      } else {
        RootBinds(Level(a), Level(b));
      }
    }
  }

  lemma RootOfLevel(nodes: seq<Digest>)
    requires |nodes| > 1
    ensures Root(nodes) == Root(Level(nodes))
  {
  }

  /** Without the length, binding fails: repeating an odd list's last leaf keeps its root. */
  lemma OddListsAlias(leaves: seq<Digest>)
    requires |leaves| > 1 && |leaves| % 2 == 1
    ensures Root(leaves) == Root(leaves + [leaves[|leaves| - 1]])
  {
    hide Sha256, ParentInput, Root;
    var longer := leaves + [leaves[|leaves| - 1]];
    RootOfLevel(leaves);
    RootOfLevel(longer);
    forall i | 0 <= i < (|leaves| + 1) / 2
      ensures PairInput(leaves, i) == PairInput(longer, i)
    {
    }
    assert Level(leaves) == Level(longer);
  }

  /** Nor is a leaf told from a parent: the single leaf Parent(a, b) has the root of [a, b]. */
  lemma LeafAliasesParent(a: Digest, b: Digest)
    ensures Root([Parent(a, b)]) == Root([a, b])
  {
    hide Sha256;
    assert Level([a, b]) == [Parent(a, b)];
  }
}
