/** The memory trees of planets and fleets (TypedPtree.cpp) and the removal of
    their dead branches after a script ran. */
module NilTree {
  datatype Any = Nil | Boolean(b: bool) | Integer(i: int) | Decimal(d: real) | Text(s: string)

  datatype Tree = Tree(value: Any, children: seq<Branch>)

  datatype Branch = Branch(name: string, tree: Tree)

  /** The number of values that are not nil. */
  function Count(t: Tree): nat {
    (if t.value.Nil? then 0 else 1) + CountAll(t.children)
  }

  function CountAll(cs: seq<Branch>): nat {
    if cs == [] then 0 else Count(cs[0].tree) + CountAll(cs[1..])
  }

  /** The tree without the branches that hold no value. */
  function Clean(t: Tree): Tree {
    Tree(t.value, CleanAll(t.children))
  }

  function CleanAll(cs: seq<Branch>): seq<Branch> {
    if cs == [] then []
    else if Count(cs[0].tree) == 0 then CleanAll(cs[1..])
    else [Branch(cs[0].name, Clean(cs[0].tree))] + CleanAll(cs[1..])
  }

  /** The values that are not nil, each with its path from the root, in order. */
  function Items(path: seq<string>, t: Tree): seq<(seq<string>, Any)>
    decreases t
  {
    (if t.value.Nil? then [] else [(path, t.value)]) + ItemsOfAll(path, t.children)
  }

  function ItemsOfAll(path: seq<string>, cs: seq<Branch>): seq<(seq<string>, Any)>
    decreases cs
  {
    if cs == [] then [] else Items(path + [cs[0].name], cs[0].tree) + ItemsOfAll(path, cs[1..])
  }

  /** No branch at any depth is empty of values; the root may be. */
  predicate NoDeadBranch(t: Tree) {
    NoDeadBranchIn(t.children)
  }

  predicate NoDeadBranchIn(cs: seq<Branch>) {
    cs == [] || (Count(cs[0].tree) > 0 && NoDeadBranch(cs[0].tree) && NoDeadBranchIn(cs[1..]))
  }

  /** The number of nodes, values or not. */
  function Nodes(t: Tree): nat {
    1 + NodesOfAll(t.children)
  }

  function NodesOfAll(cs: seq<Branch>): nat {
    if cs == [] then 0 else Nodes(cs[0].tree) + NodesOfAll(cs[1..])
  }

  // --------------------------------------------------------- properties

  /** The count is the number of values listed. */
  lemma {:induction false} CountsItems(path: seq<string>, t: Tree)
    ensures |Items(path, t)| == Count(t)
    decreases t
  {
    CountsItemsOfAll(path, t.children);
  }

  lemma {:induction false} CountsItemsOfAll(path: seq<string>, cs: seq<Branch>)
    ensures |ItemsOfAll(path, cs)| == CountAll(cs)
    decreases cs
  {
    if cs != [] {
      CountsItems(path + [cs[0].name], cs[0].tree);
      CountsItemsOfAll(path, cs[1..]);
    }
  }

  /** Cleaning loses no value, moves none and keeps their order. */
  lemma {:induction false} CleanKeepsItems(path: seq<string>, t: Tree)
    ensures Items(path, Clean(t)) == Items(path, t)
    decreases t
  {
    CleanAllKeepsItems(path, t.children);
  }

  lemma {:induction false} CleanAllKeepsItems(path: seq<string>, cs: seq<Branch>)
    ensures ItemsOfAll(path, CleanAll(cs)) == ItemsOfAll(path, cs)
    decreases cs
  {
    if cs != [] {
      var here := path + [cs[0].name];
      CleanAllKeepsItems(path, cs[1..]);
      CleanKeepsItems(here, cs[0].tree);
      CountsItems(here, cs[0].tree);
      if Count(cs[0].tree) > 0 {
        assert CleanAll(cs)[1..] == CleanAll(cs[1..]);
      }
    }
  }

  /** So the count is unchanged, and with it the size test of Rules.cpp. */
  lemma CleanKeepsCount(t: Tree)
    ensures Count(Clean(t)) == Count(t)
  {
    CleanKeepsItems([], t);
    CountsItems([], t);
    CountsItems([], Clean(t));
  }

  /** After cleaning no empty branch is left at any depth. */
  lemma {:induction false} CleanLeavesNoDeadBranch(t: Tree)
    ensures NoDeadBranch(Clean(t))
  {
    CleanAllLeavesNoDeadBranch(t.children);
  }

  lemma {:induction false} CleanAllLeavesNoDeadBranch(cs: seq<Branch>)
    ensures NoDeadBranchIn(CleanAll(cs))
  {
    if cs != [] {
      CleanAllLeavesNoDeadBranch(cs[1..]);
      if Count(cs[0].tree) > 0 {
        CleanLeavesNoDeadBranch(cs[0].tree);
        CleanKeepsCount(cs[0].tree);
        assert CleanAll(cs)[1..] == CleanAll(cs[1..]);
      }
    }
  }

  /** Cleaning changes a tree exactly when it has an empty branch, and makes it
      smaller when it does. */
  lemma {:induction false} CleanShrinksIff(t: Tree)
    ensures Clean(t) == t <==> NoDeadBranch(t)
    ensures Nodes(Clean(t)) <= Nodes(t)
    ensures Nodes(Clean(t)) == Nodes(t) <==> NoDeadBranch(t)
  {
    CleanAllShrinksIff(t.children);
  }

  lemma {:induction false} CleanAllShrinksIff(cs: seq<Branch>)
    ensures CleanAll(cs) == cs <==> NoDeadBranchIn(cs)
    ensures NodesOfAll(CleanAll(cs)) <= NodesOfAll(cs)
    ensures NodesOfAll(CleanAll(cs)) == NodesOfAll(cs) <==> NoDeadBranchIn(cs)
  {
    if cs != [] {
      CleanShrinksIff(cs[0].tree);
      CleanAllShrinksIff(cs[1..]);
      if Count(cs[0].tree) == 0 {
        assert NodesOfAll(CleanAll(cs)) < NodesOfAll(cs);
      } else {
        var head := [Branch(cs[0].name, Clean(cs[0].tree))];
        assert CleanAll(cs) == head + CleanAll(cs[1..]);
        assert CleanAll(cs)[1..] == CleanAll(cs[1..]);
        assert CleanAll(cs)[0] == head[0];
        assert cs == [cs[0]] + cs[1..];
      }
    }
  }

  /** Cleaning twice is cleaning once. */
  lemma CleanTwice(t: Tree)
    ensures Clean(Clean(t)) == Clean(t)
  {
    CleanLeavesNoDeadBranch(t);
    CleanShrinksIff(Clean(t));
  }

  // ------------------------------------------------------------ methods

  lemma {:induction false} AllCountSplit(cs: seq<Branch>, k: nat)
    requires k < |cs|
    ensures CountAll(cs[..k + 1]) == CountAll(cs[..k]) + Count(cs[k].tree)
  {
    if k > 0 {
      AllCountSplit(cs[1..], k - 1);
      assert cs[..k + 1][1..] == cs[1..][..k] && cs[..k][1..] == cs[1..][..k - 1];
    } else {
      assert cs[..1][1..] == [];
    }
  }

  lemma {:induction false} CleanAllSplit(cs: seq<Branch>, k: nat)
    requires k < |cs|
    ensures CleanAll(cs[..k + 1]) ==
            CleanAll(cs[..k]) + if Count(cs[k].tree) == 0 then [] else [Branch(cs[k].name, Clean(cs[k].tree))]
  {
    if k > 0 {
      CleanAllSplit(cs[1..], k - 1);
      assert cs[..k + 1][1..] == cs[1..][..k] && cs[..k][1..] == cs[1..][..k - 1];
    } else {
      assert cs[..1][1..] == [];
    }
  }

  /** `countPtreeItem`. */
  method CountPtreeItem(t: Tree) returns (count: nat)
    ensures count == Count(t)
  {
    count := if t.value.Nil? then 0 else 1;
    for k := 0 to |t.children|
      invariant count == (if t.value.Nil? then 0 else 1) + CountAll(t.children[..k])
    {
      var n := CountPtreeItem(t.children[k].tree);
      count := count + n;
      AllCountSplit(t.children, k);
    }
    assert t.children[..|t.children|] == t.children;
  }

  /** `cleanPtreeNilRec`: erases while it iterates, and returns the count. */
  method CleanPtreeNilRec(t: Tree) returns (cleaned: Tree, count: nat)
    ensures cleaned == Clean(t)
    ensures count == Count(t)
  {
    count := 0;
    var children := t.children;
    var i := 0;
    ghost var k := 0;
    while i < |children|
      invariant 0 <= i <= |children| && 0 <= k <= |t.children|
      invariant children[i..] == t.children[k..]
      invariant children[..i] == CleanAll(t.children[..k])
      invariant count == CountAll(t.children[..k])
      decreases |t.children| - k
    {
      assert children[i] == children[i..][0] == t.children[k];
      var child, valueCount := CleanPtreeNilRec(children[i].tree);
      AllCountSplit(t.children, k);
      CleanAllSplit(t.children, k);
      assert t.children[k + 1..] == t.children[k..][1..] == children[i + 1..];
      if valueCount == 0 {
        children := children[..i] + children[i + 1..];
      } else {
        children := children[i := Branch(children[i].name, child)];
        i := i + 1;
      }
      count := count + valueCount;
      k := k + 1;
    }
    assert k == |t.children| && t.children[..k] == t.children && children[..i] == children;
    if !t.value.Nil? {
      count := count + 1;
    }
    cleaned := Tree(t.value, children);
  }

  /** A memory that a script may leave behind. */
  predicate Storable(t: Tree, max: nat) {
    NoDeadBranch(t) && Count(t) <= max
  }

  /** The end of `CheckMemory`: the cleaned memory is kept if it fits the skill
      of the player, and the old one is put back otherwise. */
  method CommitMemory(oldMemory: Tree, memory: Tree, max: nat) returns (kept: Tree, refused: bool)
    ensures refused <==> Count(memory) > max
    ensures !refused ==> Storable(kept, max) && Items([], kept) == Items([], memory)
    ensures refused ==> kept == oldMemory
  {
    var count;
    kept, count := CleanPtreeNilRec(memory);
    CleanKeepsItems([], memory);
    CleanLeavesNoDeadBranch(memory);
    CleanKeepsCount(memory);
    var size := CountPtreeItem(kept);
    refused := size > max;
    if refused {
      kept := oldMemory;
    }
  }
}
