/** The tree of all blocks of a network, and what being an ancestor means in it. */
module BlockTree {

  datatype Hash = Hash(bits: nat)

  datatype Block = Block(hash: Hash, number: nat, parent: Hash)

  type Blocks = map<Hash, Block>

  /** `h` has a parent one block lower, unless it is the genesis block. */
  ghost predicate Linked(tree: Blocks, genesis: Hash, h: Hash)
    requires h in tree
  {
    && (tree[h].number == 0 <==> h == genesis)
    && (h != genesis ==> tree[h].parent in tree && tree[tree[h].parent].number + 1 == tree[h].number)
  }

  /** Parents are one block lower, down to the one genesis block. */
  ghost predicate IsTree(tree: Blocks, genesis: Hash) {
    && genesis in tree
    && (forall h :: h in tree ==> tree[h].hash == h)
    && forall h {:trigger Linked(tree, genesis, h)} :: h in tree ==> Linked(tree, genesis, h)
  }

  /** The ancestor of `h` with number `n`, which is `h` itself for its own number. */
  ghost function AncestorAt(tree: Blocks, genesis: Hash, h: Hash, n: nat): (a: Hash)
    requires IsTree(tree, genesis) && h in tree && n <= tree[h].number
    ensures a in tree && tree[a].number == n
    decreases tree[h].number
  {
    assert Linked(tree, genesis, h);
    if tree[h].number == n then h else AncestorAt(tree, genesis, tree[h].parent, n)
  }

  ghost predicate IsAncestor(tree: Blocks, genesis: Hash, a: Hash, h: Hash)
    requires IsTree(tree, genesis) && a in tree && h in tree
  {
    tree[a].number <= tree[h].number && AncestorAt(tree, genesis, h, tree[a].number) == a
  }

  lemma {:induction false} AncestorOfAncestor(tree: Blocks, genesis: Hash, h: Hash, m: nat, n: nat)
    requires IsTree(tree, genesis) && h in tree && n <= m <= tree[h].number
    ensures AncestorAt(tree, genesis, AncestorAt(tree, genesis, h, m), n) == AncestorAt(tree, genesis, h, n)
    decreases tree[h].number
  {
    assert Linked(tree, genesis, h);
    if m < tree[h].number { AncestorOfAncestor(tree, genesis, tree[h].parent, m, n); }
  }

  lemma AncestorTransitive(tree: Blocks, genesis: Hash, a: Hash, b: Hash, c: Hash)
    requires IsTree(tree, genesis) && a in tree && b in tree && c in tree
    requires IsAncestor(tree, genesis, a, b) && IsAncestor(tree, genesis, b, c)
    ensures IsAncestor(tree, genesis, a, c)
  {
    AncestorOfAncestor(tree, genesis, c, tree[b].number, tree[a].number);
  }

  /** Two ancestors of one block are on one chain. */
  lemma AncestorsOrdered(tree: Blocks, genesis: Hash, a: Hash, b: Hash, c: Hash)
    requires IsTree(tree, genesis) && a in tree && b in tree && c in tree
    requires IsAncestor(tree, genesis, a, c) && IsAncestor(tree, genesis, b, c) && tree[a].number <= tree[b].number
    ensures IsAncestor(tree, genesis, a, b)
  {
    AncestorOfAncestor(tree, genesis, c, tree[b].number, tree[a].number);
  }

  /** The block above `n` on the way to `h` has the block at `n` as its parent. */
  lemma {:induction false} ParentOnChain(tree: Blocks, genesis: Hash, h: Hash, n: nat)
    requires IsTree(tree, genesis) && h in tree && n < tree[h].number
    ensures tree[AncestorAt(tree, genesis, h, n + 1)].parent == AncestorAt(tree, genesis, h, n)
    decreases tree[h].number
  {
    assert Linked(tree, genesis, h);
    if n + 1 < tree[h].number { ParentOnChain(tree, genesis, tree[h].parent, n); }
  }

  /** Everything but the genesis block has its parent as an ancestor. */
  lemma ParentIsAncestor(tree: Blocks, genesis: Hash, h: Hash)
    requires IsTree(tree, genesis) && h in tree && h != genesis
    ensures tree[h].parent in tree && tree[tree[h].parent].number + 1 == tree[h].number
    ensures IsAncestor(tree, genesis, tree[h].parent, h)
  {
    assert Linked(tree, genesis, h);
  }

  /** The genesis block is below everything. */
  lemma GenesisIsAncestor(tree: Blocks, genesis: Hash, h: Hash)
    requires IsTree(tree, genesis) && h in tree
    ensures IsAncestor(tree, genesis, genesis, h)
  {
    assert Linked(tree, genesis, genesis);
    assert Linked(tree, genesis, AncestorAt(tree, genesis, h, 0));
  }
}
