/** A bag of objects kept as a list of blocks: only the first block is partly filled. */
module BlockBag {

  /** Objects per block: 512 bytes of pointers, less three words of bookkeeping. */
  const BLOCK_SIZE: nat := 512 / 8 - 3 * 8

  /** What of a stack of objects, oldest first, lies in full blocks; the rest is in the head block. */
  function Full<T>(s: seq<T>): seq<T> { s[..|s| / BLOCK_SIZE * BLOCK_SIZE] }
  function Partial<T>(s: seq<T>): seq<T> { s[|s| / BLOCK_SIZE * BLOCK_SIZE..] }

  lemma FullAndPartial<T>(s: seq<T>, t: seq<T>)
    ensures multiset(Full(t) + s) + multiset(Partial(t)) == multiset(s) + multiset(t)
  {
    var n := |t| / BLOCK_SIZE * BLOCK_SIZE;
    assert n <= |t|;
    Regroup(s, t, n);
  }

  lemma Regroup<T>(s: seq<T>, t: seq<T>, n: nat)
    requires n <= |t|
    ensures multiset(t[..n] + s) + multiset(t[n..]) == multiset(s) + multiset(t)
  {
    assert t == t[..n] + t[n..];
  }

  /** The objects of a list of blocks, head block first, as a stack with the oldest object first. */
  function Flatten<T>(blocks: seq<seq<T>>): seq<T> {
    if blocks == [] then [] else Flatten(blocks[1..]) + blocks[0]
  }

  predicate AllFull<T>(blocks: seq<seq<T>>) {
    forall i :: 0 <= i < |blocks| ==> |blocks[i]| == BLOCK_SIZE
  }

  lemma {:induction false} FlattenFull<T>(blocks: seq<seq<T>>)
    requires AllFull(blocks)
    ensures |Flatten(blocks)| == |blocks| * BLOCK_SIZE
  {
    if blocks != [] { FlattenFull(blocks[1..]); }
  }

  lemma {:induction false} FlattenConcat<T>(a: seq<seq<T>>, b: seq<seq<T>>)
    ensures Flatten(a + b) == Flatten(b) + Flatten(a)
  {
    if a == [] {
      assert a + b == b;
    } else {
      assert (a + b)[1..] == a[1..] + b;
      FlattenConcat(a[1..], b);
      assert Flatten(b) + Flatten(a) == Flatten(b) + Flatten(a[1..]) + a[0];
    }
  }

  /** The head block holds exactly what the full blocks have no room for. */
  lemma SplitsAtHead<T>(blocks: seq<seq<T>>)
    requires |blocks| >= 1 && |blocks[0]| < BLOCK_SIZE && AllFull(blocks[1..])
    ensures Full(Flatten(blocks)) == Flatten(blocks[1..]) && Partial(Flatten(blocks)) == blocks[0]
  {
    FlattenFull(blocks[1..]);
    var n, flat := |blocks| - 1, Flatten(blocks);
    assert flat == Flatten(blocks[1..]) + blocks[0];
    hide Flatten, AllFull;
    assert |flat| == n * 40 + |blocks[0]|;
    assert |flat| / 40 == n;
  }

  lemma Pushed<T>(blocks: seq<seq<T>>, blocks': seq<seq<T>>, obj: T)
    requires blocks != [] && blocks' == [blocks[0] + [obj]] + blocks[1..]
    ensures blocks'[1..] == blocks[1..] && Flatten(blocks') == Flatten(blocks) + [obj]
  {
    assert blocks'[1..] == blocks[1..];
  }

  lemma EmptyHead<T>(blocks: seq<seq<T>>)
    ensures ([[]] + blocks)[1..] == blocks && Flatten([[]] + blocks) == Flatten(blocks)
  {
    assert ([[]] + blocks)[1..] == blocks;
  }

  lemma HeadOnly<T>(blocks: seq<seq<T>>)
    requires blocks != []
    ensures Flatten(blocks[..1]) == blocks[0] && Flatten<T>([]) == []
  {
    assert Flatten(blocks[..1]) == Flatten(blocks[..1][1..]) + blocks[..1][0];
  }

  /** Without anything in the head block, all is in the others. */
  lemma OnlyHeadEmpty<T>(blocks: seq<seq<T>>)
    requires blocks != [] && blocks[0] == [] && Flatten(blocks) != []
    ensures |blocks| >= 2 && blocks[1..][0] == blocks[1] && blocks[1..][1..] == blocks[2..] && Flatten(blocks) == Flatten(blocks[1..])
  {
    assert Flatten(blocks) == Flatten(blocks[1..]) + [];
  }

  class Block<T> {
    var data: seq<T>
    var next: Block?<T>

    constructor (n: Block?<T>)
      ensures data == [] && next == n
    {
      data := [];
      next := n;
    }
  }

  ghost predicate Differ<T>(chain: seq<T>, i: nat, j: nat) {
    i < j < |chain| ==> chain[i] != chain[j]
  }

  ghost predicate Distinct<T>(chain: seq<T>) {
    forall i: nat, j: nat :: Differ(chain, i, j)
  }

  function NextIn<T>(chain: seq<Block<T>>, i: nat): Block?<T> {
    if i + 1 < |chain| then chain[i + 1] else null
  }

  lemma DistinctConcat<T>(a: seq<T>, b: seq<T>)
    requires Distinct(a) && Distinct(b) && forall i, j :: 0 <= i < |a| && 0 <= j < |b| ==> a[i] != b[j]
    ensures Distinct(a + b)
  {
    forall i: nat, j: nat ensures Differ(a + b, i, j) {
      assert Differ(a, i, j);
      if i >= |a| && j >= |a| { assert Differ(b, i - |a|, j - |a|); }
    }
  }

  lemma DistinctTail<T>(a: seq<T>)
    requires Distinct(a) && a != []
    ensures Distinct(a[1..]) && forall i :: 1 <= i < |a| ==> a[i] != a[0]
  {
    forall i: nat, j: nat ensures Differ(a[1..], i, j) { assert Differ(a, i + 1, j + 1); }
    forall i | 1 <= i < |a| ensures a[i] != a[0] { assert Differ(a, 0, i); }
  }

  lemma One<T>(a: seq<T>)
    requires |a| == 1
    ensures Distinct(a)
  {
  }

  /** `chain` are the linked blocks from head to tail, all in `repr`, and `blocks` their contents. */
  class Blockbag<T> {
    var head: Block<T>
    var tail: Block<T>
    var sizeInBlocks: nat
    ghost var repr: set<Block<T>>
    ghost var chain: seq<Block<T>>
    ghost var blocks: seq<seq<T>>

    /** Block `i` of the chain. */
    ghost predicate At(i: nat)
      requires i < |chain| == |blocks|
      reads this`repr, this`chain, this`blocks, repr
    {
      chain[i] in repr && chain[i].data == blocks[i] && chain[i].next == NextIn(chain, i)
    }

    ghost predicate Linked()
      reads this`head, this`tail, this`repr, this`chain, this`blocks, repr
    {
      && {head, tail} <= repr
      && |chain| == |blocks| >= 1 && head == chain[0] && tail == chain[|chain| - 1] && Distinct(chain)
      && forall i :: 0 <= i < |chain| ==> At(i)
    }

    /** The list is never empty, its head is not full, all other blocks are full. */
    ghost predicate Valid()
      reads this, repr
    {
      && Linked() && |blocks[0]| < BLOCK_SIZE && AllFull(blocks[1..])
      && sizeInBlocks == |blocks|
    }

    /** Two bags that share no block. */
    ghost predicate Apart(other: Blockbag<T>)
      reads this, other
    {
      other != this && repr !! other.repr
    }

    ghost function Contents(): seq<T>
      reads this
    {
      Flatten(blocks)
    }

    constructor ()
      ensures Valid() && Contents() == [] && fresh(repr)
    {
      var b := new Block(null);
      head, tail := b, b;
      repr, chain := {b}, [b];
      blocks := [[]];
      sizeInBlocks := 1;
    }

    method IsEmpty() returns (r: bool)
      requires Valid()
      ensures r <==> Contents() == []
    {
      assert At(0);
      r := head.next == null && head.data == [];
      FlattenFull(blocks[1..]);
    }

    /** The length of the list, counted along the links. */
    method ComputeSizeInBlocks() returns (r: nat)
      requires Linked()
      ensures r == |blocks|
    {
      r := 0;
      var curr: Block?<T> := head;
      while curr != null
        invariant r <= |chain| && curr == (if r < |chain| then chain[r] else null)
        decreases |chain| - r
      {
        assert At(r);
        r := r + 1;
        curr := curr.next;
      }
    }

    method Recount()
      requires Linked()
      modifies this`sizeInBlocks
      ensures Linked() && sizeInBlocks == |blocks|
    {
      sizeInBlocks := ComputeSizeInBlocks();
      forall i | 0 <= i < |chain| ensures At(i) { assert old(At(i)); }
    }

    /** A new, empty head block. */
    method Prepend()
      requires Linked()
      modifies this
      ensures Linked() && fresh(repr - old(repr)) && chain == [head] + old(chain) && blocks == [[]] + old(blocks)
      ensures sizeInBlocks == old(sizeInBlocks) + 1
    {
      var b := new Block(head);
      forall i | 0 <= i < |chain| ensures chain[i] != b { assert At(i); }
      One([b]);
      DistinctConcat([b], chain);
      hide Distinct;
      sizeInBlocks := sizeInBlocks + 1;
      head := b;
      repr, chain, blocks := repr + {b}, [b] + chain, [[]] + blocks;
      forall i | 0 <= i < |chain| ensures At(i) {
        if i > 0 { assert old(At(i - 1)); }
      }
    }

    method Add(obj: T)
      requires Valid()
      modifies this, head
      ensures Valid() && Contents() == old(Contents()) + [obj]
      ensures fresh(repr - old(repr))
    {
      DistinctTail(chain);
      assert At(0);
      hide Distinct;
      head.data := head.data + [obj];
      blocks := [head.data] + blocks[1..];
      forall i | 0 <= i < |chain| ensures At(i) { assert old(At(i)); }
      Pushed(old(blocks), blocks, obj);
      hide Flatten;
      if |head.data| == BLOCK_SIZE {
        ghost var all := blocks;
        EmptyHead(all);
        Prepend();
      }
    }

    method Remove() returns (obj: T)
      requires Valid() && Contents() != []
      modifies this, repr
      ensures Valid() && old(Contents()) == Contents() + [obj]
      ensures repr <= old(repr)
    {
      assert At(0);
      DistinctTail(chain);
      if head.data == [] {
        OnlyHeadEmpty(blocks);
        DistinctTail(chain[1..]);
        hide Distinct;
        assert At(1);
        var second := head.next;
        obj := second.data[|second.data| - 1];
        second.data := second.data[..|second.data| - 1];
        head := second;
        sizeInBlocks := sizeInBlocks - 1;
        chain, blocks := chain[1..], [second.data] + blocks[2..];
        forall i | 0 <= i < |chain| ensures At(i) { assert old(At(i + 1)); }
        assert old(blocks)[1] == second.data + [obj];
        Pushed(blocks, old(blocks)[1..], obj);
      } else {
        hide Distinct;
        obj := head.data[|head.data| - 1];
        head.data := head.data[..|head.data| - 1];
        blocks := [head.data] + blocks[1..];
        forall i | 0 <= i < |chain| ensures At(i) { assert old(At(i)); }
        assert old(blocks)[0] == head.data + [obj];
        Pushed(blocks, old(blocks), obj);
      }
    }

    /** The blocks of `other` after its head, linked to the end of this list. */
    method Take(other: Blockbag<T>)
      requires Linked() && other.Linked() && Apart(other) && other.head.next != null
      modifies this, tail
      ensures Linked() && sizeInBlocks == |blocks| && repr == old(repr) + (other.repr - {other.head})
      ensures chain == old(chain) + other.chain[1..] && blocks == old(blocks) + other.blocks[1..]
    {
      DistinctTail(other.chain);
      ghost var n, theirs := |chain|, other.chain[1..];
      forall i, j | 0 <= i < n && 0 <= j < |theirs| ensures chain[i] != theirs[j] {
        assert At(i) && other.At(j + 1);
      }
      DistinctConcat(chain, theirs);
      forall i | 0 <= i < n - 1 ensures chain[i] != tail { assert Differ(chain, i, n - 1); }
      hide Distinct;
      assert At(n - 1) && other.At(0);
      tail.next := other.head.next;
      tail := other.tail;
      repr, chain, blocks := repr + (other.repr - {other.head}), chain + other.chain[1..], blocks + other.blocks[1..];
      forall i | 0 <= i < |chain| ensures At(i) {
        if i < n { assert old(At(i)); } else { assert old(other.At(i - n + 1)); }
      }
      Recount();
    }

    /** Only the head block is left. */
    method Cut()
      requires Linked()
      modifies this, head
      ensures Linked() && sizeInBlocks == 1 && head == old(head) && repr == {head}
      ensures chain == old(chain)[..1] && blocks == old(blocks)[..1]
    {
      assert At(0);
      head.next := null;
      tail := head;
      repr, chain, blocks := {head}, chain[..1], blocks[..1];
      One(chain);
      Recount();
    }

    /** Every block of `other` but its head is linked to the end of this list. */
    method AppendMoveFullBlocks(other: Blockbag<T>)
      requires Valid() && other.Valid() && Apart(other)
      modifies this, other, tail, other.head
      ensures Valid() && other.Valid() && Apart(other)
      ensures repr + other.repr <= old(repr) + old(other.repr)
      ensures chain == old(chain) + old(other.chain)[1..] && other.chain == old(other.chain)[..1]
      ensures Contents() == Full(old(other.Contents())) + old(Contents())
      ensures other.Contents() == Partial(old(other.Contents()))
    {
      SplitsAtHead(other.blocks);
      FlattenConcat(blocks, other.blocks[1..]);
      HeadOnly(other.blocks);
      hide Flatten, Full, Partial;
      assert other.At(0);
      if other.head.next != null {
        assert (blocks + other.blocks[1..])[1..] == blocks[1..] + other.blocks[1..];
        Take(other);
        other.Cut();
      }
    }

    method MoveOne(other: Blockbag<T>)
      requires Valid() && other.Valid() && Apart(other) && other.Contents() != []
      modifies this, other, repr, other.repr
      ensures Valid() && other.Valid() && Apart(other) && |other.Contents()| < |old(other.Contents())|
      ensures fresh(repr + other.repr - old(repr) - old(other.repr))
      ensures multiset(Contents()) + multiset(other.Contents()) == multiset(old(Contents())) + multiset(old(other.Contents()))
    {
      hide Flatten;
      var obj := other.Remove();
      Add(obj);
    }

    /** The other bag is emptied into this one; no object is lost, added or copied. */
    method AppendMoveAll(other: Blockbag<T>)
      requires Valid() && other.Valid() && Apart(other)
      modifies this, other, repr, other.repr
      ensures Valid() && other.Valid() && Apart(other) && other.Contents() == []
      ensures multiset(Contents()) == multiset(old(Contents())) + multiset(old(other.Contents()))
    {
      ghost var all := multiset(Contents()) + multiset(other.Contents());
      FullAndPartial(Contents(), other.Contents());
      hide Flatten, Full, Partial, AllFull;
      AppendMoveFullBlocks(other);
      assert multiset(Contents()) + multiset(other.Contents()) == all;
      hide Linked;
      var done := other.IsEmpty();
      while !done
        invariant Valid() && other.Valid() && Apart(other) && (done <==> other.Contents() == [])
        invariant fresh(repr + other.repr - old(repr) - old(other.repr))
        invariant multiset(Contents()) + multiset(other.Contents()) == all
        decreases |other.Contents()|
      {
        MoveOne(other);
        done := other.IsEmpty();
      }
      Recount();
    }
  }
}
