/** The singly linked list of addresses with its cyclic iterator. As for the socket list, access to a node requires it
    to be live. */
module AddressList {
  import opened Registry

  type Address = seq<bv8>

  /** A bal_addr. */
  class AddressNode {
    var addr: Address
    var next: AddressNode?
    ghost var live: bool

    constructor (addr: Address)
      ensures live && this.addr == addr && next == null
    {
      this.addr, next, live := addr, null, true;
    }

    function Addr(): Address
      requires live
      reads this
    {
      addr
    }

    function Next(): AddressNode?
      requires live
      reads this
    {
      next
    }

    method SetNext(node: AddressNode?)
      requires live
      modifies this`next
      ensures next == node
    {
      next := node;
    }

    /** free() */
    method Free()
      requires live
      modifies this`live
      ensures !live
    {
      live := false;
    }
  }

  function NodeAt(nodes: seq<AddressNode>, i: int): AddressNode? {
    if 0 <= i < |nodes| then nodes[i] else null
  }

  ghost predicate Linked(nodes: seq<AddressNode>, contents: seq<Address>)
    reads nodes
  {
    && |contents| == |nodes|
    && (forall i | 0 <= i < |nodes| :: nodes[i].live && nodes[i].addr == contents[i])
    && (forall i, j | 0 <= i < j < |nodes| :: nodes[i] != nodes[j])
    && (forall i {:trigger nodes[i].next} | 0 <= i < |nodes| :: nodes[i].next == NodeAt(nodes, i + 1))
  }

  /** Where the iterator of an n-element list stands after one more enumeration call; n stands for the null it passes
      through once a cycle. */
  function NextCursor(n: nat, cursor: nat): nat {
    if cursor < n then cursor + 1 else 0
  }

  function CursorAfter(n: nat, calls: nat): nat {
    if calls == 0 then 0 else NextCursor(n, CursorAfter(n, calls - 1))
  }

  /** From a reset, the k-th enumeration call (from 0) finds the iterator at k mod (n + 1): each address in order, then
      null, over and over. */
  lemma {:induction false} EnumerationIsCyclic(n: nat, k: nat)
    ensures CursorAfter(n, k) == k % (n + 1)
  {
    var m := n + 1;
    if k == 0 {
      Remainder(0, m, 0, 0);
    } else {
      EnumerationIsCyclic(n, k - 1);
      var q, r := (k - 1) / m, (k - 1) % m;
      assert m * (q + 1) == m * q + m;
      if r == n {
        Remainder(k, m, q + 1, 0);
      } else {
        Remainder(k, m, q, r + 1);
      }
    }
  }

  lemma AtLeast(d: nat, x: int)
    requires x >= 1
    ensures d * x >= d
  {
  }

  /** Quotient and remainder are unique. */
  lemma Remainder(a: nat, d: nat, q: nat, r: nat)
    requires r < d && a == d * q + r
    ensures a % d == r
  {
    var q', r' := a / d, a % d;
    assert a == d * q' + r';
    assert d * (q - q') == d * q - d * q' && d * (q' - q) == d * q' - d * q;
    if q > q' {
      AtLeast(d, q - q');
    } else if q < q' {
      AtLeast(d, q' - q);
    }
  }

  class AddrList {
    var first: AddressNode?
    var iter: AddressNode?
    ghost var nodes: seq<AddressNode>
    ghost var contents: seq<Address>
    ghost var cursor: nat

    ghost predicate Valid()
      reads this, nodes
    {
      && Linked(nodes, contents) && first == NodeAt(nodes, 0)
      && cursor <= |nodes| && iter == NodeAt(nodes, cursor)
    }

    constructor ()
      ensures Valid() && contents == [] && nodes == []
    {
      first, iter, nodes, contents, cursor := null, null, [], [], 0;
    }

    /** Copies resolved addresses into this list, replacing what it pointed to. `budget` is the number of allocations
        that succeed. Running out of memory leaves a shorter list behind and the iterator where it was; without any
        address (a null list of them) nothing changes. */
    method Build(infos: seq<Address>, budget: nat) returns (ok: bool)
      modifies this
      ensures ok == (infos != [] && |infos| <= budget)
      ensures infos == [] ==> first == old(first) && nodes == old(nodes) && contents == old(contents)
      ensures infos != [] ==> Linked(nodes, contents) && fresh(nodes) && first == NodeAt(nodes, 0)
      ensures infos != [] ==> contents == if ok then infos else infos[..budget]
      ensures ok ==> Valid() && cursor == 0
      ensures !ok ==> iter == old(iter)
    {
      if infos == [] {
        return false;
      }
      first := null;
      var last: AddressNode? := null;
      var cur, left := 0, budget;
      nodes, contents := [], [];
      while cur < |infos|
        invariant 0 <= cur <= |infos| && cur + left == budget
        invariant Linked(nodes, contents) && contents == infos[..cur]
        invariant fresh(nodes) && first == NodeAt(nodes, 0) && last == NodeAt(nodes, cur - 1)
        invariant iter == old(iter)
      {
        if left == 0 {
          return false;
        }
        var node := new AddressNode(infos[cur]);
        Append(last, node);
        last, cur, left := node, cur + 1, left - 1;
      }
      Reset();
      return true;
    }

    /** Hangs a new node on the end. */
    method Append(last: AddressNode?, node: AddressNode)
      requires Linked(nodes, contents) && first == NodeAt(nodes, 0) && last == NodeAt(nodes, |nodes| - 1)
      requires node !in nodes && node.live && node.next == null
      modifies last, this`first, this`nodes, this`contents
      ensures Linked(nodes, contents) && first == NodeAt(nodes, 0)
      ensures nodes == old(nodes) + [node] && contents == old(contents) + [node.addr]
    {
      if last == null {
        first := node;
      } else {
        last.SetNext(node);
      }
      ghost var all := nodes + [node];
      forall i | 0 <= i < |all|
        ensures all[i].live && all[i].addr == (contents + [node.addr])[i] && all[i].next == NodeAt(all, i + 1)
      {
        assert i < |nodes| ==> all[i] == nodes[i];
      }
      nodes, contents := all, contents + [node.addr];
    }

    method Reset()
      requires Linked(nodes, contents) && first == NodeAt(nodes, 0)
      modifies this`iter, this`cursor
      ensures Valid() && cursor == 0
    {
      iter, cursor := first, 0;
    }

    method Enumerate() returns (addr: Option<Address>)
      requires Valid()
      modifies this`iter, this`cursor
      ensures Valid()
      ensures addr == if old(cursor) < |contents| then Some(contents[old(cursor)]) else None
      ensures cursor == NextCursor(|contents|, old(cursor))
    {
      addr := None;
      if first != null {
        if iter != null {
          addr := Some(iter.Addr());
          iter, cursor := iter.Next(), cursor + 1;
        } else {
          Reset();
        }
      }
    }

    /** A reset and k + 1 enumeration calls: the last of them returns the address at k modulo n + 1, or null when
        there is none at that position. */
    method KthAfterReset(k: nat) returns (addr: Option<Address>)
      requires Valid()
      modifies this`iter, this`cursor
      ensures Valid()
      ensures var i := k % (|contents| + 1); addr == if i < |contents| then Some(contents[i]) else None
    {
      Reset();
      addr := Enumerate();
      for calls := 1 to k + 1
        invariant Valid() && cursor == CursorAfter(|contents|, calls)
        invariant var i := CursorAfter(|contents|, calls - 1);
          i <= |contents| && addr == if i < |contents| then Some(contents[i]) else None
      {
        addr := Enumerate();
      }
      EnumerationIsCyclic(|contents|, k);
    }

    /** Releases every node once. */
    method FreeAll()
      requires Valid()
      modifies this, nodes
      ensures Valid() && contents == [] && nodes == []
      ensures forall n | n in old(nodes) :: !n.live
    {
      iter := first;
      ghost var i := 0;
      while iter != null
        invariant 0 <= i <= |nodes| && iter == NodeAt(nodes, i)
        modifies this`iter, nodes
        invariant forall k | 0 <= k < i :: !nodes[k].live
        invariant forall k | i <= k < |nodes| :: nodes[k].live
        invariant forall k {:trigger nodes[k].next} | 0 <= k < |nodes| :: nodes[k].next == NodeAt(nodes, k + 1)
        decreases |nodes| - i
      {
        var next := iter.Next();
        iter.Free();
        iter, i := next, i + 1;
      }
      first := null;
      nodes, contents, cursor := [], [], 0;
    }
  }
}
