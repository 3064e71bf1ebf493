/** The socket registry as a value: an ordered sequence of (descriptor, socket) pairs in which operations act on
    the first pair with a given descriptor. */
module Registry {

  datatype Option<+T> = None | Some(value: T)

  datatype Entry<+V> = Entry(key: int, val: V)

  /** Position of the first entry with the key, or the length when there is none. */
  function IndexOf<V>(reg: seq<Entry<V>>, key: int): (i: nat)
    ensures i <= |reg|
    ensures i < |reg| ==> reg[i].key == key
    ensures forall j | 0 <= j < i :: reg[j].key != key
  {
    if reg == [] || reg[0].key == key then 0 else 1 + IndexOf(reg[1..], key)
  }

  predicate Has<V>(reg: seq<Entry<V>>, key: int) {
    IndexOf(reg, key) < |reg|
  }

  function Find<V>(reg: seq<Entry<V>>, key: int): Option<V> {
    if Has(reg, key) then Some(reg[IndexOf(reg, key)].val) else None
  }

  /** The registry without its first entry for the key. */
  function Remove<V>(reg: seq<Entry<V>>, key: int): seq<Entry<V>> {
    var i := IndexOf(reg, key);
    if i < |reg| then reg[..i] + reg[i + 1..] else reg
  }

  ghost predicate DistinctKeys<V>(reg: seq<Entry<V>>) {
    forall i, j | 0 <= i < j < |reg| :: reg[i].key != reg[j].key
  }

  /** The first position with a key is the only candidate for IndexOf. */
  lemma IndexOfIs<V>(reg: seq<Entry<V>>, key: int, i: nat)
    requires i < |reg| && reg[i].key == key && forall j | 0 <= j < i :: reg[j].key != key
    ensures IndexOf(reg, key) == i
  {
  }

  /** With distinct keys, removal takes the key away and adds nothing. */
  lemma RemoveForgets<V>(reg: seq<Entry<V>>, key: int)
    requires DistinctKeys(reg)
    ensures DistinctKeys(Remove(reg, key)) && !Has(Remove(reg, key), key)
    ensures forall e | e in Remove(reg, key) :: e in reg && e.key != key
  {
    var i := IndexOf(reg, key);
    var rest := Remove(reg, key);
    forall k | 0 <= k < |rest| ensures rest[k] in reg && rest[k].key != key {
      assert i < |reg| ==> rest[k] == reg[if k < i then k else k + 1];
    }
  }

  /** With distinct keys, removal takes away the entry under the key and no other. */
  lemma RemoveDropsOnly<V>(reg: seq<Entry<V>>, key: int, e: Entry<V>)
    requires DistinctKeys(reg) && e in reg
    ensures e in Remove(reg, key) <==> e.key != key
  {
    hide IndexOf;
    RemoveForgets(reg, key);
    var i := IndexOf(reg, key);
    if e.key != key && i < |reg| {
      var k :| 0 <= k < |reg| && reg[k] == e;
      assert reg[i].key == key;
      assert if k < i then reg[..i][k] == e else reg[i + 1..][k - i - 1] == e;
    }
  }

  /** Removal leaves the lookup of every other key alone. */
  lemma RemoveKeepsOthers<V>(reg: seq<Entry<V>>, key: int, other: int)
    requires key != other
    ensures Find(Remove(reg, key), other) == Find(reg, other)
  {
    var i, at := IndexOf(reg, key), IndexOf(reg, other);
    var rest := Remove(reg, key);
    if i < |reg| {
      assert forall k | 0 <= k < |rest| :: rest[k] == reg[if k < i then k else k + 1];
      if at < |reg| {
        IndexOfIs(rest, other, if at < i then at else at - 1);
      }
    }
  }

  /** With distinct keys, what can still be looked up after a removal. */
  lemma RemoveHas<V>(reg: seq<Entry<V>>, key: int, other: int)
    requires DistinctKeys(reg)
    ensures DistinctKeys(Remove(reg, key)) && (Has(Remove(reg, key), other) <==> Has(reg, other) && other != key)
  {
    RemoveForgets(reg, key);
    if other != key {
      RemoveKeepsOthers(reg, key, other);
    }
  }

  /** With distinct keys, the entry found under a key is the one that carries it. */
  lemma FindMember<V>(reg: seq<Entry<V>>, e: Entry<V>)
    requires DistinctKeys(reg) && e in reg
    ensures Find(reg, e.key) == Some(e.val)
  {
    var i :| 0 <= i < |reg| && reg[i] == e;
    IndexOfIs(reg, e.key, i);
  }

  /** Appending under a fresh key keeps keys distinct and every lookup but the new one. */
  lemma AppendKeeps<V>(reg: seq<Entry<V>>, e: Entry<V>)
    requires DistinctKeys(reg) && !Has(reg, e.key)
    ensures DistinctKeys(reg + [e])
    ensures forall key | key != e.key :: Find(reg + [e], key) == Find(reg, key)
    ensures Find(reg + [e], e.key) == Some(e.val)
  {
    forall key | key != e.key ensures Find(reg + [e], key) == Find(reg, key) {
      if Has(reg, key) {
        IndexOfIs(reg + [e], key, IndexOf(reg, key));
      }
    }
    IndexOfIs(reg + [e], e.key, |reg|);
  }
}
