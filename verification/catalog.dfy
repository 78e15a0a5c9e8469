/**
 * The instruction catalog: the records the engine adds, in discovery order,
 * and the membership test that detects revisits. The source keeps them in a
 * list behind `sops` (`sops_add`, `sops_contains`), whose implementation is
 * not part of this model; `sops_add` is taken to append without looking for
 * an existing record at the same address.
 */
module Catalog {

  /** One decoded instruction: physical address, byte length, rendered text. */
  datatype Record = Record(addr: nat, length: nat, text: string)

  type Catalog = seq<Record>

  /** `sops_contains`: is some record at physical address `addr`? */
  function Contains(c: Catalog, addr: nat): (b: bool)
    ensures b <==> exists i :: 0 <= i < |c| && c[i].addr == addr
  {
    if |c| == 0 then false
    else c[|c| - 1].addr == addr || Contains(c[..|c| - 1], addr)
  }

  /** `sops_add`, taken to append whether or not the address is already present. */
  function Add(c: Catalog, r: Record): (c': Catalog)
    ensures |c'| == |c| + 1
    ensures c'[..|c|] == c && c'[|c|] == r
  {
    c + [r]
  }

  /** After an addition, the catalog contains exactly the old addresses and the new one. */
  lemma AddContains(c: Catalog, r: Record, addr: nat)
    ensures Contains(Add(c, r), addr) <==> Contains(c, addr) || r.addr == addr
  {
    var c' := Add(c, r);
    if Contains(c, addr) {
      var i :| 0 <= i < |c| && c[i].addr == addr;
      assert c'[i] == c[i];
    }
    if Contains(c', addr) && r.addr != addr {
      var i :| 0 <= i < |c'| && c'[i].addr == addr;
      assert i < |c| && c[i] == c'[i];
    }
  }

  /** No two records share an address: the property a re-check after every pop would keep. */
  predicate Unique(c: Catalog) {
    forall i, j :: 0 <= i < j < |c| ==> c[i].addr != c[j].addr
  }

  /** Adding at an address not yet present keeps the addresses unique, and only then. */
  lemma AddUnique(c: Catalog, r: Record)
    requires Unique(c)
    ensures Unique(Add(c, r)) <==> !Contains(c, r.addr)
  {
    var c' := Add(c, r);
    if Contains(c, r.addr) {
      var i :| 0 <= i < |c| && c[i].addr == r.addr;
      assert c'[i].addr == c'[|c|].addr;
    }
  }
}
