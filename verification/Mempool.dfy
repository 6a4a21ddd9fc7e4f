/**
 The packet-buffer pool: a stack of free entry numbers and a reference count per entry.
 `Pool` is the value the `Mempool` object stands for; `free` is the used part of the stack,
 its top last.
 */
module Mempool {
  import opened Common

  datatype Pool = Pool(free: seq<nat>, refs: seq<nat>)

  /** The free stack holds exactly the entries with reference count zero, once each. */
  ghost predicate PoolInv(p: Pool) {
    && (forall i :: 0 <= i < |p.free| ==> p.free[i] < |p.refs|)
    && (forall b: nat :: b < |p.refs| ==> multiset(p.free)[b] == if p.refs[b] == 0 then 1 else 0)
  }

  datatype Allocated = Exhausted | Allocated(pool: Pool, buf: nat)

  function AllocFrom(p: Pool): (a: Allocated)
    requires PoolInv(p)
    ensures a.Exhausted? <==> p.free == []
    ensures a.Allocated? ==>
      && PoolInv(a.pool) && |a.pool.free| == |p.free| - 1
      && a.buf < |p.refs| && p.refs[a.buf] == 0 && a.pool.refs == p.refs[a.buf := 1]
  {
    if p.free == [] then Exhausted
    else
      var b := p.free[|p.free| - 1];
      var p' := Pool(p.free[..|p.free| - 1], p.refs[b := p.refs[b] + 1]);
      assert p.free == p'.free + [b];
      assert multiset(p.free) == multiset(p'.free) + multiset{b};
      Allocated(p', b)
  }

  /** Dropping a reference that does not exist aborts the program (`None`). */
  function Release(p: Pool, b: nat): (r: Option<Pool>)
    requires PoolInv(p) && b < |p.refs|
    ensures r.None? <==> p.refs[b] == 0
    ensures r.Some? ==>
      && PoolInv(r.value) && r.value.refs == p.refs[b := p.refs[b] - 1]
      && |r.value.free| == |p.free| + if p.refs[b] == 1 then 1 else 0
  {
    if p.refs[b] == 0 then None
    else if p.refs[b] != 1 then Some(p.(refs := p.refs[b := p.refs[b] - 1]))
    else Some(Pool(p.free + [b], p.refs[b := 0]))
  }

  /** Free entries and entries in use add up to the pool size. */
  function InUse(refs: seq<nat>): (n: nat)
    ensures n <= |refs|
  {
    if refs == [] then 0
    else InUse(refs[..|refs| - 1]) + if refs[|refs| - 1] == 0 then 0 else 1
  }

  lemma {:induction false} FreeCount(free: multiset<nat>, refs: seq<nat>)
    requires forall b: nat :: free[b] == if b < |refs| && refs[b] == 0 then 1 else 0
    ensures |free| + InUse(refs) == |refs|
    decreases |refs|
  {
    if refs == [] {
      assert free == multiset{};
    } else {
      var n := |refs| - 1;
      var rest := free[n := 0];
      FreeCount(rest, refs[..n]);
      assert free == rest + multiset{n}[n := free[n]];
    }
  }

  lemma PoolConservation(p: Pool)
    requires PoolInv(p)
    ensures |p.free| + InUse(p.refs) == |p.refs|
  {
    forall b: nat ensures multiset(p.free)[b] == if b < |p.refs| && p.refs[b] == 0 then 1 else 0 {
      if b in multiset(p.free) { assert b in p.free; }
    }
    FreeCount(multiset(p.free), p.refs);
  }

  class PacketPool {
    const numEntries: nat
    const freeStack: array<nat>
    var freeStackTop: nat
    const refCount: array<nat>

    ghost predicate Valid()
      reads this, freeStack, refCount
    {
      && freeStack != refCount
      && freeStack.Length == refCount.Length == numEntries
      && freeStackTop <= numEntries
      && PoolInv(View())
    }

    ghost function View(): (p: Pool)
      requires freeStackTop <= freeStack.Length
      reads this, freeStack, refCount
    {
      Pool(freeStack[..freeStackTop], refCount[..])
    }

    constructor (n: nat)
      ensures Valid() && fresh(freeStack) && fresh(refCount)
      ensures numEntries == n
      ensures View() == Pool(seq(n, i => i), seq(n, _ => 0))
    {
      numEntries := n;
      freeStack := new nat[n](i => i);
      refCount := new nat[n](_ => 0);
      freeStackTop := n;
      new;
      assert View().free == seq(n, i => i);
      assert View().refs == seq(n, _ => 0);
      IdentityCount(n);
    }

    /** `pkt_buf_alloc`: pop an entry, or nothing when the pool is dry. */
    method Alloc() returns (buf: Option<nat>)
      requires Valid()
      modifies this`freeStackTop, refCount
      ensures Valid()
      ensures match AllocFrom(old(View()))
              case Exhausted => buf == None && View() == old(View())
              case Allocated(p, b) => buf == Some(b) && View() == p
    {
      if freeStackTop < 1 {
        assert View().free == [];
        return None;
      }
      ghost var before := View();
      freeStackTop := freeStackTop - 1;
      var id := freeStack[freeStackTop];
      assert before.free[freeStackTop] == id;
      refCount[id] := refCount[id] + 1;
      assert View().free == before.free[..|before.free| - 1];
      assert View().refs == before.refs[id := before.refs[id] + 1];
      return Some(id);
    }

    /** `pkt_buf_free`; `ok` is false where the program aborts on a count that is already zero. */
    method Free(b: nat) returns (ok: bool)
      requires Valid() && b < numEntries
      modifies this`freeStackTop, freeStack, refCount
      ensures Valid()
      ensures match Release(old(View()), b)
              case None => !ok && View() == old(View())
              case Some(p) => ok && View() == p
    {
      if refCount[b] == 0 {
        return false;
      }
      ghost var before := View();
      PoolConservation(before);
      refCount[b] := refCount[b] - 1;
      assert View().refs == before.refs[b := before.refs[b] - 1];
      if refCount[b] != 0 {
        return true;
      }
      InUsePositive(before.refs, b);
      freeStack[freeStackTop] := b;
      freeStackTop := freeStackTop + 1;
      assert View().free == before.free + [b];
      return true;
    }
  }

  lemma {:induction false} IdentityCount(n: nat)
    ensures PoolInv(Pool(seq(n, i => i), seq(n, _ => 0)))
    decreases n
  {
    var s := seq(n, i => i);
    if n > 0 {
      IdentityCount(n - 1);
      assert s == seq(n - 1, i => i) + [n - 1];
      assert n - 1 !in seq(n - 1, i => i);
    }
  }

  lemma {:induction false} InUsePositive(refs: seq<nat>, b: nat)
    requires b < |refs| && refs[b] != 0
    ensures InUse(refs) > 0
    decreases |refs|
  {
    if b < |refs| - 1 {
      InUsePositive(refs[..|refs| - 1], b);
    }
  }
}
