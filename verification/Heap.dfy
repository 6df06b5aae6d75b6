/** The heap of boxed wakers: every access to a dead address is recorded as a fault. */
module Heap {
  import opened Base

  type Address = nat

  /** `serial` tells allocations apart even when an address is used again. */
  datatype Box = Box(reg: Registration, serial: nat)

  datatype Memory = Memory(
    live: map<Address, Box>,
    allocs: nat,         // boxes ever allocated; the next serial
    freed: seq<nat>,     // serials in the order freed
    fault: bool)

  const EMPTY := Memory(map[], 0, [], false)

  function Allocate(m: Memory, address: Address, reg: Registration): Memory {
    m.(live := m.live[address := Box(reg, m.allocs)], allocs := m.allocs + 1,
       fault := m.fault || address in m.live)
  }

  function Write(m: Memory, address: Address, reg: Registration): Memory {
    if address in m.live then m.(live := m.live[address := Box(reg, m.live[address].serial)])
    else m.(fault := true)
  }

  function Free(m: Memory, address: Address): Memory {
    if address in m.live then m.(live := m.live - {address}, freed := m.freed + [m.live[address].serial])
    else m.(fault := true)
  }

  function Content(m: Memory, address: Address): Option<Registration> {
    if address in m.live then Some(m.live[address].reg) else None
  }

  /** Every serial issued is either live once or freed once. */
  predicate SerialsOk(m: Memory) {
    && |m.freed| + |m.live| == m.allocs
    && (forall p <- m.live :: m.live[p].serial < m.allocs && m.live[p].serial !in m.freed)
    && (forall p <- m.live, q <- m.live :: p != q ==> m.live[p].serial != m.live[q].serial)
    && (forall k <- m.freed :: k < m.allocs)
    && (forall i, j | 0 <= i < j < |m.freed| :: m.freed[i] != m.freed[j])
  }

  lemma AllocateKeepsSerials(m: Memory, address: Address, reg: Registration)
    requires SerialsOk(m) && address !in m.live
    ensures SerialsOk(Allocate(m, address, reg))
  {
  }

  lemma WriteKeepsSerials(m: Memory, address: Address, reg: Registration)
    requires SerialsOk(m)
    ensures SerialsOk(Write(m, address, reg))
  {
    if address in m.live {
      assert Write(m, address, reg).live.Keys == m.live.Keys;
    }
  }

  lemma FreeKeepsSerials(m: Memory, address: Address)
    requires SerialsOk(m)
    ensures SerialsOk(Free(m, address))
  {
    if address in m.live {
      assert Free(m, address).live.Keys == m.live.Keys - {address};
    }
  }

  /** With nothing live, the two boxes at most ever allocated have both been freed. */
  lemma AllFreed(m: Memory)
    requires SerialsOk(m) && m.live == map[] && m.allocs <= 2
    ensures forall k: nat :: k < m.allocs <==> k in m.freed
  {
    if |m.freed| == 1 {
      assert m.freed[0] in m.freed;
    } else if |m.freed| == 2 {
      assert m.freed[0] in m.freed && m.freed[1] in m.freed;
    }
  }

  /** There is always an address to allocate at. */
  lemma {:induction false} FreshAddress(used: set<Address>) returns (bound: Address)
    ensures forall p <- used :: p < bound
  {
    if used == {} {
      bound := 0;
    } else {
      var p :| p in used;
      var rest := FreshAddress(used - {p});
      bound := if p < rest then rest else p + 1;
      assert forall q <- used :: q == p || q in used - {p};
    }
  }
}
