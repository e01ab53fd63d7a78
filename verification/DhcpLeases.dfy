/** The hotspot DHCP server's lease table: round-robin allocation over an address pool. */
module DhcpLeases {
  import opened Wrappers
  import opened Bytes

  type Mac = m: seq<Byte> | |m| == 6 witness [0, 0, 0, 0, 0, 0]

  /** Addresses `first` to `last`, both included. */
  datatype Pool = Pool(first: U32, last: U32) {
    predicate Has(a: U32) { first <= a <= last }

    function Size(): nat {
      if last < first then 0 else last - first + 1
    }

    /** The one pool whose size does not fit the 32-bit arithmetic of the probe. */
    predicate WholeSpace() { Size() == 0x1_0000_0000 }
  }

  datatype Leases = Leases(byMac: map<Mac, U32>, next: U32)

  /** 32-bit wrap-around. */
  function Wrap(x: int): U32 { x % 0x1_0000_0000 }

  function Taken(byMac: map<Mac, U32>): set<U32> { set m <- byMac :: byMac[m] }

  // ---- What one allocation does ------------------------------------------------

  /** The first free offset among the `left` offsets from `off` on, going round the pool. */
  function FirstFree(taken: set<U32>, pool: Pool, off: nat, left: nat): (r: Option<nat>)
    requires off < pool.Size()
    ensures r.Some? ==> r.value < pool.Size() && pool.first + r.value !in taken
    decreases left
  {
    if left == 0 then None
    else if pool.first + off !in taken then Some(off)
    else FirstFree(taken, pool, After(off, pool.Size()), left - 1)
  }

  /** Where the next probe starts, relative to the pool. */
  function Offset(next: U32, pool: Pool): (off: nat)
    requires pool.Size() > 0
    ensures off < pool.Size()
  {
    Wrap(next - pool.first) % pool.Size()
  }

  /** The address after the pool's at an offset, with 32-bit wrap-around. */
  function Past(off: nat, pool: Pool): U32 { Wrap(pool.first + off + 1) }

  function Allocate(l: Leases, mac: Mac, pool: Pool): (Leases, Option<U32>) {
    if mac in l.byMac then (l, Some(l.byMac[mac]))
    else if pool.Size() == 0 then (l, None)
    else
      var off := Offset(l.next, pool);
      match FirstFree(Taken(l.byMac), pool, off, pool.Size())
      case Some(o) =>
        var a := pool.first + o;
        (Leases(l.byMac[mac := a], Past(o, pool)), Some(a))
      case None => (l.(next := Past(Before(off, pool.Size()), pool)), None)
  }

  function After(off: nat, size: nat): nat
    requires off < size
  {
    if off + 1 == size then 0 else off + 1
  }

  /** The offset just before `off` going round: where a full unsuccessful turn ends. */
  function Before(off: nat, size: nat): nat
    requires off < size
  {
    if off == 0 then size - 1 else off - 1
  }

  // ---- The table and its probe loop ----------------------------------------------

  class LeaseTable {
    var byMac: map<Mac, U32>
    var next: U32

    ghost function State(): Leases
      reads this
    {
      Leases(byMac, next)
    }

    constructor (pool: Pool)
      ensures State() == Leases(map[], pool.first)
    {
      byMac := map[];
      next := pool.first;
    }

    method Assign(mac: Mac, pool: Pool) returns (r: Option<U32>)
      requires !pool.WholeSpace()
      modifies this
      ensures (State(), r) == Allocate(old(State()), mac, pool)
    {
      if mac in byMac { return Some(byMac[mac]); }
      if pool.last < pool.first { return None; }
      r := Search(Taken(byMac), pool);
      if r.Some? { byMac := byMac[mac := r.value]; }
    }

    /** The probe: at most one turn round the pool, `next` left just past the last candidate tried. */
    method Search(taken: set<U32>, pool: Pool) returns (r: Option<U32>)
      requires pool.Size() > 0 && !pool.WholeSpace()
      modifies this`next
      ensures var off := Offset(old(next), pool);
              match FirstFree(taken, pool, off, pool.Size())
              case Some(o) => r == Some(pool.first + o) && next == Past(o, pool)
              case None => r == None && next == Past(Before(off, pool.Size()), pool)
    {
      var size := pool.Size();
      ghost var off := Offset(next, pool);
      ghost var here := off;
      var i := 0;
      while i < size
        invariant 0 <= i <= size && here < size && here == Turned(off, i, size)
        invariant Offset(next, pool) == here
        invariant FirstFree(taken, pool, off, size) == FirstFree(taken, pool, here, size - i)
        invariant i > 0 ==> next == Past(Before(here, size), pool)
      {
        var candidate := pool.first + Offset(next, pool);
        next := Wrap(candidate + 1);
        assert candidate == pool.first + here && next == Past(here, pool);
        if candidate !in taken { return Some(candidate); }
        ProbeAdvances(taken, pool, off, here, i);
        here := After(here, size);
        i := i + 1;
      }
      r := None;
    }
  }

  /** What one unsuccessful probe does to the cursor. */
  lemma ProbeAdvances(taken: set<U32>, pool: Pool, off: nat, here: nat, i: nat)
    requires off < pool.Size() && i < pool.Size() && !pool.WholeSpace()
    requires here == Turned(off, i, pool.Size()) && pool.first + here in taken
    ensures var here' := After(here, pool.Size());
            && here' == Turned(off, i + 1, pool.Size()) && Before(here', pool.Size()) == here
            && Offset(Past(here, pool), pool) == here'
            && FirstFree(taken, pool, here, pool.Size() - i) == FirstFree(taken, pool, here', pool.Size() - i - 1)
  {
    NextOffset(pool, here);
  }

  lemma SmallMod(x: nat, n: nat)
    requires x <= n && n > 0
    ensures x % n == if x == n then 0 else x
  {
  }

  lemma WrapRoundTrip(base: U32, x: nat)
    requires x < 0x1_0000_0000
    ensures Wrap(Wrap(base + x) - base) == x
  {
  }

  lemma NextOffset(pool: Pool, off: nat)
    requires off < pool.Size() && !pool.WholeSpace()
    ensures Offset(Past(off, pool), pool) == After(off, pool.Size())
  {
    var here := Past(off, pool);
    assert Wrap(here - pool.first) == off + 1 by { WrapRoundTrip(pool.first, off + 1); }
    SmallOffset(here, pool, off + 1);
  }

  lemma SmallOffset(here: U32, pool: Pool, x: nat)
    requires Wrap(here - pool.first) == x && 0 < x <= pool.Size()
    ensures Offset(here, pool) == if x == pool.Size() then 0 else x
  {
    SmallMod(x, pool.Size());
  }

  // ---- The probe visits every address exactly once ---------------------------------

  /** The offset reached from `off` after `j` steps round the pool. */
  function Turned(off: nat, j: nat, size: nat): nat
    requires off < size && j <= size
  {
    if off + j < size then off + j else off + j - size
  }

  lemma {:induction false} NoneFree(taken: set<U32>, pool: Pool, off: nat, left: nat)
    requires off < pool.Size() && left <= pool.Size()
    ensures FirstFree(taken, pool, off, left).None?
            <==> forall j: nat :: j < left ==> pool.first + Turned(off, j, pool.Size()) in taken
    decreases left
  {
    var size := pool.Size();
    if left > 0 {
      var next := After(off, size);
      NoneFree(taken, pool, next, left - 1);
      assert Turned(off, 0, size) == off;
      forall j: nat | j < left - 1 ensures Turned(next, j, size) == Turned(off, j + 1, size) {}
      if forall j: nat :: j < left ==> pool.first + Turned(off, j, size) in taken {
        forall j: nat | j < left - 1 ensures pool.first + Turned(next, j, size) in taken {
          assert pool.first + Turned(off, j + 1, size) in taken;
        }
      } else if pool.first + off in taken {
        var j: nat :| j < left && pool.first + Turned(off, j, size) !in taken;
        assert pool.first + Turned(next, j - 1, size) !in taken;
      }
    }
  }

  /** A full turn fails exactly when the pool is exhausted. */
  lemma FullTurn(taken: set<U32>, pool: Pool, off: nat)
    requires off < pool.Size()
    ensures FirstFree(taken, pool, off, pool.Size()).None? <==> forall a: U32 :: pool.Has(a) ==> a in taken
  {
    var size := pool.Size();
    NoneFree(taken, pool, off, size);
    if FirstFree(taken, pool, off, size).None? {
      forall a: U32 | pool.Has(a) ensures a in taken {
        var o := a - pool.first;
        var j := if o >= off then o - off else o + size - off;
        assert Turned(off, j, size) == o;
      }
    }
  }

  // ---- What every sequence of allocations keeps ------------------------------------

  /** No address is bound twice, and every bound address lies in the pool. */
  ghost predicate Sound(byMac: map<Mac, U32>, pool: Pool) {
    && (forall m <- byMac :: pool.Has(byMac[m]))
    && (forall m, m' :: m in byMac && m' in byMac && byMac[m] == byMac[m'] ==> m == m')
  }

  /** Every binding of `old'` is still there. */
  ghost predicate Extends(old': map<Mac, U32>, new': map<Mac, U32>) {
    forall m <- old' :: m in new' && new'[m] == old'[m]
  }

  lemma BindingKeeps(byMac: map<Mac, U32>, mac: Mac, a: U32, pool: Pool)
    requires Sound(byMac, pool) && mac !in byMac && pool.Has(a) && a !in Taken(byMac)
    ensures Sound(byMac[mac := a], pool) && Extends(byMac, byMac[mac := a])
  {
    assert forall m <- byMac :: byMac[m] in Taken(byMac);
  }

  /** One allocation: sound tables stay sound, bindings are permanent, and `None` means exhausted. */
  lemma AllocateIsSound(l: Leases, mac: Mac, pool: Pool)
    requires Sound(l.byMac, pool)
    ensures var (l', r) := Allocate(l, mac, pool);
            && Sound(l'.byMac, pool)
            && Extends(l.byMac, l'.byMac)
            && (forall m <- l'.byMac :: m in l.byMac || m == mac)
            && (r.Some? <==> mac in l'.byMac)
            && (r.Some? ==> r.value == l'.byMac[mac])
            && (r.None? <==> mac !in l.byMac && forall a: U32 :: pool.Has(a) ==> a in Taken(l.byMac))
  {
    if mac !in l.byMac && pool.Size() > 0 {
      FullTurn(Taken(l.byMac), pool, Offset(l.next, pool));
      var r := Allocate(l, mac, pool).1;
      if r.Some? { BindingKeeps(l.byMac, mac, r.value, pool); }
    }
  }

  function AllocateAll(l: Leases, macs: seq<Mac>, pool: Pool): Leases
    decreases |macs|
  {
    if macs == [] then l else AllocateAll(Allocate(l, macs[0], pool).0, macs[1..], pool)
  }

  /** Over any sequence of allocations bindings stay injective, in-pool and permanent. */
  lemma {:induction false} EveryRunIsSound(l: Leases, macs: seq<Mac>, pool: Pool)
    requires Sound(l.byMac, pool)
    ensures var end := AllocateAll(l, macs, pool).byMac;
            Sound(end, pool) && Extends(l.byMac, end)
    decreases |macs|
  {
    if macs != [] {
      AllocateIsSound(l, macs[0], pool);
      EveryRunIsSound(Allocate(l, macs[0], pool).0, macs[1..], pool);
    }
  }

  /** A client keeps its first address, whatever was allocated in between. */
  lemma AddressIsSticky(l: Leases, mac: Mac, between: seq<Mac>, pool: Pool)
    requires Sound(l.byMac, pool) && Allocate(l, mac, pool).1.Some?
    ensures var (l', r) := Allocate(l, mac, pool);
            Allocate(AllocateAll(l', between, pool), mac, pool).1 == r
  {
    AllocateIsSound(l, mac, pool);
    EveryRunIsSound(Allocate(l, mac, pool).0, between, pool);
  }
}
