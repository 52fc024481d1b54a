/** Address allocation as the DHCP manager uses it (pkg/handler/dhcp.go): a bitmap of offsets
    from the router address, scanned from the bottom
    (vendor/github.com/cilium/ipam/service/allocator/bitmap.go). */
module Allocator {
  import opened Lists

  /** Usable offsets of either range: a size of 2^16 without the first and the last address. */
  const SIZE: nat := 65534
  /** Offsets start one above 223.254.0.100, so from here on the IPv4 address leaves 223.254.0.0/16. */
  const INSIDE_V4: nat := 65435
  /** Offsets start one above efff:ffff:ffff:ffff:ffff:ffff:ffff:9999, so from here on the IPv6 address
      leaves the /64. */
  const INSIDE_V6: nat := 0x6666
  /** How far the networks reach below the first offset. */
  const BELOW_V4: nat := 101
  const BELOW_V6: nat := 0xffff_ffff_ffff_999a

  /** The first offset as a number: 223.254.0.101, and efff:ffff:ffff:ffff:ffff:ffff:ffff:999a. */
  const FIRST_V4: nat := 223 * 0x100_0000 + 254 * 0x1_0000 + 101
  const FIRST_V6: nat := 0xefff_ffff_ffff_ffff_ffff_ffff_ffff_999a

  /** An address lies in 223.254.0.0/16, or in efff:ffff:ffff:ffff::/64, exactly within these distances. */
  lemma NetworkBounds(d: int)
    ensures 0xdffe_0000 <= FIRST_V4 + d <= 0xdffe_ffff <==> 0 <= d + BELOW_V4 && d < INSIDE_V4
    ensures 0xefff_ffff_ffff_ffff_0000_0000_0000_0000 <= FIRST_V6 + d <= 0xefff_ffff_ffff_ffff_ffff_ffff_ffff_ffff
       <==> 0 <= d + BELOW_V6 && d < INSIDE_V6
    ensures SIZE == 0x1_0000 - 2
  {
  }

  type Bits = b: set<nat> | forall i | i in b :: i < SIZE witness {}

  /** The offsets 0 .. n - 1. */
  function Below(n: nat): (s: set<nat>)
    ensures forall i :: i in s <==> 0 <= i < n
  {
    if n == 0 then {} else Below(n - 1) + {n - 1}
  }

  lemma {:induction false} BelowSize(n: nat)
    ensures |Below(n)| == n
  {
    if n > 0 {
      BelowSize(n - 1);
    }
  }

  lemma FullMeansAll(bits: set<nat>, n: nat)
    requires forall i | i in bits :: i < n
    ensures |bits| >= n <==> forall i | 0 <= i < n :: i in bits
  {
    var all := Below(n);
    BelowSize(n);
    assert bits <= all;
    assert all == bits + (all - bits);
    assert |all| == |bits| + |all - bits|;
    assert all - bits == {} <==> forall i | 0 <= i < n :: i in bits;
  }

  /** AllocateNext with the contiguous strategy. */
  method AllocateNext(bits: Bits) returns (r: Option<nat>)
    ensures r.None? <==> forall i | 0 <= i < SIZE :: i in bits
    ensures r.Some? ==> r.value < SIZE && r.value !in bits && forall i | 0 <= i < r.value :: i in bits
  {
    FullMeansAll(bits, SIZE);
    if |bits| >= SIZE {
      return None;
    }
    var i := 0;
    while i < SIZE
      invariant 0 <= i <= SIZE
      invariant forall j | 0 <= j < i :: j in bits
    {
      if i !in bits {
        return Some(i);
      }
      i := i + 1;
    }
    return None;
  }

  /** The offset a rent takes: the least one, from `from` on, that is free and not one of the
      renter's own interface addresses. */
  function FirstRentable(bits: Bits, local: set<nat>, from: nat): (r: Option<nat>)
    requires from <= SIZE
    ensures r.Some? ==> from <= r.value < SIZE && r.value !in bits && r.value !in local
    decreases SIZE - from
  {
    if from == SIZE then None
    else if from !in bits && from !in local then Some(from)
    else FirstRentable(bits, local, from + 1)
  }

  lemma {:induction false} FirstRentableIs(bits: Bits, local: set<nat>, from: nat, v: nat)
    requires from <= v < SIZE && v !in bits && v !in local
    requires forall i | from <= i < v :: i in bits || i in local
    ensures FirstRentable(bits, local, from) == Some(v)
    decreases v - from
  {
    if from < v {
      FirstRentableIs(bits, local, from + 1, v);
    }
  }

  lemma {:induction false} NoneRentable(bits: Bits, local: set<nat>, from: nat)
    requires from <= SIZE
    ensures FirstRentable(bits, local, from) == None <==> forall i | from <= i < SIZE :: i in bits || i in local
    decreases SIZE - from
  {
    if from < SIZE {
      NoneRentable(bits, local, from + 1);
    }
  }

  /** The rent loop: it allocates upwards until the address is not a local one. Every local
      address it passes stays marked, so the marks become everything up to the rented offset.
      Each turn uses up a free offset, which is why it ends. */
  method RentOffset(bits: Bits, local: set<nat>) returns (r: Option<nat>, after: Bits)
    ensures r == FirstRentable(bits, local, 0)
    ensures r.Some? ==> after == bits + Below(r.value + 1)
    ensures r.None? <==> forall i | 0 <= i < SIZE :: i in bits || i in local
  {
    after := bits;
    ghost var low := 0;
    NoneRentable(bits, local, 0);
    while true
      invariant 0 <= low <= SIZE
      invariant forall i :: i in after <==> i in bits || 0 <= i < low
      invariant forall i | 0 <= i < low :: i in bits || i in local
      decreases SIZE - low
    {
      var next := AllocateNext(after);
      if next.None? {
        return None, after;
      }
      var v := next.value;
      after := after + {v};
      low := v + 1;
      if v !in local {
        FirstRentableIs(bits, local, 0, v);
        assert after == bits + Below(v + 1);
        return Some(v), after;
      }
    }
  }

  lemma {:induction false} PassedAreLocal(bits: Bits, local: set<nat>, from: nat)
    requires from <= SIZE && FirstRentable(bits, local, from).Some?
    ensures forall i | from <= i < FirstRentable(bits, local, from).value :: i in bits || i in local
    decreases SIZE - from
  {
    if from in bits || from in local {
      PassedAreLocal(bits, local, from + 1);
    }
  }

  /** A rent takes v: the least offset that is neither marked nor one of the renter's own addresses. It marks
      v and the local offsets it had to pass. */
  ghost predicate TakesLeast(before: Bits, after: Bits, local: set<nat>, v: nat) {
    && v < SIZE && v !in before && v !in local
    && (forall i | 0 <= i < v :: i in before || i in local)
    && after == before + {v} + (set i | i in local && i < v)
  }

  lemma RentTakesLeast(bits: Bits, local: set<nat>)
    requires FirstRentable(bits, local, 0).Some?
    ensures var v := FirstRentable(bits, local, 0).value; TakesLeast(bits, bits + Below(v + 1), local, v)
  {
    PassedAreLocal(bits, local, 0);
  }

  // ---- Releasing ----

  const TWO_63: nat := 0x8000_0000_0000_0000
  const TWO_64: nat := 0x1_0000_0000_0000_0000

  /** big.Int's Int64: the low 64 bits, signed. */
  function Int64(d: int): int {
    (d + TWO_63) % TWO_64 - TWO_63
  }

  /** Range.contains for an address at distance d from the first offset: it must lie in the network,
      and the distance cut to 64 bits must be an offset. */
  function Contains(d: int, below: nat, inside: nat): (r: Option<nat>)
    ensures r.Some? ==> r.value < SIZE
  {
    if 0 <= d + below && d < inside && 0 <= Int64(d) < SIZE then Some(Int64(d)) else None
  }

  function ClearsV4(d: int): Option<nat> {
    Contains(d, BELOW_V4, INSIDE_V4)
  }

  function ClearsV6(d: int): Option<nat> {
    Contains(d, BELOW_V6, INSIDE_V6)
  }

  /** The IPv6 distance whose release clears offset o. An offset past the end of the network is cleared
      by an address at the network's start, whose distance wraps around. */
  function Alias(o: nat): int {
    if o < INSIDE_V6 then o else o - TWO_64
  }

  /** A release of an IPv4 address clears the mark at its own offset, exactly inside the network. */
  lemma ClearsV4Iff(d: int, o: nat)
    ensures ClearsV4(d) == Some(o) <==> d == o && o < INSIDE_V4
  {
  }

  /** Every IPv6 offset is cleared by exactly one address: itself inside the network, its alias beyond. */
  lemma ClearsV6Iff(d: int, o: nat)
    requires o < SIZE
    ensures ClearsV6(d) == Some(o) <==> d == Alias(o)
  {
  }

  function Unmark(bits: Bits, o: Option<nat>): Bits {
    if o.Some? then bits - {o.value} else bits
  }
}
