// IP prefixes: the mask arithmetic of Python's ipaddress against the blocks of section 3.1 of RFC 4632.
module Prefixes {
  import opened Arithmetic
  import opened Common

  datatype Version = V4 | V6

  datatype Address = Address(version: Version, value: nat)

  datatype Interface = Interface(address: Address, prefix: nat)

  function Width(v: Version): nat { if v.V4? then 32 else 128 }

  predicate ValidAddress(a: Address) { a.value < Pow2(Width(a.version)) }

  predicate ValidInterface(i: Interface) { ValidAddress(i.address) && i.prefix <= Width(i.address.version) }

  // ---- as ipaddress computes it ----

  function And(x: nat, y: nat): nat
  {
    if x == 0 || y == 0 then 0 else 2 * And(x / 2, y / 2) + (x % 2) * (y % 2)
  }

  function BlockSize(i: Interface): (k: nat)
    requires ValidInterface(i)
    ensures k >= 1
  {
    Pow2(Width(i.address.version) - i.prefix)
  }

  // Four addresses in an IPv4 /30 and in an IPv6 /126.
  lemma KnownBlocks(v4: Address, v6: Address)
    requires ValidAddress(v4) && ValidAddress(v6) && v4.version.V4? && v6.version.V6?
    ensures BlockSize(Interface(v4, 30)) == 4 && BlockSize(Interface(v6, 126)) == 4
  {
    assert Pow2(2) == 4;
  }

  // All ones except for the host bits.
  function Netmask(i: Interface): nat
    requires ValidInterface(i)
  {
    Pow2Grows(Width(i.address.version) - i.prefix, Width(i.address.version));
    Pow2(Width(i.address.version)) - BlockSize(i)
  }

  function NetworkAddress(i: Interface): nat
    requires ValidInterface(i)
  {
    And(i.address.value, Netmask(i))
  }

  function BroadcastAddress(i: Interface): nat
    requires ValidInterface(i)
  {
    NetworkAddress(i) + BlockSize(i) - 1
  }

  // `address in interface.network`
  predicate InNetwork(a: Address, i: Interface)
    requires ValidInterface(i)
  {
    a.version == i.address.version && And(a.value, Netmask(i)) == NetworkAddress(i)
  }

  // ---- as a prefix block ----

  // The leading prefix bits agree.
  predicate InBlock(v: nat, i: Interface)
    requires ValidInterface(i)
  {
    v / BlockSize(i) == i.address.value / BlockSize(i)
  }

  // In the block and, for IPv4, neither its first nor its last address.
  predicate HostOf(v: nat, i: Interface)
    requires ValidInterface(i)
  {
    InBlock(v, i) && (i.address.version.V4? ==> v % BlockSize(i) != 0 && v % BlockSize(i) != BlockSize(i) - 1)
  }

  lemma {:induction false} Pow2Grows(a: nat, b: nat)
    requires a <= b
    ensures Pow2(a) <= Pow2(b)
    decreases b
  {
    if a < b { Pow2Grows(a, b - 1); }
  }

  // Clearing the last bits compares like dividing, and pins the place inside the block.
  lemma Aligned(v: nat, u: nat, k: nat)
    requires k >= 1
    ensures v - v % k == k * (v / k) && u - u % k == k * (u / k)
    ensures v - v % k == u - u % k <==> v / k == u / k
    ensures v / k == u / k <==> k * (u / k) <= v <= k * (u / k) + k - 1
    ensures v / k == u / k ==> v % k == v - k * (u / k)
  {
    DivMod(v, k, u / k);
    DivMod(u, k, u / k);
    if v / k < u / k { StepsOf(v / k, u / k, k); } else if u / k < v / k { StepsOf(u / k, v / k, k); }
  }

  lemma ModDouble(x: nat, k: nat)
    requires k >= 1
    ensures x % (2 * k) == 2 * ((x / 2) % k) + x % 2
  {
    var q := (x / 2) / k;
    DivMod(x / 2, k, q);
    assert x == (2 * k) * q + (2 * ((x / 2) % k) + x % 2);
    DivMod(x, 2 * k, q);
  }

  lemma {:induction false} AndOnes(x: nat, n: nat)
    requires x < Pow2(n)
    ensures And(x, Pow2(n) - 1) == x
  {
    if n > 0 && x > 0 {
      assert (Pow2(n) - 1) / 2 == Pow2(n - 1) - 1 && (Pow2(n) - 1) % 2 == 1;
      AndOnes(x / 2, n - 1);
    }
  }

  // Masking n-bit x with n - h leading ones clears the last h bits.
  lemma {:induction false} AndMask(x: nat, n: nat, h: nat)
    requires x < Pow2(n) && h <= n
    ensures Pow2(h) <= Pow2(n) && And(x, Pow2(n) - Pow2(h)) == x - x % Pow2(h)
  {
    Pow2Grows(h, n);
    if h == 0 {
      AndOnes(x, n);
    } else {
      var mask := Pow2(n) - Pow2(h);
      Pow2Grows(h - 1, n - 1);
      assert mask == 2 * (Pow2(n - 1) - Pow2(h - 1));
      AndMask(x / 2, n - 1, h - 1);
      ModDouble(x, Pow2(h - 1));
      if mask == 0 { assert And(x / 2, mask / 2) == 0; }
    }
  }

  // The same about the numbers alone: masked values, and the first and last number of u's block.
  lemma BlockNumbers(v: nat, u: nat, k: nat, maskedV: nat, first: nat, last: nat)
    requires k >= 1 && maskedV == v - v % k && first == u - u % k && last == first + k - 1
    ensures maskedV == first <==> v / k == u / k
    ensures v / k == u / k <==> first <= v <= last
    ensures v / k == u / k ==> (v % k == 0 <==> v == first) && (v % k == k - 1 <==> v == last)
  {
    Aligned(v, u, k);
  }

  lemma Masked(v: nat, i: Interface)
    requires ValidInterface(i) && v < Pow2(Width(i.address.version))
    ensures And(v, Netmask(i)) == v - v % BlockSize(i)
  {
    AndMask(v, Width(i.address.version), Width(i.address.version) - i.prefix);
  }

  // Masked comparison is prefix agreement, and the block is the interval from network to broadcast.
  lemma BlockIsInterval(a: Address, i: Interface)
    requires ValidAddress(a) && ValidInterface(i)
    ensures InNetwork(a, i) <==> a.version == i.address.version && InBlock(a.value, i)
    ensures a.version == i.address.version ==>
      (InBlock(a.value, i) <==> NetworkAddress(i) <= a.value <= BroadcastAddress(i))
    ensures a.version == i.address.version && InBlock(a.value, i) ==>
      (a.value % BlockSize(i) == 0 <==> a.value == NetworkAddress(i))
      && (a.value % BlockSize(i) == BlockSize(i) - 1 <==> a.value == BroadcastAddress(i))
  {
    if a.version == i.address.version {
      Masked(a.value, i);
      Masked(i.address.value, i);
      BlockNumbers(a.value, i.address.value, BlockSize(i), And(a.value, Netmask(i)),
                   NetworkAddress(i), BroadcastAddress(i));
    }
  }

  // Between two host addresses of a block lie only host addresses of it.
  lemma HostsAreConvex(a: nat, b: nat, v: nat, i: Interface)
    requires ValidInterface(i) && HostOf(a, i) && HostOf(b, i) && a <= v <= b
    ensures HostOf(v, i)
  {
    var k := BlockSize(i);
    Aligned(a, i.address.value, k);
    Aligned(b, i.address.value, k);
    Aligned(v, i.address.value, k);
  }
}
