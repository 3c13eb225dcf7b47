/** The private addresses given to virtual machines (VmManifestBuilder in driver/vm.py): four numbers, of which the
    last three count from 1 to 254 and carry. They matter where a network interface is configured for the machines;
    otherwise they are computed but not used. */
module VmAddress {
  import opened Basics

  datatype Address = Address(a: int, b: int, c: int, d: int)

  function Start(): Address {
    Address(192, 168, 129, 1)
  }

  /** The last three numbers run from 1 to 254. */
  predicate InRange(x: Address) {
    1 <= x.b <= 254 && 1 <= x.c <= 254 && 1 <= x.d <= 254
  }

  /** The address as a number with digits to the base 254. */
  function Value(x: Address): int {
    ((x.a * 254 + (x.b - 1)) * 254 + (x.c - 1)) * 254 + (x.d - 1)
  }

  lemma {:induction false} DigitsDecide(x: int, y: int, p: int, q: int)
    requires 0 <= p < 254 && 0 <= q < 254 && x * 254 + p == y * 254 + q
    ensures x == y && p == q
  {
  }

  /** Different addresses are different numbers. */
  lemma {:induction false} ValueInjective(x: Address, y: Address)
    requires InRange(x) && InRange(y) && Value(x) == Value(y)
    ensures x == y
  {
    DigitsDecide((x.a * 254 + (x.b - 1)) * 254 + (x.c - 1), (y.a * 254 + (y.b - 1)) * 254 + (y.c - 1), x.d - 1, y.d - 1);
    DigitsDecide(x.a * 254 + (x.b - 1), y.a * 254 + (y.b - 1), x.c - 1, y.c - 1);
    DigitsDecide(x.a, y.a, x.b - 1, y.b - 1);
  }

  class Builder {
    const addr: array<int>
    ghost var handed: nat

    function View(): Address
      reads this, addr
      requires addr.Length == 4
    {
      Address(addr[0], addr[1], addr[2], addr[3])
    }

    /** The builder stands at the address after those it has handed out. */
    ghost predicate Valid()
      reads this, addr
    {
      addr.Length == 4 && InRange(View()) && Value(View()) == Value(Start()) + handed
    }

    constructor ()
      ensures Valid() && fresh(addr) && handed == 0
    {
      addr := new int[4];
      handed := 0;
      new;
      addr[0], addr[1], addr[2], addr[3] := 192, 168, 129, 1;
    }

    /** _increment_vm_addr(): the next number to the base 254. */
    method IncrementVmAddr()
      requires addr.Length == 4 && InRange(View())
      modifies addr
      ensures InRange(View()) && Value(View()) == old(Value(View())) + 1
    {
      addr[3] := addr[3] + 1;
      var i := 3;
      while i > 0
        invariant 0 <= i <= 3
        invariant Value(View()) == old(Value(View())) + 1
        invariant forall j :: 1 <= j <= 3 ==> 1 <= addr[j] <= (if j == i then 255 else 254)
      {
        if addr[i] > 254 {
          addr[i] := 1;
          addr[i - 1] := addr[i - 1] + 1;
        }
        i := i - 1;
      }
    }

    /** The address of one more virtual machine. */
    method VirtualMachine() returns (vmAddr: Address)
      requires Valid()
      modifies this, addr
      ensures Valid() && handed == old(handed) + 1 && IsNth(old(handed), vmAddr)
    {
      vmAddr := View();
      IncrementVmAddr();
      handed := handed + 1;
    }
  }

  /** The address handed out after n others. */
  predicate IsNth(n: nat, x: Address) {
    InRange(x) && Value(x) == Value(Start()) + n
  }

  /** There is just one such address, and no two machines of one builder get the same. */
  lemma {:induction false} OneAddressEach(m: nat, n: nat, x: Address, y: Address)
    requires IsNth(m, x) && IsNth(n, y)
    ensures x == y <==> m == n
  {
    if m == n { ValueInjective(x, y); }
  }

  /** The first 32004 addresses, and no others, lie in 192.168.0.0/16. */
  lemma {:induction false} PrivateExactly(n: nat, x: Address)
    requires IsNth(n, x)
    ensures x.a == 192 && x.b == 168 <==> n < 32004
  {
    if x.a == 192 && x.b == 168 {
      assert Value(x) <= ((192 * 254 + 167) * 254 + 253) * 254 + 253;
    }
    if n < 32004 {
      var rest := (x.c - 1) * 254 + (x.d - 1);
      assert 0 <= rest < 64516;
      assert Value(x) == (x.a * 254 + (x.b - 1)) * 64516 + rest;
      assert Value(Start()) == (192 * 254 + 167) * 64516 + 32512;
      assert x.a * 254 + (x.b - 1) == 192 * 254 + 167;
      DigitsDecide(x.a, 192, x.b - 1, 167);
    }
  }

  /** The numbers stay those of an address until the first one would exceed 255. */
  lemma {:induction false} AddressExactly(n: nat, x: Address)
    requires IsNth(n, x)
    ensures x.a <= 255 <==> n < 256 * 16387064 - Value(Start())
  {
    var rest := ((x.b - 1) * 254 + (x.c - 1)) * 254 + (x.d - 1);
    assert 0 <= rest < 16387064;
    assert Value(x) == x.a * 16387064 + rest;
  }

  /** The machines of one namespace, all given addresses by one builder. */
  method HandOut(count: nat) returns (addresses: seq<Address>)
    ensures |addresses| == count && forall i :: 0 <= i < count ==> IsNth(i, addresses[i])
    ensures Distinct(addresses)
  {
    var builder := new Builder();
    addresses := [];
    for i := 0 to count
      invariant builder.Valid() && builder.handed == i && fresh(builder) && fresh(builder.addr)
      invariant |addresses| == i && forall j :: 0 <= j < i ==> IsNth(j, addresses[j])
    {
      var x := builder.VirtualMachine();
      addresses := addresses + [x];
    }
    forall i, j | 0 <= i < j < |addresses| ensures addresses[i] != addresses[j] {
      OneAddressEach(i, j, addresses[i], addresses[j]);
    }
  }

  /** A live run builds every namespace's plan with a builder of its own, so namespaces share their addresses: two
      namespaces with at least one machine each have a machine at the same address. */
  lemma {:induction false} NamespacesShareAddresses(first: seq<Address>, second: seq<Address>)
    requires forall i :: 0 <= i < |first| ==> IsNth(i, first[i])
    requires forall i :: 0 <= i < |second| ==> IsNth(i, second[i])
    ensures Distinct(first + second) <==> first == [] || second == []
  {
    forall i, j | 0 <= i < |first| && 0 <= j < |first| && i != j ensures first[i] != first[j] {
      OneAddressEach(i, j, first[i], first[j]);
    }
    forall i, j | 0 <= i < |second| && 0 <= j < |second| && i != j ensures second[i] != second[j] {
      OneAddressEach(i, j, second[i], second[j]);
    }
    if first != [] && second != [] {
      OneAddressEach(0, 0, first[0], second[0]);
      assert (first + second)[0] == first[0] && (first + second)[|first|] == second[0];
    }
  }
}
