/** A capability as the source observes it, and the table lookup by exact comparison that
    both src/gate.c and linux/ownership/cbpf_runtime.c use to resolve a public handle. */
module Capabilities {
  datatype Capability = Capability(tag: bool, sealed: bool, address: nat, base: nat, length: nat, perms: nat)

  const NULL: Capability := Capability(false, false, 0, 0, 0, 0)

  // The capability to exactly length bytes at address.
  function Exactly(address: nat, length: nat, perms: nat): Capability
  {
    Capability(true, false, address, address, length, perms)
  }

  const U64 := 0x1_0000_0000_0000_0000

  // An integer register read as a capability register.
  function Scalar(n: nat): Capability
  {
    Capability(false, false, n, 0, 0, 0)
  }

  // (u64)(s64)value of a signed integer.
  function Widen(value: int): (n: nat)
    ensures n < U64
  {
    value % U64
  }

  // The first table entry from i on that is exactly the given handle.
  function FindView(views: seq<Capability>, h: Capability, i: nat, acquired: nat): (k: nat)
    requires i <= acquired <= |views|
    ensures i <= k <= acquired
    ensures k < acquired ==> views[k] == h
    ensures forall j :: i <= j < k ==> views[j] != h
    decreases acquired - i
  {
    if i == acquired || views[i] == h then i else FindView(views, h, i + 1, acquired)
  }
}
