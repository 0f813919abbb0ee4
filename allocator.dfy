/** allocatePort and allocateIP of bin/cmd.js: linear scans of a pool against
    the live registry, returning the lowest value no registered tunnel holds. */
module Allocator {
  import opened Outcomes
  import opened Address
  import opened Records

  /** Some registered tunnel listens on port p. */
  predicate PortHeld(tunnels: map<string, Tunnel>, p: int)
  {
    exists id :: id in tunnels && tunnels[id].port == p
  }

  /** p is the lowest port of [from, to) that no tunnel holds. */
  predicate LowestFreePort(tunnels: map<string, Tunnel>, from: int, to: int, p: int)
  {
    from <= p < to && !PortHeld(tunnels, p) && forall j :: from <= j < p ==> PortHeld(tunnels, j)
  }

  /** Every port of [from, to) is held (vacuously so when the range is empty). */
  predicate PortsExhausted(tunnels: map<string, Tunnel>, from: int, to: int)
  {
    forall j :: from <= j < to ==> PortHeld(tunnels, j)
  }

  /** Some registered tunnel has a valid address whose number is n. */
  predicate IpHeld(tunnels: map<string, Tunnel>, n: int)
  {
    exists id :: id in tunnels && ValidQuad(tunnels[id].tunnelIP) && QuadValue(tunnels[id].tunnelIP) == n
  }

  /** Every registered address has octets in 0..255. */
  predicate AllValid(tunnels: map<string, Tunnel>)
  {
    forall id :: id in tunnels ==> ValidQuad(tunnels[id].tunnelIP)
  }

  /** n is the lowest number of [lo, hi] that no tunnel's address has. */
  predicate LowestFreeIp(tunnels: map<string, Tunnel>, lo: int, hi: int, n: int)
  {
    lo <= n <= hi && !IpHeld(tunnels, n) && forall j :: lo <= j < n ==> IpHeld(tunnels, j)
  }

  /** Every number of [lo, hi] is some tunnel's address. */
  predicate IpsExhausted(tunnels: map<string, Tunnel>, lo: int, hi: int)
  {
    forall j :: lo <= j <= hi ==> IpHeld(tunnels, j)
  }

  /** allocatePort: the lowest free port of [from, to), or the
      "No unallocated ports remaining" error exactly when every port is held. */
  method AllocatePort(tunnels: map<string, Tunnel>, portFrom: int, portTo: int) returns (r: Result<int>)
    ensures r.Ok? ==> LowestFreePort(tunnels, portFrom, portTo, r.value)
    ensures r.Err? ==> r.error == NoUnallocatedPorts && PortsExhausted(tunnels, portFrom, portTo)
  {
    var i := portFrom;
    while i < portTo
      invariant portFrom <= i
      invariant PortsExhausted(tunnels, portFrom, i)
      decreases portTo - i
    {
      var used := false;
      var unseen := tunnels.Keys;
      while unseen != {}
        invariant unseen <= tunnels.Keys
        invariant !used
        invariant forall id :: id in tunnels.Keys - unseen ==> tunnels[id].port != i
        decreases unseen
      {
        var id :| id in unseen;
        unseen := unseen - {id};
        if tunnels[id].port == i {
          used := true;
          break;
        }
      }
      if !used {
        return Ok(i);
      }
      i := i + 1;
    }
    return Err(NoUnallocatedPorts);
  }

  /** allocateIP: convert both pool bounds (either may be rejected), then return
      the address of the lowest number of [from, to] that no tunnel's address
      converts to. Converting a registered address can throw too; when every
      registered address is valid that never happens. Exhaustion reports the
      same "No unallocated ports remaining" error as allocatePort. */
  method AllocateIP(tunnels: map<string, Tunnel>, ipFrom: Quad, ipTo: Quad) returns (r: Result<Quad>)
    ensures !ValidQuad(ipFrom) ==> r == Err(InvalidIP(ipFrom))
    ensures ValidQuad(ipFrom) && !ValidQuad(ipTo) ==> r == Err(InvalidIP(ipTo))
    ensures r.Ok? ==> ValidQuad(ipFrom) && ValidQuad(ipTo) && ValidQuad(r.value) && AllValid(tunnels)
    ensures r.Ok? ==> LowestFreeIp(tunnels, QuadValue(ipFrom), QuadValue(ipTo), QuadValue(r.value))
    ensures r.Err? && r.error == NoUnallocatedPorts ==>
              ValidQuad(ipFrom) && ValidQuad(ipTo) && IpsExhausted(tunnels, QuadValue(ipFrom), QuadValue(ipTo))
    ensures r.Err? && ValidQuad(ipFrom) && ValidQuad(ipTo) && AllValid(tunnels) ==> r.error == NoUnallocatedPorts
    ensures r.Err? ==> r.error.InvalidIP? || r.error == NoUnallocatedPorts
  {
    var lo := IpToNumber(ipFrom);
    if lo.Err? {
      return Err(lo.error);
    }
    var hi := IpToNumber(ipTo);
    if hi.Err? {
      return Err(hi.error);
    }
    var n := lo.value;
    while n <= hi.value
      invariant lo.value <= n
      invariant IpsExhausted(tunnels, lo.value, n - 1)
      decreases hi.value - n
    {
      var used := false;
      var unseen := tunnels.Keys;
      while unseen != {}
        invariant unseen <= tunnels.Keys
        invariant !used
        invariant forall id :: id in tunnels.Keys - unseen ==>
                    ValidQuad(tunnels[id].tunnelIP) && QuadValue(tunnels[id].tunnelIP) != n
        decreases unseen
      {
        var id :| id in unseen;
        unseen := unseen - {id};
        var held := IpToNumber(tunnels[id].tunnelIP);
        if held.Err? {
          return Err(held.error);
        }
        if held.value == n {
          used := true;
          break;
        }
      }
      if !used {
        var ip := NumberToIP(n);
        return Ok(ip);
      }
      n := n + 1;
    }
    return Err(NoUnallocatedPorts);
  }
}
