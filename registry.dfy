/** The tunnel registry of bin/cmd.js (the `tunnels` object) with the
    synchronous part of openTunnel and closeTunnel. */
module Registry {
  import opened Outcomes
  import opened Address
  import opened Records
  import opened Allocator

  /** The record stored under id carries that id, a valid address and lies in both pools. */
  predicate Placed(settings: Settings, id: string, t: Tunnel)
  {
    && t.id == id
    && ValidQuad(t.tunnelIP)
    && settings.tunnelPortFrom <= t.port < settings.tunnelPortTo
    && ValidQuad(settings.tunnelIPFrom) && ValidQuad(settings.tunnelIPTo)
    && QuadValue(settings.tunnelIPFrom) <= QuadValue(t.tunnelIP) <= QuadValue(settings.tunnelIPTo)
  }

  /** No two entries share an address or a port. */
  predicate Disjoint(tunnels: map<string, Tunnel>)
  {
    forall a, b :: a in tunnels && b in tunnels && a != b ==>
      tunnels[a].tunnelIP != tunnels[b].tunnelIP && tunnels[a].port != tunnels[b].port
  }

  /** What closeTunnel does to a tunnel's socket and process: both only when a process was attached. */
  function CloseEffects(t: Tunnel): (effects: seq<Effect>)
    reads t
  {
    if t.process then [DestroySocket, KillProcess] else []
  }

  class Registry {
    const settings: Settings
    var tunnels: map<string, Tunnel>

    /** One entry per client id (by the map), each placed in the pools, no shared address or port. */
    ghost predicate Valid()
      reads this
    {
      && (forall id :: id in tunnels ==> Placed(settings, id, tunnels[id]))
      && Disjoint(tunnels)
    }

    constructor (settings: Settings)
      ensures Valid() && this.settings == settings && tunnels == map[]
    {
      this.settings := settings;
      tunnels := map[];
    }

    /** closeTunnel: destroy the socket and kill the process if a process is
        attached, then delete the entry under the tunnel's id. Without a
        `closed` flag, a second call on the same tunnel repeats the socket and
        process effects, while the registry is left as it was. */
    method Close(t: Tunnel) returns (effects: seq<Effect>)
      requires Valid()
      modifies this
      ensures Valid()
      ensures tunnels == old(tunnels) - {t.id}
      ensures t.id !in old(tunnels) ==> tunnels == old(tunnels)
      ensures forall id :: id in tunnels ==> id in old(tunnels) && tunnels[id] == old(tunnels)[id]
      ensures effects == CloseEffects(t)
    {
      effects := [];
      if t.process {
        effects := [DestroySocket, KillProcess];
      }
      tunnels := tunnels - {t.id};
    }

    /** The synchronous part of openTunnel. An existing entry for the client's
        id is closed first and the open retried; the retry finds no entry and
        allocates. */
    method Open(client: Client) returns (r: Result<Tunnel>, effects: seq<Effect>)
      requires Valid()
      modifies this
      ensures Valid()
      ensures effects == if client.id in old(tunnels) then old(CloseEffects(tunnels[client.id])) else []
      ensures r.Ok? ==> fresh(r.value) && tunnels == (old(tunnels) - {client.id})[client.id := r.value]
      ensures r.Ok? ==> Allocated(settings, old(tunnels) - {client.id}, client, r.value)
      ensures r.Err? ==> tunnels == old(tunnels) - {client.id}
      ensures r.Ok? <==> Available(settings, old(tunnels) - {client.id})
      ensures r.Err? ==> r.error.InvalidIP? || r.error == NoUnallocatedPorts
      ensures client.id in old(tunnels) ==> r.Ok?
      decreases if client.id in tunnels then 1 else 0
    {
      if client.id in tunnels {
        ReleasedEntryFrees(settings, tunnels, client.id);
        effects := Close(tunnels[client.id]);
        assert tunnels - {client.id} == tunnels;
        var again;
        r, again := Open(client);
        return;
      }
      assert tunnels - {client.id} == tunnels;
      effects := [];
      r := Register(client);
    }

    /** Allocation and insertion for an id with no entry: an address, then a
        port, then a fresh record under the id with its pppd handle attached.
        An allocation failure comes back as an error result and leaves the
        registry unchanged. */
    method Register(client: Client) returns (r: Result<Tunnel>)
      requires Valid() && client.id !in tunnels
      modifies this
      ensures Valid()
      ensures r.Ok? ==> fresh(r.value) && tunnels == old(tunnels)[client.id := r.value]
      ensures r.Ok? ==> Allocated(settings, old(tunnels), client, r.value)
      ensures r.Err? ==> tunnels == old(tunnels)
      ensures r.Ok? <==> Available(settings, old(tunnels))
      ensures r.Err? ==> r.error.InvalidIP? || r.error == NoUnallocatedPorts
    {
      var ip := AllocateIP(tunnels, settings.tunnelIPFrom, settings.tunnelIPTo);
      if ip.Err? {
        return Err(ip.error);
      }
      var port := AllocatePort(tunnels, settings.tunnelPortFrom, settings.tunnelPortTo);
      if port.Err? {
        assert !Available(settings, tunnels);
        return Err(port.error);
      }
      var t := new Tunnel(client.id, client.ip, ip.value, port.value, client.ipv6);
      InsertKeepsDisjoint(tunnels, t);
      tunnels := tunnels[t.id := t];
      t.process := true;
      r := Ok(t);
    }
  }

  /** Both pools have a value no entry of the registry holds. */
  predicate Available(settings: Settings, tunnels: map<string, Tunnel>)
  {
    && ValidQuad(settings.tunnelIPFrom) && ValidQuad(settings.tunnelIPTo)
    && !IpsExhausted(tunnels, QuadValue(settings.tunnelIPFrom), QuadValue(settings.tunnelIPTo))
    && !PortsExhausted(tunnels, settings.tunnelPortFrom, settings.tunnelPortTo)
  }

  /** t is the record openTunnel builds for client: the lowest free address and
      the lowest free port of the registry before insertion, a pppd handle and
      no interface name yet. */
  ghost predicate Allocated(settings: Settings, before: map<string, Tunnel>, client: Client, t: Tunnel)
    reads t
  {
    && BuiltFrom(client, t)
    && t.process && t.ifname == None
    && ValidQuad(t.tunnelIP)
    && LowestFreeIp(before, QuadValue(settings.tunnelIPFrom), QuadValue(settings.tunnelIPTo), QuadValue(t.tunnelIP))
    && LowestFreePort(before, settings.tunnelPortFrom, settings.tunnelPortTo, t.port)
  }

  /** Removing an entry of a valid registry frees its address and its port,
      both inside the pools, so an open that replaces it always allocates. */
  lemma ReleasedEntryFrees(settings: Settings, tunnels: map<string, Tunnel>, x: string)
    requires forall id :: id in tunnels ==> Placed(settings, id, tunnels[id])
    requires Disjoint(tunnels)
    requires x in tunnels
    ensures Available(settings, tunnels - {x})
  {
    var t := tunnels[x];
    var rest := tunnels - {x};
    assert Placed(settings, x, t);
    assert !PortHeld(rest, t.port);
    assert !IpHeld(rest, QuadValue(t.tunnelIP)) by {
      forall id | id in rest && ValidQuad(rest[id].tunnelIP)
        ensures QuadValue(rest[id].tunnelIP) != QuadValue(t.tunnelIP)
      {
        if QuadValue(rest[id].tunnelIP) == QuadValue(t.tunnelIP) {
          QuadValueInjective(rest[id].tunnelIP, t.tunnelIP);
          assert false;
        }
      }
    }
  }

  /** Inserting a record whose address and port no entry holds keeps the registry disjoint. */
  lemma InsertKeepsDisjoint(tunnels: map<string, Tunnel>, t: Tunnel)
    requires Disjoint(tunnels) && AllValid(tunnels)
    requires t.id !in tunnels
    requires !IpHeld(tunnels, QuadValue(t.tunnelIP)) && !PortHeld(tunnels, t.port)
    ensures Disjoint(tunnels[t.id := t])
  {
    forall id | id in tunnels
      ensures tunnels[id].tunnelIP != t.tunnelIP && tunnels[id].port != t.port
    {
      assert ValidQuad(tunnels[id].tunnelIP);
    }
  }
}
