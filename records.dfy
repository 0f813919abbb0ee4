/** The broker's configuration, the client produced by the handshake, and the
    tunnel record that the registry and the pppd handlers share. */
module Records {
  import opened Outcomes
  import opened Address

  /** The settings.js values the core reads. */
  datatype Settings = Settings(
    tunnelIP: string,        // the broker's own address, sent first in the reply line
    tunnelNetmask: string,
    tunnelIPFrom: Quad,      // first address of the pool (inclusive)
    tunnelIPTo: Quad,        // last address of the pool (inclusive)
    tunnelPortFrom: int,     // first port of the pool (inclusive)
    tunnelPortTo: int)       // end of the port pool (exclusive)

  /** A client after the handshake: its id, the address the data handler
      records for its control connection and whether that address is not IPv4. */
  datatype Client = Client(id: string, ip: string, ipv6: bool)

  /** A tunnel record. Its identity and allocation never change; the pppd
      handle and the interface name are filled in after the record has been
      registered, through aliases of the same object. */
  class Tunnel {
    const id: string
    const internetIP: string
    const tunnelIP: Quad
    const port: int
    const ipv6: bool
    var process: bool                // whether `tunnel.process` holds a pppd handle
    var ifname: Option<string>       // the interface pppd reported, once known

    constructor (id: string, internetIP: string, tunnelIP: Quad, port: int, ipv6: bool)
      ensures this.id == id && this.internetIP == internetIP && this.tunnelIP == tunnelIP
      ensures this.port == port && this.ipv6 == ipv6
      ensures !process && ifname == None
    {
      this.id := id;
      this.internetIP := internetIP;
      this.tunnelIP := tunnelIP;
      this.port := port;
      this.ipv6 := ipv6;
      process := false;
      ifname := None;
    }
  }

  /** t was built for client: openTunnel copies the id, the address and the
      IPv6 flag into the record, and none of them changes afterwards. */
  predicate BuiltFrom(client: Client, t: Tunnel)
  {
    t.id == client.id && t.internetIP == client.ip && t.ipv6 == client.ipv6
  }

  /** The side effects closeTunnel has on a tunnel's socket and process. */
  datatype Effect = DestroySocket | KillProcess
}
