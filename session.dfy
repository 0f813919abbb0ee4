/** The per-connection data handler of bin/cmd.js: the client it builds from
    the hello and the connection, and what that client's address family
    decides once its tunnel is configured. */
module Session {
  import opened Outcomes
  import opened Records
  import opened Handshake
  import opened Pppd

  /** One end of a TCP connection: an address and its family. */
  datatype Endpoint = Endpoint(address: string, family: string)

  /** A control connection: the broker's end (`socket.address()`) and the
      client's end (`socket.remoteAddress`, `socket.remoteFamily`). */
  datatype Connection = Connection(local: Endpoint, remote: Endpoint)

  /** The client as the handler builds it: the address and family come from
      `socket.address()`, the broker's own end of the connection. */
  function ClientAsWritten(id: string, conn: Connection): Client
  {
    MakeClient(id, conn.local.address, conn.local.family)
  }

  /** The client built from the end the client is connected from. */
  function ConnectedClient(id: string, conn: Connection): Client
  {
    MakeClient(id, conn.remote.address, conn.remote.family)
  }

  /** As written, the address logged as "connected from" and stored as the
      tunnel's internet address is the broker's end: on any connection whose
      two ends differ it is not the client's address. */
  lemma AsWrittenRecordsBrokerEnd(id: string, conn: Connection)
    requires conn.local.address != conn.remote.address
    ensures ClientAsWritten(id, conn).ip == conn.local.address
    ensures ClientAsWritten(id, conn).ip != conn.remote.address
  {
  }

  /** A tunnel registered for a client built by the handler is refused by
      configureTunnel, once its link is up, exactly when the family the
      handler saw is not "IPv4"; an IPv4 tunnel goes on to the address
      command and succeeds exactly when that command does. */
  lemma {:induction false} FamilyDecidesConfiguration(id: string, address: string, family: string, t: Tunnel,
                                                      netmask: string, linkUp: ExecResult, addrAdd: ExecResult)
    requires BuiltFrom(MakeClient(id, address, family), t)
    requires t.ifname.Some?
    ensures ConfigureTunnel(t, netmask, linkUp, addrAdd).error == Some(NoIPv6Support) <==> !linkUp.failed && family != "IPv4"
    ensures family == "IPv4" && !linkUp.failed ==>
      && |ConfigureTunnel(t, netmask, linkUp, addrAdd).commands| == 2
      && (ConfigureTunnel(t, netmask, linkUp, addrAdd).error.None? <==> !addrAdd.failed)
  {
    RefusesExactlyIPv6(t, netmask, linkUp, addrAdd);
  }

  /** The record of a tunnel opened for the corrected client holds the
      client's own address, and configureTunnel refuses it, once its link is
      up, exactly when the client is connected over a family other than IPv4. */
  lemma {:induction false} ConnectedRecord(id: string, conn: Connection, t: Tunnel,
                                           netmask: string, linkUp: ExecResult, addrAdd: ExecResult)
    requires BuiltFrom(ConnectedClient(id, conn), t)
    requires t.ifname.Some?
    ensures t.internetIP == conn.remote.address
    ensures ConfigureTunnel(t, netmask, linkUp, addrAdd).error == Some(NoIPv6Support) <==> !linkUp.failed && conn.remote.family != "IPv4"
  {
    RefusesExactlyIPv6(t, netmask, linkUp, addrAdd);
  }
}
