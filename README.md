# shovelcat tunnel broker: the bookkeeping core in Dafny

shovelcat is a tunnel broker. A client connects to a TCP control port and
sends its id. The broker then gives the client a tunnel address from an
address pool and a listening port from a port pool. It starts pppd on that
port and replies with one line,
`<broker address>|<tunnel address>/<netmask>:<port>\n`. All state lives in
one in-memory registry, `tunnels`, that maps a client id to its tunnel record.

This project models the bookkeeping in `bin/cmd.js`:

- `Address`: `ipToNumber` and `numberToIP`, as loops over exact integers, with
  both round trips proved.
- `Allocator`: `allocatePort` and `allocateIP`. Each is a pair of nested
  loops, the inner one over the registry, with a `used` flag and a `break`.
  Each result is proved to be the lowest value of its pool that no tunnel
  holds. Each "No unallocated ports remaining" failure is proved to mean
  that the whole pool is held; allocateIP can also fail with Invalid IP for
  a pool bound or a registered address.
- `Registry`: the registry as a class holding a `map<string, Tunnel>`.
  `Close` models closeTunnel and `Open` models the synchronous part of
  openTunnel: an existing entry is closed and the open retried, then an
  address and a port are allocated and the record is inserted. Both keep the
  registry invariant `Valid()`: one entry per id, every entry inside both
  pools, and no two entries sharing an address or a port.
- `Records`: the settings, the client and the tunnel record. The record is a
  class because the source attaches `process` and `ifname` to the stored
  object through aliases.
- `Handshake`: `parseClientHello`, the client record built from a hello, the
  error text of a rejected hello, and the reply line. The reply line is
  proved to parse back into the broker address, the tunnel address, the
  netmask and the port.
- `Session`: the data handler's choice of address and family for the client
  (`socket.address()`, the broker's own end of the connection; see
  Findings), and what the family decides once the tunnel is configured.
- `Pppd`: the `^Using interface\s+([\w\d]+)` match on pppd's gathered
  stdout, proved equal to an explicit description of the lines it accepts;
  the stdout handler, which sets `ifname` only once; and `configureTunnel`'s
  command order, with the command outcomes given as parameters.
- `ObjectKeys`: the registry lookup as written, on a plain object (see
  Findings).
- `Text` and `Outcomes`: decimal text, join and split, the error values and
  their messages.

An address string `a.b.c.d` is modelled as the four values that `split('.')`
and `parseInt` give (`Quad`). The model uses exact integers, so the
JavaScript floating-point details are not modelled.

The model follows what the code does, including where it lacks behaviour one
might expect of a broker:

- closeTunnel has no `closed` flag and no pre-down hook. A second close of
  the same record leaves the registry unchanged but destroys the socket and
  kills the process again (`Registry.Registry.Close`, `CloseEffects`).
- configureTunnel does not set the MTU. It assigns the tunnel's own allocated
  address to the interface, not the broker's address.
- The interface name is matched once per chunk and fixed on the first match.
  If a stdout chunk ends inside the name (`Using interface pp`, then `p0`),
  the tunnel keeps the truncated name `pp` and is configured with it
  (`Pppd.OutputWatch.OnData`).
- pppd's `close` handler only logs. It does not close the tunnel.
- There is no heartbeat, no hook and no global shutdown.

## Model

| member | source | states |
|---|---|---|
| `Address.IpToNumber` | bin/cmd.js:40-51 | accepts exactly the quads whose four octets are all in 0..255; returns a·256³ + b·256² + c·256 + d, which is below 2³²; any other quad gives the "Invalid IP" error for that address |
| `Address.NumberToIP` | bin/cmd.js:53-63 | the octets are the quotient by 256³ followed by the successive remainders; their base-256 value is the input number; they are all valid exactly when the number is below 2³² |
| `Address.NumberRoundTrip` | bin/cmd.js:40-63 | the base-256 value of numberToIP(n) is n for every natural n, and its octets are valid exactly when n < 2³²; so ipToNumber(numberToIP(n)) = n exactly when n < 2³², and is the Invalid IP error otherwise |
| `Address.QuadRoundTrip` | bin/cmd.js:40-63 | numberToIP(ipToNumber(q)) = q for every quad with octets in 0..255 |
| `Address.QuadValueInjective` | bin/cmd.js:74 | two valid addresses with the same number are the same address, so comparing numbers in allocateIP compares addresses |
| `Allocator.AllocatePort` | bin/cmd.js:23-37 | reads the registry without changing it; a success is the lowest port in [tunnelPortFrom, tunnelPortTo) that no registered tunnel holds; a failure is "No unallocated ports remaining" and every port of the range is held, which includes an empty range |
| `Allocator.AllocateIP` | bin/cmd.js:65-82 | reads the registry without changing it; an invalid lower, then upper, pool bound is rejected with its Invalid IP error; a success is the valid address of the lowest number in the inclusive range that no registered address converts to; "No unallocated ports remaining" means every number of the range is taken; with valid bounds and a valid registry no other error occurs |
| `Handshake.ParseClientHello` | bin/cmd.js:84-94 | accepts exactly the payloads of at least 8 characters, the empty one rejected with them; the accepted id is the payload itself; a rejection is the "Client ID missing or shorter than 8 characters" error |
| `Handshake.RejectedHelloReply` | bin/cmd.js:84-94 | a hello shorter than 8 characters, the empty one included, is rejected, and the handler (lines 231-233) sends "Error: " followed by the Error's rendering "Error: Client ID missing or shorter than 8 characters (UTF-8)" |
| `Session.FamilyDecidesConfiguration` | bin/cmd.js:214-218 | for a tunnel built from the client the handler makes out of an id, an address and a family: once the link is up, configureTunnel (lines 114-116) refuses it with "configureTunnel does not have IPv6 support" exactly when the family is not "IPv4"; an IPv4 tunnel goes on to the address command and succeeds exactly when that command does |
| `Session.ConnectedRecord` | bin/cmd.js:209-218 | corrected: a tunnel built from the client made out of the connection's remote end records the client's own address, and, once the link is up, configureTunnel refuses it exactly when the client's family is not "IPv4" |
| `Session.AsWrittenRecordsBrokerEnd` | bin/cmd.js:209-215 | as written, the client's recorded address is the local end of the connection, `socket.address()`, so on a connection whose two ends differ it is not the client's address |
| `Handshake.QuadTextParts` | bin/cmd.js:62 | the dotted text of an address with non-negative octets holds only digits and dots, and splits at the dots into the decimal text of each octet |
| `Handshake.ReplyRoundTrip` | bin/cmd.js:224 | the reply line parses back into the broker address, the tunnel's address, the netmask and the tunnel's port, when the broker address has no vertical bar and the netmask has no vertical bar, slash or colon |
| `Text.DecimalRoundTrip` | bin/cmd.js:224 | the decimal text of a port or octet reads back as the same number |
| `Registry.Registry.constructor` | bin/cmd.js:16 | the registry starts empty and satisfies its invariant |
| `Registry.Registry.Close` | bin/cmd.js:96-102 | removes exactly the key of the tunnel's id and keeps every other entry. A second call leaves the registry as it is. The socket is destroyed and the process killed exactly when the record has a process. The registry invariant is kept |
| `Registry.Registry.Open` | bin/cmd.js:131-156 | an existing entry for the id is closed first, with its close effects. Afterwards the registry is the old one without that id, plus the new record on success. The record has the client's id, recorded address and IPv6 flag, the lowest free address and port of the registry after the close, and a pppd handle. It succeeds exactly when both pools have a free value and the address bounds are valid; an open that replaces an existing entry always succeeds. The invariant (one entry per id, values inside both pools, no address or port shared) is kept |
| `Registry.Registry.Register` | bin/cmd.js:140-156 | for an id with no entry: allocates the address first and the port second, inserts a fresh record under the id and attaches its process after the insertion; an allocation error leaves the registry unchanged |
| `Registry.ReleasedEntryFrees` | bin/cmd.js:131-146 | removing an entry of a valid registry leaves its address and port free and inside the pools, so the retry after closeTunnel always allocates |
| `Registry.InsertKeepsDisjoint` | bin/cmd.js:141-156 | adding a record whose address and port no entry holds keeps every address and every port used at most once |
| `Pppd.InterfaceNameComplete` | bin/cmd.js:180-182 | output made of the banner, at least one whitespace character, a run of word characters and then a non-word character or the end yields that run as the interface name |
| `Pppd.InterfaceNameSound` | bin/cmd.js:180-182 | a name is only extracted from output of exactly that shape |
| `Pppd.OutputWatch.OnData` | bin/cmd.js:176-186 | every chunk is appended to the gathered output. Once the tunnel has an interface name it never changes and no new configuration starts. Until then the name is the match on all output so far. Configuration starts exactly on the chunk that first gives a name |
| `Pppd.ConfigureTunnel` | bin/cmd.js:104-129 | for a tunnel whose interface name pppd has reported, both commands use that name. The link is always brought up first. An IPv6 tunnel or a failed link-up stops there, and IPv6 reports the "no IPv6 support" error. The address command uses the tunnel's address and the netmask. Success needs both commands to succeed on an IPv4 tunnel |
| `Pppd.RefusesExactlyIPv6` | bin/cmd.js:104-117 | configureTunnel's error is the IPv6 refusal exactly when the link came up and the tunnel is IPv6; neither command failure produces that message |
| `ObjectKeys.InheritedIdRetriesForever` | bin/cmd.js:131-137 | as written, for an id that names an inherited Object.prototype member the replace check succeeds in every round, so allocation is never reached; each round deletes only the key "undefined" |
| `ObjectKeys.ToStringNeverOpens` | bin/cmd.js:84-94 | the hello "toString" is accepted. The close-and-retry loop it triggers never ends, and it deletes the tunnel of the client whose id is "undefined" |

## Findings

| source | as written | input that shows it | evidently intended | confidence | as-written member | corrected member |
|---|---|---|---|---|---|---|
| bin/cmd.js:209-215 | the handler takes the client's address and family from `socket.address()`, which is the broker's own bound end of the connection. It logs that address as "Client connected from IP:" and stores it as the tunnel's `internetIP` | any connection from a client at an address other than the broker's listening address | take the remote end, `socket.remoteAddress` and `socket.remoteFamily`, as the log message says | medium; not executed | `Session.AsWrittenRecordsBrokerEnd` | `Session.ConnectedRecord` |
| bin/cmd.js:131-137 | `tunnels` is an object literal, so `tunnels[client.id]` is also truthy for inherited names such as `toString`, `constructor`, `__proto__` or `hasOwnProperty`. closeTunnel on that function deletes `tunnels[undefined]` (the key "undefined"), and the nextTick retry finds the same inherited member again, for ever. This starves the event loop | the hello `toString` (8 characters, accepted by parseClientHello), on any registry | replace only a tunnel that is really registered under the id (an own-key test), so that one close and one retry lead to allocation | high; not executed | `ObjectKeys.InheritedIdRetriesForever` | `Registry.Registry.Open` |

## Left out

- Registry.Registry.Open: an allocation failure comes back as an error result. As written, line 144 calls `cb(err)` with the undeclared `err`. That throws a ReferenceError out of openTunnel, so the client gets "Error: ReferenceError: err is not defined" and the callback never runs.
- Registry.Registry.Open: the model tests for an entry with own-key membership (`client.id in tunnels`), the corrected form of the lookup in Findings. The as-written lookup is modelled separately in `ObjectKeys`.
- Allocator.AllocateIP: the inner loop visits tunnels in an order the model leaves open, since `for…in` order is not modelled. With a registry of valid addresses, which `Valid()` guarantees, the result does not depend on that order. With an invalid registered address, the contract only says which kind of error can come back.
- Spawning pppd, its argument list, its stderr capture and its `close` handler (bin/cmd.js:160-202) are process I/O. They are not modelled; only the interface-name match and the stdout handler are (`Pppd`).
- The shell commands of configureTunnel are external calls. Their outcomes are parameters of `Pppd.ConfigureTunnel`.
- The TCP server, socket writes and destroys, and reading the connection's addresses (bin/cmd.js:207-245) are network plumbing. The two ends of a connection are a `Session.Connection` value given as a parameter. The socket object is not modelled; closing only records the `DestroySocket` effect. `tunnel.killMe` (bin/cmd.js:228) is set and never read, so it is left out.
- The root check, `process.exit`, loading settings.js and all console logging (bin/cmd.js:9, 18-21) concern the environment. The settings are a `Settings` value given to the registry.
- `process.nextTick` is scheduling. The retry runs immediately after the close, as a sequential recursive call.
- JavaScript number details: `parseInt` and string splitting of addresses, `NaN` (it cannot arise from a well-formed quad), and `Math.pow`/`Math.floor` on floats. All arithmetic is exact.
- Buffer decoding is not modelled; the payload is already a string. Its length counts characters, where JavaScript counts UTF-16 code units; the two differ only for characters outside the Basic Multilingual Plane.
- `tunnelIPCount`, `tunnelPortCount` and `maxTunnelCount` (bin/cmd.js:11-14) are never read, so they are left out.
- Heartbeats, MTU, pre-down and post-up hooks, the `closed` flag and global shutdown do not exist in the code, so they are not modelled.
