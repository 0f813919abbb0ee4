/** What the broker does with the pppd process it spawns, short of the
    process itself: learning the interface name from pppd's standard output
    and the configuration commands run against that interface. */
module Pppd {
  import opened Text
  import opened Outcomes
  import opened Address
  import opened Records

  /** The text pppd prints before the interface name. */
  const Banner: string := "Using interface"

  /** JavaScript's `\s`: whitespace and line terminators. */
  predicate IsSpace(c: char)
  {
    || c == ' ' || c == '\t' || c == '\n' || c == '\r' || c == '\U{000B}' || c == '\U{000C}'
    || c == '\U{00A0}' || c == '\U{1680}' || ('\U{2000}' <= c <= '\U{200A}')
    || c == '\U{2028}' || c == '\U{2029}' || c == '\U{202F}' || c == '\U{205F}'
    || c == '\U{3000}' || c == '\U{FEFF}'
  }

  /** JavaScript's `[\w\d]`: ASCII letters, digits and underscore. */
  predicate IsWord(c: char)
  {
    ('a' <= c <= 'z') || ('A' <= c <= 'Z') || IsDigit(c) || c == '_'
  }

  /** Every character of s satisfies p. */
  predicate All(s: string, p: char -> bool)
  {
    forall i :: 0 <= i < |s| ==> p(s[i])
  }

  /** The length of the longest prefix of s whose characters satisfy p. */
  function RunLength(s: string, p: char -> bool): (n: nat)
    ensures n <= |s| && All(s[..n], p)
    ensures n < |s| ==> !p(s[n])
  {
    if |s| == 0 || !p(s[0]) then 0
    else
      var n := 1 + RunLength(s[1..], p);
      assert forall i :: 1 <= i < n ==> s[..n][i] == s[1..][..n - 1][i - 1];
      n
  }

  /** The match of `^Using interface\s+([\w\d]+)` against the output
      gathered so far: the banner at the very start, at least one whitespace
      character, and the longest run of word characters after it, which must
      not be empty. */
  function InterfaceName(out: string): Option<string>
  {
    if |out| < |Banner| || out[..|Banner|] != Banner then None
    else
      var afterBanner := out[|Banner|..];
      var spaces := RunLength(afterBanner, IsSpace);
      var afterSpaces := afterBanner[spaces..];
      var name := RunLength(afterSpaces, IsWord);
      if spaces == 0 || name == 0 then None else Some(afterSpaces[..name])
  }

  /** The run of characters satisfying p ends where the first one that does not is. */
  lemma {:induction false} RunLengthOf(a: string, b: string, p: char -> bool)
    requires All(a, p)
    requires b == [] || !p(b[0])
    ensures RunLength(a + b, p) == |a|
  {
    if |a| > 0 {
      assert (a + b)[1..] == a[1..] + b;
      assert All(a[1..], p) by {
        forall i | 0 <= i < |a[1..]| ensures p(a[1..][i]) { assert a[1..][i] == a[i + 1]; }
      }
      RunLengthOf(a[1..], b, p);
    } else {
      assert a + b == b;
    }
  }

  /** The shape of output that the pattern accepts. */
  predicate Announces(out: string, spaces: string, name: string, rest: string)
  {
    && out == Banner + spaces + name + rest
    && |spaces| >= 1 && All(spaces, IsSpace)
    && |name| >= 1 && All(name, IsWord)
    && (rest == [] || !IsWord(rest[0]))
  }

  /** Output of that shape yields exactly that name. */
  lemma InterfaceNameComplete(out: string, spaces: string, name: string, rest: string)
    requires Announces(out, spaces, name, rest)
    ensures InterfaceName(out) == Some(name)
  {
    assert out[..|Banner|] == Banner;
    var afterBanner := out[|Banner|..];
    assert afterBanner == spaces + (name + rest);
    assert !IsSpace(name[0]);
    RunLengthOf(spaces, name + rest, IsSpace);
    assert afterBanner[|spaces|..] == name + rest;
    RunLengthOf(name, rest, IsWord);
  }

  /** A name is only reported for output of that shape. */
  lemma InterfaceNameSound(out: string)
    requires InterfaceName(out).Some?
    ensures exists spaces, rest :: Announces(out, spaces, InterfaceName(out).value, rest)
  {
    var afterBanner := out[|Banner|..];
    var k := RunLength(afterBanner, IsSpace);
    var afterSpaces := afterBanner[k..];
    var n := RunLength(afterSpaces, IsWord);
    var spaces, name, rest := afterBanner[..k], afterSpaces[..n], afterSpaces[n..];
    assert out == Banner + spaces + name + rest by {
      assert out == out[..|Banner|] + afterBanner;
      assert afterBanner == spaces + afterSpaces;
      assert afterSpaces == name + rest;
    }
    assert rest != [] ==> rest[0] == afterSpaces[n];
    assert Announces(out, spaces, name, rest);
  }

  /** The output handler of one pppd process: it appends every chunk to the
      gathered output and, while the tunnel has no interface name, looks for
      one; finding it is the signal to configure the tunnel. */
  class OutputWatch {
    const tunnel: Tunnel
    var stdout: string

    constructor (tunnel: Tunnel)
      ensures this.tunnel == tunnel && stdout == ""
    {
      this.tunnel := tunnel;
      stdout := "";
    }

    /** One stdout chunk. Returns whether the tunnel is now to be configured:
        only on the chunk that first yields a name, so at most once per tunnel. */
    method OnData(chunk: string) returns (configure: bool)
      modifies this, tunnel`ifname
      ensures stdout == old(stdout) + chunk
      ensures old(tunnel.ifname).Some? ==> !configure && tunnel.ifname == old(tunnel.ifname)
      ensures old(tunnel.ifname).None? ==> tunnel.ifname == InterfaceName(stdout)
      ensures configure <==> old(tunnel.ifname).None? && tunnel.ifname.Some?
    {
      stdout := stdout + chunk;
      if tunnel.ifname.Some? {
        return false;
      }
      var m := InterfaceName(stdout);
      if m.None? {
        return false;
      }
      tunnel.ifname := m;
      return true;
    }
  }

  /** The outcome of one external command. */
  datatype ExecResult = ExecResult(failed: bool, stderr: string)

  /** The commands configureTunnel runs, in order, and the error it reports (None on success). */
  datatype Configuration = Configuration(commands: seq<string>, error: Option<string>)

  function LinkUpCommand(ifname: string): string
  {
    "ip link set dev " + ifname + " up"
  }

  function AddressCommand(ifname: string, ip: Quad, netmask: string): string
  {
    "ip addr add dev " + ifname + " " + QuadText(ip) + "/" + netmask
  }

  /** An error message, with the command's stderr appended when there is any. */
  function FailureText(message: string, stderr: string): string
  {
    if stderr == "" then message else message + ": " + stderr
  }

  /** The error configureTunnel reports for an IPv6 tunnel. */
  const NoIPv6Support: string := "configureTunnel does not have IPv6 support"

  /** configureTunnel: bring the tunnel's interface up; then refuse an IPv6
      tunnel; then assign the tunnel's address with the netmask. Each failure
      ends the sequence. It runs once pppd has reported the interface name;
      the two command outcomes are parameters. */
  function ConfigureTunnel(t: Tunnel, netmask: string, linkUp: ExecResult, addrAdd: ExecResult): (c: Configuration)
    reads t
    requires t.ifname.Some?
    ensures c.error.None? <==> !linkUp.failed && !t.ipv6 && !addrAdd.failed
    ensures 1 <= |c.commands| <= 2 && c.commands[0] == LinkUpCommand(t.ifname.value)
    ensures |c.commands| == 2 <==> !linkUp.failed && !t.ipv6
    ensures |c.commands| == 2 ==> c.commands[1] == AddressCommand(t.ifname.value, t.tunnelIP, netmask)
    ensures t.ipv6 && !linkUp.failed ==> c.error == Some(NoIPv6Support)
  {
    var ifname := t.ifname.value;
    var up := LinkUpCommand(ifname);
    if linkUp.failed then Configuration([up], Some(FailureText("Setting tunnel state to UP failed", linkUp.stderr)))
    else if t.ipv6 then Configuration([up], Some(NoIPv6Support))
    else
      var assign := AddressCommand(ifname, t.tunnelIP, netmask);
      if addrAdd.failed then Configuration([up, assign], Some(FailureText("Configuring tunnel failed", addrAdd.stderr)))
      else Configuration([up, assign], None)
  }

  /** Only an IPv6 tunnel whose link came up gets the IPv6 refusal: the two
      command failures carry other messages. */
  lemma {:induction false} RefusesExactlyIPv6(t: Tunnel, netmask: string, linkUp: ExecResult, addrAdd: ExecResult)
    requires t.ifname.Some?
    ensures ConfigureTunnel(t, netmask, linkUp, addrAdd).error == Some(NoIPv6Support) <==> !linkUp.failed && t.ipv6
  {
    var upFailure := FailureText("Setting tunnel state to UP failed", linkUp.stderr);
    var addrFailure := FailureText("Configuring tunnel failed", addrAdd.stderr);
    assert upFailure[0] == 'S' && addrFailure[0] == 'C' && NoIPv6Support[0] == 'c';
  }
}
