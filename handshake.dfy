/** The control-channel protocol of bin/cmd.js: the client hello (the whole
    payload is the client id) and the one-line reply that hands the client
    its tunnel parameters. */
module Handshake {
  import opened Text
  import opened Outcomes
  import opened Address
  import opened Records

  /** The shortest client id the broker accepts. */
  const MinIdLength: nat := 8

  /** parseClientHello: the decoded payload is the client id; an empty id or
      one shorter than eight characters is rejected. */
  function ParseClientHello(data: string): (r: Result<string>)
    ensures r.Ok? <==> |data| >= MinIdLength
    ensures r.Ok? ==> r.value == data
    ensures r.Err? ==> r.error == ClientIdTooShort
  {
    if |data| == 0 || |data| < MinIdLength then Err(ClientIdTooShort) else Ok(data)
  }

  /** The client the data handler hands to openTunnel: the id, an address of
      the control connection, and the IPv6 flag for any family but "IPv4". */
  function MakeClient(id: string, address: string, family: string): Client
  {
    Client(id, address, family != "IPv4")
  }

  /** The text written to the socket when the hello is rejected: "Error: "
      followed by the exception's own rendering "Error: <message>". */
  function HelloErrorReply(e: Error): string
  {
    "Error: " + "Error: " + Message(e)
  }

  /** A hello shorter than eight characters, the empty one included, is
      answered with the too-short error, rendered as an Error object. */
  lemma RejectedHelloReply(data: string)
    requires |data| < MinIdLength
    ensures ParseClientHello(data).Err?
    ensures HelloErrorReply(ParseClientHello(data).error) == "Error: Error: " + "Client ID missing or shorter than 8 characters (UTF-8)"
  {
  }

  /** The reply line `<broker address>|<tunnel address>/<netmask>:<port>\n`. */
  function ReplyLine(settings: Settings, t: Tunnel): string
  {
    settings.tunnelIP + "|" + QuadText(t.tunnelIP) + "/" + settings.tunnelNetmask + ":" + IntText(t.port) + "\n"
  }

  /** The fields a client reads back from a reply line. */
  datatype ReplyFields = ReplyFields(broker: string, tunnelIP: Quad, netmask: string, port: nat)

  /** A client-side reading of a reply line: split it at '|', then '/', then
      ':', and read the address octets and the port as decimal numbers. */
  function ParseReply(line: string): Option<ReplyFields>
  {
    if |line| == 0 || line[|line| - 1] != '\n' then None
    else
      var outer := Split(line[..|line| - 1], '|');
      if |outer| != 2 then None
      else
        var middle := Split(outer[1], '/');
        if |middle| != 2 then None
        else
          var inner := Split(middle[1], ':');
          var octets := Split(middle[0], '.');
          if |inner| != 2 || |octets| != 4 || !IsDecimal(inner[1]) then None
          else if !(IsDecimal(octets[0]) && IsDecimal(octets[1]) && IsDecimal(octets[2]) && IsDecimal(octets[3])) then None
          else
            Some(ReplyFields(outer[0],
                             [ParseDecimal(octets[0]), ParseDecimal(octets[1]), ParseDecimal(octets[2]), ParseDecimal(octets[3])],
                             inner[0], ParseDecimal(inner[1])))
  }

  /** The dotted text of an address with non-negative octets splits back into
      the decimal texts of its octets and holds only digits and dots. */
  lemma QuadTextParts(q: Quad)
    requires forall i :: 0 <= i < 4 ==> q[i] >= 0
    ensures Split(QuadText(q), '.') == [Decimal(q[0]), Decimal(q[1]), Decimal(q[2]), Decimal(q[3])]
    ensures forall c :: c in QuadText(q) ==> IsDigit(c) || c == '.'
  {
    var parts := [Decimal(q[0]), Decimal(q[1]), Decimal(q[2]), Decimal(q[3])];
    assert parts == [IntText(q[0]), IntText(q[1]), IntText(q[2]), IntText(q[3])];
    forall i | 0 <= i < 4 ensures '.' !in parts[i] {
      assert IsDecimal(parts[i]);
    }
    SplitJoin(parts, '.');
    forall c | c in QuadText(q) ensures IsDigit(c) || c == '.' {
      JoinChars(parts, '.', c);
      if c != '.' {
        var i :| 0 <= i < 4 && c in parts[i];
        assert IsDecimal(parts[i]);
      }
    }
  }

  /** A text with exactly one separator splits into the two sides. */
  lemma SplitPair(a: string, b: string, sep: char)
    requires sep !in a && sep !in b
    ensures Split(a + [sep] + b, sep) == [a, b]
  {
    SplitFirst(a, b, sep);
    SplitWhole(b, sep);
  }

  /** A decimal text contains no separator character. */
  lemma DecimalHasNo(s: string, c: char)
    requires IsDecimal(s) && !IsDigit(c)
    ensures c !in s
  {
  }

  /** A reply line gives back the broker address, the tunnel's address, the
      netmask and the tunnel's port, provided the two settings strings do not
      contain the separators. */
  lemma ReplyRoundTrip(settings: Settings, t: Tunnel)
    requires '|' !in settings.tunnelIP
    requires '|' !in settings.tunnelNetmask && '/' !in settings.tunnelNetmask && ':' !in settings.tunnelNetmask
    requires ValidQuad(t.tunnelIP) && t.port >= 0
    ensures ParseReply(ReplyLine(settings, t)) == Some(ReplyFields(settings.tunnelIP, t.tunnelIP, settings.tunnelNetmask, t.port))
  {
    var q := t.tunnelIP;
    assert IsOctet(q[0]) && IsOctet(q[1]) && IsOctet(q[2]) && IsOctet(q[3]);
    QuadTextParts(q);
    var qt := QuadText(q);
    var pt := Decimal(t.port);
    var m := settings.tunnelNetmask;
    var maskPort := m + [':'] + pt;
    var rest := qt + ['/'] + maskPort;
    var body := settings.tunnelIP + ['|'] + rest;
    var line := ReplyLine(settings, t);
    assert line == body + "\n";
    assert line[..|line| - 1] == body;
    DecimalHasNo(pt, ':');
    DecimalHasNo(pt, '/');
    DecimalHasNo(pt, '|');
    assert '/' !in qt && '|' !in qt;
    SplitPair(settings.tunnelIP, rest, '|');
    SplitPair(qt, maskPort, '/');
    SplitPair(m, pt, ':');
    DecimalRoundTrip(q[0]);
    DecimalRoundTrip(q[1]);
    DecimalRoundTrip(q[2]);
    DecimalRoundTrip(q[3]);
    DecimalRoundTrip(t.port);
    assert [q[0], q[1], q[2], q[3]] == q;
  }
}
