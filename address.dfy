/** Conversion between dotted-quad addresses and 32-bit numbers
    (ipToNumber and numberToIP of bin/cmd.js).

    An address string `a.b.c.d` enters the model as the four values that
    splitting it on '.' and applying parseInt to each part yields. */
module Address {
  import opened Text
  import opened Outcomes

  type Quad = s: seq<int> | |s| == 4 witness [0, 0, 0, 0]

  /** The number of 32-bit values. */
  const Span: nat := 0x1_0000_0000

  predicate IsOctet(n: int) { 0 <= n <= 255 }

  /** Every octet lies in 0..255: the only check ipToNumber makes. */
  predicate ValidQuad(q: Quad) { forall i :: 0 <= i < 4 ==> IsOctet(q[i]) }

  /** Math.pow on naturals. */
  function Pow(b: nat, e: nat): nat
  {
    if e == 0 then 1 else b * Pow(b, e - 1)
  }

  /** Base-256 positional value of the octets, most significant first. */
  function QuadValue(q: Quad): int
  {
    q[0] * 16777216 + q[1] * 65536 + q[2] * 256 + q[3]
  }

  /** The sum of the first k weighted octets: what ipToNumber has accumulated after k rounds. */
  function Weighted(q: Quad, k: nat): int
    requires k <= 4
  {
    if k == 0 then 0 else Weighted(q, k - 1) + q[k - 1] * Pow(256, 4 - k)
  }

  lemma PowersOf256()
    ensures Pow(256, 0) == 1 && Pow(256, 1) == 256 && Pow(256, 2) == 65536
    ensures Pow(256, 3) == 16777216
  {
  }

  /** ipToNumber: reject the address if an octet is outside 0..255, otherwise
      return its base-256 value, which is a 32-bit number. */
  method IpToNumber(ip: Quad) returns (r: Result<nat>)
    ensures r.Ok? <==> ValidQuad(ip)
    ensures r.Ok? ==> r.value == QuadValue(ip) && r.value < Span
    ensures r.Err? ==> r.error == InvalidIP(ip)
  {
    PowersOf256();
    var number := 0;
    for i := 0 to 4
      invariant forall j :: 0 <= j < i ==> IsOctet(ip[j])
      invariant number == Weighted(ip, i)
    {
      var n := ip[i];
      if n < 0 || n > 255 {
        return Err(InvalidIP(ip));
      }
      number := number + n * Pow(256, 3 - i);
    }
    assert Weighted(ip, 4) == QuadValue(ip) by {
      assert Weighted(ip, 1) == ip[0] * 16777216;
      assert Weighted(ip, 2) == Weighted(ip, 1) + ip[1] * 65536;
      assert Weighted(ip, 3) == Weighted(ip, 2) + ip[2] * 256;
    }
    assert IsOctet(ip[0]) && IsOctet(ip[1]) && IsOctet(ip[2]) && IsOctet(ip[3]);
    return Ok(number);
  }

  /** The octets numberToIP produces: the quotient by 256^3, then each
      remainder divided by the next lower power of 256. */
  function FromNumber(n: nat): Quad
  {
    var r1 := n % 16777216;
    var r2 := r1 % 65536;
    [n / 16777216, r1 / 65536, r2 / 256, r2 % 256]
  }

  /** What numberToIP still has to distribute after i rounds. */
  function Remaining(n: nat, i: nat): nat
    requires i <= 3
  {
    if i == 0 then n
    else if i == 1 then n % 16777216
    else if i == 2 then n % 16777216 % 65536
    else n % 16777216 % 65536 % 256
  }

  /** numberToIP: split a number into octets by repeated division by powers of 256. */
  method NumberToIP(number: nat) returns (q: Quad)
    ensures q == FromNumber(number)
    ensures QuadValue(q) == number
    ensures ValidQuad(q) <==> number < Span
  {
    PowersOf256();
    var parts: seq<int> := [0, 0, 0, 0];
    var rest: int := number;
    for i := 0 to 3
      invariant |parts| == 4
      invariant rest == Remaining(number, i)
      invariant parts[..i] == FromNumber(number)[..i]
    {
      var p := Pow(256, 3 - i);
      assert rest / p == FromNumber(number)[i] && rest - (rest / p) * p == Remaining(number, i + 1) by {
        if i == 0 { assert p == 16777216; }
        else if i == 1 { assert p == 65536; }
        else { assert p == 256; }
      }
      parts := parts[i := rest / p];
      rest := rest - parts[i] * p;
    }
    parts := parts[3 := rest];
    q := parts;
    NumberRoundTrip(number);
  }

  /** The octets numberToIP produces have the input as their base-256 value,
      and they are valid exactly for 32-bit numbers; so ipToNumber after
      numberToIP gives the number back exactly when it is below 2^32. */
  lemma NumberRoundTrip(n: nat)
    ensures QuadValue(FromNumber(n)) == n
    ensures ValidQuad(FromNumber(n)) <==> n < Span
  {
    var q := FromNumber(n);
    if n < Span {
      assert IsOctet(q[0]);
    } else {
      assert !IsOctet(q[0]);
    }
  }

  /** ipToNumber then numberToIP is the identity on valid quads. */
  lemma QuadRoundTrip(q: Quad)
    requires ValidQuad(q)
    ensures FromNumber(QuadValue(q)) == q
  {
    assert IsOctet(q[0]) && IsOctet(q[1]) && IsOctet(q[2]) && IsOctet(q[3]);
    var n := QuadValue(q);
    var r1 := q[1] * 65536 + q[2] * 256 + q[3];
    var r2 := q[2] * 256 + q[3];
    assert 0 <= r1 < 16777216 && n == q[0] * 16777216 + r1;
    assert n / 16777216 == q[0] && n % 16777216 == r1;
    assert 0 <= r2 < 65536 && r1 == q[1] * 65536 + r2;
    assert r1 / 65536 == q[1] && r1 % 65536 == r2;
    assert r2 / 256 == q[2] && r2 % 256 == q[3];
  }

  /** Distinct valid quads have distinct numbers. */
  lemma QuadValueInjective(p: Quad, q: Quad)
    requires ValidQuad(p) && ValidQuad(q) && QuadValue(p) == QuadValue(q)
    ensures p == q
  {
    QuadRoundTrip(p);
    QuadRoundTrip(q);
  }

  /** The dotted text of an address: the octets joined by '.'. */
  function QuadText(q: Quad): string
  {
    Join([IntText(q[0]), IntText(q[1]), IntText(q[2]), IntText(q[3])], '.')
  }
}
