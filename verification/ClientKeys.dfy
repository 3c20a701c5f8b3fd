/** The registry key of a client, `ip:port`, and why it identifies the client. */
module ClientKeys {
  import opened Entries

  function Digit(d: nat): (c: char)
    requires d < 10
    ensures c != ':'
  {
    "0123456789"[d]
  }

  /** Decimal rendering of a port, as `%d` prints it. */
  function Decimal(n: nat): (s: string)
    ensures |s| > 0
    ensures ':' !in s
  {
    if n < 10 then [Digit(n)] else Decimal(n / 10) + [Digit(n % 10)]
  }

  function ClientKey(ip: string, port: nat): string {
    ip + ":" + Decimal(port)
  }

  lemma {:induction false} DecimalInjective(m: nat, n: nat)
    requires Decimal(m) == Decimal(n)
    ensures m == n
  {
    var s, t := Decimal(m), Decimal(n);
    assert s[|s| - 1] == Digit(m % 10) && t[|t| - 1] == Digit(n % 10);
    if m >= 10 && n >= 10 {
      assert s[..|s| - 1] == Decimal(m / 10) && t[..|t| - 1] == Decimal(n / 10);
      DecimalInjective(m / 10, n / 10);
    }
  }

  /** The separator is the last colon of a key. */
  lemma LastColon(ip: string, port: nat, i: nat)
    requires |ip| <= i < |ClientKey(ip, port)|
    ensures ClientKey(ip, port)[i] == ':' <==> i == |ip|
  {
    if i > |ip| {
      assert ClientKey(ip, port)[i] == Decimal(port)[i - |ip| - 1];
    }
  }

  /** Equal keys mean equal address and port, even when the address itself contains colons. */
  lemma ClientKeyInjective(ip1: string, port1: nat, ip2: string, port2: nat)
    requires ClientKey(ip1, port1) == ClientKey(ip2, port2)
    ensures ip1 == ip2 && port1 == port2
  {
    var k := ClientKey(ip1, port1);
    LastColon(ip1, port1, Max(|ip1|, |ip2|));
    LastColon(ip2, port2, Max(|ip1|, |ip2|));
    assert |ip1| == |ip2|;
    assert k[..|ip1|] == ip1 && k[..|ip2|] == ip2;
    assert k[|ip1| + 1..] == Decimal(port1) && k[|ip2| + 1..] == Decimal(port2);
    DecimalInjective(port1, port2);
  }

  // ---- Reading a key back ----

  /** The number a string of decimal digits stands for. */
  function Numeral(s: string): int {
    if s == [] then 0 else 10 * Numeral(s[..|s| - 1]) + (s[|s| - 1] as int - '0' as int)
  }

  /** The rendering consists of decimal digits that stand for the number, without a leading zero. */
  lemma {:induction false} DecimalReadsBack(n: nat)
    ensures Numeral(Decimal(n)) == n
    ensures forall i :: 0 <= i < |Decimal(n)| ==> '0' <= Decimal(n)[i] <= '9'
    ensures n > 0 ==> Decimal(n)[0] != '0'
  {
    var s := Decimal(n);
    assert s[|s| - 1] as int == '0' as int + n % 10;
    if n < 10 {
      assert s[..|s| - 1] == [];
    } else {
      assert s[..|s| - 1] == Decimal(n / 10);
      DecimalReadsBack(n / 10);
    }
  }

  /** A key is the address, a colon, and the port in decimal. */
  lemma KeyReadsBack(ip: string, port: nat)
    ensures var key := ClientKey(ip, port);
            && |key| > |ip| && key[..|ip|] == ip && key[|ip|] == ':'
            && Numeral(key[|ip| + 1..]) == port
  {
    DecimalReadsBack(port);
    assert ClientKey(ip, port)[|ip| + 1..] == Decimal(port);
  }
}
