/** Host names and IPv4 addresses as text: how a destination is named when no
    cache knows it. */
module Hosts {
  import opened Graph

  datatype Option<+T> = None | Some(value: T)

  function Or<T>(o: Option<T>, default: T): T { if o.Some? then o.value else default }

  /** The position of the first `c`, or the length of `s`. */
  function IndexOf<T(==)>(s: seq<T>, c: T): (i: nat)
    ensures i <= |s| && c !in s[..i]
    ensures i < |s| ==> s[i] == c
  {
    if s == [] || s[0] == c then 0
    else
      assert s == [s[0]] + s[1..];
      1 + IndexOf(s[1..], c)
  }

  /** The pieces of `s` between occurrences of `c`. */
  function Split(s: string, c: char): (parts: seq<string>)
    ensures |parts| > 0
    decreases |s|
  {
    var i := IndexOf(s, c);
    if i == |s| then [s] else [s[..i]] + Split(s[i + 1..], c)
  }

  function Join(parts: seq<string>, c: char): string
    requires |parts| > 0
  {
    if |parts| == 1 then parts[0] else parts[0] + [c] + Join(parts[1..], c)
  }

  lemma SplitFirst(first: string, c: char, rest: string)
    requires c !in first
    ensures Split(first + [c] + rest, c) == [first] + Split(rest, c)
  {
    var s := first + [c] + rest;
    var i := IndexOf(s, c);
    assert s[|first|] == c && s[..|first|] == first;
    assert s[..i] == first && s[i + 1..] == rest;
  }

  lemma SplitWhole(s: string, c: char)
    requires c !in s
    ensures Split(s, c) == [s]
  {
  }

  /** Splitting undoes joining, for pieces without the separator. */
  lemma {:induction false} SplitJoin(parts: seq<string>, c: char)
    requires |parts| > 0 && forall i :: 0 <= i < |parts| ==> c !in parts[i]
    ensures Split(Join(parts, c), c) == parts
  {
    if |parts| == 1 {
      SplitWhole(parts[0], c);
    } else {
      SplitJoin(parts[1..], c);
      SplitFirst(parts[0], c, Join(parts[1..], c));
    }
  }

  /** Joining undoes splitting, and no piece holds the separator. */
  lemma {:induction false} JoinSplit(s: string, c: char)
    ensures Join(Split(s, c), c) == s
    ensures forall i :: 0 <= i < |Split(s, c)| ==> c !in Split(s, c)[i]
    decreases |s|
  {
    var i := IndexOf(s, c);
    if i < |s| {
      JoinSplit(s[i + 1..], c);
      assert s == s[..i] + [c] + s[i + 1..];
      assert Split(s, c)[1..] == Split(s[i + 1..], c);
    }
  }

  /** `a` before a separator holds `b`, a separator and more, which then starts
      what follows `b`. */
  ghost predicate Overlaps(a: string, x: string, c: char, b: string, y: string) {
    exists mid :: a == b + [c] + mid && y == mid + [c] + x
  }

  lemma {:induction false} LongerOverlaps(a: string, x: string, c: char, b: string, y: string)
    requires a + [c] + x == b + [c] + y && |b| < |a|
    ensures Overlaps(a, x, c, b, y)
  {
    var s, mid := a + [c] + x, a[|b| + 1..];
    assert s[..|a|] == a && s[|a|..] == [c] + x;
    assert s[|b|] == c && a[..|b|] == s[..|b|] == b && a[|b|] == s[|b|];
    assert a == b + [c] + mid;
    assert y == s[|b| + 1..] == s[|b| + 1..|a|] + s[|a|..];
    assert mid == s[|b| + 1..|a|];
  }

  /** When two texts around a separator coincide: they are the same, or one
      begins with the other and its separator. */
  lemma SeparatedEqual(a: string, x: string, c: char, b: string, y: string)
    ensures a + [c] + x == b + [c] + y
       <==> (a == b && x == y) || Overlaps(a, x, c, b, y) || Overlaps(b, y, c, a, x)
  {
    if Overlaps(a, x, c, b, y) {
      var mid :| a == b + [c] + mid && y == mid + [c] + x;
      assert a + [c] + x == b + [c] + y;
    }
    if Overlaps(b, y, c, a, x) {
      var mid :| b == a + [c] + mid && x == mid + [c] + y;
      assert a + [c] + x == b + [c] + y;
    }
    if a + [c] + x == b + [c] + y {
      if |b| < |a| {
        LongerOverlaps(a, x, c, b, y);
      } else if |a| < |b| {
        LongerOverlaps(b, y, c, a, x);
      } else {
        var s := a + [c] + x;
        assert a == s[..|a|] == b && x == s[|a| + 1..] == y;
      }
    }
  }

  predicate OccursAt(s: string, t: string, i: nat) {
    i + |t| <= |s| && s[i..i + |t|] == t
  }

  predicate Contains(s: string, t: string) {
    exists i: nat :: i <= |s| && OccursAt(s, t, i)
  }

  lemma OccursShift(prefix: string, s: string, t: string, i: nat)
    requires OccursAt(s, t, i)
    ensures OccursAt(prefix + s, t, |prefix| + i)
  {
  }

  lemma SplitHead(s: string, c: char)
    ensures Split(s, c)[0] == s[..IndexOf(s, c)]
  {
  }

  lemma SecondPieceOccurs(s: string, c: char, i: nat)
    requires i < |s| && s[i] == c
    ensures OccursAt(s, [c] + Split(s[i + 1..], c)[0], i)
  {
    SplitHead(s[i + 1..], c);
    var j := IndexOf(s[i + 1..], c);
    assert s[i..i + 1 + j] == [s[i]] + s[i + 1..][..j];
  }

  /** Every piece but the first is preceded by the separator. */
  lemma {:induction false} PieceOccurs(s: string, c: char, p: nat) returns (k: nat)
    requires 0 < p < |Split(s, c)|
    ensures OccursAt(s, [c] + Split(s, c)[p], k)
    decreases |s|
  {
    var i := IndexOf(s, c);
    if p == 1 {
      SecondPieceOccurs(s, c, i);
      k := i;
    } else {
      var rest := s[i + 1..];
      k := PieceOccurs(rest, c, p - 1);
      assert s == s[..i + 1] + rest;
      OccursShift(s[..i + 1], rest, [c] + Split(rest, c)[p - 1], k);
      k := i + 1 + k;
    }
  }

  /** The host without a port: everything before the first ':'. */
  function StripPort(host: string): string {
    host[..IndexOf(host, ':')]
  }

  predicate IsDigit(c: char) { '0' <= c <= '9' }

  /** The number a run of digits denotes. */
  function DecimalValue(s: string): int {
    if s == [] then 0 else 10 * DecimalValue(s[..|s| - 1]) + (s[|s| - 1] as int - '0' as int)
  }

  /** One to three digits, no leading zero, at most 255. */
  predicate IsOctet(s: string) {
    && 1 <= |s| <= 3
    && (forall i :: 0 <= i < |s| ==> IsDigit(s[i]))
    && (|s| > 1 ==> s[0] != '0')
    && DecimalValue(s) <= 255
  }

  predicate IsIpv4(s: string) {
    var parts := Split(s, '.');
    |parts| == 4 && forall i :: 0 <= i < 4 ==> IsOctet(parts[i])
  }

  newtype Octet = n: int | 0 <= n < 256

  datatype Ipv4 = Ipv4(a: Octet, b: Octet, c: Octet, d: Octet)

  function Digit(n: int): char
    requires 0 <= n < 10
  {
    ('0' as int + n) as char
  }

  function OctetText(n: Octet): string {
    var n := n as int;
    if n < 10 then [Digit(n)]
    else if n < 100 then [Digit(n / 10), Digit(n % 10)]
    else [Digit(n / 100), Digit(n / 10 % 10), Digit(n % 10)]
  }

  function Ipv4Text(ip: Ipv4): string {
    Join([OctetText(ip.a), OctetText(ip.b), OctetText(ip.c), OctetText(ip.d)], '.')
  }

  lemma DigitValue(s: string, n: int)
    requires 0 <= n < 10
    ensures DecimalValue(s + [Digit(n)]) == 10 * DecimalValue(s) + n
    ensures IsDigit(Digit(n)) && (Digit(n) == '0' <==> n == 0)
  {
    assert (s + [Digit(n)])[..|s|] == s;
  }

  lemma OneDigit(a: int)
    requires 0 <= a < 10
    ensures DecimalValue([Digit(a)]) == a
  {
    DigitValue([], a);
    assert [] + [Digit(a)] == [Digit(a)];
  }

  lemma TwoDigits(a: int, b: int)
    requires 0 <= a < 10 && 0 <= b < 10
    ensures DecimalValue([Digit(a), Digit(b)]) == 10 * a + b
  {
    OneDigit(a);
    DigitValue([Digit(a)], b);
    assert [Digit(a)] + [Digit(b)] == [Digit(a), Digit(b)];
  }

  lemma ThreeDigits(a: int, b: int, c: int)
    requires 0 <= a < 10 && 0 <= b < 10 && 0 <= c < 10
    ensures DecimalValue([Digit(a), Digit(b), Digit(c)]) == 100 * a + 10 * b + c
  {
    TwoDigits(a, b);
    DigitValue([Digit(a), Digit(b)], c);
    assert [Digit(a), Digit(b)] + [Digit(c)] == [Digit(a), Digit(b), Digit(c)];
  }

  lemma OctetTextValue(n: Octet)
    ensures DecimalValue(OctetText(n)) == n as int
  {
    var m := n as int;
    if m < 10 {
      OneDigit(m);
    } else if m < 100 {
      TwoDigits(m / 10, m % 10);
    } else {
      ThreeDigits(m / 100, m / 10 % 10, m % 10);
    }
  }

  lemma OctetTextIsOctet(n: Octet)
    ensures IsOctet(OctetText(n))
    ensures '.' !in OctetText(n) && ':' !in OctetText(n)
  {
    OctetTextValue(n);
    assert forall i :: 0 <= i < |OctetText(n)| ==> IsDigit(OctetText(n)[i]);
  }

  /** A printed address is recognised as one and carries no port. */
  lemma Ipv4TextIsIpv4(ip: Ipv4)
    ensures IsIpv4(Ipv4Text(ip)) && ':' !in Ipv4Text(ip)
    ensures Split(Ipv4Text(ip), '.') == [OctetText(ip.a), OctetText(ip.b), OctetText(ip.c), OctetText(ip.d)]
  {
    var parts := [OctetText(ip.a), OctetText(ip.b), OctetText(ip.c), OctetText(ip.d)];
    OctetTextIsOctet(ip.a);
    OctetTextIsOctet(ip.b);
    OctetTextIsOctet(ip.c);
    OctetTextIsOctet(ip.d);
    assert forall i :: 0 <= i < |parts| ==> '.' !in parts[i] && ':' !in parts[i];
    SplitJoin(parts, '.');
    JoinAvoids(parts, '.', ':');
  }

  lemma {:induction false} JoinAvoids(parts: seq<string>, c: char, d: char)
    requires |parts| > 0 && c != d && forall i :: 0 <= i < |parts| ==> d !in parts[i]
    ensures d !in Join(parts, c)
  {
    if |parts| > 1 {
      JoinAvoids(parts[1..], c, d);
    }
  }

  /** The digit of a character. */
  function DigitOf(c: char): (n: int)
    requires IsDigit(c)
    ensures 0 <= n < 10 && Digit(n) == c
  {
    c as int - '0' as int
  }

  /** An octet as accepted by the parser is one as printed. */
  lemma OctetPrinted(s: string) returns (n: Octet)
    requires IsOctet(s)
    ensures OctetText(n) == s
  {
    if |s| == 1 {
      n := DigitOf(s[0]) as Octet;
    } else if |s| == 2 {
      n := TwoDigitsPrinted(s);
    } else {
      n := ThreeDigitsPrinted(s);
    }
  }

  lemma TwoDigitsPrinted(s: string) returns (n: Octet)
    requires IsOctet(s) && |s| == 2
    ensures OctetText(n) == s
  {
    var a, b := DigitOf(s[0]), DigitOf(s[1]);
    TwoDigits(a, b);
    assert s == [Digit(a), Digit(b)];
    n := (10 * a + b) as Octet;
  }

  lemma ThreeDigitsPrinted(s: string) returns (n: Octet)
    requires IsOctet(s) && |s| == 3
    ensures OctetText(n) == s
  {
    var a, b, c := DigitOf(s[0]), DigitOf(s[1]), DigitOf(s[2]);
    ThreeDigits(a, b, c);
    assert s == [Digit(a), Digit(b), Digit(c)];
    n := (100 * a + 10 * b + c) as Octet;
  }

  /** Every text the parser takes for an address is a printed address. */
  lemma Ipv4Printed(s: string) returns (ip: Ipv4)
    requires IsIpv4(s)
    ensures Ipv4Text(ip) == s
  {
    var parts := Split(s, '.');
    var a := OctetPrinted(parts[0]);
    var b := OctetPrinted(parts[1]);
    var c := OctetPrinted(parts[2]);
    var d := OctetPrinted(parts[3]);
    ip := Ipv4(a, b, c, d);
    assert [OctetText(a), OctetText(b), OctetText(c), OctetText(d)] == parts;
    JoinSplit(s, '.');
  }

  /** Different addresses print differently. */
  lemma Ipv4TextInjective(ip: Ipv4, other: Ipv4)
    requires Ipv4Text(ip) == Ipv4Text(other)
    ensures ip == other
  {
    Ipv4TextIsIpv4(ip);
    Ipv4TextIsIpv4(other);
    var p, q := Split(Ipv4Text(ip), '.'), Split(Ipv4Text(other), '.');
    assert p[0] == q[0] && p[1] == q[1] && p[2] == q[2] && p[3] == q[3];
    OctetTextValue(ip.a);
    OctetTextValue(ip.b);
    OctetTextValue(ip.c);
    OctetTextValue(ip.d);
    OctetTextValue(other.a);
    OctetTextValue(other.b);
    OctetTextValue(other.c);
    OctetTextValue(other.d);
  }

  /** The service a bare host name denotes, by its shape alone. */
  function ParseK8sHost(hostPort: string): NodeId {
    var host := StripPort(hostPort);
    if IsIpv4(host) || '.' !in host then NodeId(host, "unknown")
    else if Contains(host, ".svc") then
      var parts := Split(host, '.');
      if |parts| >= 2 then NodeId(parts[0], parts[1]) else NodeId(host, "external")
    else NodeId(host, "external")
  }

  /** The two labels before the first "svc" label of a cluster address. */
  function SvcNamespaceFromFqdn(host: string): Option<NodeId> {
    var parts := Split(host, '.');
    var p := IndexOf(parts, "svc");
    if p == |parts| || p < 2 then None else Some(NodeId(parts[p - 2], parts[p - 1]))
  }

  lemma SplitHasSeparator(s: string, c: char)
    ensures c in s <==> |Split(s, c)| >= 2
  {
  }

  lemma SvcIsNoOctet()
    ensures !IsOctet("svc")
  {
    assert !IsDigit("svc"[0]);
  }

  /** A host with a "svc" label after another is named by its first two labels. */
  lemma SvcHost(host: string, p: nat)
    requires ':' !in host && 1 <= p < |Split(host, '.')| && Split(host, '.')[p] == "svc"
    ensures ParseK8sHost(host) == NodeId(Split(host, '.')[0], Split(host, '.')[1])
  {
    assert StripPort(host) == host;
    SvcIsNoOctet();
    SplitHasSeparator(host, '.');
    var k := PieceOccurs(host, '.', p);
    assert ['.'] + Split(host, '.')[p] == ".svc";
    assert Contains(host, ".svc");
  }

  /** Both parsers, on an address the address parser accepts. */
  lemma SvcPosition(host: string)
    requires ':' !in host && SvcNamespaceFromFqdn(host).Some?
    ensures var parts := Split(host, '.');
            var p := IndexOf(parts, "svc");
            && 2 <= p < |parts|
            && ParseK8sHost(host) == NodeId(parts[0], parts[1])
            && SvcNamespaceFromFqdn(host) == Some(NodeId(parts[p - 2], parts[p - 1]))
  {
    SvcHost(host, IndexOf(Split(host, '.'), "svc"));
  }

  /** Where the address parser succeeds, the host heuristic returns the first
      two labels: the parsers agree exactly when those precede the "svc" label,
      as they do when it is the third. */
  lemma ParsersAgree(host: string)
    requires ':' !in host && SvcNamespaceFromFqdn(host).Some?
    ensures var parts := Split(host, '.');
            var p := IndexOf(parts, "svc");
            && 2 <= p < |parts|
            && (SvcNamespaceFromFqdn(host) == Some(ParseK8sHost(host))
                <==> parts[p - 2] == parts[0] && parts[p - 1] == parts[1])
            && (p == 2 ==> SvcNamespaceFromFqdn(host) == Some(ParseK8sHost(host)))
  {
    var parts := Split(host, '.');
    var p := IndexOf(parts, "svc");
    SvcPosition(host);
    var byShape, byLabel := ParseK8sHost(host), SvcNamespaceFromFqdn(host);
    if byLabel == Some(byShape) {
      assert byLabel.value.applicationName == byShape.applicationName && byLabel.value.namespace == byShape.namespace;
    }
  }
}
