/** IPv4 addresses as text, read the way inet_pton reads them: four decimal numbers up to 255 without
    leading zeros, separated by dots. */
module DottedQuad {
  import opened Bacnet

  datatype Octets = Octets(a: byte, b: byte, c: byte, d: byte)

  predicate IsDigit(c: char) {
    '0' <= c <= '9'
  }

  function Digit(c: char): (d: nat)
    requires IsDigit(c)
    ensures d < 10
  {
    c as nat - '0' as nat
  }

  /** One to three digits. */
  predicate IsNumber(s: string) {
    1 <= |s| <= 3 && forall i :: 0 <= i < |s| ==> IsDigit(s[i])
  }

  function Value(s: string): nat
    requires IsNumber(s)
  {
    if |s| == 1 then Digit(s[0])
    else if |s| == 2 then 10 * Digit(s[0]) + Digit(s[1])
    else 100 * Digit(s[0]) + 10 * Digit(s[1]) + Digit(s[2])
  }

  predicate IsOctet(s: string) {
    IsNumber(s) && Value(s) <= 255 && (|s| > 1 ==> s[0] != '0')
  }

  /** The parts between the dots. */
  function Split(s: string): (parts: seq<string>)
    ensures |parts| > 0
  {
    if s == [] then [[]]
    else if s[0] == '.' then [[]] + Split(s[1..])
    else
      var parts := Split(s[1..]);
      [[s[0]] + parts[0]] + parts[1..]
  }

  /** The octets of a dotted quad, if the text is one. */
  function Parse(s: string): Option<Octets> {
    var parts := Split(s);
    if |parts| == 4 && IsOctet(parts[0]) && IsOctet(parts[1]) && IsOctet(parts[2]) && IsOctet(parts[3])
    then Some(Octets(Value(parts[0]), Value(parts[1]), Value(parts[2]), Value(parts[3])))
    else None
  }

  function Join(parts: seq<string>): string
    requires |parts| > 0
  {
    if |parts| == 1 then parts[0] else parts[0] + "." + Join(parts[1..])
  }

  lemma {:induction false} JoinSplit(s: string)
    ensures Join(Split(s)) == s
  {
    if s == [] {
    } else {
      JoinSplit(s[1..]);
      var parts := Split(s[1..]);
      assert s == [s[0]] + s[1..];
      if s[0] == '.' {
        assert ([[]] + parts)[1..] == parts;
        assert [] + "." + Join(parts) == "." + Join(parts);
      } else {
        assert ([[s[0]] + parts[0]] + parts[1..])[1..] == parts[1..];
        if |parts| > 1 {
          assert [s[0]] + parts[0] + "." + Join(parts[1..]) == [s[0]] + (parts[0] + "." + Join(parts[1..]));
        }
      }
    }
  }

  lemma {:induction false} SplitPart(p: string)
    requires '.' !in p
    ensures Split(p) == [p]
  {
    if p == [] {
    } else {
      assert p[0] in p && forall c :: c in p[1..] ==> c in p;
      SplitPart(p[1..]);
      assert p == [p[0]] + p[1..];
    }
  }

  lemma {:induction false} SplitFirst(p: string, s: string)
    requires '.' !in p
    ensures Split(p + "." + s) == [p] + Split(s)
  {
    if p == [] {
      assert [] + "." + s == ['.'] + s && (['.'] + s)[1..] == s;
    } else {
      assert p[0] in p && forall c :: c in p[1..] ==> c in p;
      SplitFirst(p[1..], s);
      assert (p + "." + s)[1..] == p[1..] + "." + s && p == [p[0]] + p[1..];
      assert ([p[1..]] + Split(s))[1..] == Split(s);
    }
  }
}
