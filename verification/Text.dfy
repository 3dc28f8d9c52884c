/** Decimal text as the operator uses it: the generation annotation is written with
    strconv.FormatInt and read back with strconv.ParseInt, and a config is named after its sequence. */
module Text {
  import opened Types

  const MIN_INT64: int := -0x8000_0000_0000_0000
  const MAX_INT64: int := 0x7FFF_FFFF_FFFF_FFFF

  predicate IsDigit(c: char) {
    '0' <= c <= '9'
  }

  predicate AllDigits(s: string) {
    forall i | 0 <= i < |s| :: IsDigit(s[i])
  }

  function DigitChar(d: nat): char
    requires d < 10
  {
    '0' + d as char
  }

  function Digits(n: nat): (s: string)
    ensures s != [] && AllDigits(s)
  {
    if n < 10 then [DigitChar(n)] else Digits(n / 10) + [DigitChar(n % 10)]
  }

  function FormatInt(n: int): string {
    if n < 0 then "-" + Digits(-n) else Digits(n)
  }

  /** The value of a non-empty string of decimal digits. */
  function ParseDigits(s: string): Option<nat> {
    if s == [] || !IsDigit(s[|s| - 1]) then None
    else
      var d := s[|s| - 1] as int - '0' as int;
      if |s| == 1 then Some(d)
      else
        var front := ParseDigits(s[..|s| - 1]);
        if front.None? then None else Some(10 * front.value + d)
  }

  /** Base ten: an optional sign, at least one digit, nothing else, and a value that fits in 64 bits. */
  function ParseInt64(s: string): Option<int> {
    var signed := s != [] && (s[0] == '-' || s[0] == '+');
    var magnitude := ParseDigits(if signed then s[1..] else s);
    if magnitude.None? then None
    else
      var n: int := if signed && s[0] == '-' then 0 - magnitude.value else magnitude.value;
      if MIN_INT64 <= n <= MAX_INT64 then Some(n) else None
  }

  lemma {:induction false} ParseOfDigits(n: nat)
    ensures ParseDigits(Digits(n)) == Some(n)
  {
    if n >= 10 {
      var front, d := Digits(n / 10), DigitChar(n % 10);
      ParseOfDigits(n / 10);
      assert (front + [d])[..|front|] == front;
    }
  }

  /** Reading back a written integer gives that integer when it fits in 64 bits, and nothing otherwise; a
      plus sign in front makes no difference. */
  lemma ParseFormat(n: int)
    ensures ParseInt64(FormatInt(n)) == if MIN_INT64 <= n <= MAX_INT64 then Some(n) else None
    ensures n >= 0 ==> ParseInt64("+" + FormatInt(n)) == ParseInt64(FormatInt(n))
  {
    ParseOfDigits(if n < 0 then -n else n);
    if n < 0 {
      assert FormatInt(n)[1..] == Digits(-n);
    } else {
      assert IsDigit(Digits(n)[0]);
      assert ("+" + Digits(n))[1..] == Digits(n);
    }
  }

  function ConfigName(cluster: string, sequence: nat): string {
    cluster + "-" + Digits(sequence)
  }

  /** The last dash of a config name is the separator. */
  lemma LastDash(cluster: string, sequence: nat)
    ensures ConfigName(cluster, sequence)[|cluster|] == '-'
    ensures forall p | |cluster| < p < |ConfigName(cluster, sequence)| :: ConfigName(cluster, sequence)[p] != '-'
  {
    var name, digits := ConfigName(cluster, sequence), Digits(sequence);
    forall p | |cluster| < p < |name| ensures name[p] != '-' {
      assert name[p] == digits[p - |cluster| - 1];
    }
  }

  /** Config names determine both the cluster and the sequence, even when cluster names contain
      dashes and digits, so a store keyed by name is a store keyed by sequence within one cluster. */
  lemma ConfigNameInjective(a: string, i: nat, b: string, j: nat)
    requires ConfigName(a, i) == ConfigName(b, j)
    ensures a == b && i == j
  {
    LastDash(a, i);
    LastDash(b, j);
    var name := ConfigName(a, i);
    assert |a| == |b|;
    assert a == name[..|a|] && b == name[..|b|];
    assert Digits(i) == name[|a| + 1..] && Digits(j) == name[|b| + 1..];
    ParseOfDigits(i);
    ParseOfDigits(j);
  }
}
