/** Decimal numerals and the identifiers built from them. */
module Text {
  function Digit(d: nat): char
    requires d < 10
  {
    "0123456789"[d]
  }

  predicate IsDigit(c: char) { '0' <= c <= '9' }

  function Natural(n: nat): (s: string)
    ensures s != [] && forall c :: c in s ==> IsDigit(c)
  {
    if n < 10 then [Digit(n)] else Natural(n / 10) + [Digit(n % 10)]
  }

  /** `std::to_string`. */
  function Decimal(i: int): string {
    if i < 0 then "-" + Natural(-i) else Natural(i)
  }

  function Read(s: string): nat
    requires forall c :: c in s ==> IsDigit(c)
  {
    if s == [] then 0
    else
      assert IsDigit(s[|s| - 1]);
      10 * Read(s[..|s| - 1]) + (s[|s| - 1] as int - '0' as int)
  }

  lemma {:induction false} ReadNatural(n: nat)
    ensures Read(Natural(n)) == n
  {
    var s := Natural(n);
    if n < 10 {
      assert s[..0] == [];
    } else {
      ReadNatural(n / 10);
      assert s[..|s| - 1] == Natural(n / 10);
    }
  }

  lemma NaturalInjective(m: nat, n: nat)
    requires Natural(m) == Natural(n)
    ensures m == n
  {
    ReadNatural(m);
    ReadNatural(n);
  }

  lemma NoMinus(n: nat)
    ensures Natural(n)[0] != '-'
  {
    assert Natural(n)[0] in Natural(n);
  }

  /** Different numbers have different numerals. */
  lemma DecimalInjective(i: int, j: int)
    requires Decimal(i) == Decimal(j)
    ensures i == j
  {
    if i < 0 && j < 0 {
      assert Decimal(i)[1..] == Natural(-i) && Decimal(j)[1..] == Natural(-j);
      NaturalInjective(-i, -j);
    } else if i >= 0 && j >= 0 {
      NaturalInjective(i, j);
    } else {
      NoMinus(if i < 0 then j else i);
    }
  }

  /** `job-<ms>-<n>` and `buffer_<ms>_<n>`. */
  function StampedId(prefix: string, separator: char, ms: int, n: nat): string {
    prefix + Decimal(ms) + [separator] + Natural(n)
  }

  /** What follows the last separator is determined by the whole text. */
  lemma LastFieldUnique(a: string, x: string, b: string, y: string, separator: char)
    requires separator !in x && separator !in y
    requires a + [separator] + x == b + [separator] + y
    ensures a == b && x == y
  {
    var s := a + [separator] + x;
    assert s[|a|] == separator && s[|b|] == separator;
    assert |a| == |b|;
    assert a == s[..|a|] == b;
    assert x == s[|a| + 1..] == y;
  }

  /** An identifier determines both the clock reading and the counter. */
  lemma StampedIdInjective(prefix: string, separator: char, ms: int, n: nat, ms': int, n': nat)
    requires !IsDigit(separator) && StampedId(prefix, separator, ms, n) == StampedId(prefix, separator, ms', n')
    ensures ms == ms' && n == n'
  {
    LastFieldUnique(prefix + Decimal(ms), Natural(n), prefix + Decimal(ms'), Natural(n'), separator);
    var head := prefix + Decimal(ms);
    assert Decimal(ms) == head[|prefix|..] == Decimal(ms');
    DecimalInjective(ms, ms');
    NaturalInjective(n, n');
  }

  /** Whatever the clock reads, two different counters give different identifiers. */
  lemma StampedIdsDiffer(prefix: string, separator: char, ms: int, n: nat, ms': int, n': nat)
    requires !IsDigit(separator) && n != n'
    ensures StampedId(prefix, separator, ms, n) != StampedId(prefix, separator, ms', n')
  {
    if StampedId(prefix, separator, ms, n) == StampedId(prefix, separator, ms', n') {
      LastFieldUnique(prefix + Decimal(ms), Natural(n), prefix + Decimal(ms'), Natural(n'), separator);
      ReadNatural(n);
      ReadNatural(n');
      assert false;
    }
  }
}
