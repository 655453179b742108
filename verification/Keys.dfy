/** Keys made of a name, a slash and a decimal process id. */
module Keys {
  import opened Processes
  import opened Seqs

  predicate IsDigit(c: char) {
    '0' <= c <= '9'
  }

  function Digit(d: nat): char
    requires d < 10
  {
    ('0' as int + d) as char
  }

  function DigitValue(c: char): nat
    requires IsDigit(c)
  {
    c as int - '0' as int
  }

  /** The decimal numeral of n, without leading zeros. */
  function Decimal(n: nat): (s: string)
    ensures s != []
  {
    if n < 10 then [Digit(n)] else Decimal(n / 10) + [Digit(n % 10)]
  }

  function Value(s: string): nat
    requires forall c :: c in s ==> IsDigit(c)
  {
    if s == [] then 0 else Value(Front(s)) * 10 + DigitValue(Last(s))
  }

  /** A numeral is all digits, has no leading zero, and reads back as the number it was made from. */
  lemma {:induction false} DecimalReads(n: nat)
    ensures forall c :: c in Decimal(n) ==> IsDigit(c)
    ensures Value(Decimal(n)) == n
    ensures Decimal(n)[0] == '0' <==> n == 0
  {
    if n < 10 {
      assert Front(Decimal(n)) == [];
    } else {
      DecimalReads(n / 10);
      assert Front(Decimal(n)) == Decimal(n / 10);
      assert Decimal(n)[0] == Decimal(n / 10)[0];
    }
  }

  /** Any run of digits without a leading zero is the numeral of its value, so the form is canonical. */
  lemma {:induction false} DecimalCanonical(s: string)
    requires s != [] && (forall c :: c in s ==> IsDigit(c)) && (s[0] == '0' ==> |s| == 1)
    ensures Decimal(Value(s)) == s
  {
    if |s| == 1 {
      assert Front(s) == [] && Value(Front(s)) == 0;
      assert s[0] in s;
      assert Value(s) == DigitValue(s[0]) < 10;
      assert Digit(DigitValue(s[0])) == s[0];
      assert Decimal(Value(s)) == [s[0]];
    } else {
      assert s == Front(s) + [Last(s)];
      assert Front(s)[0] == s[0];
      DecimalCanonical(Front(s));
      PositiveValue(Front(s));
      var v, d := Value(Front(s)), DigitValue(Last(s));
      assert Value(s) == 10 * v + d;
      LastDigit(v, d);
    }
  }

  lemma LastDigit(v: nat, d: nat)
    requires v > 0 && d < 10
    ensures Decimal(10 * v + d) == Decimal(v) + [Digit(d)]
  {
    assert (10 * v + d) / 10 == v && (10 * v + d) % 10 == d;
  }

  lemma {:induction false} PositiveValue(s: string)
    requires s != [] && (forall c :: c in s ==> IsDigit(c)) && s[0] != '0'
    ensures Value(s) > 0
  {
    if |s| == 1 {
      assert Front(s) == [];
    } else {
      assert Front(s)[0] == s[0];
      PositiveValue(Front(s));
    }
  }

  lemma {:induction false} DecimalLength(n: nat, k: nat)
    requires n < Power10(k) && k >= 1
    ensures |Decimal(n)| <= k
  {
    if n >= 10 {
      DecimalLength(n / 10, k - 1);
    }
  }

  function Power10(k: nat): nat {
    if k == 0 then 1 else 10 * Power10(k - 1)
  }

  /** Fills a ten-character buffer from its end; ten are enough for every 32-bit id. */
  method Uint32ToA(n: PID) returns (s: string)
    ensures s == Decimal(n) && |s| <= 10
  {
    if n == 0 {
      assert Decimal(0) == "0";
      return "0";
    }
    assert Power10(0) == 1;
    var buf := new char[10](_ => '0');
    var i, rest := 10, n;
    assert n < Power10(10) by {
      assert Power10(5) == 100_000;
      assert Power10(10) == 10 * (10 * (10 * (10 * (10 * Power10(5)))));
    }
    while rest > 0
      invariant 0 <= i <= 10 && 0 <= rest <= n && rest < Power10(i)
      invariant rest > 0 ==> Decimal(n) == Decimal(rest) + buf[i..]
      invariant rest == 0 ==> Decimal(n) == buf[i..]
    {
      assert i > 0;
      ghost var tail := buf[i..];
      i := i - 1;
      buf[i] := Digit(rest % 10);
      assert buf[i..] == [Digit(rest % 10)] + tail;
      rest := rest / 10;
    }
    s := buf[i..];
  }

  /** name/pid */
  function Key(name: string, pid: nat): string {
    name + "/" + Decimal(pid)
  }

  /** The text after the last slash cannot contain a slash, so the two parts can be told apart. */
  lemma SplitsAtLastSlash(name: string, pid: nat, name': string, pid': nat)
    requires Key(name, pid) == Key(name', pid')
    ensures name == name' && pid == pid'
  {
    var k := Key(name, pid);
    LastSlash(name, pid);
    LastSlash(name', pid');
    assert |name| == |name'|;
    DecimalReads(pid);
    DecimalReads(pid');
    assert name == k[..|name|] && name' == k[..|name'|];
    assert Decimal(pid) == k[|name|+1..] && Decimal(pid') == k[|name'|+1..];
  }

  lemma LastSlash(name: string, pid: nat)
    ensures var k := Key(name, pid);
            |name| < |k| && k[|name|] == '/' && forall i :: |name| < i < |k| ==> k[i] != '/'
  {
    var k, d := Key(name, pid), Decimal(pid);
    DecimalReads(pid);
    forall i | |name| < i < |k| ensures k[i] != '/' {
      assert k[i] == d[i - |name| - 1] && d[i - |name| - 1] in d;
    }
  }

  /** Process 0 stands for "no process": its alerts are keyed by type alone. */
  function AlertKey(typeName: string, pid: nat): string {
    if pid > 0 then Key(typeName, pid) else typeName
  }

  /** Two alerts collide exactly when one has no process and its type spells out the other's key. */
  lemma AlertKeyCollisions(t: string, p: nat, t': string, p': nat)
    ensures AlertKey(t, p) == AlertKey(t', p') <==>
              || (t == t' && p == p')
              || (p == 0 && p' > 0 && t == t' + "/" + Decimal(p'))
              || (p' == 0 && p > 0 && t' == t + "/" + Decimal(p))
  {
    if p > 0 && p' > 0 && AlertKey(t, p) == AlertKey(t', p') {
      SplitsAtLastSlash(t, p, t', p');
    }
  }
}
