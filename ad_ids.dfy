/** Ad identifiers `"ad_" + Date.now() + "_" + Math.floor(Math.random()*1000)`
    (ads.js:34), with a parser that recovers the clock and the random suffix
    from an identifier. */
module AdIds {
  import opened Wrappers

  predicate IsDigit(c: char) {
    '0' <= c <= '9'
  }

  predicate AllDigits(s: string) {
    forall i :: 0 <= i < |s| ==> IsDigit(s[i])
  }

  function DigitChar(d: nat): (c: char)
    requires d < 10
    ensures IsDigit(c) && c as int - '0' as int == d
  {
    ('0' as int + d) as char
  }

  /** The decimal spelling JavaScript gives a non-negative integer when it is
      concatenated to a string (no sign, no leading zeros). */
  function Decimal(n: nat): (s: string)
    ensures |s| >= 1 && AllDigits(s)
    ensures s[0] == '0' <==> n == 0
    decreases n
  {
    if n < 10 then [DigitChar(n)] else Decimal(n / 10) + [DigitChar(n % 10)]
  }

  /** The number that a string of decimal digits spells. */
  function DigitsValue(s: string): nat
    requires AllDigits(s)
    decreases |s|
  {
    if s == [] then 0
    else DigitsValue(s[..|s| - 1]) * 10 + (s[|s| - 1] as int - '0' as int)
  }

  lemma {:induction false} DecimalRoundTrip(n: nat)
    ensures DigitsValue(Decimal(n)) == n
    decreases n
  {
    if n >= 10 {
      var s := Decimal(n / 10) + [DigitChar(n % 10)];
      assert s[..|s| - 1] == Decimal(n / 10);
      DecimalRoundTrip(n / 10);
    }
  }

  /** `Math.floor(random * 1000)` for a `Math.random()` result. */
  function RandomSuffix(random: real): (k: nat)
    requires 0.0 <= random < 1.0
    ensures k < 1000
    ensures k as real <= random * 1000.0 < k as real + 1.0
  {
    (random * 1000.0).Floor
  }

  /** The identifier built from a clock reading and a random suffix: `ad_`,
      then digits, one `_` and digits again. ParseMakeId shows it can be read
      back, and MakeIdInjective that it determines both inputs. */
  function MakeId(now: nat, suffix: nat): (id: string)
    ensures |id| == |Decimal(now)| + |Decimal(suffix)| + 4
    ensures id[..3] == "ad_" && id[3 + |Decimal(now)|] == '_'
    ensures forall i :: 3 <= i < |id| && i != 3 + |Decimal(now)| ==> IsDigit(id[i])
  {
    "ad_" + Decimal(now) + "_" + Decimal(suffix)
  }

  /** Position of the first `c` in `s`, or `|s|` when there is none. */
  function IndexOf(s: string, c: char): (i: nat)
    ensures i <= |s|
    ensures forall j :: 0 <= j < i ==> s[j] != c
    ensures i < |s| ==> s[i] == c
    decreases |s|
  {
    if s == [] then 0 else if s[0] == c then 0 else 1 + IndexOf(s[1..], c)
  }

  /** Splits an identifier back into its clock reading and random suffix;
      `None` for a string that is not of the form MakeId produces. */
  function ParseId(id: string): (r: Option<(nat, nat)>)
  {
    if |id| < 3 || id[..3] != "ad_" then None
    else
      var rest := id[3..];
      var k := IndexOf(rest, '_');
      if k == |rest| then None
      else
        var head, tail := rest[..k], rest[k + 1..];
        if head == [] || tail == [] || !AllDigits(head) || !AllDigits(tail) then None
        else Some((DigitsValue(head), DigitsValue(tail)))
  }

  lemma {:induction false} IndexOfAfterDigits(a: string, b: string)
    requires AllDigits(a)
    ensures IndexOf(a + "_" + b, '_') == |a|
    decreases |a|
  {
    if a != [] {
      assert a[0] != '_';
      assert (a + "_" + b)[1..] == a[1..] + "_" + b;
      IndexOfAfterDigits(a[1..], b);
    }
  }

  /** ParseId inverts MakeId: the identifier determines both inputs. */
  lemma ParseMakeId(now: nat, suffix: nat)
    ensures ParseId(MakeId(now, suffix)) == Some((now, suffix))
  {
    var a, b := Decimal(now), Decimal(suffix);
    var id := MakeId(now, suffix);
    assert id[..3] == "ad_";
    assert id[3..] == a + "_" + b;
    IndexOfAfterDigits(a, b);
    assert (a + "_" + b)[..|a|] == a;
    assert (a + "_" + b)[|a| + 1..] == b;
    DecimalRoundTrip(now);
    DecimalRoundTrip(suffix);
  }

  /** Two identifiers coincide exactly when both the clock reading and the
      random suffix do: a repeated suffix within one millisecond collides. */
  lemma MakeIdInjective(now1: nat, suffix1: nat, now2: nat, suffix2: nat)
    ensures MakeId(now1, suffix1) == MakeId(now2, suffix2) <==> now1 == now2 && suffix1 == suffix2
  {
    ParseMakeId(now1, suffix1);
    ParseMakeId(now2, suffix2);
  }
}
