/** String helpers used by the query renderer, the quota header parser and
    the timestamp stand-in: decimal rendering and parsing, joining, and
    duplicate removal. */
module Text {
  import opened Base

  predicate IsDigit(c: char)
  {
    '0' <= c <= '9'
  }

  predicate AllDigits(s: string)
  {
    forall i :: 0 <= i < |s| ==> IsDigit(s[i])
  }

  function DigitChar(d: nat): (c: char)
    requires d < 10
    ensures IsDigit(c) && c as int - '0' as int == d
  {
    ('0' as int + d) as char
  }

  /** Decimal rendering of a natural number, as Python's `str(n)`. */
  function NatToString(n: nat): (s: string)
    ensures |s| > 0 && AllDigits(s)
    decreases n
  {
    if n < 10 then [DigitChar(n)] else NatToString(n / 10) + [DigitChar(n % 10)]
  }

  /** The value of a string of decimal digits, as Python's `int(s)`. */
  function DigitsValue(s: string): nat
    requires AllDigits(s)
  {
    if s == [] then 0 else DigitsValue(s[..|s| - 1]) * 10 + (s[|s| - 1] as int - '0' as int)
  }

  lemma {:induction false} DigitsValueOfNatToString(n: nat)
    ensures DigitsValue(NatToString(n)) == n
    decreases n
  {
    if n >= 10 {
      var s := NatToString(n);
      assert s[..|s| - 1] == NatToString(n / 10);
      DigitsValueOfNatToString(n / 10);
    }
  }

  function Pow10(k: nat): (r: nat)
    ensures r >= 1
  {
    if k == 0 then 1 else 10 * Pow10(k - 1)
  }

  /** A number below `10^k` has at most `k` digits. */
  lemma {:induction false} NatToStringShort(n: nat, k: nat)
    requires 1 <= k && n < Pow10(k)
    ensures |NatToString(n)| <= k
    decreases k
  {
    if n >= 10 {
      assert Pow10(1) == 10;
      NatToStringShort(n / 10, k - 1);
    }
  }

  /** `s` left-padded with '0' to at least `width` characters. */
  function PadZeros(s: string, width: nat): (r: string)
    ensures |r| == if |s| < width then width else |s|
    ensures r[|r| - |s|..] == s
  {
    if |s| < width then seq(width - |s|, _ => '0') + s else s
  }

  /** Decimal rendering of an integer, with a leading '-' when negative. */
  function IntToString(i: int): string
  {
    if i < 0 then "-" + NatToString(-i) else NatToString(i)
  }

  function ParseInt(s: string): Option<int>
  {
    if |s| > 1 && s[0] == '-' && AllDigits(s[1..]) then Some(-(DigitsValue(s[1..]) as int))
    else if |s| > 0 && AllDigits(s) then Some(DigitsValue(s))
    else None
  }

  lemma ParseIntToString(i: int)
    ensures ParseInt(IntToString(i)) == Some(i)
  {
    if i < 0 {
      var s := IntToString(i);
      assert s[1..] == NatToString(-i);
      DigitsValueOfNatToString(-i);
    } else {
      DigitsValueOfNatToString(i);
    }
  }

  /** Python's `sep.join(xs)`. */
  function Join(xs: seq<string>, sep: string): string
  {
    if xs == [] then "" else if |xs| == 1 then xs[0] else xs[0] + sep + Join(xs[1..], sep)
  }

  /** Total number of characters in a list of strings. */
  function SumLen(xs: seq<string>): nat
  {
    if xs == [] then 0 else |xs[0]| + SumLen(xs[1..])
  }

  lemma {:induction false} JoinLength(xs: seq<string>, sep: string)
    ensures |Join(xs, sep)| == SumLen(xs) + (if xs == [] then 0 else (|xs| - 1) * |sep|)
  {
    if |xs| > 1 {
      JoinLength(xs[1..], sep);
    }
  }

  lemma {:induction false} SumLenConcat(a: seq<string>, b: seq<string>)
    ensures SumLen(a + b) == SumLen(a) + SumLen(b)
  {
    if a != [] {
      assert (a + b)[0] == a[0];
      assert (a + b)[1..] == a[1..] + b;
      SumLenConcat(a[1..], b);
    } else {
      assert a + b == b;
    }
  }

  predicate Distinct<T(==)>(xs: seq<T>)
  {
    forall i, j :: 0 <= i < j < |xs| ==> xs[i] != xs[j]
  }

  function Elems<T>(xs: seq<T>): set<T>
  {
    set i | 0 <= i < |xs| :: xs[i]
  }

  /** The elements of `xs` without repetition, in first-occurrence order. */
  function Dedup<T(==)>(xs: seq<T>): (r: seq<T>)
    ensures Distinct(r)
    ensures Elems(r) == Elems(xs)
  {
    if xs == [] then []
    else
      var r := Dedup(xs[..|xs| - 1]);
      assert xs == xs[..|xs| - 1] + [xs[|xs| - 1]];
      assert Elems(xs) == Elems(xs[..|xs| - 1]) + {xs[|xs| - 1]};
      if xs[|xs| - 1] in r then r
      else
        assert Elems(r + [xs[|xs| - 1]]) == Elems(r) + {xs[|xs| - 1]} by {
          var r' := r + [xs[|xs| - 1]];
          forall y | y in Elems(r) ensures y in Elems(r') {
            var i :| 0 <= i < |r| && r[i] == y;
            assert r'[i] == y;
          }
          assert r'[|r|] == xs[|xs| - 1];
        }
        r + [xs[|xs| - 1]]
  }

  lemma ElemsSnoc<T>(xs: seq<T>, x: T)
    ensures Elems(xs + [x]) == Elems(xs) + {x}
  {
    var ys := xs + [x];
    assert forall i :: 0 <= i < |xs| ==> ys[i] == xs[i];
    assert ys[|xs|] == x;
  }

  /** Appending an element keeps it only when it is new. */
  lemma DedupSnoc<T>(xs: seq<T>, x: T)
    ensures Dedup(xs + [x]) == if x in Elems(xs) then Dedup(xs) else Dedup(xs) + [x]
  {
    var ys := xs + [x];
    assert ys[..|ys| - 1] == xs;
    assert x in Dedup(xs) <==> x in Elems(Dedup(xs));
  }

  /** Removing repetitions from a list without any changes nothing. */
  lemma {:induction false} DedupOfDistinct<T>(xs: seq<T>)
    requires Distinct(xs)
    ensures Dedup(xs) == xs
  {
    if xs != [] {
      var init := xs[..|xs| - 1];
      assert Distinct(init);
      DedupOfDistinct(init);
      assert xs[|xs| - 1] !in init;
      assert xs == init + [xs[|xs| - 1]];
    }
  }

  lemma ElemsEmpty<T>(xs: seq<T>)
    ensures Elems(xs) == {} ==> xs == []
  {
    if xs != [] {
      assert xs[0] in Elems(xs);
    }
  }

  /** Removing one element of a list of strings removes its length from the total. */
  lemma SumLenRemove(xs: seq<string>, k: nat)
    requires k < |xs|
    ensures SumLen(xs) == |xs[k]| + SumLen(xs[..k] + xs[k + 1..])
  {
    assert xs == xs[..k] + [xs[k]] + xs[k + 1..];
    SumLenConcat(xs[..k] + [xs[k]], xs[k + 1..]);
    SumLenConcat(xs[..k], [xs[k]]);
    SumLenConcat(xs[..k], xs[k + 1..]);
  }

  /** Two duplicate-free enumerations of the same set of strings have the
      same total length: the length of a rendered list does not depend on
      the order a set is enumerated in. */
  lemma {:induction false} SumLenOfEnumerations(a: seq<string>, b: seq<string>)
    requires Distinct(a) && Distinct(b) && Elems(a) == Elems(b)
    ensures SumLen(a) == SumLen(b)
    ensures |a| == |b|
    decreases |a|
  {
    if a == [] {
      ElemsEmpty(b);
    } else {
      var x := a[0];
      assert x in Elems(b);
      var k :| 0 <= k < |b| && b[k] == x;
      RemoveAt(a, 0);
      RemoveAt(b, k);
      assert a[..0] + a[1..] == a[1..];
      SumLenOfEnumerations(a[1..], b[..k] + b[k + 1..]);
      SumLenRemove(b, k);
    }
  }

  /** Removing position `k` of a duplicate-free list removes exactly its element. */
  lemma RemoveAt<T>(xs: seq<T>, k: nat)
    requires Distinct(xs) && k < |xs|
    ensures Distinct(xs[..k] + xs[k + 1..])
    ensures Elems(xs[..k] + xs[k + 1..]) == Elems(xs) - {xs[k]}
  {
    var r := xs[..k] + xs[k + 1..];
    forall y | y in Elems(xs) - {xs[k]} ensures y in Elems(r) {
      var i :| 0 <= i < |xs| && xs[i] == y;
      if i < k { assert r[i] == y; } else { assert r[i - 1] == y; }
    }
    forall y | y in Elems(r) ensures y in Elems(xs) - {xs[k]} {
      var i :| 0 <= i < |r| && r[i] == y;
      if i < k { assert xs[i] == y; } else { assert xs[i + 1] == y; }
    }
    forall i, j | 0 <= i < j < |r| ensures r[i] != r[j] {
      var i' := if i < k then i else i + 1;
      var j' := if j < k then j else j + 1;
      assert r[i] == xs[i'] && r[j] == xs[j'];
    }
  }

  /** A list is its part before `k`, its element at `k`, and the rest. */
  lemma SplitAround<T>(s: seq<T>, k: nat)
    requires k < |s|
    ensures s == s[..k] + [s[k]] + s[k + 1..]
  {
  }

  predicate ContainsAt(s: string, t: string, i: int)
  {
    0 <= i && i + |t| <= |s| && s[i..i + |t|] == t
  }

  /** `t in s` for Python strings. */
  predicate Contains(s: string, t: string)
  {
    exists i | 0 <= i <= |s| :: ContainsAt(s, t, i)
  }

  lemma ContainsMiddle(a: string, t: string, b: string)
    ensures Contains(a + t + b, t)
  {
    assert (a + t + b)[|a|..|a| + |t|] == t;
    assert ContainsAt(a + t + b, t, |a|);
  }
}
