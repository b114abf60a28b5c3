/** String operations the storefront uses: ASCII digits and case, `includes`,
    `startsWith`, `split(" ")`, and the decimal text of a number. */
module Text {

  predicate IsDigit(c: char)
  {
    '0' <= c <= '9'
  }

  predicate AllDigits(s: string)
  {
    forall i :: 0 <= i < |s| ==> IsDigit(s[i])
  }

  /** `toLowerCase` on one character (ASCII letters only). */
  function Lower(c: char): char
  {
    if 'A' <= c <= 'Z' then (c as int + 32) as char else c
  }

  /** `s.toLowerCase()`. */
  function LowerString(s: string): (r: string)
    ensures |r| == |s|
    ensures forall i :: 0 <= i < |s| ==> r[i] == Lower(s[i])
  {
    seq(|s|, i requires 0 <= i < |s| => Lower(s[i]))
  }

  /** `s.startsWith(p)`. */
  predicate StartsWith(s: string, p: string)
  {
    |p| <= |s| && s[..|p|] == p
  }

  /** `t` occurs in `s` at position `i`. */
  ghost predicate OccursAt(t: string, s: string, i: int)
  {
    0 <= i && i + |t| <= |s| && s[i..i + |t|] == t
  }

  /** `s.includes(t)`: scans the positions of `s` from the left. */
  function Contains(s: string, t: string): bool
    decreases |s|
  {
    if |s| < |t| then false
    else if s[..|t|] == t then true
    else Contains(s[1..], t)
  }

  /** `Contains` holds exactly when `t` occurs somewhere in `s`. */
  lemma {:induction false} ContainsIffOccurs(s: string, t: string)
    ensures Contains(s, t) <==> exists i :: OccursAt(t, s, i)
    decreases |s|
  {
    if |s| < |t| {
    } else if s[..|t|] == t {
      assert OccursAt(t, s, 0);
    } else {
      ContainsIffOccurs(s[1..], t);
      if exists i :: OccursAt(t, s, i) {
        var i :| OccursAt(t, s, i);
        assert i != 0;
        assert s[1..][i - 1..i - 1 + |t|] == s[i..i + |t|];
        assert OccursAt(t, s[1..], i - 1);
      }
      if exists i :: OccursAt(t, s[1..], i) {
        var i :| OccursAt(t, s[1..], i);
        assert s[1..][i..i + |t|] == s[i + 1..i + 1 + |t|];
        assert OccursAt(t, s, i + 1);
      }
    }
  }

  /** Every string includes the empty string. */
  lemma ContainsEmpty(s: string)
    ensures Contains(s, "")
  {
  }

  // ---------------------------------------------------------------------------
  // split(" ") and join(" ")
  // ---------------------------------------------------------------------------

  /** `s.split(sep)` for a one-character separator: the pieces between separators,
      including empty pieces at the ends and between adjacent separators. */
  function Split(s: string, sep: char): (r: seq<string>)
    ensures |r| >= 1
  {
    if |s| == 0 then [""]
    else
      var rest := Split(s[1..], sep);
      if s[0] == sep then [""] + rest
      else [[s[0]] + rest[0]] + rest[1..]
  }

  /** `pieces.join(sep)`. */
  function Join(pieces: seq<string>, sep: char): string
  {
    if |pieces| == 0 then ""
    else if |pieces| == 1 then pieces[0]
    else pieces[0] + [sep] + Join(pieces[1..], sep)
  }

  /** No piece produced by `Split` contains the separator. */
  lemma {:induction false} SplitPiecesHaveNoSeparator(s: string, sep: char)
    ensures forall k :: 0 <= k < |Split(s, sep)| ==> sep !in Split(s, sep)[k]
  {
    if |s| > 0 {
      SplitPiecesHaveNoSeparator(s[1..], sep);
    }
  }

  /** Joining the pieces with the separator gives back the original string. */
  lemma {:induction false} JoinSplit(s: string, sep: char)
    ensures Join(Split(s, sep), sep) == s
  {
    if |s| > 0 {
      var rest := Split(s[1..], sep);
      JoinSplit(s[1..], sep);
      if s[0] == sep {
        assert ([""] + rest)[1..] == rest;
        assert s == [s[0]] + s[1..];
      } else {
        var r := [[s[0]] + rest[0]] + rest[1..];
        if |rest| == 1 {
          assert s == [s[0]] + s[1..];
        } else {
          assert r[1..] == rest[1..];
          assert Join(rest, sep) == rest[0] + [sep] + Join(rest[1..], sep);
          assert s == [s[0]] + s[1..];
        }
      }
    }
  }

  // ---------------------------------------------------------------------------
  // decimal text of numbers
  // ---------------------------------------------------------------------------

  function DigitChar(d: nat): (c: char)
    requires d < 10
    ensures IsDigit(c)
  {
    ('0' as int + d) as char
  }

  function DigitValue(c: char): nat
    requires IsDigit(c)
  {
    c as int - '0' as int
  }

  /** The decimal text of a natural number, without leading zeros. */
  function NatText(n: nat): (r: string)
    ensures |r| >= 1
    ensures AllDigits(r)
    ensures r[0] == '0' ==> n == 0
  {
    if n < 10 then [DigitChar(n)]
    else NatText(n / 10) + [DigitChar(n % 10)]
  }

  /** The number a string of decimal digits denotes. */
  function ParseNat(s: string): nat
    requires AllDigits(s)
  {
    if |s| == 0 then 0
    else ParseNat(s[..|s| - 1]) * 10 + DigitValue(s[|s| - 1])
  }

  /** Reading back the decimal text of `n` gives `n`. */
  lemma {:induction false} ParseNatText(n: nat)
    ensures ParseNat(NatText(n)) == n
  {
    if n >= 10 {
      ParseNatText(n / 10);
      var t := NatText(n);
      assert t[..|t| - 1] == NatText(n / 10);
    }
  }

  /** `(cents / 100).toString()`: JavaScript's shortest decimal text of a price held
      in whole cents, with trailing zeros of the fraction dropped. */
  function PriceText(cents: nat): (r: string)
    ensures cents % 100 == 0 ==> r == NatText(cents / 100)
    ensures cents % 100 != 0 ==> StartsWith(r, NatText(cents / 100) + ".")
    ensures forall i :: 0 <= i < |r| ==> IsDigit(r[i]) || r[i] == '.'
    ensures forall i, j :: 0 <= i < j < |r| && r[i] == '.' ==> r[j] != '.'
    ensures cents % 100 != 0 ==> |r| == |NatText(cents / 100)| + if cents % 10 == 0 then 2 else 3
  {
    var whole, frac := cents / 100, cents % 100;
    if frac == 0 then NatText(whole) else NatText(whole) + "." + FractionText(frac)
  }

  /** The digits after the point for a nonzero number of cents: a trailing zero is dropped. */
  function FractionText(frac: nat): (r: string)
    requires 0 < frac < 100
    ensures |r| == if frac % 10 == 0 then 1 else 2
    ensures AllDigits(r)
  {
    if frac % 10 == 0 then [DigitChar(frac / 10)] else [DigitChar(frac / 10), DigitChar(frac % 10)]
  }

  /** Different cents give different fraction digits. */
  lemma FractionTextInjective(f: nat, g: nat)
    requires 0 < f < 100 && 0 < g < 100
    requires FractionText(f) == FractionText(g)
    ensures f == g
  {
    assert FractionText(f)[0] == DigitChar(f / 10) && FractionText(g)[0] == DigitChar(g / 10);
    if f % 10 != 0 {
      assert FractionText(f)[1] == DigitChar(f % 10) && FractionText(g)[1] == DigitChar(g % 10);
    }
  }

  /** Different numbers have different decimal texts. */
  lemma NatTextInjective(m: nat, n: nat)
    requires NatText(m) == NatText(n)
    ensures m == n
  {
    ParseNatText(m);
    ParseNatText(n);
  }

  /** A price text carries a decimal point exactly when the price has cents. */
  lemma PriceTextHasPoint(cents: nat)
    ensures '.' in PriceText(cents) <==> cents % 100 != 0
  {
    var t := NatText(cents / 100);
    if cents % 100 == 0 {
      assert forall i :: 0 <= i < |t| ==> IsDigit(t[i]);
    } else {
      assert PriceText(cents)[|t|] == '.';
    }
  }

  /** A priced text names one price: different prices have different texts, so a price is
      found by a query exactly when its own text contains it. */
  lemma PriceTextInjective(a: nat, b: nat)
    requires PriceText(a) == PriceText(b)
    ensures a == b
  {
    if a % 100 == 0 && b % 100 == 0 {
      NatTextInjective(a / 100, b / 100);
    } else if a % 100 == 0 || b % 100 == 0 {
      PriceTextHasPoint(a);
      PriceTextHasPoint(b);
      assert false;
    } else {
      FractionTextsInjective(a, b);
    }
  }

  /** Two prices with cents and the same text: the one decimal point sits right after the
      whole part, so the whole parts and then the fraction digits agree. */
  lemma FractionTextsInjective(a: nat, b: nat)
    requires a % 100 != 0 && b % 100 != 0
    requires PriceText(a) == PriceText(b)
    ensures a == b
  {
    var r := PriceText(a);
    var ta, tb := NatText(a / 100), NatText(b / 100);
    assert r == ta + "." + FractionText(a % 100);
    assert r == tb + "." + FractionText(b % 100);
    assert r[|ta|] == '.' && r[|tb|] == '.';
    assert |ta| == |tb|;
    assert ta == r[..|ta|] == tb;
    NatTextInjective(a / 100, b / 100);
    assert FractionText(a % 100) == r[|ta| + 1..] == FractionText(b % 100);
    FractionTextInjective(a % 100, b % 100);
  }

  /** The texts the search compares: trailing zeros of the fraction are dropped, as
      JavaScript's number-to-string conversion drops them. */
  lemma PriceTextExamples()
    ensures PriceText(1200) == "12"
    ensures PriceText(1250) == "12.5"
    ensures PriceText(1205) == "12.05"
    ensures PriceText(999) == "9.99"
  {
    assert NatText(12) == "12";
  }
}
