/** The string builtins the core relies on: `str.lower()` restricted to ASCII,
    the substring test `k in s`, and `str(n)` for integers. */
module Text {

  /** ASCII lowercasing of one character; every other character is unchanged. */
  function LowerChar(c: char): char {
    if 'A' <= c <= 'Z' then (c as int + 32) as char else c
  }

  /** `s.lower()`, for the ASCII letters. */
  function Lower(s: string): (r: string)
    ensures |r| == |s|
    ensures forall i :: 0 <= i < |s| ==> r[i] == LowerChar(s[i])
  {
    seq(|s|, i requires 0 <= i < |s| => LowerChar(s[i]))
  }

  /** `k` occurs in `s` starting at position `i`. */
  predicate OccursAt(s: string, k: string, i: int) {
    0 <= i && i + |k| <= |s| && s[i..i + |k|] == k
  }

  /** Python's `k in s` for two strings. */
  function Contains(s: string, k: string): (r: bool)
    ensures r ==> |k| <= |s|
    ensures k == [] ==> r
  {
    assert k == [] ==> OccursAt(s, k, 0);
    exists i | 0 <= i <= |s| :: OccursAt(s, k, i)
  }

  lemma LowerCharIdempotent(c: char)
    ensures LowerChar(LowerChar(c)) == LowerChar(c)
  {
  }

  /** Lowering twice is lowering once. */
  lemma LowerIdempotent(s: string)
    ensures Lower(Lower(s)) == Lower(s)
  {
    forall i | 0 <= i < |s| ensures Lower(Lower(s))[i] == Lower(s)[i] {
      LowerCharIdempotent(s[i]);
    }
  }

  /** Lowering works character by character, so it distributes over concatenation. */
  lemma LowerConcat(a: string, b: string)
    ensures Lower(a + b) == Lower(a) + Lower(b)
  {
    assert |Lower(a + b)| == |Lower(a) + Lower(b)|;
    forall i | 0 <= i < |a + b| ensures Lower(a + b)[i] == (Lower(a) + Lower(b))[i] {
      if i < |a| {
        assert (a + b)[i] == a[i];
      } else {
        assert (a + b)[i] == b[i - |a|];
      }
    }
  }

  /** An occurrence inside `b` is an occurrence inside `a + b + c`. */
  lemma ContainsInside(a: string, b: string, c: string, k: string)
    requires Contains(b, k)
    ensures Contains(a + b + c, k)
  {
    var i :| 0 <= i <= |b| && OccursAt(b, k, i);
    var s := a + b + c;
    assert s[|a| + i..|a| + i + |k|] == b[i..i + |k|];
    assert OccursAt(s, k, |a| + i);
  }

  /** The characters of an occurrence are those of `k`, in order. */
  lemma OccurrenceChars(s: string, k: string, i: int, j: int)
    requires OccursAt(s, k, i) && 0 <= j < |k|
    ensures s[i + j] == k[j]
  {
    assert s[i..i + |k|][j] == s[i + j];
  }

  /** An occurrence of `k` in `a + [x] + b` cannot cover the `x` when `k` has no `x`. */
  lemma OccurrenceAvoids(a: string, x: char, b: string, k: string, i: int)
    requires x !in k
    requires OccursAt(a + [x] + b, k, i)
    ensures i + |k| <= |a| || |a| < i
  {
    if i <= |a| < i + |k| {
      OccurrenceChars(a + [x] + b, k, i, |a| - i);
    }
  }

  /** A character that does not occur in `k` splits any search for `k` in two. */
  lemma SplitAt(a: string, x: char, b: string, k: string)
    requires x !in k
    ensures Contains(a + [x] + b, k) <==> Contains(a, k) || Contains(b, k)
  {
    var s := a + [x] + b;
    if Contains(s, k) {
      var i :| 0 <= i <= |s| && OccursAt(s, k, i);
      OccurrenceAvoids(a, x, b, k, i);
      if i + |k| <= |a| {
        assert s[i..i + |k|] == a[i..i + |k|];
        assert OccursAt(a, k, i);
      } else {
        assert s[i..i + |k|] == b[i - |a| - 1..i - |a| - 1 + |k|];
        assert OccursAt(b, k, i - |a| - 1);
      }
    }
    if Contains(a, k) {
      ContainsInside([], a, [x] + b, k);
      assert [] + a + ([x] + b) == s;
    }
    if Contains(b, k) {
      ContainsInside(a + [x], b, [], k);
      assert a + [x] + b + [] == s;
    }
  }

  /** A string without some character of `k` does not contain `k`. */
  lemma AbsentByChar(s: string, k: string, j: int)
    requires 0 <= j < |k|
    requires forall i :: 0 <= i < |s| ==> s[i] != k[j]
    ensures !Contains(s, k)
  {
    forall i | 0 <= i <= |s| && OccursAt(s, k, i) ensures false {
      OccurrenceChars(s, k, i, j);
    }
  }

  /** The upper-case form of a lower-case ASCII letter. */
  function UpperChar(c: char): char
    requires 'a' <= c <= 'z'
  {
    (c as int - 32) as char
  }

  /** Only `c` and its upper-case form lower to the lower-case letter `c`. */
  lemma LowerCharTo(d: char, c: char)
    requires 'a' <= c <= 'z'
    requires d != c && d != UpperChar(c)
    ensures LowerChar(d) != c
  {
  }

  /** No character of `cs` occurs in `s`. */
  predicate Avoids(s: string, cs: string) {
    forall i | 0 <= i < |s| :: s[i] !in cs
  }

  lemma AvoidsConcat(a: string, b: string, cs: string)
    requires Avoids(a, cs) && Avoids(b, cs)
    ensures Avoids(a + b, cs)
  {
    forall i | 0 <= i < |a + b| ensures (a + b)[i] !in cs {
      if i < |a| {
        assert (a + b)[i] == a[i];
      } else {
        assert (a + b)[i] == b[i - |a|];
      }
    }
  }

  /** A string that avoids the `j`-th letter of `k` in both cases does not contain `k` once lowered. */
  lemma AbsentLetter(s: string, k: string, j: int, cs: string)
    requires 0 <= j < |k| && 'a' <= k[j] <= 'z'
    requires k[j] in cs && UpperChar(k[j]) in cs && Avoids(s, cs)
    ensures !Contains(Lower(s), k)
  {
    forall i | 0 <= i < |s| ensures Lower(s)[i] != k[j] {
      LowerCharTo(s[i], k[j]);
    }
    AbsentByChar(Lower(s), k, j);
  }

  /** An occurrence given character by character. */
  lemma PresentAt(s: string, k: string, i: int)
    requires 0 <= i && i + |k| <= |s|
    requires forall m :: 0 <= m < |k| ==> s[i + m] == k[m]
    ensures Contains(s, k)
  {
    assert s[i..i + |k|] == k;
    assert OccursAt(s, k, i);
  }

  /** Lowering a string that starts with `c`. */
  lemma LowerCons(c: char, b: string)
    ensures Lower([c] + b) == [LowerChar(c)] + Lower(b)
  {
    LowerConcat([c], b);
  }

  /** A character that lowers to something outside `k` separates the search for `k`
      in a lowered concatenation. */
  lemma Barrier(a: string, s: string, k: string)
    requires |k| > 0
    requires s == [] || LowerChar(s[0]) !in k
    ensures Contains(Lower(a + s), k) <==> Contains(Lower(a), k) || Contains(Lower(s), k)
  {
    if s == [] {
      assert a + s == a;
      assert !Contains(Lower(s), k);
    } else {
      BarrierCons(a, s[0], s[1..], k);
      assert [s[0]] + s[1..] == s;
    }
  }

  lemma BarrierCons(a: string, c: char, b: string, k: string)
    requires |k| > 0 && LowerChar(c) !in k
    ensures Contains(Lower(a + ([c] + b)), k) <==> Contains(Lower(a), k) || Contains(Lower([c] + b), k)
  {
    var x := LowerChar(c);
    LowerCons(c, b);
    LowerConcat(a, [c] + b);
    assert Lower(a) + ([x] + Lower(b)) == Lower(a) + [x] + Lower(b);
    SplitAt(Lower(a), x, Lower(b), k);
    SplitAt([], x, Lower(b), k);
    assert [] + [x] + Lower(b) == [x] + Lower(b);
    assert !OccursAt([], k, 0);
  }

  /** A prefix without the first letter of `k`, in either case, can be dropped from
      the search for `k` in a lowered string. */
  lemma DropPrefix(p: string, b: string, k: string, cs: string)
    requires |k| > 0 && 'a' <= k[0] <= 'z'
    requires k[0] in cs && UpperChar(k[0]) in cs && Avoids(p, cs)
    ensures Contains(Lower(p + b), k) <==> Contains(Lower(b), k)
  {
    LowerConcat(p, b);
    var s := Lower(p) + Lower(b);
    if Contains(s, k) {
      var i :| 0 <= i <= |s| && OccursAt(s, k, i);
      OccurrenceChars(s, k, i, 0);
      if i < |p| {
        LowerCharTo(p[i], k[0]);
        assert false;
      }
      assert s[i..i + |k|] == Lower(b)[i - |p|..i - |p| + |k|];
      assert OccursAt(Lower(b), k, i - |p|);
    }
    if Contains(Lower(b), k) {
      ContainsInside(Lower(p), Lower(b), [], k);
      assert Lower(p) + Lower(b) + [] == s;
    }
  }

  /** A space splits the search for a keyword without spaces. */
  lemma SpaceSplit(a: string, b: string, k: string)
    requires |k| > 0 && ' ' !in k
    ensures Contains(Lower(a + " " + b), k) <==> Contains(Lower(a), k) || Contains(Lower(b), k)
  {
    LowerConcat(a + " ", b);
    LowerConcat(a, " ");
    assert Lower(" ") == [' '];
    SplitAt(Lower(a), ' ', Lower(b), k);
  }

  // ---- str(n) for an int ----

  function DigitChar(d: int): char
    requires 0 <= d < 10
  {
    ('0' as int + d) as char
  }

  /** `str(n)` for a natural number: decimal digits only. */
  function NatToString(n: nat): (s: string)
    ensures |s| > 0
    ensures forall i | 0 <= i < |s| :: '0' <= s[i] <= '9'
    decreases n
  {
    if n < 10 then [DigitChar(n)] else NatToString(n / 10) + [DigitChar(n % 10)]
  }

  /** `str(n)`: the decimal digits of `n`, after a minus sign when `n` is negative. */
  function IntToString(n: int): (s: string)
    ensures |s| > 0
    ensures s[0] == '-' <==> n < 0
    ensures forall i | (if n < 0 then 1 else 0) <= i < |s| :: '0' <= s[i] <= '9'
  {
    if n < 0 then "-" + NatToString(-n) else NatToString(n)
  }

  function DigitValue(c: char): int {
    if '0' <= c <= '9' then c as int - '0' as int else 0
  }

  /** The number a string of decimal digits denotes. */
  function DigitsValue(s: string): int
    decreases |s|
  {
    if s == [] then 0 else DigitsValue(s[..|s| - 1]) * 10 + DigitValue(s[|s| - 1])
  }

  /** `int(s)` for the strings `str` produces. */
  function ParseInt(s: string): int {
    if |s| > 0 && s[0] == '-' then -DigitsValue(s[1..]) else DigitsValue(s)
  }

  /** The digits of `n` read back as `n`, and only 0 itself starts with a zero. */
  lemma {:induction false} NatToStringDigits(n: nat)
    ensures DigitsValue(NatToString(n)) == n
    ensures NatToString(n)[0] == '0' <==> n == 0
    ensures NatToString(n)[0] == '0' ==> |NatToString(n)| == 1
    decreases n
  {
    if n >= 10 {
      NatToStringDigits(n / 10);
      var s := NatToString(n);
      assert s[..|s| - 1] == NatToString(n / 10);
    }
  }

  /** `str(n)` is the canonical decimal text of `n`: a minus sign exactly when `n` is
      negative, then digits only, with no leading zero unless `n` is 0; it reads back as `n`. */
  lemma IntToStringRoundTrip(n: int)
    ensures forall i | 0 <= i < |IntToString(n)| :: IntToString(n)[i] == '-' || '0' <= IntToString(n)[i] <= '9'
    ensures var d := if n < 0 then IntToString(n)[1..] else IntToString(n);
      |d| > 0 && (d[0] == '0' <==> n == 0) && (d[0] == '0' ==> |d| == 1)
      && (forall i | 0 <= i < |d| :: '0' <= d[i] <= '9')
    ensures n == 0 ==> IntToString(n) == "0"
    ensures ParseInt(IntToString(n)) == n
  {
    var m: nat := if n < 0 then -n else n;
    NatToStringDigits(m);
    var d := NatToString(m);
    if n < 0 {
      assert IntToString(n) == "-" + d;
      assert IntToString(n)[1..] == d;
    } else {
      assert d[0] != '-';
    }
  }
}
