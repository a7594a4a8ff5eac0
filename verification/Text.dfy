/** Splitting, joining and decimal numerals, as the Go standard library does them. */
module Text {

  // ---------- split and join on a one-character separator ----------

  /** strings.Split: never empty; the empty text splits into one empty piece. */
  function Split(s: string, sep: char): (pieces: seq<string>)
    ensures |pieces| > 0
  {
    if s == "" then [""]
    else
      var rest := Split(s[1..], sep);
      if s[0] == sep then [""] + rest else [[s[0]] + rest[0]] + rest[1..]
  }

  /** strings.Join. */
  function Join(pieces: seq<string>, sep: char): string {
    if pieces == [] then ""
    else if |pieces| == 1 then pieces[0]
    else pieces[0] + [sep] + Join(pieces[1..], sep)
  }

  /** How often the character occurs in the text. */
  function Count(s: string, c: char): nat {
    if s == "" then 0 else (if s[0] == c then 1 else 0) + Count(s[1..], c)
  }

  /** How often the character occurs in all the texts. */
  function CountAll(pieces: seq<string>, c: char): nat {
    if pieces == [] then 0 else Count(pieces[0], c) + CountAll(pieces[1..], c)
  }

  predicate Free(s: string, c: char) {
    c !in s
  }

  predicate AllFree(pieces: seq<string>, c: char) {
    forall i :: 0 <= i < |pieces| ==> Free(pieces[i], c)
  }

  lemma {:induction false} SplitPrefix(a: string, b: string, sep: char)
    requires Free(a, sep)
    ensures Split(a + [sep] + b, sep) == [a] + Split(b, sep)
    ensures Split(a, sep) == [a]
  {
    if a == "" {
      assert a + [sep] + b == [sep] + b;
      assert ([sep] + b)[1..] == b;
    } else {
      var whole := a + [sep] + b;
      assert whole[1..] == a[1..] + [sep] + b;
      SplitPrefix(a[1..], b, sep);
      assert a == [a[0]] + a[1..];
    }
  }

  /** Pieces without the separator survive joining and splitting. */
  lemma {:induction false} SplitJoin(pieces: seq<string>, sep: char)
    requires pieces != [] && AllFree(pieces, sep)
    ensures Split(Join(pieces, sep), sep) == pieces
  {
    if |pieces| == 1 {
      SplitPrefix(pieces[0], "", sep);
      assert pieces == [pieces[0]];
    } else {
      SplitPrefix(pieces[0], Join(pieces[1..], sep), sep);
      SplitJoin(pieces[1..], sep);
      assert pieces == [pieces[0]] + pieces[1..];
    }
  }

  /** No piece of a split holds the separator, and joining the pieces gives the text back. */
  lemma {:induction false} JoinSplit(s: string, sep: char)
    ensures Join(Split(s, sep), sep) == s
    ensures AllFree(Split(s, sep), sep)
  {
    if s != "" {
      JoinSplit(s[1..], sep);
      var rest := Split(s[1..], sep);
      if s[0] == sep {
        assert ([""] + rest)[1..] == rest;
      } else {
        var pieces := [[s[0]] + rest[0]] + rest[1..];
        assert pieces[1..] == rest[1..];
        assert |pieces| == 1 ==> Join(pieces, sep) == [s[0]] + rest[0];
        assert |pieces| > 1 ==> Join(pieces, sep) == [s[0]] + Join(rest, sep);
      }
      assert s == [s[0]] + s[1..];
    }
  }

  lemma {:induction false} CountSplit(s: string, sep: char)
    ensures |Split(s, sep)| == 1 + Count(s, sep)
  {
    if s != "" {
      CountSplit(s[1..], sep);
    }
  }

  lemma {:induction false} CountConcat(a: string, b: string, c: char)
    ensures Count(a + b, c) == Count(a, c) + Count(b, c)
  {
    if a == "" {
      assert a + b == b;
    } else {
      assert (a + b)[1..] == a[1..] + b;
      CountConcat(a[1..], b, c);
    }
  }

  lemma {:induction false} CountJoin(pieces: seq<string>, sep: char)
    requires pieces != []
    ensures Count(Join(pieces, sep), sep) == |pieces| - 1 + CountAll(pieces, sep)
  {
    if |pieces| > 1 {
      CountJoin(pieces[1..], sep);
      CountConcat(pieces[0] + [sep], Join(pieces[1..], sep), sep);
      CountConcat(pieces[0], [sep], sep);
      assert Count([sep], sep) == 1;
    }
  }

  lemma {:induction false} CountFree(s: string, c: char)
    ensures Count(s, c) == 0 <==> Free(s, c)
  {
    if s != "" {
      CountFree(s[1..], c);
      assert s == [s[0]] + s[1..];
    }
  }

  lemma {:induction false} CountAllFree(pieces: seq<string>, c: char)
    ensures CountAll(pieces, c) == 0 <==> AllFree(pieces, c)
  {
    if pieces != [] {
      CountFree(pieces[0], c);
      CountAllFree(pieces[1..], c);
      assert AllFree(pieces, c) <==> Free(pieces[0], c) && AllFree(pieces[1..], c) by {
        assert pieces == [pieces[0]] + pieces[1..];
        if Free(pieces[0], c) && AllFree(pieces[1..], c) {
          forall i | 0 <= i < |pieces| ensures Free(pieces[i], c) {
            if i > 0 {
              assert pieces[i] == pieces[1..][i - 1];
            }
          }
        }
      }
    }
  }

  /**
   A joined key decides equality of the pieces as soon as one of the two lists is free of the
   separator and both have the same length; the other list may hold anything.
   */
  lemma {:induction false} JoinedKeyDecides(xs: seq<string>, ys: seq<string>, sep: char)
    requires |xs| == |ys| > 0 && AllFree(xs, sep)
    ensures Join(xs, sep) == Join(ys, sep) <==> xs == ys
  {
    if Join(xs, sep) == Join(ys, sep) {
      CountJoin(xs, sep);
      CountJoin(ys, sep);
      CountAllFree(xs, sep);
      CountAllFree(ys, sep);
      SplitJoin(xs, sep);
      SplitJoin(ys, sep);
    }
  }

  // ---------- decimal numerals ----------

  predicate IsDigit(c: char) { '0' <= c <= '9' }

  predicate IsNumeral(s: string) {
    s != "" && forall i :: 0 <= i < |s| ==> IsDigit(s[i])
  }

  function DigitChar(d: nat): (c: char)
    requires d < 10
    ensures IsDigit(c)
  {
    '0' + d as char
  }

  function DigitValue(c: char): (d: nat)
    requires IsDigit(c)
    ensures d < 10
  {
    (c - '0') as nat
  }

  /** The decimal numeral of a natural number. */
  function Numeral(n: nat): (s: string)
    ensures IsNumeral(s)
  {
    if n < 10 then [DigitChar(n)] else Numeral(n / 10) + [DigitChar(n % 10)]
  }

  /** fmt's %d. */
  function Itoa(n: int): string {
    if n < 0 then "-" + Numeral(-n) else Numeral(n)
  }

  function NumeralValue(s: string): nat
    requires forall i :: 0 <= i < |s| ==> IsDigit(s[i])
  {
    if s == "" then 0 else 10 * NumeralValue(s[..|s| - 1]) + DigitValue(s[|s| - 1])
  }

  lemma {:induction false} ValueOfNumeral(n: nat)
    ensures NumeralValue(Numeral(n)) == n
  {
    if n < 10 {
      assert NumeralValue(Numeral(n)[..0]) == 0;
    } else {
      var s := Numeral(n);
      assert s[..|s| - 1] == Numeral(n / 10);
      ValueOfNumeral(n / 10);
    }
  }

  lemma {:induction false} ItoaSign(n: int)
    ensures Itoa(n) != "" && (Itoa(n)[0] == '-' <==> n < 0)
  {
  }

  lemma {:induction false} ItoaInjective(m: int, n: int)
    requires Itoa(m) == Itoa(n)
    ensures m == n
  {
    ItoaSign(m);
    ItoaSign(n);
    if m < 0 {
      assert Itoa(m)[1..] == Numeral(-m) && Itoa(n)[1..] == Numeral(-n);
      ValueOfNumeral(-m);
      ValueOfNumeral(-n);
    } else {
      ValueOfNumeral(m);
      ValueOfNumeral(n);
    }
  }

  const MAX_INT64: int := 0x7FFF_FFFF_FFFF_FFFF
  const MIN_INT64: int := -0x8000_0000_0000_0000

  /**
   The value strconv.Atoi returns, whether or not it also returns an error: 0 for a text that
   is not an optionally signed numeral, and the nearest int64 when the numeral is out of range.
   */
  function Atoi(s: string): int {
    var signed := s != "" && (s[0] == '-' || s[0] == '+');
    var digits := if signed then s[1..] else s;
    if !IsNumeral(digits) then 0
    else
      var v: int := if signed && s[0] == '-' then -(NumeralValue(digits) as int) else NumeralValue(digits);
      if v > MAX_INT64 then MAX_INT64 else if v < MIN_INT64 then MIN_INT64 else v
  }

  lemma {:induction false} AtoiOfNumeral(n: nat)
    requires n <= MAX_INT64
    ensures Atoi(Numeral(n)) == n
  {
    ValueOfNumeral(n);
  }

  /** A text that none of the given ones is: longer than all of them. */
  function Fresh(taken: seq<string>): (text: string)
    ensures text != "" && forall t :: t in taken ==> |t| < |text|
  {
    if taken == [] then "a"
    else
      var rest := Fresh(taken[1..]);
      if |taken[0]| < |rest| then rest else taken[0] + "a"
  }
}
