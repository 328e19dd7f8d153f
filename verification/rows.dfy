/** Row-letter coordinates: a row is named by a bijective base-26 numeral
    (A..Z, then AA..ZZ, then AAA..ZZZ, ...), read case-insensitively, and
    stands for the 0-based row one less than the numeral's value. */
module RowLetters {
  import opened Wrappers
  import opened Failures

  /** The letters the decoder accepts (ASCII only). */
  predicate IsLetter(c: char) {
    'a' <= c <= 'z' || 'A' <= c <= 'Z'
  }

  predicate AllLetters(s: string) {
    forall i :: 0 <= i < |s| ==> IsLetter(s[i])
  }

  function ToLower(c: char): char {
    if 'A' <= c <= 'Z' then (c as int + 32) as char else c
  }

  function ToUpper(c: char): char {
    if 'a' <= c <= 'z' then (c as int - 32) as char else c
  }

  function Lower(s: string): (r: string)
    ensures |r| == |s| && forall i :: 0 <= i < |s| ==> r[i] == ToLower(s[i])
  {
    seq(|s|, i requires 0 <= i < |s| => ToLower(s[i]))
  }

  function Upper(s: string): (r: string)
    ensures |r| == |s| && forall i :: 0 <= i < |s| ==> r[i] == ToUpper(s[i])
  {
    seq(|s|, i requires 0 <= i < |s| => ToUpper(s[i]))
  }

  /** The digit a letter stands for: 1 for 'a' or 'A' up to 26 for 'z' or 'Z'. */
  function Digit(c: char): (d: int)
    requires IsLetter(c)
    ensures 1 <= d <= 26
  {
    ToLower(c) as int - 'a' as int + 1
  }

  /** The loop of the decoder: left to right, the running number is
      multiplied by 26 and the next letter's digit added; the first
      non-letter aborts with an invalid-row error. */
  function Accumulate(s: string, acc: int): (r: Result<int, Error>)
    decreases |s|
    ensures r.Failure? <==> !AllLetters(s)
    ensures r.Failure? ==> r.error == InvalidRow
  {
    if |s| == 0 then Success(acc)
    else if !IsLetter(s[0]) then Failure(InvalidRow)
    else Accumulate(s[1..], 26 * acc + Digit(s[0]))
  }

  /** Reference meaning of a letter string: the bijective base-26 numeral
      whose last letter is the units digit. */
  function Value(s: string): nat
    requires AllLetters(s)
    decreases |s|
  {
    if |s| == 0 then 0 else 26 * Value(s[..|s| - 1]) + Digit(s[|s| - 1])
  }

  /** `getRowNum`: the 0-based row a token names. Any non-letter is an
      invalid row; the empty token decodes to -1 rather than failing. */
  function DecodeRow(s: string): (r: Result<int, Error>)
    ensures r.Failure? <==> !AllLetters(s)
    ensures r.Failure? ==> r == Failure(InvalidRow)
    ensures r.Success? ==> r.value == Value(s) - 1
  {
    match Accumulate(s, 0)
    case Success(n) => AccumulateIsValue(s); Success(n - 1)
    case Failure(e) => Failure(e)
  }

  /** Running the loop over a concatenation runs it over the first part and
      continues from there. */
  lemma {:induction false} AccumulateAppend(s: string, t: string, acc: int)
    requires AllLetters(s)
    ensures Accumulate(s + t, acc) == Accumulate(t, Accumulate(s, acc).value)
    decreases |s|
  {
    if |s| > 0 {
      assert (s + t)[0] == s[0];
      assert (s + t)[1..] == s[1..] + t;
      AccumulateAppend(s[1..], t, 26 * acc + Digit(s[0]));
    } else {
      assert s + t == t;
    }
  }

  /** The left-to-right loop computes the reference value. */
  lemma {:induction false} AccumulateIsValue(s: string)
    requires AllLetters(s)
    ensures Accumulate(s, 0) == Success(Value(s))
    decreases |s|
  {
    if |s| > 0 {
      var init, last := s[..|s| - 1], s[|s| - 1];
      assert s == init + [last];
      AccumulateIsValue(init);
      AccumulateAppend(init, [last], 0);
      assert [last][1..] == [];
    }
  }

  /** The loop reads `c` and its lower-case form alike. */
  lemma {:induction false} AccumulateIgnoresCase(s: string, acc: int)
    ensures Accumulate(Lower(s), acc) == Accumulate(s, acc)
    decreases |s|
  {
    if |s| > 0 {
      assert Lower(s)[1..] == Lower(s[1..]);
      AccumulateIgnoresCase(s[1..], 26 * acc + (if IsLetter(s[0]) then Digit(s[0]) else 0));
    }
  }

  /** Decoding is case-insensitive: "aB", "Ab", "ab" and "AB" name one row. */
  lemma DecodeRowIgnoresCase(s: string)
    ensures DecodeRow(Lower(s)) == DecodeRow(s)
    ensures DecodeRow(Upper(s)) == DecodeRow(s)
  {
    AccumulateIgnoresCase(s, 0);
    AccumulateIgnoresCase(Upper(s), 0);
    assert Lower(Upper(s)) == Lower(s);
  }

  /** The canonical upper-case numeral of a value: the inverse of `Value`. */
  function Letters(m: nat): string
    decreases m
  {
    if m == 0 then "" else Letters((m - 1) / 26) + [('A' as int + (m - 1) % 26) as char]
  }

  /** The row-letter name of a 0-based row, as a user types it. */
  function RowName(row: nat): string {
    Letters(row + 1)
  }

  lemma {:induction false} ValueOfLetters(m: nat)
    ensures AllLetters(Letters(m)) && Value(Letters(m)) == m
    ensures |Letters(m)| > 0 <==> m > 0
    decreases m
  {
    if m > 0 {
      var q, k := (m - 1) / 26, (m - 1) % 26;
      var c := ('A' as int + k) as char;
      ValueOfLetters(q);
      var s := Letters(q) + [c];
      assert s == Letters(m);
      assert IsLetter(c) && Digit(c) == k + 1;
      assert AllLetters(s) by {
        forall i | 0 <= i < |s|
          ensures IsLetter(s[i])
        {
          if i < |s| - 1 {
            assert s[i] == Letters(q)[i];
          }
        }
      }
      assert s[..|s| - 1] == Letters(q);
      assert Value(s) == 26 * q + k + 1;
    }
  }

  lemma {:induction false} LettersOfValue(s: string)
    requires AllLetters(s)
    ensures Letters(Value(s)) == Upper(s)
    decreases |s|
  {
    if |s| > 0 {
      var init, last := s[..|s| - 1], s[|s| - 1];
      LettersOfValue(init);
      assert (Value(s) - 1) / 26 == Value(init);
      assert (Value(s) - 1) % 26 == Digit(last) - 1;
      assert Upper(s) == Upper(init) + [ToUpper(last)];
    }
  }

  /** Every row has a name, and that name decodes back to the row. */
  lemma RowNameRoundTrip(row: nat)
    ensures RowName(row) != [] && AllLetters(RowName(row))
    ensures DecodeRow(RowName(row)) == Success(row)
  {
    ValueOfLetters(row + 1);
  }

  /** Every non-empty letter token names a row, and that row's canonical
      name is the token in upper case. */
  lemma DecodeRowNamesRow(s: string)
    requires AllLetters(s) && s != []
    ensures DecodeRow(s).Success? && DecodeRow(s).value >= 0
    ensures RowName(DecodeRow(s).value) == Upper(s)
  {
    LettersOfValue(s);
    ValueOfLetters(Value(s));
  }

  /** Two tokens that decode to the same row are the same letters up to case. */
  lemma DecodeRowInjective(s: string, t: string)
    requires DecodeRow(s).Success? && DecodeRow(s) == DecodeRow(t)
    ensures Upper(s) == Upper(t)
  {
    LettersOfValue(s);
    LettersOfValue(t);
  }

  /** Value of the all-'A' numeral of length n, the smallest of that length. */
  function Least(n: nat): nat {
    if n == 0 then 0 else 26 * Least(n - 1) + 1
  }

  /** Value of the all-'Z' numeral of length n, the largest of that length. */
  function Greatest(n: nat): nat {
    if n == 0 then 0 else 26 * Greatest(n - 1) + 26
  }

  lemma {:induction false} ValueBounds(s: string)
    requires AllLetters(s)
    ensures Least(|s|) <= Value(s) <= Greatest(|s|)
    decreases |s|
  {
    if |s| > 0 {
      ValueBounds(s[..|s| - 1]);
    }
  }

  lemma {:induction false} LengthsDoNotOverlap(n: nat, m: nat)
    requires n < m
    ensures Greatest(n) < Least(m)
    decreases m
  {
    if m == n + 1 {
      if n > 0 {
        LengthsDoNotOverlap(n - 1, n);
      }
    } else {
      LengthsDoNotOverlap(n, m - 1);
    }
  }

  /** Shorter names come first: every one-letter row precedes every
      two-letter row, which precedes every three-letter row, and so on. */
  lemma DecodeRowOrdersByLength(s: string, t: string)
    requires AllLetters(s) && AllLetters(t) && |s| < |t|
    ensures DecodeRow(s).value < DecodeRow(t).value
  {
    ValueBounds(s);
    ValueBounds(t);
    LengthsDoNotOverlap(|s|, |t|);
  }

  /** Worked decodings, including the 30th row "AD". */
  lemma DecodeRowExamples()
    ensures DecodeRow("A") == Success(0) && DecodeRow("Z") == Success(25)
    ensures DecodeRow("AA") == Success(26) && DecodeRow("AB") == Success(27)
    ensures DecodeRow("AD") == Success(29) && DecodeRow("aB") == Success(27)
    ensures DecodeRow("AZ") == Success(51) && DecodeRow("BA") == Success(52)
    ensures DecodeRow("ZZ") == Success(701) && DecodeRow("AAA") == Success(702)
    ensures DecodeRow("ABC") == Success(730)
    ensures DecodeRow("") == Success(-1)
    ensures DecodeRow("123") == Failure(InvalidRow)
  {
  }
}
