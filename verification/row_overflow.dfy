/** `getRowNum` exactly as written, with its running number a Java `int`:
    the exact decoding wrapped to 32 bits, which differs from the exact
    row once a token has seven letters or more. */
module RowOverflow {
  import opened Wrappers
  import opened Failures
  import opened JavaInt
  import opened RowLetters

  /** The decoder exactly as written: the running number is a Java `int`,
      so every step, and the final decrement, wraps round modulo 2^32. */
  function AccumulateInt(s: string, acc: int): (r: Result<int, Error>)
    decreases |s|
    ensures r.Failure? <==> !AllLetters(s)
    ensures r.Failure? ==> r.error == InvalidRow
  {
    if |s| == 0 then Success(acc)
    else if !IsLetter(s[0]) then Failure(InvalidRow)
    else AccumulateInt(s[1..], Wrap(26 * acc + Digit(s[0])))
  }

  /** The `int` loop reads the same letters as the exact one and keeps the
      exact running number wrapped to 32 bits. */
  lemma {:induction false} AccumulateIntWraps(s: string, acc: int)
    requires AllLetters(s)
    ensures AccumulateInt(s, Wrap(acc)) == Success(Wrap(Accumulate(s, acc).value))
    decreases |s|
  {
    if |s| > 0 {
      WrapAffine(26, acc, Digit(s[0]));
      AccumulateIntWraps(s[1..], 26 * acc + Digit(s[0]));
    }
  }

  /** `getRowNum` with its 32-bit overflow: the exact row wrapped to an
      `int`. Up to six letters that is the exact row; from seven letters on
      it can be wrong (see `AsWrittenOverflows`). */
  function DecodeRowAsWritten(s: string): (r: Result<int, Error>)
    ensures r.Failure? <==> !AllLetters(s)
    ensures r.Failure? ==> r == Failure(InvalidRow)
    ensures r.Success? ==> r.value == Wrap(DecodeRow(s).value)
    ensures |s| <= 6 ==> r == DecodeRow(s)
  {
    match AccumulateInt(s, 0)
    case Success(n) =>
      AccumulateIntWraps(s, 0);
      AccumulateIsValue(s);
      WrapAffine(1, Value(s), -1);
      assert |s| <= 6 ==> IsInt(Value(s) - 1) by {
        if |s| <= 6 {
          ValueBounds(s);
          GreatestGrows(|s|, 6);
          assert Greatest(6) == 321272406;
        }
      }
      Success(Wrap(n - 1))
    case Failure(e) => Failure(e)
  }

  lemma {:induction false} GreatestGrows(n: nat, m: nat)
    requires n <= m
    ensures Greatest(n) <= Greatest(m)
    decreases m - n
  {
    if n < m {
      GreatestGrows(n + 1, m);
    }
  }

  /** Seven letters overflow the decoder as written: "ZZZZZZZ" names a
      negative row instead of row 8353082581. */
  lemma AsWrittenOverflows(s: string)
    requires s == "ZZZZZZZ"
    ensures DecodeRow(s) == Success(8353082581)
    ensures DecodeRowAsWritten(s) == Success(-236852011)
  {
    assert DecodeRow("ZZZZZZZ") == Success(8353082581);
    assert AllLetters(s);
  }

  /** Two different tokens name one row as written: "MWLQKWW" is read as
      row 0, the row of "A". */
  lemma AsWrittenCollides(s: string, t: string)
    requires s == "MWLQKWW" && t == "A"
    ensures Upper(s) != Upper(t)
    ensures DecodeRowAsWritten(s) == DecodeRowAsWritten(t) == Success(0)
  {
    assert DecodeRow("MWLQKWW") == Success(4294967296);
    assert DecodeRow("A") == Success(0);
    assert AllLetters(s) && AllLetters(t) && |t| == 1;
    assert Wrap(4294967296) == 0;
    assert DecodeRowAsWritten(s) == Success(0);
  }
}
