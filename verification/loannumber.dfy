/**
 * Loan numbers: `NMFSPE` followed by a sequence number left-padded with zeros
 * to eleven digits.  The next number is one more than the largest sequence
 * found among the sanctions' loan numbers, read back from offset 6.
 */
module LoanNumbers {
  import opened Wrappers
  import opened Text
  import opened Records

  const Prefix: string := "NMFSPE"

  /** The padded width of the sequence part. */
  const Width: nat := 11

  /** The largest value `$toInt` yields: it converts to a 32-bit signed integer. */
  const Int32Max: int := 0x7FFF_FFFF

  /** `NMFSPE${String(n).padStart(11, 0)}`. */
  function Format(n: nat): (r: string)
    ensures |r| >= |Prefix| + Width && r[..|Prefix|] == Prefix
    ensures AllDigits(r[|Prefix|..])
    ensures n < 100_000_000_000 ==> |r| == |Prefix| + Width
  {
    var digits := Decimal(n);
    var padded := PadStart(digits, Width, '0');
    PaddedDigits(digits, Width);
    assert n < 100_000_000_000 ==> |padded| == Width by {
      if n < 100_000_000_000 {
        assert Pow10(Width) == 100_000_000_000;
        DecimalLength(n, Width);
      }
    }
    var r := Prefix + padded;
    assert r[|Prefix|..] == padded;
    r
  }

  /** `$substr: [loanNo, 6, -1]`: everything from offset 6 on, empty for a shorter string. */
  function Suffix(loanNo: string): (r: string)
    ensures |loanNo| >= |Prefix| ==> r == loanNo[|Prefix|..]
    ensures |loanNo| < |Prefix| ==> r == ""
  {
    if |loanNo| < |Prefix| then "" else loanNo[|Prefix|..]
  }

  /** A suffix `$toInt` can read: a non-empty run of decimal digits. */
  predicate Numeric(s: string)
  {
    |s| > 0 && AllDigits(s)
  }

  /**
   * The sequence part as the aggregation reads it: `$toInt` fails on text that
   * is not a number and on a number above the 32-bit range.
   */
  function ParseAsWritten(loanNo: string): (r: Result<nat>)
    ensures r.Ok? <==> Numeric(Suffix(loanNo)) && ValueOf(Suffix(loanNo)) <= Int32Max
    ensures r.Ok? ==> r.value == ValueOf(Suffix(loanNo))
    ensures r.Err? ==> r.error == Thrown
  {
    var s := Suffix(loanNo);
    if Numeric(s) && ValueOf(s) <= Int32Max then Ok(ValueOf(s)) else Err(Thrown)
  }

  /** The sequence part read without a width limit, as the eleven-digit format needs. */
  function Parse(loanNo: string): (r: Result<nat>)
    ensures r.Ok? <==> Numeric(Suffix(loanNo))
    ensures r.Ok? ==> r.value == ValueOf(Suffix(loanNo))
    ensures r.Err? ==> r.error == Thrown
  {
    var s := Suffix(loanNo);
    if Numeric(s) then Ok(ValueOf(s)) else Err(Thrown)
  }

  /** Reading a formatted number back gives the sequence number. */
  lemma ParseFormat(n: nat)
    ensures Parse(Format(n)) == Ok(n)
  {
    var digits := Decimal(n);
    var padded := PadStart(digits, Width, '0');
    var zeros := padded[..|padded| - |digits|];
    assert padded == zeros + digits;
    assert Suffix(Format(n)) == padded;
    LeadingZeros(zeros, digits);
    DecimalRoundTrip(n);
  }

  /** Distinct sequence numbers give distinct loan numbers. */
  lemma FormatInjective(m: nat, n: nat)
    requires m != n
    ensures Format(m) != Format(n)
  {
    ParseFormat(m);
    ParseFormat(n);
  }

  /** Below the 32-bit limit the aggregation reads a formatted number back correctly. */
  lemma ParseAsWrittenBelowLimit(n: nat)
    requires n <= Int32Max
    ensures ParseAsWritten(Format(n)) == Ok(n)
  {
    ParseFormat(n);
  }

  /** The first loan number past the 32-bit range cannot be read back, though it has eleven digits. */
  lemma ParseAsWrittenOverflows()
    ensures |Format(Int32Max + 1)| == |Prefix| + Width
    ensures ParseAsWritten(Format(Int32Max + 1)).Err?
    ensures Parse(Format(Int32Max + 1)) == Ok(Int32Max + 1)
  {
    ParseFormat(Int32Max + 1);
  }

  /** Every sanction loan number present can be read. */
  predicate AllReadable(sanctions: seq<Sanction>)
  {
    forall i :: 0 <= i < |sanctions| && sanctions[i].loanNo.Some? ==> Parse(sanctions[i].loanNo.value).Ok?
  }

  /** Every sanction loan number present reads as at most `m`. */
  predicate AllAtMost(sanctions: seq<Sanction>, m: nat)
    requires AllReadable(sanctions)
  {
    forall i :: 0 <= i < |sanctions| && sanctions[i].loanNo.Some? ==> Parse(sanctions[i].loanNo.value).value <= m
  }

  /**
   * The largest sequence number among the sanctions' loan numbers, or 0 when
   * none has one; any unreadable loan number makes the aggregation fail.
   */
  function LastSequence(sanctions: seq<Sanction>): (r: Result<nat>)
    ensures r.Ok? <==> AllReadable(sanctions)
    ensures r.Err? ==> r.error == Thrown
    ensures r.Ok? ==> AllAtMost(sanctions, r.value)
    ensures r.Ok? && r.value > 0 ==>
              exists i :: 0 <= i < |sanctions| && sanctions[i].loanNo.Some? && Parse(sanctions[i].loanNo.value) == Ok(r.value)
    decreases |sanctions|
  {
    if |sanctions| == 0 then Ok(0)
    else
      var rest := LastSequence(sanctions[1..]);
      assert AllReadable(sanctions) ==> AllReadable(sanctions[1..]) by {
        if AllReadable(sanctions) {
          forall i | 0 <= i < |sanctions| - 1 && sanctions[1..][i].loanNo.Some?
            ensures Parse(sanctions[1..][i].loanNo.value).Ok?
          {
            assert sanctions[1..][i] == sanctions[i + 1];
          }
        }
      }
      if rest.Err? then
        assert !AllReadable(sanctions) by {
          var i :| 0 <= i < |sanctions| - 1 && sanctions[1..][i].loanNo.Some? && Parse(sanctions[1..][i].loanNo.value).Err?;
          assert sanctions[i + 1] == sanctions[1..][i];
        }
        Err(Thrown)
      else
        match sanctions[0].loanNo
        case None =>
          assert forall i :: 1 <= i < |sanctions| ==> sanctions[i] == sanctions[1..][i - 1];
          Ok(rest.value)
        case Some(no) =>
          var v := Parse(no);
          if v.Err? then Err(Thrown)
          else
            assert forall i :: 1 <= i < |sanctions| ==> sanctions[i] == sanctions[1..][i - 1];
            Ok(if v.value > rest.value then v.value else rest.value)
  }

  /** The maximum is determined: readable numbers all at most `m`, one of them `m` (or `m` is 0). */
  lemma {:induction false} LastSequenceIs(sanctions: seq<Sanction>, m: nat)
    requires AllReadable(sanctions) && AllAtMost(sanctions, m)
    requires m == 0 || exists i :: 0 <= i < |sanctions| && sanctions[i].loanNo.Some? && Parse(sanctions[i].loanNo.value) == Ok(m)
    ensures LastSequence(sanctions) == Ok(m)
  {
    var r := LastSequence(sanctions);
    assert r.value >= m by {
      if m > 0 {
        var i :| 0 <= i < |sanctions| && sanctions[i].loanNo.Some? && Parse(sanctions[i].loanNo.value) == Ok(m);
      }
    }
    assert r.value <= m by {
      if r.value > 0 {
        var j :| 0 <= j < |sanctions| && sanctions[j].loanNo.Some? && Parse(sanctions[j].loanNo.value) == Ok(r.value);
        assert Parse(sanctions[j].loanNo.value).value <= m;
      }
    }
  }

  /** The same maximum read through `$toInt`: it fails as soon as one number is past the 32-bit range. */
  function LastSequenceAsWritten(sanctions: seq<Sanction>): (r: Result<nat>)
    ensures r.Ok? ==> LastSequence(sanctions) == r
    ensures r.Ok? <==> AllReadable(sanctions) && AllAtMost(sanctions, Int32Max)
  {
    var r := LastSequence(sanctions);
    if r.Ok? && r.value <= Int32Max then r
    else
      assert r.Ok? ==> r.value > 0 && !AllAtMost(sanctions, Int32Max);
      Err(Thrown)
  }

  /** The next loan number's sequence: always past every existing one. */
  function NextSequence(sanctions: seq<Sanction>): (r: Result<nat>)
    ensures r.Ok? <==> AllReadable(sanctions)
    ensures r.Ok? ==> r.value >= 1 && LastSequence(sanctions) == Ok(r.value - 1)
    ensures r.Ok? ==> forall i :: 0 <= i < |sanctions| && sanctions[i].loanNo.Some? ==>
                        Parse(sanctions[i].loanNo.value).value < r.value
  {
    var last :- LastSequence(sanctions);
    Ok(last + 1)
  }

  /** The number a new loan gets is held by no sanction yet. */
  lemma NextIsFresh(sanctions: seq<Sanction>)
    requires NextSequence(sanctions).Ok?
    ensures forall i :: 0 <= i < |sanctions| ==>
              sanctions[i].loanNo != Some(Format(NextSequence(sanctions).value))
  {
    ParseFormat(NextSequence(sanctions).value);
  }

  /** Giving one sanction the number after the maximum makes that number the new maximum. */
  lemma RaiseLast(sanctions: seq<Sanction>, p: nat, x: Sanction, m: nat)
    requires LastSequence(sanctions) == Ok(m) && p < |sanctions| && x.loanNo == Some(Format(m + 1))
    ensures LastSequence(sanctions[p := x]) == Ok(m + 1)
  {
    var xs := sanctions[p := x];
    ParseFormat(m + 1);
    assert xs[p].loanNo.Some? && Parse(xs[p].loanNo.value) == Ok(m + 1);
    assert AllReadable(xs) && AllAtMost(xs, m + 1) by {
      forall i | 0 <= i < |xs| && xs[i].loanNo.Some?
        ensures Parse(xs[i].loanNo.value).Ok? && Parse(xs[i].loanNo.value).value <= m + 1
      {
        if i != p {
          assert xs[i] == sanctions[i];
        }
      }
    }
    LastSequenceIs(xs, m + 1);
  }

  /**
   * A single loan number past the 32-bit range stops the aggregation as
   * written, while the corrected reading still yields a next number.
   */
  lemma NumberingStopsPastInt32(sanctions: seq<Sanction>, i: nat, n: nat)
    requires AllReadable(sanctions)
    requires i < |sanctions| && sanctions[i].loanNo == Some(Format(n)) && n > Int32Max
    ensures LastSequenceAsWritten(sanctions).Err?
    ensures NextSequence(sanctions).Ok? && NextSequence(sanctions).value > n
  {
    ParseFormat(n);
  }
}
