/** One resolved stack frame and its display form `Function:File:Line`
    (flooerr/stacktrace.go). The decimal rendering of `%d` and a reader for it
    are defined here so that the line number can be read back. */
module StackTrace {
  import opened Types

  /** `stacktrace`: the three fields copied from a runtime frame. */
  datatype StackFrame = StackFrame(Function: string, File: string, Line: int) {

    /** `String`: the frame rendered as `Function:File:Line`. It is never
        empty, it is `Function`, a colon, `File` and a colon followed by the
        text after its last colon, it holds the two separating colons beyond
        those of its fields, and the text after its last colon reads back as
        `Line`. */
    function String(): (s: string)
      ensures |s| > 0
      ensures s == Function + ":" + File + ":" + AfterLastColon(s)
      ensures Colons(s) == Colons(Function) + Colons(File) + 2
      ensures ParseDecimal(AfterLastColon(s)) == Some(Line)
      ensures CanonicalDecimal(AfterLastColon(s))
    {
      var digits := IntToDecimal(Line);
      IntToDecimalIsDecimal(Line);
      ColonsAppend(Function, ":");
      ColonsAppend(Function + ":", File);
      ColonsAppend(Function + ":" + File, ":");
      ColonsAppend(Function + ":" + File + ":", digits);
      NoColonsInDecimal(digits);
      AfterLastColonOfJoin(Function + ":" + File, digits);
      DecimalRoundTrip(Line);
      IntToDecimalIsCanonical(Line);
      Function + ":" + File + ":" + digits
    }
  }

  /** The number of ':' characters in `s`. */
  function Colons(s: string): nat
  {
    if s == [] then 0 else (if s[0] == ':' then 1 else 0) + Colons(s[1..])
  }

  lemma {:induction false} ColonsAppend(a: string, b: string)
    ensures Colons(a + b) == Colons(a) + Colons(b)
  {
    if a == [] {
      assert a + b == b;
    } else {
      assert (a + b)[1..] == a[1..] + b;
      ColonsAppend(a[1..], b);
    }
  }

  /** The text after the last ':' of `s`, or all of `s` when it has none. */
  function AfterLastColon(s: string): string
  {
    if s == [] then []
    else if s[|s| - 1] == ':' then []
    else AfterLastColon(s[..|s| - 1]) + [s[|s| - 1]]
  }

  lemma {:induction false} AfterLastColonOfJoin(a: string, b: string)
    requires forall i :: 0 <= i < |b| ==> b[i] != ':'
    ensures AfterLastColon(a + ":" + b) == b
  {
    if b != [] {
      var s := a + ":" + b;
      var b' := b[..|b| - 1];
      assert s[..|s| - 1] == a + ":" + b';
      AfterLastColonOfJoin(a, b');
      assert b == b' + [b[|b| - 1]];
    }
  }

  function DigitChar(d: nat): char
    requires d < 10
  {
    (48 + d) as char
  }

  /** The value of a decimal digit, or None for any other character. */
  function DigitValue(c: char): Option<nat>
  {
    if '0' <= c <= '9' then Some(c as int - 48) else None
  }

  /** Decimal digits of a natural number, most significant first. */
  function NatToDecimal(n: nat): string
  {
    if n < 10 then [DigitChar(n)] else NatToDecimal(n / 10) + [DigitChar(n % 10)]
  }

  /** The `%d` rendering of an integer: a '-' sign when negative. */
  function IntToDecimal(i: int): string
  {
    if i < 0 then "-" + NatToDecimal(-i) else NatToDecimal(i)
  }

  ghost predicate IsDigits(s: string)
  {
    |s| > 0 && forall i :: 0 <= i < |s| ==> '0' <= s[i] <= '9'
  }

  lemma {:induction false} NatToDecimalIsDigits(n: nat)
    ensures IsDigits(NatToDecimal(n))
  {
    if n >= 10 {
      NatToDecimalIsDigits(n / 10);
    }
  }

  lemma IntToDecimalIsDecimal(i: int)
    ensures |IntToDecimal(i)| > 0
    ensures i >= 0 ==> IsDigits(IntToDecimal(i))
    ensures i < 0 ==> IntToDecimal(i)[0] == '-' && IsDigits(IntToDecimal(i)[1..])
  {
    if i < 0 {
      NatToDecimalIsDigits(-i);
      assert IntToDecimal(i)[1..] == NatToDecimal(-i);
    } else {
      NatToDecimalIsDigits(i);
    }
  }

  /** Digits without a leading zero, apart from "0" itself. */
  ghost predicate NoLeadingZero(d: string)
  {
    IsDigits(d) && (d[0] == '0' ==> |d| == 1)
  }

  /** The only text `%d` writes for an integer: digits without a leading
      zero, preceded by '-' for a negative number, and never "-0". */
  ghost predicate CanonicalDecimal(s: string)
  {
    NoLeadingZero(s) || (|s| > 1 && s[0] == '-' && NoLeadingZero(s[1..]) && s[1] != '0')
  }

  lemma {:induction false} NatToDecimalNoLeadingZero(n: nat)
    ensures NoLeadingZero(NatToDecimal(n))
    ensures NatToDecimal(n)[0] == '0' <==> n == 0
  {
    NatToDecimalIsDigits(n);
    if n >= 10 {
      NatToDecimalNoLeadingZero(n / 10);
    }
  }

  /** `IntToDecimal` writes the canonical decimal text. */
  lemma IntToDecimalIsCanonical(i: int)
    ensures CanonicalDecimal(IntToDecimal(i))
  {
    if i < 0 {
      NatToDecimalNoLeadingZero(-i);
      assert IntToDecimal(i)[1..] == NatToDecimal(-i);
    } else {
      NatToDecimalNoLeadingZero(i);
    }
  }

  lemma {:induction false} NoLeadingZeroIsNatToDecimal(d: string, n: nat)
    requires NoLeadingZero(d) && ParseNat(d) == Some(n)
    ensures d == NatToDecimal(n)
  {
    var c := d[|d| - 1];
    var v := DigitValue(c).value;
    assert DigitChar(v) == c;
    if |d| > 1 {
      var d' := d[..|d| - 1];
      assert d'[0] == d[0];
      var m := ParseNat(d').value;
      NoLeadingZeroIsNatToDecimal(d', m);
      assert m != 0;
      assert n == 10 * m + v;
      assert d == d' + [c];
    }
  }

  /** A canonical decimal text is determined by the integer it reads back
      as: it is that integer's `%d` rendering. */
  lemma CanonicalDecimalIsUnique(s: string, i: int)
    requires CanonicalDecimal(s) && ParseDecimal(s) == Some(i)
    ensures s == IntToDecimal(i)
  {
    if NoLeadingZero(s) {
      NoLeadingZeroIsNatToDecimal(s, i);
    } else {
      var n := ParseNat(s[1..]).value;
      NoLeadingZeroIsNatToDecimal(s[1..], n);
      assert n != 0;
      assert s == "-" + s[1..];
    }
  }

  lemma NoColonsInDecimal(s: string)
    requires |s| > 0
    requires IsDigits(s) || (s[0] == '-' && IsDigits(s[1..]))
    ensures forall i :: 0 <= i < |s| ==> s[i] != ':'
    ensures Colons(s) == 0
  {
    forall i | 0 <= i < |s|
      ensures s[i] != ':'
    {
      if !IsDigits(s) && i > 0 {
        assert s[1..][i - 1] == s[i];
      }
    }
    NoColonCountsZero(s);
  }

  lemma {:induction false} NoColonCountsZero(s: string)
    requires forall i :: 0 <= i < |s| ==> s[i] != ':'
    ensures Colons(s) == 0
  {
    if s != [] {
      assert forall i :: 0 <= i < |s[1..]| ==> s[1..][i] == s[i + 1];
      NoColonCountsZero(s[1..]);
    }
  }

  /** Reads a non-empty run of decimal digits. */
  function ParseNat(s: string): Option<nat>
  {
    if s == [] then None
    else match DigitValue(s[|s| - 1])
      case None => None
      case Some(d) =>
        if |s| == 1 then Some(d)
        else match ParseNat(s[..|s| - 1])
          case None => None
          case Some(n) => Some(10 * n + d)
  }

  /** Reads what `IntToDecimal` writes: an optional '-' and decimal digits. */
  function ParseDecimal(s: string): Option<int>
  {
    if |s| > 0 && s[0] == '-' then
      match ParseNat(s[1..])
      case None => None
      case Some(n) => Some(-(n as int))
    else
      match ParseNat(s)
      case None => None
      case Some(n) => Some(n)
  }

  lemma {:induction false} NatRoundTrip(n: nat)
    ensures ParseNat(NatToDecimal(n)) == Some(n)
  {
    if n >= 10 {
      var s := NatToDecimal(n);
      NatToDecimalIsDigits(n / 10);
      assert s[..|s| - 1] == NatToDecimal(n / 10);
      NatRoundTrip(n / 10);
    }
  }

  /** Reading back the `%d` rendering of any integer gives that integer. */
  lemma DecimalRoundTrip(i: int)
    ensures ParseDecimal(IntToDecimal(i)) == Some(i)
  {
    if i < 0 {
      assert IntToDecimal(i)[1..] == NatToDecimal(-i);
      NatRoundTrip(-i);
    } else {
      NatToDecimalIsDigits(i);
      NatRoundTrip(i);
    }
  }

  /** A frame with every field at its zero value renders as "::0". */
  lemma ZeroFrameString()
    ensures StackFrame("", "", 0).String() == "::0"
  {
    assert NatToDecimal(0) == "0";
  }

  /** A frame at line 42 renders as its function, its file and "42",
      separated by colons. */
  lemma Line42FrameString(frame: StackFrame)
    requires frame.Line == 42
    ensures frame.String() == frame.Function + ":" + frame.File + ":42"
  {
    calc {
      IntToDecimal(42);
      NatToDecimal(4) + [DigitChar(2)];
      "42";
    }
    RenderingIsJoin(frame);
  }

  /** The rendering joins the three fields' texts with colons. */
  lemma RenderingIsJoin(frame: StackFrame)
    ensures frame.String() == frame.Function + ":" + frame.File + ":" + IntToDecimal(frame.Line)
  {
  }
}
