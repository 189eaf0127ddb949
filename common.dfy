// Shared value types and the text helpers of the .NET library calls the game relies on
// (int.ToString, string.PadLeft, string.PadRight).

datatype Option<T> = None | Some(value: T)

/** A Unity colour (RGBA, each channel in [0,1]); only stored and compared, never computed on. */
datatype Color = Color(r: real, g: real, b: real, a: real)

const White: Color := Color(1.0, 1.0, 1.0, 1.0)

/** A run of `n` spaces. */
function Spaces(n: nat): (r: string)
  ensures |r| == n
  ensures forall i :: 0 <= i < n ==> r[i] == ' '
{
  if n == 0 then "" else Spaces(n - 1) + " "
}

/** string.PadLeft(width): right-aligns `s` in a field of `width` characters. */
function PadLeft(s: string, width: nat): (r: string)
  ensures |r| == if |s| >= width then |s| else width
  ensures r[|r| - |s|..] == s
  ensures forall i :: 0 <= i < |r| - |s| ==> r[i] == ' '
{
  if |s| >= width then s else Spaces(width - |s|) + s
}

/** string.PadRight(width): left-aligns `s` in a field of `width` characters. */
function PadRight(s: string, width: nat): (r: string)
  ensures |r| == if |s| >= width then |s| else width
  ensures r[..|s|] == s
  ensures forall i :: |s| <= i < |r| ==> r[i] == ' '
{
  if |s| >= width then s else s + Spaces(width - |s|)
}

predicate IsDigit(c: char) { '0' <= c <= '9' }

function DigitChar(d: nat): (c: char)
  requires d < 10
  ensures IsDigit(c) && (c as int) - ('0' as int) == d
{
  (('0' as int) + d) as char
}

function DigitValue(c: char): (d: nat)
  requires IsDigit(c)
  ensures d < 10
{
  (c as int) - ('0' as int)
}

/** The invariant-culture decimal rendering of a natural number, as int.ToString() gives it. */
function NatToString(n: nat): (s: string)
  ensures 1 <= |s|
  ensures forall i :: 0 <= i < |s| ==> IsDigit(s[i])
  ensures |s| > 1 ==> s[0] != '0'
  decreases n
{
  if n < 10 then [DigitChar(n)] else NatToString(n / 10) + [DigitChar(n % 10)]
}

/** Reads a string of decimal digits back as a number; the partner of NatToString. */
function DigitsValue(s: string): nat
  requires forall i :: 0 <= i < |s| ==> IsDigit(s[i])
{
  if |s| == 0 then 0 else DigitsValue(s[..|s| - 1]) * 10 + DigitValue(s[|s| - 1])
}

/** int.ToString() for any integer, with a leading '-' for negative values. */
function IntToString(n: int): (s: string)
  ensures 1 <= |s|
  ensures n >= 0 ==> s == NatToString(n)
  ensures n < 0 ==> s == "-" + NatToString(-n)
{
  if n < 0 then "-" + NatToString(-n) else NatToString(n)
}

/** Rendering a number and reading it back gives the number: NatToString loses nothing. */
lemma {:induction false} NatToStringRoundTrip(n: nat)
  ensures DigitsValue(NatToString(n)) == n
  decreases n
{
  if n >= 10 {
    var s := NatToString(n);
    assert s[..|s| - 1] == NatToString(n / 10);
    NatToStringRoundTrip(n / 10);
  }
}

/** Distinct numbers render as distinct strings. */
lemma NatToStringInjective(m: nat, n: nat)
  requires NatToString(m) == NatToString(n)
  ensures m == n
{
  NatToStringRoundTrip(m);
  NatToStringRoundTrip(n);
}
