/** The string operations of JavaScript that the modelled code relies on:
    `String(n)` for a non-negative integer, `Number(s)` on a string of
    decimal digits, `padStart`, `split`, `join`, and the whitespace that
    `trim` removes. */
module Text {
  import opened Wrappers

  predicate IsDigit(c: char) {
    '0' <= c <= '9'
  }

  predicate AllDigits(s: string) {
    forall i | 0 <= i < |s| :: IsDigit(s[i])
  }

  function DigitChar(d: nat): (c: char)
    requires d < 10
    ensures IsDigit(c)
  {
    ('0' as int + d) as char
  }

  function DigitValue(c: char): (d: nat)
    requires IsDigit(c)
    ensures d < 10 && DigitChar(d) == c
    ensures forall e | 0 <= e < 10 :: DigitChar(e) == c ==> e == d
  {
    (c as int - '0' as int)
  }

  /** `String(n)` / `n.toString()` for a non-negative integer: decimal digits, no leading zero. */
  function NatToString(n: nat): (s: string)
    ensures |s| >= 1 && AllDigits(s)
    ensures n < 10 <==> |s| == 1
  {
    if n < 10 then [DigitChar(n)] else NatToString(n / 10) + [DigitChar(n % 10)]
  }

  /** The value of a string of decimal digits (the empty string reads as 0, as `Number("")` does). */
  function DigitsValue(s: string): nat
    requires AllDigits(s)
  {
    if s == [] then 0 else DigitsValue(s[..|s| - 1]) * 10 + DigitValue(s[|s| - 1])
  }

  lemma DigitsValueSnoc(s: string, c: char)
    requires AllDigits(s) && IsDigit(c)
    ensures AllDigits(s + [c]) && DigitsValue(s + [c]) == DigitsValue(s) * 10 + DigitValue(c)
  {
    assert (s + [c])[..|s|] == s;
  }

  lemma {:induction false} DigitsOfNatToString(n: nat)
    ensures DigitsValue(NatToString(n)) == n
  {
    if n >= 10 {
      var q, d := n / 10, n % 10;
      DigitsOfNatToString(q);
      DigitsValueSnoc(NatToString(q), DigitChar(d));
    }
  }

  /** `s.padStart(width, fill)`: left-pad with `fill` up to `width` characters. */
  function PadStart(s: string, width: nat, fill: char): (r: string)
    ensures |r| == if |s| >= width then |s| else width
    ensures r[|r| - |s|..] == s
    ensures forall i | 0 <= i < |r| - |s| :: r[i] == fill
  {
    if |s| >= width then s else seq(width - |s|, _ => fill) + s
  }

  /** `String(n).padStart(2, "0")` */
  function Pad2(n: nat): string {
    PadStart(NatToString(n), 2, '0')
  }

  /** Two-digit numbers print as exactly two digits and read back as themselves. */
  lemma Pad2RoundTrip(n: nat)
    requires n < 100
    ensures |Pad2(n)| == 2 && AllDigits(Pad2(n))
    ensures DigitsValue(Pad2(n)) == n
  {
    DigitsOfNatToString(n);
    if n < 10 {
      var p := Pad2(n);
      assert p == ['0', DigitChar(n)];
      assert p[..1] == ['0'];
      assert ['0'][..0] == [];
    } else {
      assert n / 10 < 10;
    }
  }

  /** First position of `c` in `s`. */
  function IndexOf(s: string, c: char): (i: nat)
    requires c in s
    ensures i < |s| && s[i] == c && c !in s[..i]
  {
    if s[0] == c then 0 else 1 + IndexOf(s[1..], c)
  }

  /** `s.split(sep)` for a one-character separator. */
  function Split(s: string, sep: char): (parts: seq<string>)
    ensures |parts| >= 1
    decreases |s|
  {
    if sep !in s then [s]
    else var i := IndexOf(s, sep); [s[..i]] + Split(s[i + 1..], sep)
  }

  /** In `a + [sep] + b` with no `sep` in `a`, the first separator is the one after `a`. */
  lemma IndexAfterPrefix(a: string, sep: char, b: string)
    requires sep !in a
    ensures IndexOf(a + [sep] + b, sep) == |a|
  {
    var s := a + [sep] + b;
    assert s[|a|] == sep;
    assert forall j | 0 <= j < |a| :: s[j] == a[j];
  }

  lemma SplitFirst(a: string, sep: char, b: string)
    requires sep !in a
    ensures Split(a + [sep] + b, sep)[0] == a
  {
    var s := a + [sep] + b;
    IndexAfterPrefix(a, sep, b);
    assert s[..|a|] == a;
  }

  lemma SplitTwo(a: string, sep: char, b: string)
    requires sep !in a && sep !in b
    ensures Split(a + [sep] + b, sep) == [a, b]
  {
    var s := a + [sep] + b;
    IndexAfterPrefix(a, sep, b);
    assert s[..|a|] == a;
    assert s[|a| + 1..] == b;
  }

  /** `parts.join(sep)`. */
  function Join(parts: seq<string>, sep: string): string {
    if parts == [] then []
    else if |parts| == 1 then parts[0]
    else parts[0] + sep + Join(parts[1..], sep)
  }

  lemma {:induction false} JoinSnoc(parts: seq<string>, last: string, sep: string)
    requires parts != []
    ensures Join(parts + [last], sep) == Join(parts, sep) + sep + last
  {
    if |parts| == 1 {
      assert (parts + [last])[1..] == [last];
    } else {
      assert (parts + [last])[1..] == parts[1..] + [last];
      JoinSnoc(parts[1..], last, sep);
    }
  }

  /** The characters `String.prototype.trim` removes: ECMAScript's WhiteSpace
      and LineTerminator code points. */
  predicate IsJsWhitespace(c: char) {
    c == '\t' || c == '\n' || c == '\U{000B}' || c == '\U{000C}' || c == '\r' || c == ' '
    || c == '\U{00A0}' || c == '\U{1680}' || ('\U{2000}' <= c <= '\U{200A}')
    || c == '\U{2028}' || c == '\U{2029}' || c == '\U{202F}' || c == '\U{205F}'
    || c == '\U{3000}' || c == '\U{FEFF}'
  }

  /** `!s.trim()`: the string is empty once surrounding whitespace is removed. */
  predicate IsBlank(s: string) {
    forall i | 0 <= i < |s| :: IsJsWhitespace(s[i])
  }
}
