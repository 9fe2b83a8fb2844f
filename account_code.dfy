/**
 * The account-code formatter `formatarContaContabil`: keep the digits of a raw
 * account code, left-pad them with '0' to 15 characters and print them in the
 * chart-of-accounts mask #.#.#.#.#.##.##.##.##.##
 */
module AccountCode {

  /** Number of digits in a full account code. */
  const CodeWidth := 15

  /** Length of a formatted code: 15 digits and 9 dots. */
  const FormattedWidth := 24

  predicate IsDigit(c: char) {
    '0' <= c <= '9'
  }

  predicate AllDigits(s: string) {
    forall i :: 0 <= i < |s| ==> IsDigit(s[i])
  }

  /** `preg_replace('/[^0-9]/', '', s)`: the digits of `s`, in order. */
  function Digits(s: string): (r: string)
    ensures AllDigits(r)
    ensures |r| <= |s|
    ensures AllDigits(s) ==> r == s
  {
    if s == [] then []
    else (if IsDigit(s[0]) then [s[0]] else []) + Digits(s[1..])
  }

  /** On one character the filter keeps a digit and drops anything else. */
  lemma DigitsChar(c: char)
    ensures Digits([c]) == if IsDigit(c) then [c] else []
  {
    assert [c][1..] == [];
  }

  function Repeat(c: char, n: nat): (r: string)
    ensures |r| == n
    ensures forall i :: 0 <= i < n ==> r[i] == c
  {
    if n == 0 then [] else [c] + Repeat(c, n - 1)
  }

  /**
   * `str_pad(s, width, pad, STR_PAD_LEFT)`: pads on the left up to `width`
   * characters and never shortens a longer string.
   */
  function PadLeft(s: string, width: nat, pad: char): (r: string)
    ensures |r| == if |s| < width then width else |s|
    ensures r[|r| - |s|..] == s
    ensures forall i :: 0 <= i < |r| - |s| ==> r[i] == pad
  {
    if |s| < width then Repeat(pad, width - |s|) + s else s
  }

  /** The 15 digits that the mask shows: padded when short, the first 15 when long. */
  function CodeDigits(raw: string): (r: string)
    ensures |r| == CodeWidth
    ensures AllDigits(r)
  {
    var p := PadLeft(Digits(raw), CodeWidth, '0');
    p[..CodeWidth]
  }

  /** Positions of the dots in a formatted code. */
  predicate IsDotPosition(k: int) {
    k == 1 || k == 3 || k == 5 || k == 7 || k == 9 || k == 12 || k == 15 || k == 18 || k == 21
  }

  /** The index into the 15 digits shown at a non-dot position `k` of the formatted code. */
  function DigitIndex(k: int): (r: int)
    requires 0 <= k < FormattedWidth
    ensures 0 <= r < CodeWidth
  {
    if k < 10 then k / 2
    else if k < 12 then k - 5
    else if k < 15 then k - 6
    else if k < 18 then k - 7
    else if k < 21 then k - 8
    else k - 9
  }

  /**
   * The mask itself: digit runs of widths 1,1,1,1,1,2,2,2,2,2 taken from the
   * start of `p`, separated by dots.
   */
  function Mask(p: string): (r: string)
    requires |p| >= CodeWidth
    ensures |r| == FormattedWidth
  {
    p[0..1] + "." + p[1..2] + "." + p[2..3] + "." + p[3..4] + "." + p[4..5] + "." +
    p[5..7] + "." + p[7..9] + "." + p[9..11] + "." + p[11..13] + "." + p[13..15]
  }

  /** Position by position, the mask is a dot or the digit of `p` the mask places there. */
  lemma MaskShape(p: string)
    requires |p| >= CodeWidth
    ensures forall k :: 0 <= k < FormattedWidth ==>
      Mask(p)[k] == if IsDotPosition(k) then '.' else p[DigitIndex(k)]
  {
  }

  /** `formatarContaContabil`. */
  function Format(raw: string): (r: string)
    ensures |r| == FormattedWidth
  {
    Mask(PadLeft(Digits(raw), CodeWidth, '0'))
  }

  /**
   * Every formatted code has the mask's shape: a dot at each dot position and,
   * everywhere else, the digit of the padded code that the mask places there.
   */
  lemma FormatShape(raw: string)
    ensures forall k :: 0 <= k < FormattedWidth ==>
      Format(raw)[k] == if IsDotPosition(k) then '.' else CodeDigits(raw)[DigitIndex(k)]
    ensures forall k :: 0 <= k < FormattedWidth ==> (Format(raw)[k] == '.' <==> IsDotPosition(k))
    ensures forall k :: 0 <= k < FormattedWidth && !IsDotPosition(k) ==> IsDigit(Format(raw)[k])
  {
    MaskShape(PadLeft(Digits(raw), CodeWidth, '0'));
  }

  /** Digits distributes over concatenation. */
  lemma {:induction false} DigitsAppend(a: string, b: string)
    ensures Digits(a + b) == Digits(a) + Digits(b)
  {
    if a == [] {
      assert a + b == b;
    } else {
      assert (a + b)[0] == a[0];
      assert (a + b)[1..] == a[1..] + b;
      DigitsAppend(a[1..], b);
    }
  }

  /** A dot contributes no digit and a run of digits contributes itself. */
  lemma DigitsDotRun(a: string, run: string)
    requires AllDigits(run)
    ensures Digits(a + "." + run) == Digits(a) + run
  {
    assert Digits(".") == [] by {
      assert "."[1..] == [];
    }
    DigitsAppend(a, ".");
    DigitsAppend(a + ".", run);
  }

  /** One mask step: appending a dot and a run of digits appends those digits. */
  lemma JoinStep(p: string, a: string, x: nat, y: nat)
    requires AllDigits(p) && x <= y <= |p|
    requires Digits(a) == p[..x]
    ensures Digits(a + "." + p[x..y]) == p[..y]
  {
    var run := p[x..y];
    assert AllDigits(run);
    DigitsDotRun(a, run);
    assert p[..x] + run == p[..y];
  }

  /** Taking the digits of the mask of a digit string gives back its first 15 digits. */
  lemma {:induction false} MaskDigits(p: string)
    requires |p| >= CodeWidth && AllDigits(p)
    ensures Digits(Mask(p)) == p[..CodeWidth]
  {
    var a1 := p[0..1];
    assert Digits(a1) == p[..1];
    var a2 := a1 + "." + p[1..2];
    JoinStep(p, a1, 1, 2);
    var a3 := a2 + "." + p[2..3];
    JoinStep(p, a2, 2, 3);
    var a4 := a3 + "." + p[3..4];
    JoinStep(p, a3, 3, 4);
    var a5 := a4 + "." + p[4..5];
    JoinStep(p, a4, 4, 5);
    var a6 := a5 + "." + p[5..7];
    JoinStep(p, a5, 5, 7);
    var a7 := a6 + "." + p[7..9];
    JoinStep(p, a6, 7, 9);
    var a8 := a7 + "." + p[9..11];
    JoinStep(p, a7, 9, 11);
    var a9 := a8 + "." + p[11..13];
    JoinStep(p, a8, 11, 13);
    JoinStep(p, a9, 13, 15);
  }

  /** The 15 digits shown: the input's digits left-padded with '0' when short, their first 15 when long. */
  lemma CodeDigitsValue(raw: string)
    ensures var d := Digits(raw);
      CodeDigits(raw) == if |d| <= CodeWidth then Repeat('0', CodeWidth - |d|) + d else d[..CodeWidth]
  {
    var d := Digits(raw);
    var p := PadLeft(d, CodeWidth, '0');
    assert CodeDigits(raw) == p[..CodeWidth];
    if |d| < CodeWidth {
      assert p == Repeat('0', CodeWidth - |d|) + d;
      assert |p| == CodeWidth;
      assert p[..CodeWidth] == p;
    } else if |d| == CodeWidth {
      assert p == d;
      assert Repeat('0', 0) == [];
      assert [] + d == d;
      assert d[..CodeWidth] == d;
    } else {
      assert p == d;
    }
  }

  /** Removing the dots from a formatted code gives back the 15 digits it shows. */
  lemma FormatRoundTrip(raw: string)
    ensures Digits(Format(raw)) == CodeDigits(raw)
  {
    var p := PadLeft(Digits(raw), CodeWidth, '0');
    assert Format(raw) == Mask(p);
    MaskDigits(p);
  }

  /** Only the digits of the input matter: it formats like its digit string. */
  lemma FormatIgnoresNonDigits(raw: string)
    ensures Format(Digits(raw)) == Format(raw)
  {
  }

  /** Two inputs with the same digit subsequence format identically. */
  lemma FormatDependsOnlyOnDigits(a: string, b: string)
    requires Digits(a) == Digits(b)
    ensures Format(a) == Format(b)
  {
  }

  /** Inserting a non-digit character anywhere leaves the formatted code unchanged. */
  lemma FormatIgnoresInsertedChar(a: string, c: char, b: string)
    requires !IsDigit(c)
    ensures Format(a + [c] + b) == Format(a + b)
  {
    assert Digits(a + [c] + b) == Digits(a + b) by {
      DigitsAppend(a + [c], b);
      DigitsAppend(a, [c]);
      DigitsAppend(a, b);
    }
  }
}
