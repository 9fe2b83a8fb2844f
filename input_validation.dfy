/**
 * The two operator inputs the script reads before touching the database: the
 * period ("remessa", YYYYMM) and the entity code. Each line is trimmed first;
 * an input that fails its check ends the script before any query.
 */
module InputValidation {
  import opened Wrappers
  import opened AccountCode
  import opened Entity

  /** The characters PHP's `trim` removes by default: space, \t, \n, \r, \0 and \x0B. */
  predicate IsBlank(c: char) {
    c == ' ' || c == '\t' || c == '\n' || c == '\r' || c == '\0' || c == 11 as char
  }

  function TrimLeft(s: string): (r: string)
    ensures |r| <= |s| && r == s[|s| - |r|..]
    ensures r == [] || !IsBlank(r[0])
    ensures forall i :: 0 <= i < |s| - |r| ==> IsBlank(s[i])
  {
    if s != [] && IsBlank(s[0]) then TrimLeft(s[1..]) else s
  }

  function TrimRight(s: string): (r: string)
    ensures |r| <= |s| && r == s[..|r|]
    ensures r == [] || !IsBlank(r[|r| - 1])
    ensures forall i :: |r| <= i < |s| ==> IsBlank(s[i])
  {
    if s != [] && IsBlank(s[|s| - 1]) then TrimRight(s[..|s| - 1]) else s
  }

  /** `trim`: blanks removed from both ends and nowhere else. */
  function Trim(s: string): (r: string)
    ensures r == [] || (!IsBlank(r[0]) && !IsBlank(r[|r| - 1]))
    ensures s == [] || (!IsBlank(s[0]) && !IsBlank(s[|s| - 1])) ==> r == s
  {
    TrimRight(TrimLeft(s))
  }

  /** `TrimLeft` drops a run of blanks and keeps the rest. */
  lemma TrimLeftSlice(s: string)
    ensures var a := |s| - |TrimLeft(s)|;
      TrimLeft(s) == s[a..] && AllBlank(s[..a])
  {
  }

  /** `TrimRight` keeps a prefix and drops a run of blanks after it. */
  lemma TrimRightSlice(s: string)
    ensures var n := |TrimRight(s)|;
      TrimRight(s) == s[..n] && AllBlank(s[n..])
  {
  }

  /** A line of blanks trims to the empty string. */
  lemma TrimAllBlank(s: string)
    requires AllBlank(s)
    ensures Trim(s) == []
  {
    var left := TrimLeft(s);
    assert left == [] by {
      TrimLeftSlice(s);
    }
  }

  /**
   * `preg_match('/^\d{6}$/', s)`: six ASCII digits; PCRE's `$` (no D modifier)
   * also matches just before a final newline.
   */
  predicate MatchesPeriodPattern(s: string): (r: bool)
    ensures r ==> |s| >= 6 && AllDigits(s[..6])
    ensures |s| == 6 ==> (r <==> AllDigits(s))
    ensures r && |s| != 6 ==> s == s[..6] + "\n"
  {
    || (|s| == 6 && AllDigits(s))
    || (|s| == 7 && AllDigits(s[..6]) && s[6] == '\n')
  }

  datatype Period = Period(year: string, month: string)

  /**
   * The period check: the trimmed line must be exactly six digits; the year is
   * its first four characters and the month the last two.
   */
  function ParsePeriod(line: string): (r: Option<Period>)
    ensures r.Some? <==> |Trim(line)| == 6 && AllDigits(Trim(line))
    ensures r.Some? ==> |r.value.year| == 4 && |r.value.month| == 2
    ensures r.Some? ==> r.value.year + r.value.month == Trim(line)
  {
    var s := Trim(line);
    if MatchesPeriodPattern(s) then
      assert |s| == 6 && s[..4] + s[4..6] == s;
      Some(Period(s[0..4], s[4..6]))
    else None
  }

  /** The codes `in_array` accepts. */
  const EntityCodes: seq<string> := ["pm", "cm", "fpsm"]

  /**
   * The entity check: the lower-cased, trimmed line must be one of the known
   * codes; that lower-cased code is what the rest of the script uses.
   */
  function ParseEntity(line: string): (r: Option<string>)
    ensures r.Some? <==> Lower(Trim(line)) in Translations
    ensures r.Some? ==> r.value == Lower(Trim(line)) && Translate(r.value) != r.value
  {
    var e := Lower(Trim(line));
    LowerIdempotent(Trim(line));
    if e in EntityCodes then Some(e) else None
  }

  /** Every character of `s` is one that `trim` removes. */
  predicate AllBlank(s: string) {
    forall i :: 0 <= i < |s| ==> IsBlank(s[i])
  }

  lemma {:induction false} TrimLeftBlankPrefix(pre: string, s: string)
    requires AllBlank(pre) && s != [] && !IsBlank(s[0])
    ensures TrimLeft(pre + s) == s
    decreases |pre|
  {
    if pre == [] {
      assert pre + s == s;
    } else {
      assert (pre + s)[0] == pre[0];
      assert (pre + s)[1..] == pre[1..] + s;
      TrimLeftBlankPrefix(pre[1..], s);
    }
  }

  lemma {:induction false} TrimRightBlankSuffix(s: string, post: string)
    requires AllBlank(post) && s != [] && !IsBlank(s[|s| - 1])
    ensures TrimRight(s + post) == s
    decreases |post|
  {
    if post == [] {
      assert s + post == s;
    } else {
      var n := |s + post|;
      assert (s + post)[n - 1] == post[|post| - 1];
      assert (s + post)[..n - 1] == s + post[..|post| - 1];
      TrimRightBlankSuffix(s, post[..|post| - 1]);
    }
  }

  /** `trim` removes exactly the blanks around a text whose ends are not blank. */
  lemma TrimSurrounded(pre: string, s: string, post: string)
    requires AllBlank(pre) && AllBlank(post)
    requires s != [] && !IsBlank(s[0]) && !IsBlank(s[|s| - 1])
    ensures Trim(pre + s + post) == s
  {
    assert pre + s + post == pre + (s + post);
    assert (s + post)[0] == s[0];
    TrimLeftBlankPrefix(pre, s + post);
    TrimRightBlankSuffix(s, post);
  }

  /** A trailing newline is trimmed away before the period check. */
  lemma PeriodWithNewline()
    ensures ParsePeriod("202312\n") == Some(Period("2023", "12"))
  {
    TrimSurrounded("", "202312", "\n");
    assert "" + "202312" + "\n" == "202312\n";
    assert "202312"[0..4] == "2023" && "202312"[4..6] == "12";
  }

  /** A five-digit period and a punctuated one are refused. */
  lemma PeriodRefused()
    ensures ParsePeriod("20231").None?
    ensures ParsePeriod("2023-12").None?
  {
    TrimSurrounded("", "20231", "");
    assert "" + "20231" + "" == "20231";
    var dashed := "2023-12";
    TrimSurrounded("", dashed, "");
    assert "" + dashed + "" == dashed;
    assert !IsDigit(dashed[4]);
  }

  /** Surrounding blanks and upper case are accepted. */
  lemma EntityAccepted()
    ensures ParseEntity(" FPSM\n") == Some("fpsm")
  {
    var line := " FPSM\n";
    var t := Trim(line);
    assert t == "FPSM" by { TrimmedExamples(); }
    var e := Lower(t);
    assert e == "fpsm" by { LowerExamples(); }
    assert e in EntityCodes by { assert EntityCodes[2] == "fpsm"; }
  }

  /** An unknown code is refused. */
  lemma EntityRefused()
    ensures ParseEntity("xx").None?
  {
    TrimmedExamples();
    LowerExamples();
    UnknownCode();
  }

  lemma TrimmedExamples()
    ensures Trim(" FPSM\n") == "FPSM"
    ensures Trim("xx") == "xx"
  {
    TrimSurrounded(" ", "FPSM", "\n");
    assert " " + "FPSM" + "\n" == " FPSM\n";
    TrimSurrounded("", "xx", "");
    assert "" + "xx" + "" == "xx";
  }

  lemma UnknownCode()
    ensures "xx" !in EntityCodes
  {
    assert "xx" != "pm" by { assert "pm"[0] == 'p'; }
    assert "xx" != "cm" by { assert "cm"[0] == 'c'; }
    assert "xx" != "fpsm" by { assert |"fpsm"| == 4; }
  }
}
