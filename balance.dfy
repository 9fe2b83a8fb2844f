/**
 * The running-balance rule. An account's nature comes from the first
 * character of its raw code: an odd first digit makes it debit-natured
 * (assets, expenses), anything else credit-natured. A debit entry on a
 * debit-natured account, or a non-debit entry on a credit-natured one, adds
 * its amount; the other two cases subtract it. The balance is a left fold over
 * the account's entries, seeded with the opening balance, and one balance is
 * printed per entry.
 */
module Balance {
  import opened Records
  import opened AccountCode

  /**
   * `(int)substr(code, 0, 1)`: the value of a leading digit, and 0 when the
   * code is empty or starts with anything else.
   */
  function FirstDigitValue(code: string): (r: nat)
    ensures r <= 9
  {
    if |code| > 0 && IsDigit(code[0]) then code[0] as int - '0' as int else 0
  }

  /** `$naturezaDevedora`: the first character is an odd digit. */
  function IsDebitNatured(code: string): (r: bool)
    ensures r <==> |code| > 0 && code[0] in "13579"
  {
    FirstDigitValue(code) % 2 != 0
  }

  /** The amount by which one entry moves the balance. */
  function SignedAmount(debitNatured: bool, e: Entry): (r: int)
    ensures r == if debitNatured == (e.kind == "D") then e.amount else -e.amount
  {
    if debitNatured then
      (if e.kind == "D" then e.amount else -e.amount)
    else
      (if e.kind == "D" then -e.amount else e.amount)
  }

  /** The sum of the signed amounts of `entries`. */
  function SignedTotal(debitNatured: bool, entries: seq<Entry>): int {
    if entries == [] then 0
    else SignedAmount(debitNatured, entries[0]) + SignedTotal(debitNatured, entries[1..])
  }

  /** The balance after each entry, starting from `balance`. */
  function RunningBalances(balance: int, debitNatured: bool, entries: seq<Entry>): (r: seq<int>)
    ensures |r| == |entries|
    decreases entries
  {
    if entries == [] then []
    else
      var next := balance + SignedAmount(debitNatured, entries[0]);
      [next] + RunningBalances(next, debitNatured, entries[1..])
  }

  /**
   * One balance per entry: each is the previous one (the opening balance for
   * the first entry) moved by that entry's signed amount.
   */
  lemma {:induction false} RunningBalancesStep(balance: int, debitNatured: bool, entries: seq<Entry>)
    ensures entries != [] ==>
      RunningBalances(balance, debitNatured, entries)[0] == balance + SignedAmount(debitNatured, entries[0])
    ensures forall i :: 1 <= i < |entries| ==>
      RunningBalances(balance, debitNatured, entries)[i] ==
      RunningBalances(balance, debitNatured, entries)[i - 1] + SignedAmount(debitNatured, entries[i])
    decreases entries
  {
    if entries != [] {
      var next := balance + SignedAmount(debitNatured, entries[0]);
      var tail := entries[1..];
      RunningBalancesStep(next, debitNatured, tail);
      var r, rest := RunningBalances(balance, debitNatured, entries), RunningBalances(next, debitNatured, tail);
      assert r == [next] + rest;
      forall i | 1 <= i < |entries|
        ensures r[i] == r[i - 1] + SignedAmount(debitNatured, entries[i])
      {
        assert r[i] == rest[i - 1] && entries[i] == tail[i - 1];
        if i == 1 {
          assert rest[0] == next + SignedAmount(debitNatured, tail[0]);
        } else {
          assert r[i - 1] == rest[i - 2];
          assert rest[i - 1] == rest[i - 2] + SignedAmount(debitNatured, tail[i - 1]);
        }
      }
    }
  }

  /** One step of the fold: the balance after entry `i` is the one before it moved by entry `i`. */
  lemma RunningBalanceAt(balance: int, debitNatured: bool, entries: seq<Entry>, i: nat)
    requires i < |entries|
    ensures RunningBalances(balance, debitNatured, entries)[i] ==
      (if i == 0 then balance else RunningBalances(balance, debitNatured, entries)[i - 1]) +
      SignedAmount(debitNatured, entries[i])
  {
    RunningBalancesStep(balance, debitNatured, entries);
  }

  /** The sum over a concatenation is the sum of the sums. */
  lemma {:induction false} SignedTotalAppend(debitNatured: bool, a: seq<Entry>, b: seq<Entry>)
    ensures SignedTotal(debitNatured, a + b) == SignedTotal(debitNatured, a) + SignedTotal(debitNatured, b)
  {
    if a == [] {
      assert a + b == b;
    } else {
      assert (a + b)[0] == a[0];
      assert (a + b)[1..] == a[1..] + b;
      SignedTotalAppend(debitNatured, a[1..], b);
    }
  }

  /** The balance after entry `i` is the opening balance plus the signed amounts of entries 0..i. */
  lemma {:induction false} RunningBalanceClosedForm(balance: int, debitNatured: bool, entries: seq<Entry>, i: nat)
    requires i < |entries|
    ensures RunningBalances(balance, debitNatured, entries)[i] == balance + SignedTotal(debitNatured, entries[..i + 1])
    decreases i
  {
    var next := balance + SignedAmount(debitNatured, entries[0]);
    if i == 0 {
      assert entries[..1][1..] == [];
    } else {
      RunningBalanceClosedForm(next, debitNatured, entries[1..], i - 1);
      assert entries[..i + 1][0] == entries[0];
      assert entries[..i + 1][1..] == entries[1..][..i];
    }
  }

  /** The last balance printed is the opening balance plus all signed amounts. */
  lemma FinalBalance(balance: int, debitNatured: bool, entries: seq<Entry>)
    requires entries != []
    ensures RunningBalances(balance, debitNatured, entries)[|entries| - 1] ==
      balance + SignedTotal(debitNatured, entries)
  {
    RunningBalanceClosedForm(balance, debitNatured, entries, |entries| - 1);
    assert entries[..|entries|] == entries;
  }

  /** `s` with the entries at `i` and `i + 1` exchanged. */
  function SwapAdjacent(s: seq<Entry>, i: nat): (t: seq<Entry>)
    requires i + 1 < |s|
    ensures |t| == |s|
  {
    s[i := s[i + 1]][i + 1 := s[i]]
  }

  /** Past the exchanged pair, the swapped entries add up to the same total. */
  lemma SwapKeepsLaterTotals(debitNatured: bool, s: seq<Entry>, i: nat, j: nat)
    requires i + 1 <= j < |s|
    ensures SignedTotal(debitNatured, SwapAdjacent(s, i)[..j + 1]) == SignedTotal(debitNatured, s[..j + 1])
  {
    var t := SwapAdjacent(s, i);
    var pair, pair' := [s[i], s[i + 1]], [s[i + 1], s[i]];
    var rest := s[i + 2..j + 1];
    assert s[..j + 1] == (s[..i] + pair) + rest;
    assert t[..j + 1] == (s[..i] + pair') + rest;
    SignedTotalAppend(debitNatured, s[..i] + pair, rest);
    SignedTotalAppend(debitNatured, s[..i] + pair', rest);
    SignedTotalAppend(debitNatured, s[..i], pair);
    SignedTotalAppend(debitNatured, s[..i], pair');
    assert SignedTotal(debitNatured, pair) == SignedTotal(debitNatured, pair');
  }

  /**
   * Exchanging two adjacent entries changes only the balance printed between
   * them, and changes it exactly when their signed amounts differ: the fold is
   * order-sensitive, its final value is not.
   */
  lemma SwapChangesOnlyBetween(balance: int, debitNatured: bool, s: seq<Entry>, i: nat)
    requires i + 1 < |s|
    ensures var r, r' := RunningBalances(balance, debitNatured, s), RunningBalances(balance, debitNatured, SwapAdjacent(s, i));
      && (forall j :: 0 <= j < |s| && j != i ==> r'[j] == r[j])
      && (r'[i] == r[i] <==> SignedAmount(debitNatured, s[i]) == SignedAmount(debitNatured, s[i + 1]))
  {
    var t := SwapAdjacent(s, i);
    forall j | 0 <= j < |s| && j != i
      ensures RunningBalances(balance, debitNatured, t)[j] == RunningBalances(balance, debitNatured, s)[j]
    {
      RunningBalanceClosedForm(balance, debitNatured, s, j);
      RunningBalanceClosedForm(balance, debitNatured, t, j);
      if j < i {
        assert t[..j + 1] == s[..j + 1];
      } else {
        SwapKeepsLaterTotals(debitNatured, s, i, j);
      }
    }
    RunningBalanceClosedForm(balance, debitNatured, s, i);
    RunningBalanceClosedForm(balance, debitNatured, t, i);
    assert s[..i + 1] == s[..i] + [s[i]];
    assert t[..i + 1] == s[..i] + [s[i + 1]];
    SignedTotalAppend(debitNatured, s[..i], [s[i]]);
    SignedTotalAppend(debitNatured, s[..i], [s[i + 1]]);
  }

  /** Taking entry `k` out of a sequence takes its signed amount out of the sum. */
  lemma RemoveAt(debitNatured: bool, t: seq<Entry>, k: nat)
    requires k < |t|
    ensures SignedTotal(debitNatured, t) ==
      SignedAmount(debitNatured, t[k]) + SignedTotal(debitNatured, t[..k] + t[k + 1..])
    ensures multiset(t[..k] + t[k + 1..]) == multiset(t) - multiset{t[k]}
  {
    assert t == t[..k] + ([t[k]] + t[k + 1..]);
    SignedTotalAppend(debitNatured, t[..k], [t[k]] + t[k + 1..]);
    SignedTotalAppend(debitNatured, [t[k]], t[k + 1..]);
    SignedTotalAppend(debitNatured, t[..k], t[k + 1..]);
    assert [t[k]][1..] == [];
  }

  /** The sum of signed amounts does not depend on the order of the entries. */
  lemma {:induction false} SignedTotalPermutation(debitNatured: bool, s: seq<Entry>, t: seq<Entry>)
    requires multiset(s) == multiset(t)
    ensures SignedTotal(debitNatured, s) == SignedTotal(debitNatured, t)
    decreases |s|
  {
    if s != [] {
      assert s[0] in multiset(t);
      var k :| 0 <= k < |t| && t[k] == s[0];
      RemoveAt(debitNatured, t, k);
      RemoveAt(debitNatured, s, 0);
      assert s[..0] + s[1..] == s[1..];
      SignedTotalPermutation(debitNatured, s[1..], t[..k] + t[k + 1..]);
    } else {
      assert |t| == |multiset(t)| == 0;
    }
  }

  /**
   * Reordering the entries in any way leaves the final balance as it was: the
   * last balance printed depends only on which entries there are.
   */
  lemma FinalBalanceOrderFree(balance: int, debitNatured: bool, s: seq<Entry>, t: seq<Entry>)
    requires s != [] && multiset(s) == multiset(t)
    ensures |t| == |s|
    ensures RunningBalances(balance, debitNatured, s)[|s| - 1] == RunningBalances(balance, debitNatured, t)[|t| - 1]
  {
    assert |t| == |multiset(t)| == |multiset(s)| == |s|;
    FinalBalance(balance, debitNatured, s);
    FinalBalance(balance, debitNatured, t);
    SignedTotalPermutation(debitNatured, s, t);
  }

  /** `s` with the entries at `i` and `j` exchanged. */
  function SwapAt(s: seq<Entry>, i: nat, j: nat): (t: seq<Entry>)
    requires i < j < |s|
    ensures |t| == |s| && multiset(t) == multiset(s)
    ensures t[i] == s[j] && t[j] == s[i]
    ensures forall k :: 0 <= k < |s| && k != i && k != j ==> t[k] == s[k]
  {
    s[i := s[j]][j := s[i]]
  }

  /**
   * Exchanging the entries at positions `i < j`, at any distance: balances
   * before `i` and from `j` on are unchanged, and every balance from `i` up to
   * (not including) `j` moves by the difference of the two signed amounts.
   */
  lemma SwapShiftsBetween(balance: int, debitNatured: bool, s: seq<Entry>, i: nat, j: nat)
    requires i < j < |s|
    ensures var r, r' := RunningBalances(balance, debitNatured, s), RunningBalances(balance, debitNatured, SwapAt(s, i, j));
      && (forall k :: 0 <= k < |s| && (k < i || j <= k) ==> r'[k] == r[k])
      && (forall k :: i <= k < j ==>
            r'[k] == r[k] + SignedAmount(debitNatured, s[j]) - SignedAmount(debitNatured, s[i]))
  {
    var t := SwapAt(s, i, j);
    forall k | 0 <= k < |s|
      ensures RunningBalances(balance, debitNatured, t)[k] ==
        RunningBalances(balance, debitNatured, s)[k] +
        (if i <= k < j then SignedAmount(debitNatured, s[j]) - SignedAmount(debitNatured, s[i]) else 0)
    {
      RunningBalanceClosedForm(balance, debitNatured, s, k);
      RunningBalanceClosedForm(balance, debitNatured, t, k);
      if k < i {
        assert t[..k + 1] == s[..k + 1];
      } else if j <= k {
        assert t[..k + 1] == t[..k + 1][i := s[j]][j := s[i]] == SwapAt(s[..k + 1], i, j);
        SignedTotalPermutation(debitNatured, s[..k + 1], t[..k + 1]);
      } else {
        var mid := s[i + 1..k + 1];
        assert s[..k + 1] == s[..i] + ([s[i]] + mid);
        assert t[..k + 1] == s[..i] + ([s[j]] + mid);
        SignedTotalAppend(debitNatured, s[..i], [s[i]] + mid);
        SignedTotalAppend(debitNatured, s[..i], [s[j]] + mid);
        SignedTotalAppend(debitNatured, [s[i]], mid);
        SignedTotalAppend(debitNatured, [s[j]], mid);
        assert [s[i]][1..] == [] && [s[j]][1..] == [];
      }
    }
  }

  /**
   * A debit and a credit exchanged at any distance, their amounts not
   * cancelling out: every balance printed from the first of them up to the
   * second changes, the final balance does not.
   */
  lemma SwapDebitCreditAnywhere(balance: int, debitNatured: bool, s: seq<Entry>, i: nat, j: nat)
    requires i < j < |s|
    requires s[i].kind == "D" && s[j].kind != "D"
    requires s[i].amount + s[j].amount != 0
    ensures var r, r' := RunningBalances(balance, debitNatured, s), RunningBalances(balance, debitNatured, SwapAt(s, i, j));
      && (forall k :: i <= k < j ==> r'[k] != r[k])
      && r'[|s| - 1] == r[|s| - 1]
  {
    SwapShiftsBetween(balance, debitNatured, s, i, j);
  }

  /**
   * The case the test script's comments describe: exchanging a debit with a
   * following credit (amounts not cancelling out) changes the balance printed
   * between them but not the final balance.
   */
  lemma SwapDebitCredit(balance: int, debitNatured: bool, s: seq<Entry>, i: nat)
    requires i + 1 < |s|
    requires s[i].kind == "D" && s[i + 1].kind != "D"
    requires s[i].amount + s[i + 1].amount != 0
    ensures var r, r' := RunningBalances(balance, debitNatured, s), RunningBalances(balance, debitNatured, SwapAdjacent(s, i));
      r'[i] != r[i] && r'[|s| - 1] == r[|s| - 1]
  {
    SwapChangesOnlyBetween(balance, debitNatured, s, i);
  }
}
