/**
 * The test script's two hand-made accounts, already grouped: a debit-natured
 * cash account and a credit-natured supplier account. Amounts are in cents.
 */
module TestFixtures {
  import opened Records
  import opened AccountCode
  import opened Balance
  import opened Ledger

  const CashAccount := "111110101010101"

  const CashGroup := AccountGroup("CAIXA GERAL", 100000, [
    Entry(CashAccount, "2023-12-01", "D", "Recebimento de transferência", "1001", "100", 50000),
    Entry(CashAccount, "2023-12-05", "C", "Pagamento de despesa", "1002", "100", 20000),
    Entry(CashAccount, "2023-12-10", "D", "Recebimento de ICMS", "1003", "101", 30000)
  ])

  const SupplierAccount := "211110101010101"

  const SupplierGroup := AccountGroup("FORNECEDORES NACIONAIS", 500000, [
    Entry(SupplierAccount, "2023-12-02", "C", "Registro de dívida com fornecedor", "2001", "200", 100000),
    Entry(SupplierAccount, "2023-12-15", "D", "Pagamento a fornecedor", "2002", "200", 80000)
  ])

  /** A 15-digit key formats as the mask of its own digits. */
  lemma FormatOfFullCode(code: string)
    requires |code| == CodeWidth && AllDigits(code)
    ensures Format(code) == Mask(code)
  {
    assert PadLeft(Digits(code), CodeWidth, '0') == code;
  }

  lemma CashMask()
    ensures Mask(CashAccount) == "1.1.1.1.1.01.01.01.01.01"
  {
    var s := CashAccount;
    assert s[0..1] == "1";
    assert s[1..2] == "1";
    assert s[2..3] == "1";
    assert s[3..4] == "1";
    assert s[4..5] == "1";
    assert s[5..7] == "01";
    assert s[7..9] == "01";
    assert s[9..11] == "01";
    assert s[11..13] == "01";
    assert s[13..15] == "01";
    var m := s[0..1] + "." + s[1..2];
    assert m == "1.1";
    m := m + "." + s[2..3];
    assert m == "1.1.1";
    m := m + "." + s[3..4];
    assert m == "1.1.1.1";
    m := m + "." + s[4..5];
    assert m == "1.1.1.1.1";
    m := m + "." + s[5..7];
    assert m == "1.1.1.1.1.01";
    m := m + "." + s[7..9];
    assert m == "1.1.1.1.1.01.01";
    m := m + "." + s[9..11];
    assert m == "1.1.1.1.1.01.01.01";
    m := m + "." + s[11..13];
    assert m == "1.1.1.1.1.01.01.01.01";
    m := m + "." + s[13..15];
    assert m == "1.1.1.1.1.01.01.01.01.01";
  }

  lemma SupplierMask()
    ensures Mask(SupplierAccount) == "2.1.1.1.1.01.01.01.01.01"
  {
    var s := SupplierAccount;
    assert s[0..1] == "2";
    assert s[1..2] == "1";
    assert s[2..3] == "1";
    assert s[3..4] == "1";
    assert s[4..5] == "1";
    assert s[5..7] == "01";
    assert s[7..9] == "01";
    assert s[9..11] == "01";
    assert s[11..13] == "01";
    assert s[13..15] == "01";
    var m := s[0..1] + "." + s[1..2];
    assert m == "2.1";
    m := m + "." + s[2..3];
    assert m == "2.1.1";
    m := m + "." + s[3..4];
    assert m == "2.1.1.1";
    m := m + "." + s[4..5];
    assert m == "2.1.1.1.1";
    m := m + "." + s[5..7];
    assert m == "2.1.1.1.1.01";
    m := m + "." + s[7..9];
    assert m == "2.1.1.1.1.01.01";
    m := m + "." + s[9..11];
    assert m == "2.1.1.1.1.01.01.01";
    m := m + "." + s[11..13];
    assert m == "2.1.1.1.1.01.01.01.01";
    m := m + "." + s[13..15];
    assert m == "2.1.1.1.1.01.01.01.01.01";
  }

  /** The cash account's key in the chart-of-accounts mask. */
  lemma CashCodeFormat()
    ensures Format(CashAccount) == "1.1.1.1.1.01.01.01.01.01"
  {
    FormatOfFullCode(CashAccount);
    CashMask();
  }

  /** The supplier account's key in the chart-of-accounts mask. */
  lemma SupplierCodeFormat()
    ensures Format(SupplierAccount) == "2.1.1.1.1.01.01.01.01.01"
  {
    FormatOfFullCode(SupplierAccount);
    SupplierMask();
  }

  /** Cash account, debit-natured: a debit raises the balance and a credit lowers it. */
  lemma CashFixtureBalances()
    ensures IsDebitNatured(CashAccount)
    ensures RunningBalances(CashGroup.opening, true, CashGroup.entries) == [150000, 130000, 160000]
  {
    var es := CashGroup.entries;
    assert es[1..][1..] == es[2..] == [es[2]];
    assert RunningBalances(130000, true, es[2..]) == [160000];
    assert RunningBalances(150000, true, es[1..]) == [130000, 160000];
  }

  /** Supplier account, credit-natured: a credit raises the balance and a debit lowers it. */
  lemma SupplierFixtureBalances()
    ensures !IsDebitNatured(SupplierAccount)
    ensures RunningBalances(SupplierGroup.opening, false, SupplierGroup.entries) == [600000, 520000]
  {
    var es := SupplierGroup.entries;
    assert es[1..] == [es[1]];
  }

  /** Putting the cash account's credit before its first debit changes the first balance only. */
  lemma CashFixtureSwapped()
    ensures RunningBalances(CashGroup.opening, true, SwapAdjacent(CashGroup.entries, 0)) == [80000, 130000, 160000]
  {
    var es := SwapAdjacent(CashGroup.entries, 0);
    assert es == [CashGroup.entries[1], CashGroup.entries[0], CashGroup.entries[2]];
    assert es[1..][1..] == es[2..] == [es[2]];
    assert RunningBalances(130000, true, es[2..]) == [160000];
    assert RunningBalances(80000, true, es[1..]) == [130000, 160000];
  }

  /** Every fixture history fits in a row, so truncating it changes nothing. */
  lemma FixtureHistoriesFit()
    ensures forall e :: e in CashGroup.entries ==> TruncateHistory(e.history) == e.history
    ensures forall e :: e in SupplierGroup.entries ==> TruncateHistory(e.history) == e.history
  {
    forall e | e in CashGroup.entries + SupplierGroup.entries
      ensures TruncateHistory(e.history) == e.history
    {
      TruncateHistoryFits(e.history);
    }
  }

  /** The cash section ends on the hand-computed final balance. */
  lemma CashSectionFinal(s: Section)
    requires SectionMatches(s, CashAccount, CashGroup)
    ensures |s.rows| == 3 && s.rows[2].balance == 160000
  {
    CashFixtureBalances();
  }

  /** The supplier section ends on the hand-computed final balance. */
  lemma SupplierSectionFinal(s: Section)
    requires SectionMatches(s, SupplierAccount, SupplierGroup)
    ensures |s.rows| == 2 && s.rows[1].balance == 520000
  {
    SupplierFixtureBalances();
  }

  /**
   * The test script's account loop over its two fixtures, in the order they
   * are written: two sections, each with one row per entry after its opening
   * line, whose balances are those of `CashFixtureBalances` and
   * `SupplierFixtureBalances`. That loop prints the history untruncated,
   * which is the same thing here (`FixtureHistoriesFit`).
   */
  method FixtureLedger() returns (sections: seq<Section>)
    ensures |sections| == 2
    ensures SectionMatches(sections[0], CashAccount, CashGroup)
    ensures SectionMatches(sections[1], SupplierAccount, SupplierGroup)
    ensures |sections[0].rows| == 3 && |sections[1].rows| == 2
  {
    assert CashAccount[0] != SupplierAccount[0];
    var groups := map[CashAccount := CashGroup, SupplierAccount := SupplierGroup];
    assert groups[CashAccount] == CashGroup && groups[SupplierAccount] == SupplierGroup;
    var order := [CashAccount, SupplierAccount];
    sections := BuildLedger(groups, order);
  }
}
