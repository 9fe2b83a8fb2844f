/**
 * The ledger the script prints, without its page layout: a header (year and
 * entity name) and, per account in array order, a title line, the opening
 * balance and one row per entry carrying the running balance.
 */
module Ledger {
  import opened Wrappers
  import opened Records
  import opened AccountCode
  import opened Entity
  import opened InputValidation
  import opened Grouping
  import opened Balance

  /** Number of characters of an entry's history that a row shows. */
  const HistoryWidth := 40

  /** `mb_substr(history, 0, 40)`: the first 40 characters, or all of a shorter text. */
  function TruncateHistory(h: string): (r: string)
    ensures |r| == if |h| < HistoryWidth then |h| else HistoryWidth
  {
    h[..if |h| < HistoryWidth then |h| else HistoryWidth]
  }

  /**
   * The printed history is a prefix of the stored one; truncation leaves a
   * text alone exactly when it fits, and a second truncation changes nothing.
   */
  lemma TruncateHistoryFits(h: string)
    ensures TruncateHistory(h) <= h
    ensures TruncateHistory(h) == h <==> |h| <= HistoryWidth
    ensures TruncateHistory(TruncateHistory(h)) == TruncateHistory(h)
  {
    if |h| > HistoryWidth {
      assert |TruncateHistory(h)| != |h|;
    }
  }

  /** One printed entry row. */
  datatype Row = Row(
    date: string,
    kind: string,
    history: string,
    entryNumber: string,
    batchNumber: string,
    amount: int,
    balance: int)

  /** One account's part of the ledger. */
  datatype Section = Section(title: string, opening: int, rows: seq<Row>)

  datatype LedgerError = InvalidPeriod | InvalidEntity | NoOpeningBalances

  datatype LedgerDocument = LedgerDocument(year: string, entityName: string, sections: seq<Section>)

  /** The title line of an account: its formatted code and its description. */
  function Title(code: string, description: string): (r: string)
    ensures |r| == FormattedWidth + 3 + |description|
    ensures r[..FormattedWidth] == Format(code)
    ensures r[FormattedWidth..FormattedWidth + 3] == " - "
    ensures r[FormattedWidth + 3..] == description
  {
    Format(code) + " - " + description
  }

  /** The row printed for entry `e` when the balance after it is `balance`. */
  function RowFor(e: Entry, balance: int): (r: Row)
    ensures r.balance == balance && r.amount == e.amount && r.kind == e.kind
    ensures r.date == e.date && r.entryNumber == e.entryNumber && r.batchNumber == e.batchNumber
    ensures r.history == TruncateHistory(e.history) && |r.history| <= HistoryWidth
  {
    Row(e.date, e.kind, TruncateHistory(e.history), e.entryNumber, e.batchNumber, e.amount, balance)
  }

  /**
   * `s` is what the script prints for account `code`: the formatted code and
   * description as title, the opening balance, and one row per entry, in entry
   * order, with the running balance after that entry.
   */
  ghost predicate SectionMatches(s: Section, code: string, g: AccountGroup) {
    && s.title == Title(code, g.description)
    && s.opening == g.opening
    && |s.rows| == |g.entries|
    && forall j :: 0 <= j < |s.rows| ==>
         s.rows[j] == RowFor(g.entries[j], RunningBalances(g.opening, IsDebitNatured(code), g.entries)[j])
  }

  /**
   * The branch inside the per-account loop: a debit-natured account goes up
   * on a debit and down otherwise, a credit-natured one the other way round.
   */
  method MoveBalance(debitNatured: bool, current: int, e: Entry) returns (next: int)
    ensures next == current + SignedAmount(debitNatured, e)
    ensures next - current == e.amount || current - next == e.amount
  {
    if debitNatured {
      if e.kind == "D" {
        next := current + e.amount;
      } else {
        next := current - e.amount;
      }
    } else {
      if e.kind == "D" {
        next := current - e.amount;
      } else {
        next := current + e.amount;
      }
    }
  }

  /** `rows` are the rows printed for the first `|rows|` entries, given their balances. */
  ghost predicate RowsSoFar(rows: seq<Row>, entries: seq<Entry>, balances: seq<int>)
  {
    && |rows| <= |entries| && |rows| <= |balances|
    && forall j :: 0 <= j < |rows| ==> rows[j] == RowFor(entries[j], balances[j])
  }

  lemma RowsSoFarStep(rows: seq<Row>, entries: seq<Entry>, balances: seq<int>)
    requires RowsSoFar(rows, entries, balances)
    requires |rows| < |entries| && |rows| < |balances|
    ensures RowsSoFar(rows + [RowFor(entries[|rows|], balances[|rows|])], entries, balances)
  {
  }

  /**
   * The loop over one account's entries: the balance starts at the opening
   * balance and each entry moves it by its amount, up or down according to the
   * account's nature and the entry's type; each entry prints one row.
   */
  method EntryRows(opening: int, debitNatured: bool, entries: seq<Entry>) returns (rows: seq<Row>)
    ensures |rows| == |entries|
    ensures forall j :: 0 <= j < |rows| ==>
      rows[j] == RowFor(entries[j], RunningBalances(opening, debitNatured, entries)[j])
  {
    var current := opening;
    ghost var balances := RunningBalances(opening, debitNatured, entries);
    rows := [];
    for k := 0 to |entries|
      invariant |rows| == k
      invariant RowsSoFar(rows, entries, balances)
      invariant current == if k == 0 then opening else balances[k - 1]
    {
      var e := entries[k];
      RunningBalanceAt(opening, debitNatured, entries, k);
      current := MoveBalance(debitNatured, current, e);
      RowsSoFarStep(rows, entries, balances);
      rows := rows + [RowFor(e, current)];
    }
  }

  /**
   * The body of the per-account loop: the title line, the opening balance and
   * the entry rows of an account, whose nature comes from its first digit.
   */
  method AccountSection(code: string, g: AccountGroup) returns (s: Section)
    ensures SectionMatches(s, code, g)
  {
    var title := Title(code, g.description);
    var debitNatured := IsDebitNatured(code);
    var rows := EntryRows(g.opening, debitNatured, g.entries);
    s := Section(title, g.opening, rows);
  }

  /**
   * Each printed balance is the previous one (the opening balance for the
   * first row) moved by that row's entry.
   */
  lemma SectionSteps(s: Section, code: string, g: AccountGroup)
    requires SectionMatches(s, code, g)
    ensures forall j :: 0 <= j < |s.rows| ==>
      s.rows[j].balance == (if j == 0 then g.opening else s.rows[j - 1].balance) +
                           SignedAmount(IsDebitNatured(code), g.entries[j])
  {
    forall j | 0 <= j < |s.rows|
      ensures s.rows[j].balance == (if j == 0 then g.opening else s.rows[j - 1].balance) +
                                   SignedAmount(IsDebitNatured(code), g.entries[j])
    {
      RunningBalanceAt(g.opening, IsDebitNatured(code), g.entries, j);
    }
  }

  /**
   * In a printed section the balance after entry `j` is the opening balance
   * plus the signed amounts of entries 0..j; the last row carries the opening
   * balance plus all of them.
   */
  lemma SectionBalances(s: Section, code: string, g: AccountGroup)
    requires SectionMatches(s, code, g)
    ensures forall j :: 0 <= j < |s.rows| ==>
      s.rows[j].balance == g.opening + SignedTotal(IsDebitNatured(code), g.entries[..j + 1])
    ensures s.rows != [] ==>
      s.rows[|s.rows| - 1].balance == g.opening + SignedTotal(IsDebitNatured(code), g.entries)
  {
    forall j | 0 <= j < |s.rows|
      ensures s.rows[j].balance == g.opening + SignedTotal(IsDebitNatured(code), g.entries[..j + 1])
    {
      RunningBalanceClosedForm(g.opening, IsDebitNatured(code), g.entries, j);
    }
    if s.rows != [] {
      assert g.entries[..|s.rows|] == g.entries;
    }
  }

  /** `sections` are the sections printed for the first `|sections|` codes of `order`. */
  ghost predicate SectionsSoFar(sections: seq<Section>, groups: map<string, AccountGroup>, order: seq<string>)
  {
    && |sections| <= |order|
    && forall j :: 0 <= j < |sections| ==>
         order[j] in groups && SectionMatches(sections[j], order[j], groups[order[j]])
  }

  lemma SectionsSoFarStep(sections: seq<Section>, groups: map<string, AccountGroup>, order: seq<string>, s: Section)
    requires SectionsSoFar(sections, groups, order)
    requires |sections| < |order| && order[|sections|] in groups
    requires SectionMatches(s, order[|sections|], groups[order[|sections|]])
    ensures SectionsSoFar(sections + [s], groups, order)
  {
    var next := sections + [s];
    forall j | 0 <= j < |next|
      ensures order[j] in groups && SectionMatches(next[j], order[j], groups[order[j]])
    {
      if j < |sections| {
        assert next[j] == sections[j];
      }
    }
  }

  /** The loop over `$contasAgrupadas`: one section per account, in array order. */
  method BuildLedger(groups: map<string, AccountGroup>, order: seq<string>) returns (sections: seq<Section>)
    requires forall c :: c in order ==> c in groups
    ensures |sections| == |order|
    ensures forall i :: 0 <= i < |order| ==> SectionMatches(sections[i], order[i], groups[order[i]])
  {
    sections := [];
    for i := 0 to |order|
      invariant |sections| == i
      invariant SectionsSoFar(sections, groups, order)
    {
      var s := AccountSection(order[i], groups[order[i]]);
      SectionsSoFarStep(sections, groups, order, s);
      sections := sections + [s];
    }
  }

  /**
   * The script from its two prompts to the finished ledger, given the rows the
   * two queries return: a bad period or entity stops it before any query, no
   * opening balance stops it after the first, and otherwise every account with
   * an opening balance gets a section, in order of first appearance.
   */
  method GenerateLedger(periodLine: string, entityLine: string, balances: seq<BalanceRow>, entries: seq<Entry>)
    returns (r: Result<LedgerDocument, LedgerError>)
    ensures ParsePeriod(periodLine).None? ==> r == Failure(InvalidPeriod)
    ensures ParsePeriod(periodLine).Some? && ParseEntity(entityLine).None? ==> r == Failure(InvalidEntity)
    ensures ParsePeriod(periodLine).Some? && ParseEntity(entityLine).Some? && balances == [] ==>
      r == Failure(NoOpeningBalances)
    ensures r.Success? <==> ParsePeriod(periodLine).Some? && ParseEntity(entityLine).Some? && balances != []
    ensures r.Success? ==>
      && r.value.year == ParsePeriod(periodLine).value.year
      && r.value.entityName == Translate(ParseEntity(entityLine).value)
      && |r.value.sections| == |DistinctCodes(balances)|
    ensures r.Success? ==> forall i :: 0 <= i < |r.value.sections| ==>
      var c := DistinctCodes(balances)[i];
      LastRowFor(balances, c).Some? && SectionMatches(r.value.sections[i], c, GroupFor(balances, entries, c))
  {
    var period := ParsePeriod(periodLine);
    if period.None? {
      return Failure(InvalidPeriod);
    }
    var entity := ParseEntity(entityLine);
    if entity.None? {
      return Failure(InvalidEntity);
    }
    if |balances| == 0 {
      return Failure(NoOpeningBalances);
    }
    var groups, order := GroupAccounts(balances, entries);
    var sections := BuildLedger(groups, order);
    r := Success(LedgerDocument(period.value.year, Translate(entity.value), sections));
  }
}
