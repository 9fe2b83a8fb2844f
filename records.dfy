/**
 * The rows the two queries return and the per-account aggregate built from
 * them. Money is held in integer cents.
 */
module Records {

  /** A row of `bal_ver`: an account's description and opening balance. */
  datatype BalanceRow = BalanceRow(code: string, description: string, opening: int)

  /**
   * A row of `tce_4111`: one journal entry. `kind` is `tipo_lancamento` as
   * fetched ("D" for a debit; the script treats every other value as a credit).
   */
  datatype Entry = Entry(
    code: string,
    date: string,
    kind: string,
    history: string,
    entryNumber: string,
    batchNumber: string,
    amount: int)

  /** One value of `$contasAgrupadas`: description, opening balance and the account's entries. */
  datatype AccountGroup = AccountGroup(description: string, opening: int, entries: seq<Entry>)
}
