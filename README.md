# Ledger ("Livro Razão") generator — bookkeeping core

This project models the bookkeeping logic of a PHP script that prints a general ledger ("Livro Razão") for a municipal entity and one period. The script:

- reads a period (`YYYYMM`) and an entity code (`pm`, `cm` or `fpsm`) from the operator;
- fetches the opening balances of the accounts (`bal_ver`) and the journal entries (`tce_4111`);
- groups the entries by account code;
- prints one section per account: the formatted account code and description, the opening balance, and one row per entry with the running balance after that entry.

It also models the companion test script, which runs the same balance loop over two hand-made accounts.

Modules:

- `AccountCode`: the account-code formatter `formatarContaContabil`. It keeps the digits, left-pads them with `'0'` to 15 characters and prints them in the mask `#.#.#.#.#.##.##.##.##.##`.
- `Entity`: the entity translator `traduzirEntidade` and an ASCII `strtolower`.
- `InputValidation`: PHP `trim`, the period check and the entity check.
- `Records`: the rows of the two queries and the per-account aggregate.
- `Grouping`: the two loops that build `$contasAgrupadas`.
  - The PHP ordered array is a `map` together with its key order (`seq`).
  - Assigning an existing key again keeps its place and replaces its values.
- `Balance`: the account's nature, taken from the first character of its raw code, and the running balance as a left fold, with its closed form.
- `Ledger`: the per-account loop and the whole script.
  - The per-account loop is a method whose `$saldoAtual` loop is proved against the fold.
  - The whole script goes from its two input lines and the two query results either to a ledger document or to the error that stops it.
- `TestFixtures`: the test script's two accounts and the balances it prints for them.

Money is held as integer cents.

Three behaviours of the code are easy to miss; the model keeps them:

- An account code with more than 15 digits is not an error. The mask shows its first 15 digits.
- An entry type other than `"D"` is not an error. It is treated as a credit.
- An entry whose account has no opening balance is dropped without notice.

## Model

| member | source | states |
|---|---|---|
| AccountCode.Digits | gerar_livro_razao.php:27 | The digit filter returns only digits, never lengthens its input, and leaves an all-digit string unchanged. |
| AccountCode.DigitsChar | gerar_livro_razao.php:27 | On a single character the filter keeps a digit and drops anything else; with `DigitsAppend` this fixes the filter on every input. |
| AccountCode.PadLeft | gerar_livro_razao.php:30 | Left padding reaches the width, never shortens a longer string, keeps the input as the suffix and fills the prefix with the pad character. |
| AccountCode.CodeDigits | gerar_livro_razao.php:30-42 | The digits the mask shows are always exactly 15 digits. |
| AccountCode.Mask | gerar_livro_razao.php:33-42 | The ten substring pieces joined by nine dots always make 24 characters; `MaskShape` gives each character. |
| AccountCode.MaskShape | gerar_livro_razao.php:33-42 | Position by position, the mask holds a dot at the nine dot positions and, everywhere else, the digit of the padded code that the mask places there. |
| AccountCode.Format | gerar_livro_razao.php:25-45 | Every formatted code is 24 characters long. |
| AccountCode.FormatShape | gerar_livro_razao.php:25-45 | For every input, the output has a dot exactly at positions 1,3,5,7,9,12,15,18,21 and a digit everywhere else. Each digit is the one the mask takes from the 15 digits shown. The test script's copy of the formatter is the same function. |
| AccountCode.CodeDigitsValue | gerar_livro_razao.php:27-42 | The 15 digits shown are the input's digits left-padded with `'0'` when there are at most 15, and the first 15 of them otherwise. |
| AccountCode.FormatRoundTrip | gerar_livro_razao.php:27-42 | Removing the dots from the output gives back exactly those 15 digits. |
| AccountCode.MaskDigits | gerar_livro_razao.php:33-42 | The digits of the mask of a digit string are its first 15 characters. |
| AccountCode.DigitsAppend | gerar_livro_razao.php:27 | The digit filter distributes over concatenation. |
| AccountCode.FormatIgnoresNonDigits | gerar_livro_razao.php:27 | An input formats like its own digit string. |
| AccountCode.FormatDependsOnlyOnDigits | gerar_livro_razao.php:27 | Two inputs with the same digit subsequence format identically. |
| AccountCode.FormatIgnoresInsertedChar | gerar_livro_razao.php:27 | Inserting a non-digit character anywhere leaves the output unchanged. |
| Entity.LowerChar | gerar_livro_razao.php:57 | A capital ASCII letter becomes its lower-case letter, every other character is kept, and the result is never a capital letter. |
| Entity.Lower | gerar_livro_razao.php:57 | Lower-casing keeps the length and lower-cases each character separately. |
| Entity.Translate | gerar_livro_razao.php:50-58 | A code whose lower-cased form is in the table translates to its display name. The result equals the input exactly when the code is unknown. |
| Entity.TranslateCaseInsensitive | gerar_livro_razao.php:57 | Two spellings of a code that differ only in letter case translate alike. An unknown code comes back unchanged. |
| Entity.TranslateExamples | gerar_livro_razao.php:51-57 | `PM` and `pm` translate to `Prefeitura`, `Cm` to `Câmara` and `FPSM` to `RPPS`; `xx` stays `xx`. |
| InputValidation.TrimLeft | gerar_livro_razao.php:125 | Only blanks are removed from the front, and the result starts with a non-blank. |
| InputValidation.TrimRight | gerar_livro_razao.php:125 | Only blanks are removed from the end, and the result ends with a non-blank. |
| InputValidation.Trim | gerar_livro_razao.php:125 | The result has no blank at either end, and a text without blank ends is left as it is. |
| InputValidation.TrimLeftSlice | gerar_livro_razao.php:125 | Trimming the front keeps a suffix of the line, and everything cut before it is blank. |
| InputValidation.TrimRightSlice | gerar_livro_razao.php:125 | Trimming the end keeps a prefix of the line, and everything cut after it is blank. |
| InputValidation.TrimAllBlank | gerar_livro_razao.php:125 | A line made only of blanks trims to the empty string. |
| InputValidation.TrimSurrounded | gerar_livro_razao.php:125 | Trimming removes exactly the blanks around a text whose ends are not blank. |
| InputValidation.MatchesPeriodPattern | gerar_livro_razao.php:127 | `^\d{6}$` matches a six-character text exactly when it is all digits; any match starts with six digits, and the only longer match is six digits followed by one newline (PCRE's `$` without the D modifier). |
| InputValidation.ParsePeriod | gerar_livro_razao.php:125-132 | A period is accepted if and only if the trimmed line is exactly six digits. The year is its first four characters and the month its last two. |
| InputValidation.PeriodWithNewline | gerar_livro_razao.php:125-131 | `202312` followed by a newline is accepted as year `2023`, month `12`. |
| InputValidation.PeriodRefused | gerar_livro_razao.php:127-129 | `20231` and `2023-12` are refused. |
| InputValidation.ParseEntity | gerar_livro_razao.php:143-147 | An entity is accepted if and only if its trimmed, lower-cased form is `pm`, `cm` or `fpsm`. The accepted code is that lower-cased form and has a display name. |
| InputValidation.EntityAccepted | gerar_livro_razao.php:143-147 | ` FPSM` followed by a newline is accepted as `fpsm`. |
| InputValidation.EntityRefused | gerar_livro_razao.php:145-147 | `xx` is refused. |
| Grouping.LastRowFor | gerar_livro_razao.php:217-224 | A code has a slot if and only if some opening-balance row has that code. The slot's row is the last such row. |
| Grouping.EntriesWithCode | gerar_livro_razao.php:227-232 | The entries selected for a code are entries of that code, and every entry of that code is among them. |
| Grouping.EntriesWithCodeAppend | gerar_livro_razao.php:227-232 | Selecting by code commutes with concatenation, so each slot keeps fetch order. |
| Grouping.DistinctCodes | gerar_livro_razao.php:214-224 | The key order has no repeats and holds exactly the codes of the opening-balance rows. |
| Grouping.FirstIndex | gerar_livro_razao.php:217-219 | The first row carrying a code: it has that code and no earlier row does. |
| Grouping.DistinctCodesOrder | gerar_livro_razao.php:217-224 | The key order is the order in which the codes first appear among the opening-balance rows. |
| Grouping.OpeningSlots | gerar_livro_razao.php:217-224 | The first loop leaves one slot per distinct code, holding the last row's description and balance and no entries. Its keys are in order of first appearance. |
| Grouping.AppendEntries | gerar_livro_razao.php:227-232 | The second loop keeps the same keys and appends to each slot exactly the entries of its code, in fetch order. Entries of other codes are dropped. |
| Grouping.GroupAccounts | gerar_livro_razao.php:214-232 | There is a slot for every code with an opening balance, with the last row's values and exactly that code's entries in fetch order. The key order is the order of first appearance. An entry without an opening balance appears in no slot. |
| Balance.FirstDigitValue | gerar_livro_razao.php:282 | `(int)` of the first character is a single digit value. |
| Balance.IsDebitNatured | gerar_livro_razao.php:282-283 | An account is debit-natured exactly when its raw code starts with `1`, `3`, `5`, `7` or `9`. An empty code or one starting with a non-digit is credit-natured. |
| Balance.SignedAmount | gerar_livro_razao.php:317-329 | An entry adds its amount when the account is debit-natured and the entry is exactly `"D"`, or when the account is credit-natured and the entry is anything else. Otherwise it subtracts its amount. |
| Balance.RunningBalances | gerar_livro_razao.php:274-329 | The fold of `$saldoAtual` over the entries yields exactly one balance per entry; `RunningBalancesStep` and `RunningBalanceClosedForm` give each balance. |
| Balance.RunningBalancesStep | gerar_livro_razao.php:274-329 | One balance per entry. The first is the opening balance moved by the first entry, and each later one is the previous one moved by its entry. |
| Balance.RunningBalanceAt | gerar_livro_razao.php:317-329 | The balance after entry `i` is the one before it moved by entry `i`. |
| Balance.SignedTotalAppend | gerar_livro_razao.php:274-329 | The sum of signed amounts over a concatenation is the sum of the two sums. |
| Balance.RunningBalanceClosedForm | gerar_livro_razao.php:274-329 | The balance after entry `i` is the opening balance plus the signed amounts of entries 0 to `i`. |
| Balance.FinalBalance | gerar_livro_razao.php:274-329 | The last balance is the opening balance plus the signed amounts of all entries. |
| Balance.SwapKeepsLaterTotals | teste_pdf.php:175-195 | After an exchange of two adjacent entries, the sums up to any later entry are unchanged. |
| Balance.SwapChangesOnlyBetween | teste_pdf.php:175-195 | Exchanging two adjacent entries changes only the balance between them. It changes that balance exactly when their signed amounts differ. |
| Balance.SwapDebitCredit | teste_pdf.php:175-195 | Exchanging a debit with a following credit changes the balance between them but not the final balance, unless the two amounts cancel out. |
| Balance.RemoveAt | gerar_livro_razao.php:274-329 | Taking one entry out of a sequence takes its signed amount out of the sum and that entry out of the multiset. |
| Balance.SignedTotalPermutation | gerar_livro_razao.php:274-329 | Two sequences holding the same entries, in any order, have the same sum of signed amounts. |
| Balance.FinalBalanceOrderFree | teste_pdf.php:175-195 | Any reordering of an account's entries leaves the final balance unchanged. |
| Balance.SwapAt | teste_pdf.php:175-195 | Exchanging the entries at two positions keeps the same entries, puts each at the other's place and leaves all others where they were. |
| Balance.SwapShiftsBetween | teste_pdf.php:175-195 | Exchanging the entries at positions `i < j`, at any distance, leaves the balances before `i` and from `j` on unchanged and moves each balance from `i` up to `j` by the difference of their signed amounts. |
| Balance.SwapDebitCreditAnywhere | teste_pdf.php:175-195 | Exchanging a debit with a later credit, their amounts not cancelling out, changes every balance from the first of them up to the second, but not the final balance. |
| Ledger.TruncateHistory | gerar_livro_razao.php:334 | The printed history is `min(40, length)` characters long. |
| Ledger.TruncateHistoryFits | gerar_livro_razao.php:334 | The printed history is a prefix of the stored one. It equals the stored one exactly when that fits in 40 characters, and truncating it again changes nothing. |
| Ledger.MoveBalance | gerar_livro_razao.php:317-329 | The nested branch moves the current balance by the entry's signed amount, so the balance changes by exactly the entry's amount, up or down. |
| Ledger.Title | gerar_livro_razao.php:254-255 | The title line is the 24-character formatted code, then ` - `, then the account's description. |
| Ledger.RowFor | gerar_livro_razao.php:334-343 | A printed row carries the entry's date, type, entry number, batch number and amount, the given running balance, and the history truncated to at most 40 characters (`TruncateHistoryFits` gives its contents). |
| Ledger.EntryRows | gerar_livro_razao.php:274-344 | The entry loop prints one row per entry, in entry order. Each row holds the entry's fields, the truncated history and the running balance after that entry. On the test script's fixtures, whose histories fit in 40 characters, the test script's balance loop prints the same rows (`TestFixtures.FixtureHistoriesFit`); that loop does not truncate. |
| Ledger.AccountSection | gerar_livro_razao.php:246-344 | An account's section has the formatted code and description as title, the opening balance, and the rows of its entries. The balance rule follows the raw code's first digit. |
| Ledger.SectionSteps | gerar_livro_razao.php:274-329 | In a printed section, each balance is the previous one (the opening balance for the first row) moved by that row's entry. |
| Ledger.SectionBalances | gerar_livro_razao.php:274-329 | In a printed section, the balance after entry `j` is the opening balance plus the signed amounts up to `j`, and the last row carries the opening balance plus all of them. |
| Ledger.BuildLedger | gerar_livro_razao.php:246-347 | One section per account, in array order, each being that account's section. |
| Ledger.GenerateLedger | gerar_livro_razao.php:125-347 | The script ends with the first error that applies, in this order: invalid period, invalid entity, no opening balances. Otherwise it yields a ledger for the parsed year and translated entity, with one section per distinct account code in order of first appearance. Each section is built from the last opening-balance row and that code's entries. |
| TestFixtures.FormatOfFullCode | teste_pdf.php:16-32 | A 15-digit key formats as the mask of its own digits. |
| TestFixtures.CashCodeFormat | teste_pdf.php:74 | `111110101010101` formats to `1.1.1.1.1.01.01.01.01.01`. |
| TestFixtures.SupplierCodeFormat | teste_pdf.php:105 | `211110101010101` formats to `2.1.1.1.1.01.01.01.01.01`. |
| TestFixtures.CashFixtureBalances | teste_pdf.php:74-102 | The cash account is debit-natured. From 1000.00, the entries D 500.00, C 200.00, D 300.00 give 1500.00, 1300.00, 1600.00. |
| TestFixtures.SupplierFixtureBalances | teste_pdf.php:105-126 | The supplier account is credit-natured. From 5000.00, the entries C 1000.00, D 800.00 give 6000.00, 5200.00. |
| TestFixtures.CashFixtureSwapped | teste_pdf.php:74-102 | Moving the cash account's credit before its first debit changes the first balance (800.00) and no other. |
| TestFixtures.FixtureHistoriesFit | teste_pdf.php:200 | Every fixture history fits in 40 characters, so the test script's untruncated history prints the same as the main script's truncated one. |
| TestFixtures.CashSectionFinal | teste_pdf.php:165-195 | A printed cash section has three rows and ends on 1600.00. |
| TestFixtures.SupplierSectionFinal | teste_pdf.php:165-195 | A printed supplier section has two rows and ends on 5200.00. |
| TestFixtures.FixtureLedger | teste_pdf.php:138-208 | The test script's account loop over its two accounts, in the order written, gives two sections, each being that account's section. They have three and two entry rows. |

## Left out

- Database access: the PDO connection, the two SQL queries, their filters and their `ORDER BY`. The query results are inputs, and the entries are taken in the order given.
- Terminal I/O: the prompts and `fgets`, `echo`, and the messages written by `die`. A `die` becomes a `LedgerError`.
- The warning printed when there are no journal entries. It does not stop the script, and a ledger with empty sections is still produced.
- FPDF layout: `Header`, `Footer`, cells, column widths, fonts, `AddPage`, and the page break after the `GetY() > 260` check, which reprints the title with "(continuação)". None of these change the values printed.
- `convertToLatin1`: an `iconv` transliteration that depends on the locale.
- `moneyToFloat` and `number_format`: both use binary floating point and rounding, so money is modelled as exact integer cents. This also leaves out any drift a float accumulator could show.
- `date`/`strtotime`: the date reformatting of each entry, the generation timestamp and the output file name. Dates are carried as the text fetched.
- The month: it is validated and split off but used by nothing the model covers. As in the code, its value (for example 13) is not checked.
- Entity.Lower: ASCII letters only, as PHP 8 `strtolower` does. Locale-dependent lower-casing on older PHP is not modelled.
- The PHP keys: numeric-string array keys become integer keys and convert back to the same string, so keys are modelled as strings.
- The configuration file: it holds only settings.
