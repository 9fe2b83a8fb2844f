/**
 * The grouping step: one slot per account code of the opening balances, each
 * holding that code's journal entries in fetch order. The PHP array keeps its
 * keys in insertion order, which is the order the accounts are printed in;
 * `order` records it.
 */
module Grouping {
  import opened Wrappers
  import opened Records

  /** The last opening-balance row with code `c`: the one whose values the array keeps. */
  function LastRowFor(rows: seq<BalanceRow>, c: string): (r: Option<BalanceRow>)
    ensures r.None? <==> forall i :: 0 <= i < |rows| ==> rows[i].code != c
    ensures r.Some? ==> r.value.code == c
    ensures r.Some? ==> exists i :: 0 <= i < |rows| && rows[i] == r.value &&
                                    forall j :: i < j < |rows| ==> rows[j].code != c
  {
    if rows == [] then None
    else if rows[|rows| - 1].code == c then Some(rows[|rows| - 1])
    else LastRowFor(rows[..|rows| - 1], c)
  }

  /** The entries with code `c`, in the order they were fetched. */
  function EntriesWithCode(entries: seq<Entry>, c: string): (r: seq<Entry>)
    ensures |r| <= |entries|
    ensures forall e :: e in r ==> e in entries && e.code == c
    ensures forall i :: 0 <= i < |entries| && entries[i].code == c ==> entries[i] in r
  {
    if entries == [] then []
    else
      EntriesWithCode(entries[..|entries| - 1], c) +
      (if entries[|entries| - 1].code == c then [entries[|entries| - 1]] else [])
  }

  /** The distinct codes of `rows`, each at the place of its first occurrence. */
  function DistinctCodes(rows: seq<BalanceRow>): (r: seq<string>)
    ensures forall i, j :: 0 <= i < j < |r| ==> r[i] != r[j]
    ensures forall c :: c in r <==> exists i :: 0 <= i < |rows| && rows[i].code == c
    // the `==>` half above, indexed so that it triggers on `r[k]`
    ensures forall k :: 0 <= k < |r| ==> exists i :: 0 <= i < |rows| && rows[i].code == r[k]
  {
    if rows == [] then []
    else
      var prev := DistinctCodes(rows[..|rows| - 1]);
      var c := rows[|rows| - 1].code;
      if c in prev then prev else prev + [c]
  }

  /** The index of the first row with code `c`. */
  function FirstIndex(rows: seq<BalanceRow>, c: string): (r: nat)
    requires exists i :: 0 <= i < |rows| && rows[i].code == c
    ensures r < |rows| && rows[r].code == c
    ensures forall j :: 0 <= j < r ==> rows[j].code != c
  {
    if rows[0].code == c then 0
    else
      assert exists i :: 0 <= i < |rows[1..]| && rows[1..][i].code == c by {
        var i :| 0 <= i < |rows| && rows[i].code == c;
        assert rows[1..][i - 1] == rows[i];
      }
      1 + FirstIndex(rows[1..], c)
  }

  /** An index is the first one with `c` when no earlier row has `c`. */
  lemma FirstIndexUnique(rows: seq<BalanceRow>, c: string, k: nat)
    requires k < |rows| && rows[k].code == c
    requires forall j :: 0 <= j < k ==> rows[j].code != c
    ensures FirstIndex(rows, c) == k
  {
  }

  /** Appending a row does not move the first occurrence of a code that is already present. */
  lemma FirstIndexExtend(rows: seq<BalanceRow>, row: BalanceRow, c: string)
    requires exists i :: 0 <= i < |rows| && rows[i].code == c
    ensures exists i :: 0 <= i < |rows + [row]| && (rows + [row])[i].code == c
    ensures FirstIndex(rows + [row], c) == FirstIndex(rows, c)
  {
    var k := FirstIndex(rows, c);
    assert (rows + [row])[k] == rows[k];
    assert forall j :: 0 <= j < k ==> (rows + [row])[j] == rows[j];
    FirstIndexUnique(rows + [row], c, k);
  }

  /** The key order is the order in which the codes first appear. */
  lemma {:induction false} DistinctCodesOrder(rows: seq<BalanceRow>)
    ensures var r := DistinctCodes(rows);
      forall i, j :: 0 <= i < j < |r| ==> FirstIndex(rows, r[i]) < FirstIndex(rows, r[j])
  {
    if rows != [] {
      var n := |rows| - 1;
      var p, row := rows[..n], rows[n];
      assert rows == p + [row];
      DistinctCodesOrder(p);
      DistinctCodesSnoc(p, row);
      var prev, r := DistinctCodes(p), DistinctCodes(rows);
      forall i, j | 0 <= i < j < |r|
        ensures FirstIndex(rows, r[i]) < FirstIndex(rows, r[j])
      {
        assert r[i] == prev[i];
        FirstIndexExtend(p, row, prev[i]);
        if j < |prev| {
          assert r[j] == prev[j];
          FirstIndexExtend(p, row, prev[j]);
        } else {
          assert r[j] == row.code && row.code !in prev;
          assert forall k :: 0 <= k < n ==> rows[k] == p[k];
          FirstIndexUnique(rows, row.code, n);
        }
      }
    }
  }

  /** The slot the grouping builds for a code that has an opening balance. */
  function GroupFor(balances: seq<BalanceRow>, entries: seq<Entry>, c: string): AccountGroup
    requires LastRowFor(balances, c).Some?
  {
    var row := LastRowFor(balances, c).value;
    AccountGroup(row.description, row.opening, EntriesWithCode(entries, c))
  }

  lemma LastRowForSnoc(rows: seq<BalanceRow>, row: BalanceRow, c: string)
    ensures LastRowFor(rows + [row], c) == if row.code == c then Some(row) else LastRowFor(rows, c)
  {
    assert (rows + [row])[..|rows|] == rows;
  }

  lemma DistinctCodesSnoc(rows: seq<BalanceRow>, row: BalanceRow)
    ensures DistinctCodes(rows + [row]) ==
      if row.code in DistinctCodes(rows) then DistinctCodes(rows) else DistinctCodes(rows) + [row.code]
  {
    assert (rows + [row])[..|rows|] == rows;
  }

  lemma EntriesWithCodeSnoc(entries: seq<Entry>, e: Entry, c: string)
    ensures EntriesWithCode(entries + [e], c) ==
      EntriesWithCode(entries, c) + (if e.code == c then [e] else [])
  {
    assert (entries + [e])[..|entries|] == entries;
  }

  /** The slot the first loop leaves for a code: the last row's values and no entries yet. */
  function OpeningSlot(balances: seq<BalanceRow>, c: string): AccountGroup
    requires LastRowFor(balances, c).Some?
  {
    var row := LastRowFor(balances, c).value;
    AccountGroup(row.description, row.opening, [])
  }

  /** The slots and key order after the rows of `prefix` were seeded. */
  ghost predicate Seeded(groups: map<string, AccountGroup>, order: seq<string>, prefix: seq<BalanceRow>)
  {
    (forall c :: c in groups <==> LastRowFor(prefix, c).Some?) &&
    (forall c :: c in groups ==> groups[c] == OpeningSlot(prefix, c)) &&
    order == DistinctCodes(prefix)
  }

  lemma SeededStep(groups: map<string, AccountGroup>, order: seq<string>, prefix: seq<BalanceRow>, row: BalanceRow)
    requires Seeded(groups, order, prefix)
    ensures Seeded(groups[row.code := AccountGroup(row.description, row.opening, [])],
                   if row.code in groups then order else order + [row.code],
                   prefix + [row])
  {
    var updated := groups[row.code := AccountGroup(row.description, row.opening, [])];
    forall c
      ensures c in updated <==> LastRowFor(prefix + [row], c).Some?
      ensures c in updated ==> updated[c] == OpeningSlot(prefix + [row], c)
    {
      LastRowForSnoc(prefix, row, c);
    }
    DistinctCodesSnoc(prefix, row);
    assert row.code in DistinctCodes(prefix) <==> LastRowFor(prefix, row.code).Some?;
  }

  /**
   * The first loop: one slot per opening-balance row; a later row with the
   * same code overwrites the slot, which keeps its place in the array.
   */
  method OpeningSlots(balances: seq<BalanceRow>) returns (groups: map<string, AccountGroup>, order: seq<string>)
    ensures forall c :: c in groups <==> LastRowFor(balances, c).Some?
    ensures forall c :: c in groups ==> groups[c] == OpeningSlot(balances, c)
    ensures order == DistinctCodes(balances)
  {
    groups, order := map[], [];
    for k := 0 to |balances|
      invariant Seeded(groups, order, balances[..k])
    {
      var row := balances[k];
      assert balances[..k + 1] == balances[..k] + [row];
      SeededStep(groups, order, balances[..k], row);
      if row.code !in groups {
        order := order + [row.code];
      }
      groups := groups[row.code := AccountGroup(row.description, row.opening, [])];
    }
    assert balances[..|balances|] == balances;
  }

  /** The slots after the entries of `prefix` were appended to `slots`. */
  ghost predicate Appended(groups: map<string, AccountGroup>, slots: map<string, AccountGroup>, prefix: seq<Entry>)
  {
    groups.Keys == slots.Keys &&
    forall c :: c in groups ==>
      groups[c] == slots[c].(entries := slots[c].entries + EntriesWithCode(prefix, c))
  }

  lemma AppendedStep(groups: map<string, AccountGroup>, slots: map<string, AccountGroup>, prefix: seq<Entry>, e: Entry)
    requires Appended(groups, slots, prefix)
    ensures e.code in groups ==>
      Appended(groups[e.code := groups[e.code].(entries := groups[e.code].entries + [e])], slots, prefix + [e])
    ensures e.code !in groups ==> Appended(groups, slots, prefix + [e])
  {
    if e.code in groups {
      var updated := groups[e.code := groups[e.code].(entries := groups[e.code].entries + [e])];
      assert updated.Keys == slots.Keys;
      forall c | c in updated
        ensures updated[c] == slots[c].(entries := slots[c].entries + EntriesWithCode(prefix + [e], c))
      {
        if c == e.code {
          AppendedSame(groups[c], slots[c], prefix, e);
        } else {
          AppendedOther(groups[c], slots[c], prefix, e, c);
        }
      }
    } else {
      forall c | c in groups
        ensures groups[c] == slots[c].(entries := slots[c].entries + EntriesWithCode(prefix + [e], c))
      {
        AppendedOther(groups[c], slots[c], prefix, e, c);
      }
    }
  }

  /** Appending `e` to its own slot moves that slot one entry further along `prefix + [e]`. */
  lemma AppendedSame(slot: AccountGroup, opening: AccountGroup, prefix: seq<Entry>, e: Entry)
    requires slot == opening.(entries := opening.entries + EntriesWithCode(prefix, e.code))
    ensures slot.(entries := slot.entries + [e]) ==
      opening.(entries := opening.entries + EntriesWithCode(prefix + [e], e.code))
  {
    EntriesWithCodeSnoc(prefix, e, e.code);
    assert opening.entries + EntriesWithCode(prefix, e.code) + [e] ==
           opening.entries + (EntriesWithCode(prefix, e.code) + [e]);
  }

  /** The other slots are already one entry further along `prefix + [e]`. */
  lemma AppendedOther(slot: AccountGroup, opening: AccountGroup, prefix: seq<Entry>, e: Entry, c: string)
    requires c != e.code
    requires slot == opening.(entries := opening.entries + EntriesWithCode(prefix, c))
    ensures slot == opening.(entries := opening.entries + EntriesWithCode(prefix + [e], c))
  {
    EntriesWithCodeSnoc(prefix, e, c);
    assert EntriesWithCode(prefix, c) + [] == EntriesWithCode(prefix, c);
  }

  /**
   * The second loop: each entry is appended to the slot of its code, in fetch
   * order; an entry whose code has no slot is dropped.
   */
  method AppendEntries(slots: map<string, AccountGroup>, entries: seq<Entry>) returns (groups: map<string, AccountGroup>)
    ensures groups.Keys == slots.Keys
    ensures forall c :: c in groups ==>
      groups[c] == slots[c].(entries := slots[c].entries + EntriesWithCode(entries, c))
  {
    groups := slots;
    assert Appended(groups, slots, entries[..0]);
    for k := 0 to |entries|
      invariant Appended(groups, slots, entries[..k])
    {
      var e := entries[k];
      assert entries[..k + 1] == entries[..k] + [e];
      AppendedStep(groups, slots, entries[..k], e);
      if e.code in groups {
        groups := groups[e.code := groups[e.code].(entries := groups[e.code].entries + [e])];
      }
    }
    assert entries[..|entries|] == entries;
  }

  /**
   * The grouping step: a slot for every code that has an opening balance,
   * holding the last such row's values and exactly that code's entries in
   * fetch order; the array's key order is the order of first appearance;
   * an entry without an opening balance ends up in no slot.
   */
  method GroupAccounts(balances: seq<BalanceRow>, entries: seq<Entry>)
    returns (groups: map<string, AccountGroup>, order: seq<string>)
    ensures forall c :: c in groups <==> exists i :: 0 <= i < |balances| && balances[i].code == c
    ensures forall c :: c in groups ==>
      LastRowFor(balances, c).Some? && groups[c] == GroupFor(balances, entries, c)
    ensures order == DistinctCodes(balances)
    ensures forall c :: c in order <==> c in groups
    ensures forall i, c :: 0 <= i < |entries| && entries[i].code !in groups && c in groups ==>
      entries[i] !in groups[c].entries
  {
    var slots;
    slots, order := OpeningSlots(balances);
    groups := AppendEntries(slots, entries);
  }

  /** Selecting by code commutes with concatenation: each slot keeps fetch order. */
  lemma {:induction false} EntriesWithCodeAppend(a: seq<Entry>, b: seq<Entry>, c: string)
    ensures EntriesWithCode(a + b, c) == EntriesWithCode(a, c) + EntriesWithCode(b, c)
  {
    if b == [] {
      assert a + b == a;
    } else {
      var n := |b| - 1;
      var front, last := b[..n], b[n];
      assert b == front + [last];
      assert a + b == (a + front) + [last];
      EntriesWithCodeSnoc(a + front, last, c);
      EntriesWithCodeSnoc(front, last, c);
      EntriesWithCodeAppend(a, front, c);
      var tail := if last.code == c then [last] else [];
      assert EntriesWithCode(a, c) + EntriesWithCode(front, c) + tail ==
             EntriesWithCode(a, c) + (EntriesWithCode(front, c) + tail);
    }
  }
}
