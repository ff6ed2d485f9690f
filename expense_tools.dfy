/**
 * The four expense tools: log one expense, list the expenses of a date range
 * (optionally filtered by category), delete one by id, and total the spending
 * of a date range per category.
 */
module ExpenseTools {
  import opened Outcomes
  import opened Dates
  import opened Ids
  import opened Text
  import opened Keyed
  import opened Schema

  // ---- selection ----

  /** `if category:` then `category ILIKE '%filter%'`; a missing or empty filter lets every row through. */
  predicate CategoryMatches(category: string, filter: Option<string>) {
    filter.None? || filter.value == "" || ContainsIgnoringCase(category, filter.value)
  }

  predicate Selected(x: Expense, lo: Date, hi: Date, filter: Option<string>) {
    InRange(x.transactionDate, lo, hi) && CategoryMatches(x.category, filter)
  }

  /** `SELECT * FROM expenses WHERE lo <= transaction_date <= hi [AND category ILIKE ...]`, in table order. */
  function SelectExpenses(rows: seq<Expense>, lo: Date, hi: Date, filter: Option<string>): (r: seq<Expense>)
    ensures forall x :: x in r <==> x in rows && Selected(x, lo, hi, filter)
    ensures |r| <= |rows|
  {
    if rows == [] then []
    else (if Selected(rows[0], lo, hi, filter) then [rows[0]] else []) + SelectExpenses(rows[1..], lo, hi, filter)
  }

  /** Selection keeps table order: the rows of a concatenation are selected part by part. */
  lemma {:induction false} SelectConcat(a: seq<Expense>, b: seq<Expense>, lo: Date, hi: Date, filter: Option<string>)
    ensures SelectExpenses(a + b, lo, hi, filter) == SelectExpenses(a, lo, hi, filter) + SelectExpenses(b, lo, hi, filter)
  {
    if a == [] {
      assert a + b == b;
    } else {
      assert (a + b)[1..] == a[1..] + b;
      SelectConcat(a[1..], b, lo, hi, filter);
    }
  }

  /** A reversed range (`start > end`) selects nothing. */
  lemma ReversedRangeIsEmpty(rows: seq<Expense>, lo: Date, hi: Date, filter: Option<string>)
    requires !NotAfter(lo, hi)
    ensures SelectExpenses(rows, lo, hi, filter) == []
  {
    var r := SelectExpenses(rows, lo, hi, filter);
    if r != [] {
      assert r[0] in r;
      NotAfterIsTotalOrder(lo, r[0].transactionDate, hi);
    }
  }

  /** An empty category filter selects exactly what no filter selects. */
  lemma {:induction false} EmptyFilterIsNoFilter(rows: seq<Expense>, lo: Date, hi: Date)
    ensures SelectExpenses(rows, lo, hi, Some("")) == SelectExpenses(rows, lo, hi, None)
  {
    if rows != [] {
      EmptyFilterIsNoFilter(rows[1..], lo, hi);
    }
  }

  // ---- listing ----

  /** One entry of the `get_expenses` answer, with id and date as text. */
  datatype ExpenseRecord = ExpenseRecord(
    id: string,
    date: string,
    amount: real,
    category: string,
    description: Option<string>)

  function RecordOf(x: Expense): ExpenseRecord {
    ExpenseRecord(FormatId(x.id), FormatDate(x.transactionDate), x.amount, x.category, x.description)
  }

  function Listing(rows: seq<Expense>): seq<ExpenseRecord> {
    seq(|rows|, i requires 0 <= i < |rows| => RecordOf(rows[i]))
  }

  /** A record gives back the row's id and date through the tools' own parsers. */
  lemma RecordReadsBack(x: Expense)
    ensures ParseId(RecordOf(x).id) == Some(x.id)
    ensures ParseDate(RecordOf(x).date) == Some(x.transactionDate)
  {
    FormatThenParseId(x.id);
    FormatThenParse(x.transactionDate);
  }

  /**
   * The id printed in a listing is accepted by `delete_expense` and names the
   * very row the listed record came from.
   */
  lemma ListedIdFindsRow(rows: seq<Expense>, lo: Date, hi: Date, filter: Option<string>, k: nat)
    requires ExpenseTableValid(rows)
    requires k < |Listing(SelectExpenses(rows, lo, hi, filter))|
    ensures var rec := Listing(SelectExpenses(rows, lo, hi, filter))[k];
      && ParseId(rec.id).Some?
      && HasKey(rows, ExpenseKey, ParseId(rec.id).value)
      && RecordOf(Lookup(rows, ExpenseKey, ParseId(rec.id).value).value) == rec
  {
    var x := SelectExpenses(rows, lo, hi, filter)[k];
    assert x in rows;
    RecordReadsBack(x);
    LookupFindsTheRow(rows, ExpenseKey, x);
  }

  // ---- spending summary ----

  function Total(rows: seq<Expense>): real {
    if rows == [] then 0.0 else rows[0].amount + Total(rows[1..])
  }

  predicate HasCategory(rows: seq<Expense>, c: string) {
    exists x :: x in rows && x.category == c
  }

  /** `SUM(amount)` over the rows of category `c`. */
  function CategorySum(rows: seq<Expense>, c: string): real {
    if rows == [] then 0.0
    else (if rows[0].category == c then rows[0].amount else 0.0) + CategorySum(rows[1..], c)
  }

  predicate NoDuplicates(cs: seq<string>) {
    forall i, j :: 0 <= i < j < |cs| ==> cs[i] != cs[j]
  }

  /** The distinct categories of `rows`: the groups of `GROUP BY category`. */
  function Categories(rows: seq<Expense>): (cs: seq<string>)
    ensures forall c :: c in cs <==> HasCategory(rows, c)
    ensures NoDuplicates(cs)
  {
    if rows == [] then []
    else
      var rest := Categories(rows[1..]);
      assert forall x :: x in rows ==> x == rows[0] || x in rows[1..];
      if rows[0].category in rest then rest else [rows[0].category] + rest
  }

  /** One row of the grouped query: a category and its total. */
  datatype CategoryTotal = CategoryTotal(category: string, total: real)

  /** `SELECT category, SUM(amount) ... GROUP BY category`. */
  function GroupByCategory(rows: seq<Expense>): seq<CategoryTotal> {
    var cs := Categories(rows);
    seq(|cs|, i requires 0 <= i < |cs| => CategoryTotal(cs[i], CategorySum(rows, cs[i])))
  }

  /** The values of `m` at `keys`, added up. */
  function SumAt(m: map<string, real>, keys: seq<string>): real
    requires forall k :: k in keys ==> k in m
  {
    if keys == [] then 0.0 else m[keys[0]] + SumAt(m, keys[1..])
  }

  /** The category totals in `cs`, added up. */
  function SumOfCategories(rows: seq<Expense>, cs: seq<string>): real {
    if cs == [] then 0.0 else CategorySum(rows, cs[0]) + SumOfCategories(rows, cs[1..])
  }

  lemma {:induction false} AbsentCategorySumsToZero(rows: seq<Expense>, c: string)
    requires !HasCategory(rows, c)
    ensures CategorySum(rows, c) == 0.0
  {
    if rows != [] {
      assert rows[0] in rows;
      assert !HasCategory(rows[1..], c) by {
        forall x | x in rows[1..] ensures x.category != c {
          assert x in rows;
        }
      }
      AbsentCategorySumsToZero(rows[1..], c);
    }
  }

  /** Prepending a row adds its amount once, to the one category it belongs to. */
  lemma {:induction false} SumOfCategoriesCons(x: Expense, rows: seq<Expense>, cs: seq<string>)
    requires NoDuplicates(cs)
    ensures SumOfCategories([x] + rows, cs)
         == SumOfCategories(rows, cs) + (if x.category in cs then x.amount else 0.0)
  {
    if cs != [] {
      assert ([x] + rows)[1..] == rows;
      assert NoDuplicates(cs[1..]) by {
        forall i, j | 0 <= i < j < |cs[1..]| ensures cs[1..][i] != cs[1..][j] {
          assert cs[1..][i] == cs[i + 1] && cs[1..][j] == cs[j + 1];
        }
      }
      SumOfCategoriesCons(x, rows, cs[1..]);
      if x.category == cs[0] {
        assert x.category !in cs[1..] by {
          forall k | 0 <= k < |cs[1..]| ensures cs[1..][k] != cs[0] {
            assert cs[1..][k] == cs[k + 1];
          }
        }
      }
      assert x.category in cs <==> x.category == cs[0] || x.category in cs[1..];
    }
  }

  /** The per-category totals add up to the total of all rows. */
  lemma {:induction false} CategoryTotalsAddUp(rows: seq<Expense>)
    ensures SumOfCategories(rows, Categories(rows)) == Total(rows)
  {
    if rows != [] {
      var x, rest := rows[0], rows[1..];
      assert rows == [x] + rest;
      var cs := Categories(rest);
      CategoryTotalsAddUp(rest);
      if x.category in cs {
        SumOfCategoriesCons(x, rest, cs);
      } else {
        assert NoDuplicates([x.category] + cs);
        SumOfCategoriesCons(x, rest, [x.category] + cs);
        SumOfCategoriesCons(x, rest, cs);
        AbsentCategorySumsToZero(rest, x.category);
        assert ([x.category] + cs)[1..] == cs;
      }
    }
  }

  /** The `total` fields of the grouped rows, added up. */
  function GroupsTotal(groups: seq<CategoryTotal>): real {
    if groups == [] then 0.0 else groups[0].total + GroupsTotal(groups[1..])
  }

  lemma {:induction false} GroupsTotalIsSumOfCategories(rows: seq<Expense>, cs: seq<string>, groups: seq<CategoryTotal>)
    requires |groups| == |cs|
    requires forall i :: 0 <= i < |groups| ==> groups[i].total == CategorySum(rows, cs[i])
    ensures GroupsTotal(groups) == SumOfCategories(rows, cs)
  {
    if groups != [] {
      GroupsTotalIsSumOfCategories(rows, cs[1..], groups[1..]);
    }
  }

  /** The grouped query loses nothing and counts nothing twice: its totals add up to the total of all rows. */
  lemma GroupTotalsAddUp(rows: seq<Expense>)
    ensures GroupsTotal(GroupByCategory(rows)) == Total(rows)
  {
    GroupsTotalIsSumOfCategories(rows, Categories(rows), GroupByCategory(rows));
    CategoryTotalsAddUp(rows);
  }

  lemma {:induction false} SumAtAgrees(m: map<string, real>, rows: seq<Expense>, keys: seq<string>)
    requires forall k :: k in keys ==> k in m && m[k] == CategorySum(rows, k)
    ensures SumAt(m, keys) == SumOfCategories(rows, keys)
  {
    if keys != [] {
      SumAtAgrees(m, rows, keys[1..]);
    }
  }

  /** Logging then listing the logged day: the new row comes last, after the day's earlier rows. */
  lemma LoggedExpenseIsListed(rows: seq<Expense>, x: Expense)
    ensures var d := x.transactionDate;
      && SelectExpenses(rows + [x], d, d, None) == SelectExpenses(rows, d, d, None) + [x]
      && SelectExpenses(rows + [x], d, d, Some(x.category)) == SelectExpenses(rows, d, d, Some(x.category)) + [x]
      && RecordOf(x) in Listing(SelectExpenses(rows + [x], d, d, None))
  {
    var d := x.transactionDate;
    TextMatchesItself(x.category);
    SelectConcat(rows, [x], d, d, None);
    SelectConcat(rows, [x], d, d, Some(x.category));
    assert [x][1..] == [];
    var sel := SelectExpenses(rows + [x], d, d, None);
    assert Listing(sel)[|sel| - 1] == RecordOf(x);
  }

  /** After a delete by id, the listings are the old listings minus the rows with that id. */
  lemma DeletedExpenseIsNotListed(rows: seq<Expense>, id: Id, lo: Date, hi: Date, filter: Option<string>)
    ensures forall y ::
              y in SelectExpenses(WithoutKey(rows, ExpenseKey, id), lo, hi, filter)
              <==> y in SelectExpenses(rows, lo, hi, filter) && y.id != id
    ensures forall rec :: rec in Listing(SelectExpenses(WithoutKey(rows, ExpenseKey, id), lo, hi, filter)) ==>
              rec.id != FormatId(id)
  {
    var listed := SelectExpenses(WithoutKey(rows, ExpenseKey, id), lo, hi, filter);
    forall rec | rec in Listing(listed) ensures rec.id != FormatId(id) {
      var k :| 0 <= k < |listed| && Listing(listed)[k] == rec;
      assert listed[k] in listed;
      if rec.id == FormatId(id) {
        FormatIdInjective(listed[k].id, id);
      }
    }
  }

  // ---- the store ----

  /** The `expenses` table. */
  class ExpenseStore {
    var expenses: seq<Expense>

    ghost predicate Valid()
      reads this
    {
      ExpenseTableValid(expenses)
    }

    constructor ()
      ensures Valid() && expenses == []
    {
      expenses := [];
    }

    /**
     * `log_expense`: parse the date, then INSERT one row carrying the given
     * fields under the freshly drawn id `newId`, its category as the
     * `VARCHAR(50)` column keeps it.
     */
    method LogExpense(amount: real, category: string, description: string, dateText: string, newId: Id)
      returns (r: Result<Expense>)
      requires Valid()
      modifies this
      ensures Valid()
      ensures ParseDate(dateText).None? ==> r == Err(InvalidDateFormat) && expenses == old(expenses)
      ensures ParseDate(dateText).Some? ==>
        var x := Expense(newId, amount, category, Some(description), ParseDate(dateText).value);
        match InsertFault(StoredExpense(x).Some?, HasKey(old(expenses), ExpenseKey, newId))
        case Some(f) => r == Err(StoreFailure(f)) && expenses == old(expenses)
        case None => r == Ok(StoredExpense(x).value) && expenses == old(expenses) + [StoredExpense(x).value]
    {
      var parsed := ParseDate(dateText);
      if parsed.None? {
        return Err(InvalidDateFormat);
      }
      var stored := StoredExpense(Expense(newId, amount, category, Some(description), parsed.value));
      var fault := InsertFault(stored.Some?, Lookup(expenses, ExpenseKey, newId).Some?);
      if fault.Some? {
        return Err(StoreFailure(fault.value));
      }
      AppendKeepsUnique(expenses, ExpenseKey, stored.value);
      expenses := expenses + [stored.value];
      r := Ok(stored.value);
    }

    /**
     * `get_expenses`: the in-range rows (further filtered by category when a
     * non-empty one is given), turned into records one at a time.
     */
    method GetExpenses(startText: string, endText: string, category: Option<string>)
      returns (r: Result<seq<ExpenseRecord>>)
      ensures ParseRange(startText, endText).None? ==> r == Err(InvalidDateFormat)
      ensures ParseRange(startText, endText).Some? && !OptionalNulFree(category) ==> r == Err(StoreFailure(ValueRefused))
      ensures ParseRange(startText, endText).Some? && OptionalNulFree(category) ==>
        var (lo, hi) := ParseRange(startText, endText).value;
        r == Ok(Listing(SelectExpenses(expenses, lo, hi, category)))
    {
      var range := ParseRange(startText, endText);
      if range.None? {
        return Err(InvalidDateFormat);
      }
      if !OptionalNulFree(category) {
        return Err(StoreFailure(ValueRefused));
      }
      var rows := SelectExpenses(expenses, range.value.0, range.value.1, category);
      var formatted: seq<ExpenseRecord> := [];
      var i := 0;
      while i < |rows|
        invariant 0 <= i <= |rows|
        invariant |formatted| == i
        invariant forall k :: 0 <= k < i ==> formatted[k] == RecordOf(rows[k])
      {
        formatted := formatted + [RecordOf(rows[i])];
        i := i + 1;
      }
      assert formatted == Listing(rows);
      r := Ok(formatted);
    }

    /** `delete_expense`: parse the id, look the row up, and delete it if it is there. */
    method DeleteExpense(idText: string) returns (r: Result<Expense>)
      requires Valid()
      modifies this
      ensures Valid()
      ensures ParseId(idText).None? ==> r == Err(InvalidIdentifier) && expenses == old(expenses)
      ensures ParseId(idText).Some? && !HasKey(old(expenses), ExpenseKey, ParseId(idText).value) ==>
        r == Err(NotFound) && expenses == old(expenses)
      ensures ParseId(idText).Some? && HasKey(old(expenses), ExpenseKey, ParseId(idText).value) ==>
        var id := ParseId(idText).value;
        && r.Ok? && r.value in old(expenses) && r.value.id == id
        && expenses == WithoutKey(old(expenses), ExpenseKey, id)
        && multiset(old(expenses)) == multiset(expenses) + multiset{r.value}
    {
      var parsed := ParseId(idText);
      if parsed.None? {
        return Err(InvalidIdentifier);
      }
      var found := Lookup(expenses, ExpenseKey, parsed.value);
      if found.None? {
        return Err(NotFound);
      }
      WithoutKeyKeepsUnique(expenses, ExpenseKey, parsed.value);
      WithoutKeyRemovesOne(expenses, ExpenseKey, parsed.value);
      expenses := WithoutKey(expenses, ExpenseKey, parsed.value);
      r := Ok(found.value);
    }

    /**
     * `get_spending_summary`: the grouped totals of the in-range rows, copied
     * into a map one group at a time.
     */
    method GetSpendingSummary(startText: string, endText: string) returns (r: Result<map<string, real>>)
      ensures ParseRange(startText, endText).None? ==> r == Err(InvalidDateFormat)
      ensures ParseRange(startText, endText).Some? ==>
        var (lo, hi) := ParseRange(startText, endText).value;
        var rows := SelectExpenses(expenses, lo, hi, None);
        && r.Ok?
        && (forall c :: c in r.value <==> HasCategory(rows, c))
        && (forall c :: c in r.value ==> r.value[c] == CategorySum(rows, c))
        && SumAt(r.value, Categories(rows)) == Total(rows)
    {
      var range := ParseRange(startText, endText);
      if range.None? {
        return Err(InvalidDateFormat);
      }
      var rows := SelectExpenses(expenses, range.value.0, range.value.1, None);
      var groups := GroupByCategory(rows);
      var summary: map<string, real> := map[];
      var i := 0;
      while i < |groups|
        invariant 0 <= i <= |groups|
        invariant forall c :: c in summary <==> c in Categories(rows)[..i]
        invariant forall c :: c in summary ==> summary[c] == CategorySum(rows, c)
      {
        summary := summary[groups[i].category := groups[i].total];
        i := i + 1;
      }
      assert Categories(rows)[..|groups|] == Categories(rows);
      CategoryTotalsAddUp(rows);
      SumAtAgrees(summary, rows, Categories(rows));
      r := Ok(summary);
    }
  }

  lemma ExampleDayParses()
    ensures ParseDate("2024-05-01") == Some(DateFields(2024, 5, 1))
    ensures FormatDate(DateFields(2024, 5, 1)) == "2024-05-01"
  {
    var d: Date := DateFields(2024, 5, 1);
    assert FormatDate(d) == "2024-05-01" by {
      assert Padded(2024, 4) == "2024";
      assert Padded(5, 2) == "05";
      assert Padded(1, 2) == "01";
    }
    FormatThenParse(d);
  }

  /** The example's strings hold no U+0000. */
  lemma ExampleTextsAreNulFree()
    ensures NulFree("Transport") && NulFree("gas")
  {
  }

  /** Example: a table holding one row of 2024-05-01 lists that row for that day. */
  lemma ExampleRowListed(x: Expense)
    requires x.transactionDate == DateFields(2024, 5, 1)
    ensures Listing(SelectExpenses([x], x.transactionDate, x.transactionDate, None)) == [RecordOf(x)]
  {
    var day := x.transactionDate;
    NotAfterIsTotalOrder(day, day, day);
    assert [x][1..] == [];
    assert SelectExpenses([x], day, day, None) == [x];
  }

  /**
   * Example: 20.0 spent on "Transport" ("gas") on 2024-05-01, logged
   * into an empty store, then the listing of that one day.
   */
  method LogThenListExample(newId: Id) returns (listing: Result<seq<ExpenseRecord>>)
    ensures listing == Ok([ExpenseRecord(FormatId(newId), "2024-05-01", 20.0, "Transport", Some("gas"))])
  {
    var day: Date := DateFields(2024, 5, 1);
    ExampleDayParses();
    var store := new ExpenseStore();
    var logged := store.LogExpense(20.0, "Transport", "gas", "2024-05-01", newId);
    var x := Expense(newId, 20.0, "Transport", Some("gas"), day);
    assert store.expenses == [x] by {
      ExampleTextsAreNulFree();
      assert ExpenseFits(x);
    }
    ExampleRowListed(x);
    listing := store.GetExpenses("2024-05-01", "2024-05-01", None);
  }
}
