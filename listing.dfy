/** The expense list page, `app/routes/_index.tsx`: the loader that filters the stored records
    by date range and category and sums their amounts, the delete action, and the per-category
    totals the pie chart is drawn from. */
module Listing {
  import opened Common
  import opened Text
  import opened Dates
  import opened Amounts
  import opened Store

  /** The search parameters `start`, `end` and `category`; `None` when the URL lacks one. */
  datatype Query = Query(start: Option<string>, end: Option<string>, category: Option<string>)

  /** What the loader returns: the retained records and their total, in cents. */
  datatype Listing = Listing(expenses: seq<Expense>, total: int)

  /** Both bounds are given and the end lies before the start. */
  predicate Inverted(q: Query)
  {
    Truthy(q.start) && Truthy(q.end) && Before(q.end.value, q.start.value)
  }

  /** Whether a record passes every filter the query asks for. */
  predicate Admits(q: Query, e: Expense)
  {
    && (Truthy(q.start) ==> NotAfter(q.start.value, e.date))
    && (Truthy(q.end) ==> NotAfter(e.date, q.end.value))
    && (Truthy(q.category) ==> e.category == q.category.value)
  }

  /** `parseFloat(exp.amount) || 0`, in cents: NaN counts as nothing. */
  function AmountOrZero(e: Expense): nat
  {
    match ParseCents(e.amount)
    case Some(c) => c
    case None => 0
  }

  /** `expenses.reduce((sum, exp) => sum + (parseFloat(exp.amount) || 0), 0)`. */
  function Total(xs: seq<Expense>): (t: nat)
    ensures xs == [] ==> t == 0
  {
    if xs == [] then 0 else Total(xs[..|xs| - 1]) + AmountOrZero(xs[|xs| - 1])
  }

  /** The loader: short-circuit on an inverted range, otherwise filter by start, end and
      category in turn, then sum. */
  function Loader(all: seq<Expense>, q: Query): (r: Listing)
    ensures Inverted(q) ==> r == Listing([], 0)
    ensures r.total == Total(r.expenses)
  {
    if Inverted(q) then Listing([], 0)
    else
      var fromStart := if Truthy(q.start) then Filter(all, (e: Expense) => NotAfter(q.start.value, e.date)) else all;
      var toEnd := if Truthy(q.end) then Filter(fromStart, (e: Expense) => NotAfter(e.date, q.end.value)) else fromStart;
      var matched := if Truthy(q.category) then Filter(toEnd, (e: Expense) => e.category == q.category.value) else toEnd;
      Listing(matched, Total(matched))
  }

  /** The three successive filters select exactly the records one pass with `Admits` keeps. */
  lemma LoaderSelects(all: seq<Expense>, q: Query)
    requires !Inverted(q)
    ensures Loader(all, q).expenses == Filter(all, (e: Expense) => Admits(q, e))
  {
    var pS := (e: Expense) => Truthy(q.start) ==> NotAfter(q.start.value, e.date);
    var pE := (e: Expense) => Truthy(q.end) ==> NotAfter(e.date, q.end.value);
    var pC := (e: Expense) => Truthy(q.category) ==> e.category == q.category.value;
    var pSE := (e: Expense) => pS(e) && pE(e);
    var fromStart := if Truthy(q.start) then Filter(all, (e: Expense) => NotAfter(q.start.value, e.date)) else all;
    if Truthy(q.start) {
      FilterCongruent(all, (e: Expense) => NotAfter(q.start.value, e.date), pS);
    } else {
      FilterKeepsAll(all, pS);
    }
    var toEnd := if Truthy(q.end) then Filter(fromStart, (e: Expense) => NotAfter(e.date, q.end.value)) else fromStart;
    if Truthy(q.end) {
      FilterCongruent(fromStart, (e: Expense) => NotAfter(e.date, q.end.value), pE);
    } else {
      FilterKeepsAll(fromStart, pE);
    }
    FilterFusion(all, pS, pE, pSE);
    var matched := if Truthy(q.category) then Filter(toEnd, (e: Expense) => e.category == q.category.value) else toEnd;
    if Truthy(q.category) {
      FilterCongruent(toEnd, (e: Expense) => e.category == q.category.value, pC);
    } else {
      FilterKeepsAll(toEnd, pC);
    }
    FilterFusion(all, pSE, pC, (e: Expense) => Admits(q, e));
  }

  /** A record is listed exactly when it is stored and passes every requested filter; records
      dated on a bound are among them. The list keeps the stored order. */
  lemma LoaderRetains(all: seq<Expense>, q: Query)
    ensures forall e :: e in Loader(all, q).expenses <==> e in all && !Inverted(q) && Admits(q, e)
    ensures IsSubsequence(Loader(all, q).expenses, all)
  {
    if !Inverted(q) {
      LoaderSelects(all, q);
      FilterIsSubsequence(all, (e: Expense) => Admits(q, e));
    }
  }

  /** Empty or missing parameters filter nothing: the "All Categories", no-dates listing is
      the whole store. */
  lemma NoParametersListsAll(all: seq<Expense>, q: Query)
    requires !Truthy(q.start) && !Truthy(q.end) && !Truthy(q.category)
    ensures Loader(all, q) == Listing(all, Total(all))
  {
  }

  /** Running the loader's filters again over its own output changes nothing. */
  lemma LoaderIdempotent(all: seq<Expense>, q: Query)
    ensures Loader(Loader(all, q).expenses, q) == Loader(all, q)
  {
    if !Inverted(q) {
      LoaderSelects(all, q);
      LoaderSelects(Loader(all, q).expenses, q);
      FilterIdempotent(all, (e: Expense) => Admits(q, e));
    }
  }

  /** The inverted-range shortcut agrees with the filters: no record can lie on or after a
      start and on or before an earlier end, so filtering alone would also list nothing. */
  lemma InvertedRangeAdmitsNothing(all: seq<Expense>, q: Query)
    requires Inverted(q)
    ensures Filter(all, (e: Expense) => Admits(q, e)) == []
  {
    var r := Filter(all, (e: Expense) => Admits(q, e));
    if r != [] {
      var e := r[0];
      assert e in r;
      LexLeTransitive(q.start.value, e.date, q.end.value);
      assert false;
    }
  }

  lemma {:induction false} TotalAppend(a: seq<Expense>, b: seq<Expense>)
    ensures Total(a + b) == Total(a) + Total(b)
    decreases |b|
  {
    if b == [] {
      assert a + b == a;
    } else {
      var b' := b[..|b| - 1];
      assert (a + b)[..|a + b| - 1] == a + b';
      TotalAppend(a, b');
    }
  }

  /** `Number(id)` for the id posted to the delete action: a plain decimal number, anything
      else NaN (`None`), which matches no record. */
  function NumberOf(s: string): (r: Option<int>)
    ensures r.Some? ==> r.value >= 0
  {
    if |s| >= 1 && AllDigits(s) then Some(DigitsValue(s)) else None
  }

  /** A decimal id posted to the action reads back as the id it was written from, so the
      action removes exactly the records of that id. */
  lemma NumberOfRoundTrip(n: nat)
    ensures NumberOf(NatToString(n)) == Some(n)
  {
    NatToStringRoundTrip(n);
  }

  /** The page's `action`: delete only when the form carries a non-empty `id`. A NaN id
      matches no record, so the filter it would run keeps everything. */
  method DeleteAction(store: ExpenseStore, id: Option<string>)
    modifies store
    ensures !Truthy(id) ==> store.doc == old(store.doc)
    ensures Truthy(id) && NumberOf(id.value).Some? ==> store.doc == Without(old(store.doc), NumberOf(id.value).value)
    ensures Truthy(id) && NumberOf(id.value).None? ==> store.doc == old(store.doc)
  {
    if Truthy(id) {
      match NumberOf(id.value)
      case Some(n) =>
        store.DeleteExpense(n);
      case None =>
    }
  }

  /** The chart's `categoryTotals` object: its string keys in insertion order, the order in
      which a JavaScript object lists them, and the number under each key, `None` standing
      for NaN. */
  datatype Chart = Chart(keys: seq<string>, values: map<string, Option<int>>)

  predicate Distinct(keys: seq<string>)
  {
    forall i, j :: 0 <= i < j < |keys| ==> keys[i] != keys[j]
  }

  /** Every key listed once, and listed exactly when it has a value. */
  ghost predicate WellFormed(t: Chart)
  {
    Distinct(t.keys) && forall c :: c in t.values <==> c in t.keys
  }

  predicate HasCategory(xs: seq<Expense>, c: string)
  {
    exists i :: 0 <= i < |xs| && xs[i].category == c
  }

  /** `obj[c]`, `None` when the key is missing or its value is NaN. */
  function ValueOf(t: Chart, c: string): Option<int>
  {
    if c in t.values then t.values[c] else None
  }

  /** Number addition, with NaN contagious. */
  function AddNum(x: Option<int>, y: Option<int>): Option<int>
  {
    if x.Some? && y.Some? then Some(x.value + y.value) else None
  }

  /** The reduce callback's write, `acc[c] = (acc[c] || 0) + amount`: a missing key and a
      NaN value are both falsy and read as 0; a new key goes last. */
  function Bump(t: Chart, c: string, amount: Option<int>): Chart
  {
    if c in t.values then
      var prior := if t.values[c].Some? then t.values[c].value else 0;
      t.(values := t.values[c := AddNum(Some(prior), amount)])
    else
      Chart(t.keys + [c], t.values[c := AddNum(Some(0), amount)])
  }

  /** `parseFloat(curr.amount)` as the chart reads it: NaN stays NaN. */
  function ParsedAmount(e: Expense): Option<int>
  {
    ParseCents(e.amount)
  }

  /** `parseFloat(exp.amount) || 0` as the total reads it: NaN becomes 0. */
  function ZeroForNaN(e: Expense): Option<int>
  {
    Some(AmountOrZero(e))
  }

  /** The reduce over the listed records from the empty object, left to right, reading each
      amount with `amountOf`. */
  function Tally(xs: seq<Expense>, amountOf: Expense -> Option<int>): Chart
  {
    if xs == [] then Chart([], map[])
    else
      var last := xs[|xs| - 1];
      Bump(Tally(xs[..|xs| - 1], amountOf), last.category, amountOf(last))
  }

  /** The `categoryTotals` reduce of the chart effect, writing into its accumulator object
      one record at a time. Its keys are exactly the categories of the listed records, each
      once. */
  method CategoryTotals(expenses: seq<Expense>) returns (totals: Chart)
    ensures totals == Tally(expenses, ParsedAmount)
    ensures WellFormed(totals)
    ensures forall c :: c in totals.keys <==> HasCategory(expenses, c)
  {
    totals := Chart([], map[]);
    for i := 0 to |expenses|
      invariant totals == Tally(expenses[..i], ParsedAmount)
    {
      assert expenses[..i + 1][..i] == expenses[..i];
      totals := Bump(totals, expenses[i].category, ParsedAmount(expenses[i]));
    }
    assert expenses[..|expenses|] == expenses;
    TallyKeys(expenses, ParsedAmount);
  }

  /** A bump keeps the object well formed, and its keys are the old ones plus `c`, which
      goes last when it is new. */
  lemma BumpKeys(t: Chart, c: string, amount: Option<int>)
    requires WellFormed(t)
    ensures WellFormed(Bump(t, c, amount))
    ensures forall d :: d in Bump(t, c, amount).values <==> d in t.values || d == c
    ensures Bump(t, c, amount).keys == if c in t.values then t.keys else t.keys + [c]
  {
    if c !in t.values {
      var r := Bump(t, c, amount);
      assert forall k :: 0 <= k < |t.keys| ==> r.keys[k] == t.keys[k];
      assert r.keys[|t.keys|] == c;
    }
  }

  lemma {:induction false} TallyKeys(xs: seq<Expense>, amountOf: Expense -> Option<int>)
    ensures WellFormed(Tally(xs, amountOf))
    ensures forall c :: c in Tally(xs, amountOf).values <==> HasCategory(xs, c)
  {
    if xs != [] {
      var init := xs[..|xs| - 1];
      var last := xs[|xs| - 1];
      TallyKeys(init, amountOf);
      BumpKeys(Tally(init, amountOf), last.category, amountOf(last));
      forall c
        ensures HasCategory(xs, c) <==> HasCategory(init, c) || c == last.category
      {
        if HasCategory(xs, c) && c != last.category {
          var i :| 0 <= i < |xs| && xs[i].category == c;
          assert init[i] == xs[i];
        }
        if HasCategory(init, c) {
          var i :| 0 <= i < |init| && init[i].category == c;
          assert xs[i] == init[i];
        }
      }
    }
  }

  /** The sum of the values under `keys`, a missing key counting as NaN; NaN anywhere makes
      the sum NaN. */
  function SumOver(keys: seq<string>, values: map<string, Option<int>>): Option<int>
  {
    if keys == [] then Some(0)
    else
      var last := keys[|keys| - 1];
      AddNum(SumOver(keys[..|keys| - 1], values), if last in values then values[last] else None)
  }

  /** The sum of every value in the object. */
  function SumValues(t: Chart): Option<int>
  {
    SumOver(t.keys, t.values)
  }

  /** Changing the value of a key that is not summed leaves the sum alone. */
  lemma {:induction false} SumOverFrame(keys: seq<string>, values: map<string, Option<int>>, c: string, x: Option<int>)
    requires c !in keys
    ensures SumOver(keys, values[c := x]) == SumOver(keys, values)
  {
    if keys != [] {
      var init := keys[..|keys| - 1];
      assert forall k :: k in init ==> k in keys;
      SumOverFrame(init, values, c, x);
    }
  }

  /** A finite sum has only finite summands. */
  lemma {:induction false} SumOverFinite(keys: seq<string>, values: map<string, Option<int>>, c: string, total: int)
    returns (v: int)
    requires c in keys && SumOver(keys, values) == Some(total)
    ensures c in values && values[c] == Some(v)
  {
    var init, last := keys[..|keys| - 1], keys[|keys| - 1];
    if last == c {
      v := values[c].value;
    } else {
      assert keys == init + [last];
      v := SumOverFinite(init, values, c, SumOver(init, values).value);
    }
  }

  /** Adding `a` to the finite value of a key summed once adds `a` to the finite sum. */
  lemma {:induction false} SumOverUpdate(
    keys: seq<string>, values: map<string, Option<int>>, c: string, v: int, a: int, total: int)
    requires Distinct(keys) && c in keys && c in values && values[c] == Some(v)
    requires SumOver(keys, values) == Some(total)
    ensures SumOver(keys, values[c := Some(v + a)]) == Some(total + a)
  {
    var init, last := keys[..|keys| - 1], keys[|keys| - 1];
    assert keys == init + [last];
    if last == c {
      assert c !in init by {
        assert forall k :: 0 <= k < |init| ==> init[k] == keys[k];
      }
      SumOverFrame(init, values, c, Some(v + a));
    } else {
      assert Distinct(init) by {
        assert forall k :: 0 <= k < |init| ==> init[k] == keys[k];
      }
      SumOverUpdate(init, values, c, v, a, SumOver(init, values).value);
    }
  }

  lemma TotalOfOne(e: Expense)
    ensures Total([e]) == AmountOrZero(e)
  {
    assert [e][..0] == [];
  }

  /** Bumping a key by a finite amount adds that amount to a finite sum. */
  lemma BumpSum(t: Chart, c: string, a: int, total: int)
    requires WellFormed(t) && SumValues(t) == Some(total)
    ensures SumValues(Bump(t, c, Some(a))) == Some(total + a)
  {
    if c in t.values {
      var v := SumOverFinite(t.keys, t.values, c, total);
      assert Bump(t, c, Some(a)) == Chart(t.keys, t.values[c := Some(v + a)]);
      SumOverUpdate(t.keys, t.values, c, v, a, total);
    } else {
      var values := t.values[c := Some(a)];
      assert Bump(t, c, Some(a)) == Chart(t.keys + [c], values);
      assert (t.keys + [c])[..|t.keys|] == t.keys;
      assert SumOver(t.keys + [c], values) == AddNum(SumOver(t.keys, values), Some(a));
      SumOverFrame(t.keys, t.values, c, Some(a));
    }
  }

  /** When every amount is read as the total reads it, the values of the object add up to
      the total. */
  lemma {:induction false} TallySumsToTotal(xs: seq<Expense>, amountOf: Expense -> Option<int>)
    requires forall e :: e in xs ==> amountOf(e) == ZeroForNaN(e)
    ensures SumValues(Tally(xs, amountOf)) == Some(Total(xs))
  {
    if xs != [] {
      var init := xs[..|xs| - 1];
      var last := xs[|xs| - 1];
      assert forall e :: e in init ==> e in xs;
      assert last in xs;
      var acc, a := Tally(init, amountOf), AmountOrZero(last);
      assert amountOf(last) == Some(a);
      assert Tally(xs, amountOf) == Bump(acc, last.category, Some(a));
      assert Total(xs) == Total(init) + a;
      assert SumValues(acc) == Some(Total(init)) by {
        TallySumsToTotal(init, amountOf);
      }
      assert WellFormed(acc) by {
        TallyKeys(init, amountOf);
      }
      BumpSum(acc, last.category, a, Total(init));
    }
  }

  /** The part of a sum made by one category's records, each amount read by `f`. */
  function CategorySum(xs: seq<Expense>, c: string, f: Expense -> nat): nat
  {
    if xs == [] then 0
    else CategorySum(xs[..|xs| - 1], c, f) + (if xs[|xs| - 1].category == c then f(xs[|xs| - 1]) else 0)
  }

  /** A category's part of the total is the total of the records a category filter keeps. */
  lemma {:induction false} CategorySumIsFilteredTotal(xs: seq<Expense>, c: string)
    ensures CategorySum(xs, c, AmountOrZero) == Total(Filter(xs, (e: Expense) => e.category == c))
    decreases |xs|
  {
    if xs != [] {
      var init := xs[..|xs| - 1];
      var last := xs[|xs| - 1];
      assert xs == init + [last];
      CategorySumIsFilteredTotal(init, c);
      FilteredTotalStep(init, last, (e: Expense) => e.category == c);
    }
  }

  /** Filtering one more record adds its amount to the filtered total exactly when it is kept. */
  lemma FilteredTotalStep(init: seq<Expense>, last: Expense, p: Expense -> bool)
    ensures Total(Filter(init + [last], p)) == Total(Filter(init, p)) + (if p(last) then AmountOrZero(last) else 0)
  {
    FilterAppend(init, [last], p);
    TotalAppend(Filter(init, p), Filter([last], p));
    if p(last) {
      assert Filter([last], p) == [last];
      TotalOfOne(last);
    } else {
      assert Filter([last], p) == [];
    }
  }

  /** A category the records have that is not the last one's is had by the records before it. */
  lemma EarlierCategory(xs: seq<Expense>, c: string)
    requires xs != [] && HasCategory(xs, c) && xs[|xs| - 1].category != c
    ensures HasCategory(xs[..|xs| - 1], c)
  {
    var i :| 0 <= i < |xs| && xs[i].category == c;
    assert xs[..|xs| - 1][i] == xs[i];
  }

  /** A category none of the records has makes no part of the sum. */
  lemma {:induction false} CategorySumAbsent(xs: seq<Expense>, c: string, f: Expense -> nat)
    requires !HasCategory(xs, c)
    ensures CategorySum(xs, c, f) == 0
    decreases |xs|
  {
    if xs != [] {
      var init := xs[..|xs| - 1];
      assert forall j :: 0 <= j < |init| ==> init[j] == xs[j];
      CategorySumAbsent(init, c, f);
    }
  }

  /** Writing under key `d` leaves the value of every other key, finite, NaN or missing, as it
      was. */
  lemma BumpFrame(t: Chart, d: string, amount: Option<int>, c: string)
    requires d != c
    ensures ValueOf(Bump(t, d, amount), c) == ValueOf(t, c)
  {
  }

  /** Adding a finite amount `a` under key `d` moves `d`'s finite value (or nothing, for a new
      key) by `a` and leaves the other keys' finite values alone. */
  lemma BumpValue(t: Chart, d: string, a: nat, c: string, before: nat)
    requires ValueOf(t, c) == Some(before) || (c !in t.values && before == 0 && d == c)
    ensures ValueOf(Bump(t, d, Some(a)), c) == Some(before + if d == c then a else 0)
  {
  }

  /** When every amount is read as the finite number `f` gives, each category's value in the
      object is that category's part of the sum. */
  lemma {:induction false} TallyValue(xs: seq<Expense>, amountOf: Expense -> Option<int>, f: Expense -> nat, c: string)
    requires forall i :: 0 <= i < |xs| ==> amountOf(xs[i]) == Some(f(xs[i]))
    requires HasCategory(xs, c)
    ensures ValueOf(Tally(xs, amountOf), c) == Some(CategorySum(xs, c, f))
  {
    var init, last := xs[..|xs| - 1], xs[|xs| - 1];
    var acc := Tally(init, amountOf);
    assert forall i :: 0 <= i < |init| ==> init[i] == xs[i];
    assert amountOf(last) == Some(f(last));
    if last.category != c || HasCategory(init, c) {
      if last.category != c {
        EarlierCategory(xs, c);
      }
      TallyValue(init, amountOf, f, c);
      BumpValue(acc, last.category, f(last), c, CategorySum(init, c, f));
    } else {
      CategorySumAbsent(init, c, f);
      TallyKeys(init, amountOf);
      BumpValue(acc, c, f(last), c, 0);
    }
  }

  /** As written: whenever every listed amount parses, the chart's values add up to the
      displayed total. */
  lemma CategoryTotalsSumWhenAllParse(xs: seq<Expense>)
    requires forall e :: e in xs ==> ParseCents(e.amount).Some?
    ensures SumValues(Tally(xs, ParsedAmount)) == Some(Total(xs))
  {
    TallySumsToTotal(xs, ParsedAmount);
  }

  /** The amounts of the example below as `parseFloat` reads them. */
  lemma ExampleAmounts()
    ensures ParseCents("5.00") == Some(500)
    ensures ParseCents("abc") == None
    ensures ParseCents("2") == Some(200)
  {
    DotAfterDigits("5", "00");
    assert "5" + "." + "00" == "5.00";
    assert "5.00"[..1] == "5" && "5.00"[2..] == "00";
    assert DotAt("abc").None?;
    assert !IsDigit('a');
    assert DotAt("2").None?;
  }

  /** Three listed records of one category, the second with an amount `parseFloat` reads as NaN. */
  const Tea := Expense(1, "Tea", "5.00", "Food", "2024-01-01")
  const Cake := Expense(2, "Cake", "abc", "Food", "2024-01-02")
  const Bun := Expense(3, "Bun", "2", "Food", "2024-01-03")

  /** What the displayed total makes of the example: the unparseable amount counts 0. */
  lemma ExampleTotals()
    ensures Total([Tea, Cake]) == 500
    ensures Total([Tea, Cake, Bun]) == 700
  {
    ExampleAmounts();
    assert [Tea, Cake, Bun][..2] == [Tea, Cake];
    assert [Tea, Cake][..1] == [Tea] && [Tea][..0] == [];
  }

  /** As written, an unparseable amount turns its category's slice into NaN, although the
      total counts it as 0 and still includes the category's other amounts. */
  lemma CategoryTotalsNaNSlice()
    ensures Tally([Tea, Cake], ParsedAmount) == Chart(["Food"], map["Food" := None])
    ensures Total([Tea, Cake]) == 500
  {
    assert ParsedAmount(Tea) == Some(500) && ParsedAmount(Cake) == None by {
      ExampleAmounts();
    }
    assert [Tea, Cake][..1] == [Tea] && [Tea][..0] == [];
    assert Tally([Tea], ParsedAmount) == Chart(["Food"], map["Food" := Some(500)]);
    assert Tally([Tea, Cake], ParsedAmount) == Bump(Chart(["Food"], map["Food" := Some(500)]), "Food", None);
    ExampleTotals();
  }

  /** As written, a later amount of the same category restarts a NaN slice from 0, dropping
      the amounts before it, while the total keeps them. */
  lemma CategoryTotalsRestart()
    ensures Tally([Tea, Cake, Bun], ParsedAmount) == Chart(["Food"], map["Food" := Some(200)])
    ensures Total([Tea, Cake, Bun]) == 700
  {
    CategoryTotalsNaNSlice();
    ExampleAmounts();
    ExampleTotals();
    assert [Tea, Cake, Bun][..2] == [Tea, Cake];
  }

  /** The evidently intended per-category totals: each amount read as the total reads it.
      Then every listed category has its own part of the total, and the parts add up to it. */
  function FixedCategoryTotals(expenses: seq<Expense>): (totals: Chart)
    ensures WellFormed(totals)
    ensures forall c :: c in totals.keys <==> HasCategory(expenses, c)
    ensures forall c :: HasCategory(expenses, c) ==> ValueOf(totals, c) == Some(CategorySum(expenses, c, AmountOrZero))
    ensures SumValues(totals) == Some(Total(expenses))
  {
    TallySumsToTotal(expenses, ZeroForNaN);
    TallyKeys(expenses, ZeroForNaN);
    forall c | HasCategory(expenses, c)
      ensures ValueOf(Tally(expenses, ZeroForNaN), c) == Some(CategorySum(expenses, c, AmountOrZero))
    {
      TallyValue(expenses, ZeroForNaN, AmountOrZero, c);
    }
    Tally(expenses, ZeroForNaN)
  }
}
