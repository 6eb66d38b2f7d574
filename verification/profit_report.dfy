/**
 * The profit report (moregui.py): the user's target sell prices are read into a table
 * keyed by lower-cased item name, every bazaar listing of a priced item that can be bought
 * for more than $1 and resold at a higher price becomes a profitable item, and the items
 * are sorted in place by total profit, largest first.
 *
 * Prices are whole dollars: a price cell is a `Num` when `float()` (or `int()`) accepts
 * it and a `Text` when it raises `ValueError`.
 */
module ProfitReport {
  import opened Wrappers
  import opened Csv
  import opened Seqs

  /** A row of items.csv, by its `Item Name` and `Sell Price` columns. */
  datatype PriceRow = PriceRow(itemName: string, sellPrice: Cell)

  /** A row of sorted_bazaars.csv, by its `player_id`, `item_name`, `price` and `quantity` columns. */
  datatype ListingRow = ListingRow(playerId: string, itemName: string, price: Cell, quantity: Cell)

  datatype ProfitableItem = ProfitableItem(
    playerId: string,
    itemName: string,
    buyPrice: int,
    sellPrice: int,
    quantity: int,
    totalProfit: int,
    bazaarLink: string)

  const BazaarLinkPrefix: string := "https://www.torn.com/bazaar.php?userID="

  // ---------------------------------------------------------------------------------------
  // Case-insensitive names
  // ---------------------------------------------------------------------------------------

  /** `str.lower()` on one character, for the ASCII letters. */
  function LowerChar(c: char): char {
    if 'A' <= c <= 'Z' then (c as int + 32) as char else c
  }

  function Lower(s: string): string {
    seq(|s|, i requires 0 <= i < |s| => LowerChar(s[i]))
  }

  /** Lower-casing twice changes nothing more: a key is already in lower case. */
  lemma LowerIdempotent(s: string)
    ensures Lower(Lower(s)) == Lower(s)
  {
    assert forall i :: 0 <= i < |s| ==> LowerChar(LowerChar(s[i])) == LowerChar(s[i]);
  }

  /** Two characters that are equal, or one the ASCII capital of the other. */
  predicate SameLetterIgnoringCase(c: char, d: char) {
    c == d || ('A' <= c <= 'Z' && d == (c as int + 32) as char) || ('A' <= d <= 'Z' && c == (d as int + 32) as char)
  }

  /** Two names that differ at most in the case of their ASCII letters. */
  predicate SameNameIgnoringCase(a: string, b: string) {
    |a| == |b| && forall i :: 0 <= i < |a| ==> SameLetterIgnoringCase(a[i], b[i])
  }

  /** Two characters lower-case alike exactly when they are the same letter up to case. */
  lemma LowerCharAlike(c: char, d: char)
    ensures LowerChar(c) == LowerChar(d) <==> SameLetterIgnoringCase(c, d)
  {
  }

  /**
   * Names share one price key exactly when they differ at most in the case of their ASCII
   * letters.
   */
  lemma CaseVariantsShareKey(a: string, b: string)
    ensures Lower(a) == Lower(b) <==> SameNameIgnoringCase(a, b)
  {
    if |a| == |b| {
      forall i | 0 <= i < |a|
        ensures Lower(a)[i] == Lower(b)[i] <==> SameLetterIgnoringCase(a[i], b[i])
      {
        LowerCharAlike(a[i], b[i]);
      }
      if Lower(a) == Lower(b) {
        assert forall i :: 0 <= i < |a| ==> SameLetterIgnoringCase(a[i], b[i]);
      }
    } else {
      assert |Lower(a)| != |Lower(b)|;
    }
  }

  // ---------------------------------------------------------------------------------------
  // load_user_input
  // ---------------------------------------------------------------------------------------

  /**
   * The table `load_user_input` builds, or the `ValueError` of the first sell price that
   * does not convert (it is not caught).
   */
  function SellPrices(rows: seq<PriceRow>): Result<map<string, int>, Error> {
    if rows == [] then Success(map[])
    else
      match SellPrices(rows[..|rows| - 1])
      case Failure(e) => Failure(e)
      case Success(prices) =>
        var row := rows[|rows| - 1];
        match ParseInt(row.sellPrice)
        case Failure(e) => Failure(e)
        case Success(p) => Success(prices[Lower(row.itemName) := p])
  }

  /** `load_user_input`: one loop over the rows; a later row for the same name overwrites. */
  method LoadUserInput(rows: seq<PriceRow>) returns (r: Result<map<string, int>, Error>)
    ensures r == SellPrices(rows)
  {
    var prices: map<string, int> := map[];
    var i := 0;
    while i < |rows|
      invariant 0 <= i <= |rows|
      invariant SellPrices(rows[..i]) == Success(prices)
    {
      assert rows[..i + 1][..i] == rows[..i];
      var sellPrice := ParseInt(rows[i].sellPrice);
      if sellPrice.Failure? {
        SellPricesFailureSticks(rows, i + 1);
        return Failure(sellPrice.error);
      }
      prices := prices[Lower(rows[i].itemName) := sellPrice.value];
      i := i + 1;
    }
    assert rows[..i] == rows;
    return Success(prices);
  }

  lemma {:induction false} SellPricesFailureSticks(rows: seq<PriceRow>, n: nat)
    requires n <= |rows| && SellPrices(rows[..n]).Failure?
    ensures SellPrices(rows) == SellPrices(rows[..n])
    decreases |rows| - n
  {
    if n < |rows| {
      assert rows[..n + 1][..n] == rows[..n];
      SellPricesFailureSticks(rows, n + 1);
    } else {
      assert rows[..n] == rows;
    }
  }

  /**
   * Loading fails (with `ValueError`) exactly when some sell price does not convert; when
   * it succeeds, the keys are the lower-cased names of the rows and each key holds the
   * price of the last row with that name, whatever its case.
   */
  lemma {:induction false} SellPricesTable(rows: seq<PriceRow>)
    ensures SellPrices(rows).Success? <==> forall i :: 0 <= i < |rows| ==> rows[i].sellPrice.Num?
    ensures SellPrices(rows).Failure? ==> SellPrices(rows).error == ValueError
    ensures SellPrices(rows).Success? ==>
      forall i :: 0 <= i < |rows| ==>
        && Lower(rows[i].itemName) in SellPrices(rows).value
        && ((forall j :: i < j < |rows| ==> Lower(rows[j].itemName) != Lower(rows[i].itemName)) ==>
              SellPrices(rows).value[Lower(rows[i].itemName)] == rows[i].sellPrice.n)
    ensures SellPrices(rows).Success? ==>
      forall name :: name in SellPrices(rows).value ==> exists i :: 0 <= i < |rows| && Lower(rows[i].itemName) == name
  {
    if rows != [] {
      var init := rows[..|rows| - 1];
      SellPricesTable(init);
      assert forall i :: 0 <= i < |init| ==> init[i] == rows[i];
      if SellPrices(init).Failure? {
        var i :| 0 <= i < |init| && !init[i].sellPrice.Num?;
        assert !rows[i].sellPrice.Num?;
      }
    }
  }

  // ---------------------------------------------------------------------------------------
  // find_profitable_items
  // ---------------------------------------------------------------------------------------

  /**
   * A listing that makes the report: its item is priced, its price and quantity convert,
   * it costs more than $1, and the target sell price is higher than its price.
   */
  predicate Qualifies(prices: map<string, int>, row: ListingRow) {
    && Lower(row.itemName) in prices
    && row.price.Num? && row.quantity.Num?
    && row.price.n > 1
    && prices[Lower(row.itemName)] > row.price.n
  }

  function ItemOf(prices: map<string, int>, row: ListingRow): ProfitableItem
    requires Qualifies(prices, row)
  {
    var sell := prices[Lower(row.itemName)];
    ProfitableItem(row.playerId, row.itemName, row.price.n, sell, row.quantity.n,
                   (sell - row.price.n) * row.quantity.n, BazaarLinkPrefix + row.playerId)
  }

  /** What one listing contributes to the report. */
  function Offer(prices: map<string, int>, row: ListingRow): seq<ProfitableItem> {
    if Qualifies(prices, row) then [ItemOf(prices, row)] else []
  }

  function OffersOf(prices: map<string, int>): ListingRow -> seq<ProfitableItem> {
    row => Offer(prices, row)
  }

  /** `find_profitable_items`: one loop over the listings, in file order. */
  method FindProfitableItems(prices: map<string, int>, rows: seq<ListingRow>) returns (items: seq<ProfitableItem>)
    ensures items == FlatMap(rows, OffersOf(prices))
  {
    items := [];
    var i := 0;
    while i < |rows|
      invariant 0 <= i <= |rows|
      invariant items == FlatMap(rows[..i], OffersOf(prices))
    {
      FlatMapStep(rows, i, OffersOf(prices));
      var row := rows[i];
      var itemName := Lower(row.itemName);
      if itemName in prices {
        var sellPrice := prices[itemName];
        var buyPrice := ParseInt(row.price);
        var quantity := ParseInt(row.quantity);
        if buyPrice.Success? && quantity.Success? && buyPrice.value > 1 && sellPrice > buyPrice.value {
          var totalProfit := (sellPrice - buyPrice.value) * quantity.value;
          var bazaarLink := BazaarLinkPrefix + row.playerId;
          items := items + [ProfitableItem(row.playerId, row.itemName, buyPrice.value, sellPrice,
                                           quantity.value, totalProfit, bazaarLink)];
        }
      }
      i := i + 1;
    }
    assert rows[..i] == rows;
  }

  /**
   * The report holds an item for exactly the qualifying listings: every item was bought for
   * more than $1 below its sell price, its profit is `(sell - buy) * quantity` and its link
   * names its seller; every qualifying listing has its item in the report.
   */
  lemma {:induction false} ReportHoldsQualifyingListings(prices: map<string, int>, rows: seq<ListingRow>)
    ensures |FlatMap(rows, OffersOf(prices))| <= |rows|
    ensures forall it :: it in FlatMap(rows, OffersOf(prices)) ==>
      && 1 < it.buyPrice < it.sellPrice
      && it.totalProfit == (it.sellPrice - it.buyPrice) * it.quantity
      && it.bazaarLink == BazaarLinkPrefix + it.playerId
      && exists i :: 0 <= i < |rows| && Qualifies(prices, rows[i]) && it == ItemOf(prices, rows[i])
    ensures forall i :: 0 <= i < |rows| && Qualifies(prices, rows[i]) ==> ItemOf(prices, rows[i]) in FlatMap(rows, OffersOf(prices))
  {
    if rows != [] {
      var init := rows[..|rows| - 1];
      var last := rows[|rows| - 1];
      ReportHoldsQualifyingListings(prices, init);
      assert rows == init + [last];
      assert FlatMap(rows, OffersOf(prices)) == FlatMap(init, OffersOf(prices)) + Offer(prices, last);
      assert forall i :: 0 <= i < |init| ==> init[i] == rows[i];
    }
  }

  // ---------------------------------------------------------------------------------------
  // display_most_profitable: the stable descending sort
  // ---------------------------------------------------------------------------------------

  ghost predicate Descending(s: seq<ProfitableItem>) {
    forall i, j :: 0 <= i < j < |s| ==> s[i].totalProfit >= s[j].totalProfit
  }

  /**
   * Inserting into a sorted prefix from the right: the item moves left past every item
   * with a smaller profit and stops behind the first one with a profit at least as large.
   */
  function Insert(s: seq<ProfitableItem>, x: ProfitableItem): seq<ProfitableItem> {
    if s == [] || s[|s| - 1].totalProfit >= x.totalProfit then s + [x]
    else Insert(s[..|s| - 1], x) + [s[|s| - 1]]
  }

  /** `list.sort(key=total_profit, reverse=True)`, as the insertion of each item in turn. */
  function SortByProfit(s: seq<ProfitableItem>): seq<ProfitableItem> {
    if s == [] then [] else Insert(SortByProfit(s[..|s| - 1]), s[|s| - 1])
  }

  /** The item alone when its profit is `v`, nothing otherwise. */
  function IfProfit(x: ProfitableItem, v: int): seq<ProfitableItem> {
    if x.totalProfit == v then [x] else []
  }

  /** The items of `s` with a given profit, in their order in `s`. */
  function WithProfit(s: seq<ProfitableItem>, v: int): seq<ProfitableItem> {
    if s == [] then [] else WithProfit(s[..|s| - 1], v) + IfProfit(s[|s| - 1], v)
  }

  lemma {:induction false} WithProfitAppend(a: seq<ProfitableItem>, b: seq<ProfitableItem>, v: int)
    ensures WithProfit(a + b, v) == WithProfit(a, v) + WithProfit(b, v)
    decreases |b|
  {
    if b == [] {
      assert a + b == a;
    } else {
      assert (a + b)[..|a + b| - 1] == a + b[..|b| - 1];
      WithProfitAppend(a, b[..|b| - 1], v);
    }
  }

  /** Where the insertion lands: after the last item whose profit is at least the new one's. */
  lemma {:induction false} InsertSplit(s: seq<ProfitableItem>, x: ProfitableItem, j: nat)
    requires j <= |s|
    requires forall k :: j <= k < |s| ==> s[k].totalProfit < x.totalProfit
    requires j > 0 ==> s[j - 1].totalProfit >= x.totalProfit
    ensures Insert(s, x) == s[..j] + [x] + s[j..]
    decreases |s|
  {
    if |s| == j {
      assert s[..j] == s && s[j..] == [];
    } else {
      var init := s[..|s| - 1];
      var last := s[|s| - 1];
      InsertSplit(init, x, j);
      assert Insert(s, x) == Insert(init, x) + [last];
      assert init[..j] == s[..j];
      assert init[j..] + [last] == s[j..];
      AppendAssoc(s[..j] + [x], init[j..], [last]);
    }
  }

  /** Insertion adds exactly the new item: the same members plus one, and the same multiset plus one. */
  lemma {:induction false} InsertAddsOne(s: seq<ProfitableItem>, x: ProfitableItem)
    ensures forall y :: y in Insert(s, x) <==> y in s || y == x
    ensures multiset(Insert(s, x)) == multiset(s) + multiset{x}
    decreases |s|
  {
    if s == [] || s[|s| - 1].totalProfit >= x.totalProfit {
    } else {
      var init := s[..|s| - 1];
      InsertAddsOne(init, x);
      assert s == init + [s[|s| - 1]];
    }
  }

  /** Insertion into a descending sequence keeps it descending. */
  lemma {:induction false} InsertKeepsDescending(s: seq<ProfitableItem>, x: ProfitableItem)
    requires Descending(s)
    ensures Descending(Insert(s, x))
    decreases |s|
  {
    if s == [] || s[|s| - 1].totalProfit >= x.totalProfit {
    } else {
      var init := s[..|s| - 1];
      var last := s[|s| - 1];
      InsertKeepsDescending(init, x);
      InsertAddsOne(init, x);
      var r := Insert(init, x);
      forall i | 0 <= i < |r|
        ensures r[i].totalProfit >= last.totalProfit
      {
        assert r[i] in r;
        if r[i] != x {
          var k :| 0 <= k < |init| && init[k] == r[i];
          assert s[k] == r[i];
        }
      }
    }
  }

  /** Insertion puts the new item behind every item of equal profit, and moves no other. */
  lemma WithProfitSnoc(s: seq<ProfitableItem>, y: ProfitableItem, v: int)
    ensures WithProfit(s + [y], v) == WithProfit(s, v) + IfProfit(y, v)
  {
    assert (s + [y])[..|s|] == s;
  }

  lemma {:induction false} InsertIsStable(s: seq<ProfitableItem>, x: ProfitableItem, v: int)
    ensures WithProfit(Insert(s, x), v) == WithProfit(s, v) + IfProfit(x, v)
    decreases |s|
  {
    if s == [] || s[|s| - 1].totalProfit >= x.totalProfit {
      assert Insert(s, x) == s + [x];
      WithProfitSnoc(s, x, v);
    } else {
      var init := s[..|s| - 1];
      var last := s[|s| - 1];
      assert Insert(s, x) == Insert(init, x) + [last];
      assert s == init + [last];
      InsertIsStable(init, x, v);
      WithProfitSnoc(Insert(init, x), last, v);
      WithProfitSnoc(init, last, v);
      // `last` has a smaller profit than `x`, so at most one of them has profit `v`.
      assert IfProfit(x, v) + IfProfit(last, v) == IfProfit(last, v) + IfProfit(x, v);
      AppendAssoc(WithProfit(init, v), IfProfit(x, v), IfProfit(last, v));
      AppendAssoc(WithProfit(init, v), IfProfit(last, v), IfProfit(x, v));
    }
  }

  /**
   * The sort orders by profit, largest first, keeps every item (a permutation), and keeps
   * the input order among items of equal profit (stability).
   */
  lemma {:induction false} SortByProfitIsStableDescending(s: seq<ProfitableItem>)
    ensures Descending(SortByProfit(s))
    ensures multiset(SortByProfit(s)) == multiset(s)
    ensures forall v :: WithProfit(SortByProfit(s), v) == WithProfit(s, v)
  {
    if s != [] {
      var init := s[..|s| - 1];
      var last := s[|s| - 1];
      SortByProfitIsStableDescending(init);
      assert SortByProfit(s) == Insert(SortByProfit(init), last);
      InsertKeepsDescending(SortByProfit(init), last);
      InsertAddsOne(SortByProfit(init), last);
      assert s == init + [last];
      SortStep(init, last);
    }
  }

  /** Sorting one more item keeps each profit's items in input order, given that the shorter sort did. */
  lemma SortStep(init: seq<ProfitableItem>, last: ProfitableItem)
    requires forall v :: WithProfit(SortByProfit(init), v) == WithProfit(init, v)
    ensures forall v :: WithProfit(SortByProfit(init + [last]), v) == WithProfit(init + [last], v)
  {
    assert (init + [last])[..|init|] == init;
    assert SortByProfit(init + [last]) == Insert(SortByProfit(init), last);
    forall v
      ensures WithProfit(SortByProfit(init + [last]), v) == WithProfit(init + [last], v)
    {
      InsertIsStable(SortByProfit(init), last, v);
      WithProfitSnoc(init, last, v);
    }
  }

  /**
   * The sort of `display_most_profitable`, in place: each item in turn is moved left past
   * the items of smaller profit before it.
   */
  method SortByProfitDescending(a: array<ProfitableItem>)
    modifies a
    ensures a[..] == SortByProfit(old(a[..]))
  {
    ghost var input := a[..];
    var i := 0;
    while i < a.Length
      invariant 0 <= i <= a.Length
      invariant a[..i] == SortByProfit(input[..i])
      invariant a[i..] == input[i..]
    {
      assert input[..i + 1][..i] == input[..i];
      assert SortByProfit(input[..i + 1]) == Insert(SortByProfit(input[..i]), input[i]);
      assert a[i] == input[i] && a[i + 1..] == input[i + 1..];
      InsertAt(a, i);
      i := i + 1;
    }
    assert input[..i] == input;
  }

  /** One pass of the outer loop: `a[i]` is inserted into the sorted prefix `a[..i]`. */
  method InsertAt(a: array<ProfitableItem>, i: nat)
    requires i < a.Length
    modifies a
    ensures a[..i + 1] == Insert(old(a[..i]), old(a[i]))
    ensures a[i + 1..] == old(a[i + 1..])
  {
    ghost var sorted := a[..i];
    var x := a[i];
    var j := i;
    while j > 0 && a[j - 1].totalProfit < x.totalProfit
      invariant 0 <= j <= i
      invariant forall k :: 0 <= k < j ==> a[k] == sorted[k]
      invariant forall k :: j < k <= i ==> a[k] == sorted[k - 1]
      invariant a[i + 1..] == old(a[i + 1..])
      invariant forall k :: j <= k < i ==> sorted[k].totalProfit < x.totalProfit
    {
      a[j] := a[j - 1];
      j := j - 1;
    }
    a[j] := x;
    ShiftedIsInsert(a[..i + 1], sorted, x, j);
  }

  /**
   * The array after the shifting loop: the items before the hole as they were, `x` in the
   * hole, the shifted items after it — which is the insertion of `x` into the sorted prefix.
   */
  lemma ShiftedIsInsert(r: seq<ProfitableItem>, s: seq<ProfitableItem>, x: ProfitableItem, j: nat)
    requires j <= |s| && |r| == |s| + 1
    requires forall k :: 0 <= k < j ==> r[k] == s[k]
    requires r[j] == x
    requires forall k :: j < k < |r| ==> r[k] == s[k - 1]
    requires forall k :: j <= k < |s| ==> s[k].totalProfit < x.totalProfit
    requires j > 0 ==> s[j - 1].totalProfit >= x.totalProfit
    ensures r == Insert(s, x)
  {
    InsertSplit(s, x, j);
    assert r == s[..j] + [x] + s[j..];
  }
}
