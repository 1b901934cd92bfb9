/**
 * `DataAnalyzer`: a running aggregate over the sales records fed to it
 * one at a time: how many, total revenue, quantity per product, and the
 * earliest and latest sale date.
 *
 * The specification functions below describe the aggregate of a whole
 * sequence of records; each is defined by peeling off the LAST record,
 * which is how `processRecord` extends the aggregate.
 */
module DataAnalysis {
  import opened Wrappers
  import opened CalendarDates
  import opened SalesRecords

  /** The sum of `calculateRevenue()` over the records. */
  function RevenueOf(rs: seq<SalesRecord>): real {
    if |rs| == 0 then 0.0 else RevenueOf(rs[..|rs| - 1]) + rs[|rs| - 1].CalculateRevenue()
  }

  /** `map.merge(product, quantity, Integer::sum)`: insert when absent, add when present. */
  function Merge(m: map<string, int>, product: string, quantity: int): map<string, int> {
    m[product := if product in m then m[product] + quantity else quantity]
  }

  /** Merging adds the product's key, sums into an existing entry, and leaves every other entry alone. */
  lemma MergeMeaning(m: map<string, int>, product: string, quantity: int)
    ensures Merge(m, product, quantity).Keys == m.Keys + {product}
    ensures product in m ==> Merge(m, product, quantity)[product] == m[product] + quantity
    ensures product !in m ==> Merge(m, product, quantity)[product] == quantity
    ensures forall p :: p in m && p != product ==> Merge(m, product, quantity)[p] == m[p]
  {
  }

  /** The product-quantity map after merging every record in order. */
  function QuantitiesOf(rs: seq<SalesRecord>): map<string, int> {
    if |rs| == 0 then map[] else Merge(QuantitiesOf(rs[..|rs| - 1]), rs[|rs| - 1].product, rs[|rs| - 1].quantity)
  }

  /** An independent reference: the total quantity sold of one product. */
  function QuantitySold(rs: seq<SalesRecord>, product: string): int {
    if |rs| == 0 then 0
    else QuantitySold(rs[1..], product) + (if rs[0].product == product then rs[0].quantity else 0)
  }

  /** The tracked first sale date: replaced only by a strictly earlier date. */
  function EarliestOf(rs: seq<SalesRecord>): Option<LocalDate> {
    if |rs| == 0 then None
    else
      var d := rs[|rs| - 1].date;
      match EarliestOf(rs[..|rs| - 1])
      case None => Some(d)
      case Some(first) => if Before(d, first) then Some(d) else Some(first)
  }

  /** The tracked last sale date: replaced only by a strictly later date. */
  function LatestOf(rs: seq<SalesRecord>): Option<LocalDate> {
    if |rs| == 0 then None
    else
      var d := rs[|rs| - 1].date;
      match LatestOf(rs[..|rs| - 1])
      case None => Some(d)
      case Some(last) => if Before(last, d) then Some(d) else Some(last)
  }

  /** Each aggregate of one more record is the old aggregate updated as `processRecord` does. */
  lemma AggregatesSnoc(rs: seq<SalesRecord>, r: SalesRecord)
    ensures RevenueOf(rs + [r]) == RevenueOf(rs) + r.CalculateRevenue()
    ensures QuantitiesOf(rs + [r]) == Merge(QuantitiesOf(rs), r.product, r.quantity)
    ensures EarliestOf(rs + [r]) ==
      Some(if EarliestOf(rs).None? || Before(r.date, EarliestOf(rs).value) then r.date else EarliestOf(rs).value)
    ensures LatestOf(rs + [r]) ==
      Some(if LatestOf(rs).None? || Before(LatestOf(rs).value, r.date) then r.date else LatestOf(rs).value)
  {
    assert (rs + [r])[..|rs|] == rs;
  }

  /** Revenue adds up across concatenation: feeding two batches equals feeding them as one. */
  lemma {:induction false} RevenueAppend(a: seq<SalesRecord>, b: seq<SalesRecord>)
    ensures RevenueOf(a + b) == RevenueOf(a) + RevenueOf(b)
    decreases |b|
  {
    if |b| > 0 {
      var b' := b[..|b| - 1];
      assert (a + b)[..|a + b| - 1] == a + b';
      assert (a + b)[|a + b| - 1] == b[|b| - 1];
      RevenueAppend(a, b');
    } else {
      assert a + b == a;
    }
  }

  lemma {:induction false} QuantitySoldSnoc(rs: seq<SalesRecord>, r: SalesRecord, product: string)
    ensures QuantitySold(rs + [r], product) == QuantitySold(rs, product) + (if r.product == product then r.quantity else 0)
  {
    if |rs| > 0 {
      assert (rs + [r])[1..] == rs[1..] + [r];
      QuantitySoldSnoc(rs[1..], r, product);
    } else {
      assert (rs + [r])[1..] == [];
    }
  }

  /**
   * The merged map holds exactly the products that occur, each with the
   * total quantity sold of it: merging sums and never overwrites.
   */
  lemma {:induction false} QuantitiesOfMeaning(rs: seq<SalesRecord>)
    ensures forall p :: p in QuantitiesOf(rs) <==> exists i :: 0 <= i < |rs| && rs[i].product == p
    ensures forall p :: p in QuantitiesOf(rs) ==> QuantitiesOf(rs)[p] == QuantitySold(rs, p)
  {
    if |rs| > 0 {
      var prefix, r := rs[..|rs| - 1], rs[|rs| - 1];
      QuantitiesOfMeaning(prefix);
      MergeMeaning(QuantitiesOf(prefix), r.product, r.quantity);
      assert rs == prefix + [r];
      forall p | p in QuantitiesOf(rs)
        ensures QuantitiesOf(rs)[p] == QuantitySold(rs, p)
      {
        QuantitySoldSnoc(prefix, r, p);
        if p != r.product {
          assert p in QuantitiesOf(prefix);
        } else if p !in QuantitiesOf(prefix) {
          assert QuantitySold(prefix, p) == 0 by { QuantitySoldAbsent(prefix, p); }
        }
      }
      forall p | exists i :: 0 <= i < |rs| && rs[i].product == p
        ensures p in QuantitiesOf(rs)
      {
        var i :| 0 <= i < |rs| && rs[i].product == p;
        if i < |rs| - 1 {
          assert prefix[i].product == p;
        }
      }
      forall p | p in QuantitiesOf(rs)
        ensures exists i :: 0 <= i < |rs| && rs[i].product == p
      {
        if p != r.product {
          assert p in QuantitiesOf(prefix);
          var i :| 0 <= i < |prefix| && prefix[i].product == p;
          assert rs[i].product == p;
        } else {
          assert rs[|rs| - 1].product == p;
        }
      }
    }
  }

  /** A product that never occurs has sold nothing. */
  lemma {:induction false} QuantitySoldAbsent(rs: seq<SalesRecord>, product: string)
    requires forall i :: 0 <= i < |rs| ==> rs[i].product != product
    ensures QuantitySold(rs, product) == 0
  {
    if |rs| > 0 {
      QuantitySoldAbsent(rs[1..], product);
    }
  }

  /** The first sale date is absent exactly for no records, and otherwise the earliest date among them. */
  lemma {:induction false} EarliestIsMinimum(rs: seq<SalesRecord>)
    ensures EarliestOf(rs).None? <==> |rs| == 0
    ensures EarliestOf(rs).Some? ==> exists i :: 0 <= i < |rs| && rs[i].date == EarliestOf(rs).value
    ensures EarliestOf(rs).Some? ==> forall i :: 0 <= i < |rs| ==> !Before(rs[i].date, EarliestOf(rs).value)
  {
    if |rs| > 0 {
      var prefix, d := rs[..|rs| - 1], rs[|rs| - 1].date;
      EarliestIsMinimum(prefix);
      var e := EarliestOf(rs).value;
      forall i | 0 <= i < |rs|
        ensures !Before(rs[i].date, e)
      {
        if i < |rs| - 1 {
          assert rs[i] == prefix[i];
          BeforeIsStrictTotalOrder(rs[i].date, EarliestOf(prefix).value, d);
          BeforeIsStrictTotalOrder(rs[i].date, d, EarliestOf(prefix).value);
        } else {
          BeforeIsStrictTotalOrder(d, e, d);
        }
      }
      if EarliestOf(prefix).Some? && e == EarliestOf(prefix).value {
        var i :| 0 <= i < |prefix| && prefix[i].date == e;
        assert rs[i].date == e;
      } else {
        assert rs[|rs| - 1].date == e;
      }
    }
  }

  /** The last sale date is absent exactly for no records, and otherwise the latest date among them. */
  lemma {:induction false} LatestIsMaximum(rs: seq<SalesRecord>)
    ensures LatestOf(rs).None? <==> |rs| == 0
    ensures LatestOf(rs).Some? ==> exists i :: 0 <= i < |rs| && rs[i].date == LatestOf(rs).value
    ensures LatestOf(rs).Some? ==> forall i :: 0 <= i < |rs| ==> !Before(LatestOf(rs).value, rs[i].date)
  {
    if |rs| > 0 {
      var prefix, d := rs[..|rs| - 1], rs[|rs| - 1].date;
      LatestIsMaximum(prefix);
      var l := LatestOf(rs).value;
      forall i | 0 <= i < |rs|
        ensures !Before(l, rs[i].date)
      {
        if i < |rs| - 1 {
          assert rs[i] == prefix[i];
          BeforeIsStrictTotalOrder(LatestOf(prefix).value, rs[i].date, d);
          BeforeIsStrictTotalOrder(d, LatestOf(prefix).value, rs[i].date);
        } else {
          BeforeIsStrictTotalOrder(d, l, d);
        }
      }
      if LatestOf(prefix).Some? && l == LatestOf(prefix).value {
        var i :| 0 <= i < |prefix| && prefix[i].date == l;
        assert rs[i].date == l;
      } else {
        assert rs[|rs| - 1].date == l;
      }
    }
  }

  /** Whenever records exist, the first sale date is not after the last one. */
  lemma FirstNotAfterLast(rs: seq<SalesRecord>)
    requires |rs| > 0
    ensures EarliestOf(rs).Some? && LatestOf(rs).Some?
    ensures !Before(LatestOf(rs).value, EarliestOf(rs).value)
  {
    EarliestIsMinimum(rs);
    LatestIsMaximum(rs);
    var i :| 0 <= i < |rs| && rs[i].date == EarliestOf(rs).value;
  }

  /** The largest entry of a non-empty map, ties broken arbitrarily (a stream `max` by value). */
  method MaxEntry(m: map<string, int>) returns (key: string, value: int)
    requires m != map[]
    ensures key in m && value == m[key]
    ensures forall p :: p in m ==> m[p] <= value
  {
    var unseen := m.Keys;
    key :| key in unseen;
    value := m[key];
    unseen := unseen - {key};
    while unseen != {}
      invariant unseen <= m.Keys
      invariant key in m && value == m[key]
      invariant forall p :: p in m && p !in unseen ==> m[p] <= value
      decreases |unseen|
    {
      var p :| p in unseen;
      if m[p] > value {
        key, value := p, m[p];
      }
      unseen := unseen - {p};
    }
  }

  /** One call made on an analyzer: `processRecord(record)` or `recordError()`. */
  datatype Call = Processed(record: SalesRecord) | Failed

  /** The records handed to `processRecord`, in the order of the calls. */
  function RecordsProcessed(calls: seq<Call>): seq<SalesRecord> {
    if |calls| == 0 then []
    else
      var last := calls[|calls| - 1];
      RecordsProcessed(calls[..|calls| - 1]) + if last.Processed? then [last.record] else []
  }

  /** The number of `recordError` calls in the history. */
  function FailuresIn(calls: seq<Call>): nat {
    if |calls| == 0 then 0
    else FailuresIn(calls[..|calls| - 1]) + if calls[|calls| - 1].Failed? then 1 else 0
  }

  /** Every call either processed one record or counted one failure. */
  lemma {:induction false} CallsAccounted(calls: seq<Call>)
    ensures |RecordsProcessed(calls)| + FailuresIn(calls) == |calls|
  {
    if |calls| > 0 {
      var init := calls[..|calls| - 1];
      CallsAccounted(init);
      assert calls == init + [calls[|calls| - 1]];
    }
  }

  /** One more call extends the history by its record, or by nothing for a failure. */
  lemma CallsSnoc(calls: seq<Call>, c: Call)
    ensures RecordsProcessed(calls + [c]) == RecordsProcessed(calls) + if c.Processed? then [c.record] else []
    ensures FailuresIn(calls + [c]) == FailuresIn(calls) + if c.Failed? then 1 else 0
  {
    assert (calls + [c])[..|calls|] == calls;
  }

  const NO_PRODUCT: string := "None"
  const NO_RECORDS: string := "No valid records"

  class DataAnalyzer {
    var totalRecords: int
    var totalRevenue: real
    var firstSaleDate: Option<LocalDate>
    var lastSaleDate: Option<LocalDate>
    var productQuantities: map<string, int>
    /** Test-derived extension: the count of lines `recordError` reported. */
    var failedRecords: int
    /** Every record processed so far, oldest first. */
    ghost var processed: seq<SalesRecord>
    /** Every `processRecord` and `recordError` call so far, oldest first. */
    ghost var calls: seq<Call>

    /** Each field is the aggregate of the records processed so far. */
    ghost predicate Valid()
      reads this
    {
      totalRecords == |processed| &&
      totalRevenue == RevenueOf(processed) &&
      productQuantities == QuantitiesOf(processed) &&
      firstSaleDate == EarliestOf(processed) &&
      lastSaleDate == LatestOf(processed) &&
      processed == RecordsProcessed(calls) &&
      failedRecords == FailuresIn(calls)
    }

    constructor ()
      ensures Valid() && processed == [] && calls == [] && failedRecords == 0
      ensures totalRecords == 0 && totalRevenue == 0.0 && productQuantities == map[]
      ensures firstSaleDate == None && lastSaleDate == None
    {
      totalRecords := 0;
      totalRevenue := 0.0;
      firstSaleDate := None;
      lastSaleDate := None;
      productQuantities := map[];
      failedRecords := 0;
      processed := [];
      calls := [];
    }

    /** `processRecord(record)`: fold one record into every aggregate. */
    method ProcessRecord(record: SalesRecord)
      requires Valid()
      modifies this
      ensures Valid() && processed == old(processed) + [record] && calls == old(calls) + [Processed(record)]
      ensures totalRecords == old(totalRecords) + 1
      ensures totalRevenue == old(totalRevenue) + record.CalculateRevenue()
      ensures productQuantities == Merge(old(productQuantities), record.product, record.quantity)
      ensures firstSaleDate == Some(if old(firstSaleDate).None? || Before(record.date, old(firstSaleDate).value)
                                    then record.date else old(firstSaleDate).value)
      ensures lastSaleDate == Some(if old(lastSaleDate).None? || Before(old(lastSaleDate).value, record.date)
                                   then record.date else old(lastSaleDate).value)
      ensures failedRecords == old(failedRecords)
    {
      ghost var after := processed + [record];
      ghost var history := calls + [Processed(record)];
      assert RevenueOf(after) == totalRevenue + record.CalculateRevenue() &&
             QuantitiesOf(after) == Merge(productQuantities, record.product, record.quantity) &&
             EarliestOf(after) == Some(if firstSaleDate.None? || Before(record.date, firstSaleDate.value)
                                       then record.date else firstSaleDate.value) &&
             LatestOf(after) == Some(if lastSaleDate.None? || Before(lastSaleDate.value, record.date)
                                     then record.date else lastSaleDate.value) &&
             RecordsProcessed(history) == after && FailuresIn(history) == failedRecords by {
        AggregatesSnoc(processed, record);
        CallsSnoc(calls, Processed(record));
      }
      totalRevenue := totalRevenue + record.CalculateRevenue();
      productQuantities := Merge(productQuantities, record.product, record.quantity);
      totalRecords := totalRecords + 1;
      var recordDate := record.date;
      if firstSaleDate.None? || Before(recordDate, firstSaleDate.value) {
        firstSaleDate := Some(recordDate);
      }
      if lastSaleDate.None? || Before(lastSaleDate.value, recordDate) {
        lastSaleDate := Some(recordDate);
      }
      processed := after;
      calls := history;
    }

    /** `recordError()` (test-derived extension): count one failed line and nothing else. */
    method RecordError()
      requires Valid()
      modifies this
      ensures Valid() && processed == old(processed) && calls == old(calls) + [Failed]
      ensures failedRecords == old(failedRecords) + 1
      ensures totalRecords == old(totalRecords) && totalRevenue == old(totalRevenue)
      ensures productQuantities == old(productQuantities)
      ensures firstSaleDate == old(firstSaleDate) && lastSaleDate == old(lastSaleDate)
    {
      failedRecords := failedRecords + 1;
      CallsSnoc(calls, Failed);
      calls := calls + [Failed];
    }

    function TotalRecords(): (n: int)
      requires Valid()
      reads this
      ensures n == |processed|
    {
      totalRecords
    }

    function TotalRevenue(): (total: real)
      requires Valid()
      reads this
      ensures total == RevenueOf(processed)
    {
      totalRevenue
    }

    /** `getTotalFailedRecords()` (test-derived extension): how many times `recordError` was called. */
    function TotalFailedRecords(): (n: int)
      requires Valid()
      reads this
      ensures n == FailuresIn(calls)
      ensures n + |processed| == |calls|
    {
      CallsAccounted(calls);
      failedRecords
    }

    function FirstSaleDate(): (d: Option<LocalDate>)
      requires Valid()
      reads this
      ensures d.None? <==> processed == []
      ensures d.Some? ==> forall i :: 0 <= i < |processed| ==> !Before(processed[i].date, d.value)
      ensures d.Some? ==> exists i :: 0 <= i < |processed| && processed[i].date == d.value
    {
      EarliestIsMinimum(processed);
      firstSaleDate
    }

    function LastSaleDate(): (d: Option<LocalDate>)
      requires Valid()
      reads this
      ensures d.None? <==> processed == []
      ensures d.Some? ==> forall i :: 0 <= i < |processed| ==> !Before(d.value, processed[i].date)
      ensures d.Some? ==> exists i :: 0 <= i < |processed| && processed[i].date == d.value
    {
      LatestIsMaximum(processed);
      lastSaleDate
    }

    /** `getAverageSaleValue()`: mean revenue per record, and exactly 0 before any record. */
    function AverageSaleValue(): (average: real)
      requires Valid()
      reads this
      ensures |processed| == 0 ==> average == 0.0
      ensures |processed| > 0 ==> average * |processed| as real == RevenueOf(processed)
    {
      if totalRecords > 0 then totalRevenue / totalRecords as real else 0.0
    }

    /** `getBestSellingProduct()`: "None" without records, else a product no other outsold. */
    method BestSellingProduct() returns (product: string)
      requires Valid()
      ensures processed == [] ==> product == NO_PRODUCT
      ensures processed != [] ==> exists i :: 0 <= i < |processed| && processed[i].product == product
      ensures processed != [] ==>
        forall i :: 0 <= i < |processed| ==> QuantitySold(processed, processed[i].product) <= QuantitySold(processed, product)
    {
      QuantitiesOfMeaning(processed);
      if processed != [] {
        assert processed[0].product in productQuantities;
      }
      if productQuantities == map[] {
        product := NO_PRODUCT;
      } else {
        var quantity;
        product, quantity := MaxEntry(productQuantities);
        forall j | 0 <= j < |processed|
          ensures QuantitySold(processed, processed[j].product) <= QuantitySold(processed, product)
        {
          assert processed[j].product in productQuantities;
        }
      }
    }

    /** `getBestSellingQuantity()` (test-derived extension): the largest product total, 0 without records. */
    method BestSellingQuantity() returns (quantity: int)
      requires Valid()
      ensures processed == [] ==> quantity == 0
      ensures processed != [] ==> exists i :: 0 <= i < |processed| && QuantitySold(processed, processed[i].product) == quantity
      ensures forall i :: 0 <= i < |processed| ==> QuantitySold(processed, processed[i].product) <= quantity
    {
      QuantitiesOfMeaning(processed);
      if processed != [] {
        assert processed[0].product in productQuantities;
      }
      if productQuantities == map[] {
        quantity := 0;
      } else {
        var product;
        product, quantity := MaxEntry(productQuantities);
        ghost var i :| 0 <= i < |processed| && processed[i].product == product;
        forall j | 0 <= j < |processed|
          ensures QuantitySold(processed, processed[j].product) <= quantity
        {
          assert processed[j].product in productQuantities;
        }
      }
    }

    /** `getDateRange()` (test-derived extension): "first to last", or "No valid records". */
    function DateRange(): (text: string)
      requires Valid()
      reads this
      ensures processed == [] ==> text == NO_RECORDS
      ensures processed != [] ==>
        text == FormatDate(EarliestOf(processed).value) + " to " + FormatDate(LatestOf(processed).value)
    {
      EarliestIsMinimum(processed);
      LatestIsMaximum(processed);
      if firstSaleDate.Some? && lastSaleDate.Some?
      then FormatDate(firstSaleDate.value) + " to " + FormatDate(lastSaleDate.value)
      else NO_RECORDS
    }
  }
}
