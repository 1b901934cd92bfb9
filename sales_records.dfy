/**
 * `SalesRecord`: one immutable sale (date, product, quantity, unit price),
 * the field-array parser `fromCsvFields`, and the revenue of a sale.
 *
 * Java doubles are exact reals here. A failed parse is a `Failure` naming
 * the exception `fromCsvFields` lets escape.
 */
module SalesRecords {
  import opened Wrappers
  import opened CalendarDates
  import opened NumberParsing
  import opened StringTrim

  datatype SalesRecord = SalesRecord(date: LocalDate, product: string, quantity: int, price: real) {
    /** `calculateRevenue()`: unit price times quantity. */
    function CalculateRevenue(): (revenue: real)
      ensures quantity != 0 ==> revenue / quantity as real == price
      ensures revenue == 0.0 <==> quantity == 0 || price == 0.0
      ensures quantity > 0 && price >= 0.0 ==> revenue >= 0.0
    {
      price * quantity as real
    }
  }

  /**
   * The exceptions that can leave `fromCsvFields` or the validating
   * constructor. `NumberFormat(text)` quotes the text the number parser
   * rejected; `EmptyNumberText` is the NumberFormatException that
   * `Double.parseDouble` throws when its trimmed argument is empty, and
   * `MultiplePoints` the one it throws on a second point in its literal.
   */
  datatype RecordError =
    | DateTimeParse(text: string)
    | IndexOutOfBounds(index: int, length: int)
    | NumberFormat(text: string)
    | EmptyNumberText
    | MultiplePoints
    | IllegalArgument(message: string)

  /** The exception's message, as far as the model determines it. */
  function Message(e: RecordError): (m: string)
    ensures e.IllegalArgument? ==> m == e.message
    ensures e.NumberFormat? ==> |m| > |e.text| && m[|m| - |e.text| - 1..] == e.text + "\""
    ensures e.EmptyNumberText? ==> m == "empty String"
    ensures e.MultiplePoints? ==> m == "multiple points"
  {
    match e
    case DateTimeParse(text) => "Text '" + text + "' could not be parsed"
    case IndexOutOfBounds(index, length) =>
      "Index " + IntToString(index) + " out of bounds for length " + IntToString(length)
    case NumberFormat(text) => "For input string: \"" + text + "\""
    case EmptyNumberText => "empty String"
    case MultiplePoints => "multiple points"
    case IllegalArgument(message) => message
  }

  /**
   * `fromCsvFields(fields)`: the constructor's arguments are evaluated left
   * to right, so the first failing step decides the exception: the date in
   * fields[0], then fields[1], then fields[2] as an int, then fields[3] as a
   * double. Entries past index 3 are never looked at. `Double.parseDouble`
   * trims its argument first, so a rejected price is quoted trimmed, and a
   * blank one is reported as empty.
   */
  function FromCsvFields(fields: seq<string>): (r: Result<SalesRecord, RecordError>)
    ensures r.Success? <==>
      |fields| >= 4 && ParseDate(fields[0]).Some? && ParseInt(fields[2]).Some? && ParseDecimal(fields[3]).Some?
    ensures r.Success? ==>
      ParseDate(fields[0]) == Some(r.value.date) && r.value.product == fields[1] &&
      ParseInt(fields[2]) == Some(r.value.quantity) && ParseDecimal(fields[3]) == Some(r.value.price)
    ensures r.Failure? && r.error.DateTimeParse? <==> |fields| >= 1 && ParseDate(fields[0]).None?
    ensures r.Failure? && r.error.DateTimeParse? ==> r.error.text == fields[0]
    ensures r.Failure? && r.error.IndexOutOfBounds? ==> r.error == IndexOutOfBounds(|fields|, |fields|) && |fields| < 4
    ensures r.Failure? && r.error.IndexOutOfBounds? <==>
      |fields| < 4 && (|fields| == 0 || ParseDate(fields[0]).Some?) && (|fields| < 3 || ParseInt(fields[2]).Some?)
    ensures r.Failure? && r.error.NumberFormat? ==>
      (r.error.text == fields[2] && ParseInt(fields[2]).None?) ||
      (|fields| >= 4 && r.error.text == Trim(fields[3]) != "" && !HasMultiplePoints(Trim(fields[3])) &&
       ParseInt(fields[2]).Some? && ParseDecimal(fields[3]).None?)
    ensures r.Failure? && r.error.EmptyNumberText? <==>
      |fields| >= 4 && ParseDate(fields[0]).Some? && ParseInt(fields[2]).Some? && Trim(fields[3]) == ""
    ensures r.Failure? && r.error.MultiplePoints? <==>
      |fields| >= 4 && ParseDate(fields[0]).Some? && ParseInt(fields[2]).Some? && HasMultiplePoints(Trim(fields[3]))
    ensures r.Failure? ==> !r.error.IllegalArgument?
  {
    if |fields| < 1 then Failure(IndexOutOfBounds(0, 0))
    else match ParseDate(fields[0])
      case None => Failure(DateTimeParse(fields[0]))
      case Some(date) =>
        if |fields| < 3 then Failure(IndexOutOfBounds(|fields|, |fields|))
        else match ParseInt(fields[2])
          case None => Failure(NumberFormat(fields[2]))
          case Some(quantity) =>
            if |fields| < 4 then Failure(IndexOutOfBounds(3, 3))
            else match ParseDecimal(fields[3])
              case None => Failure(PriceError(Trim(fields[3])))
              case Some(price) => Success(SalesRecord(date, fields[1], quantity, price))
  }

  /** The exception `Double.parseDouble` throws on the trimmed price text it rejects. */
  function PriceError(price: string): (e: RecordError)
    ensures e == EmptyNumberText <==> price == ""
    ensures e == MultiplePoints <==> price != "" && HasMultiplePoints(price)
    ensures e.NumberFormat? ==> e.text == price
  {
    if price == "" then EmptyNumberText
    else if HasMultiplePoints(price) then MultiplePoints
    else NumberFormat(price)
  }

  /** Only the first four entries matter: anything appended after them is ignored. */
  lemma FromCsvFieldsIgnoresExtra(fields: seq<string>, extra: seq<string>)
    requires |fields| == 4
    ensures FromCsvFields(fields + extra) == FromCsvFields(fields)
  {
    var all := fields + extra;
    assert all[0] == fields[0] && all[1] == fields[1] && all[2] == fields[2] && all[3] == fields[3];
  }

  // Test-derived extension. The record tests expect the constructor to
  // reject a quantity that is not positive and a negative price; the
  // constructor as written stores any values. The two messages are the
  // ones the tests expect, and quantity is checked first.

  const QUANTITY_MESSAGE: string := "Quantity must be positive"
  const PRICE_MESSAGE: string := "Price cannot be negative"

  /** The validating constructor the record tests expect (test-derived extension). */
  function NewCheckedRecord(date: LocalDate, product: string, quantity: int, price: real): (r: Result<SalesRecord, RecordError>)
    ensures r.Success? <==> quantity > 0 && price >= 0.0
    ensures r.Success? ==> r.value.date == date && r.value.product == product && r.value.quantity == quantity && r.value.price == price
    ensures quantity <= 0 ==> r == Failure(IllegalArgument(QUANTITY_MESSAGE))
    ensures quantity > 0 && price < 0.0 ==> r == Failure(IllegalArgument(PRICE_MESSAGE))
  {
    if quantity <= 0 then Failure(IllegalArgument(QUANTITY_MESSAGE))
    else if price < 0.0 then Failure(IllegalArgument(PRICE_MESSAGE))
    else Success(SalesRecord(date, product, quantity, price))
  }

  /** `fromCsvFields` building through the validating constructor (test-derived extension). */
  function FromCsvFieldsChecked(fields: seq<string>): (r: Result<SalesRecord, RecordError>)
    ensures r.Success? <==>
      FromCsvFields(fields).Success? && FromCsvFields(fields).value.quantity > 0 && FromCsvFields(fields).value.price >= 0.0
    ensures r.Success? ==> r.value == FromCsvFields(fields).value
    ensures FromCsvFields(fields).Failure? ==> r == FromCsvFields(fields)
    ensures r.Success? ==> r.value.CalculateRevenue() >= 0.0
  {
    match FromCsvFields(fields)
    case Failure(e) => Failure(e)
    case Success(s) => NewCheckedRecord(s.date, s.product, s.quantity, s.price)
  }

  /** Fields whose three parsers all succeed make the record from their values. */
  lemma FieldsParsed(fields: seq<string>, date: LocalDate, quantity: int, price: real)
    requires |fields| >= 4 && ParseDate(fields[0]) == Some(date)
    requires ParseInt(fields[2]) == Some(quantity) && ParseDecimal(fields[3]) == Some(price)
    ensures FromCsvFields(fields) == Success(SalesRecord(date, fields[1], quantity, price))
  {
  }

  /** The record-parsing cases of the tests, on the parser as written. */
  lemma FromCsvFieldsValidExample()
    ensures FromCsvFields(["2024-01-15", "Wireless Mouse", "25", "29.99"]) ==
      Success(SalesRecord(CalendarDay(2024, 1, 15), "Wireless Mouse", 25, 29.99))
  {
    var fields := ["2024-01-15", "Wireless Mouse", "25", "29.99"];
    assert ParseDate(fields[0]) == Some(CalendarDay(2024, 1, 15)) by {
      ParseDateAccepts();
    }
    assert ParseInt(fields[2]) == Some(25) by {
      ParseIntExamples();
    }
    assert ParseDecimal(fields[3]) == Some(29.99) by {
      ParseDecimalExamples();
    }
    FieldsParsed(fields, CalendarDay(2024, 1, 15), 25, 29.99);
  }

  lemma FromCsvFieldsBadDateExample()
    ensures FromCsvFields(["invalid-date", "Mouse", "25", "29.99"]) == Failure(DateTimeParse("invalid-date"))
  {
    ParseDateRejects();
  }

  lemma FromCsvFieldsBadQuantityExample()
    ensures FromCsvFields(["2024-01-15", "Mouse", "not-a-number", "29.99"]) == Failure(NumberFormat("not-a-number"))
  {
    var fields := ["2024-01-15", "Mouse", "not-a-number", "29.99"];
    assert ParseDate(fields[0]).Some? by {
      ParseDateAccepts();
    }
    assert ParseInt(fields[2]) == None by {
      ParseIntRejects();
    }
  }

  lemma FromCsvFieldsBadPriceExample()
    ensures FromCsvFields(["2024-01-15", "Mouse", "25", "invalid-price"]) == Failure(NumberFormat("invalid-price"))
  {
    var fields := ["2024-01-15", "Mouse", "25", "invalid-price"];
    assert ParseDate(fields[0]).Some? by {
      ParseDateAccepts();
    }
    assert ParseInt(fields[2]).Some? by {
      ParseIntExamples();
    }
    assert ParseDecimal(fields[3]) == None && Trim(fields[3]) == fields[3] by {
      ParseDecimalRejects();
      TrimUntouched(fields[3]);
    }
    assert !HasMultiplePoints(fields[3]) by {
      NoPointRun(fields[3]);
    }
    FieldsPriceRejected(fields);
  }

  /** Fields whose date and quantity parse and whose price is rejected without a second point quote the trimmed price. */
  lemma FieldsPriceRejected(fields: seq<string>)
    requires |fields| >= 4 && ParseDate(fields[0]).Some? && ParseInt(fields[2]).Some? && ParseDecimal(fields[3]).None?
    requires Trim(fields[3]) != "" && !HasMultiplePoints(Trim(fields[3]))
    ensures FromCsvFields(fields) == Failure(NumberFormat(Trim(fields[3])))
  {
  }

  /** Fields whose date and quantity parse and whose price is blank fail with the empty-text error. */
  lemma FieldsBlankPrice(fields: seq<string>)
    requires |fields| >= 4 && ParseDate(fields[0]).Some? && ParseInt(fields[2]).Some? && Trim(fields[3]) == ""
    ensures FromCsvFields(fields) == Failure(EmptyNumberText)
  {
  }

  /** A blank price, as left by a line ending in ", ", is reported as an empty number. */
  lemma FromCsvFieldsBlankPriceExample()
    ensures FromCsvFields(["2024-01-15", "Mouse", "25", " "]) == Failure(EmptyNumberText)
    ensures Message(EmptyNumberText) == "empty String"
  {
    var fields := ["2024-01-15", "Mouse", "25", " "];
    assert ParseDate(fields[0]).Some? by {
      ParseDateAccepts();
    }
    assert ParseInt(fields[2]).Some? by {
      ParseIntExamples();
    }
    assert Trim(fields[3]) == "" by {
      TrimEmptyIff(fields[3]);
    }
    FieldsBlankPrice(fields);
  }

  /** A price with a second point, as in the line "2024-01-15,Mouse,25,1.2.3", is reported as "multiple points". */
  lemma FromCsvFieldsMultiplePointsExample()
    ensures FromCsvFields(["2024-01-15", "Mouse", "25", "1.2.3"]) == Failure(MultiplePoints)
    ensures Message(MultiplePoints) == "multiple points"
  {
    var fields := ["2024-01-15", "Mouse", "25", "1.2.3"];
    assert ParseDate(fields[0]).Some? by {
      ParseDateAccepts();
    }
    assert ParseInt(fields[2]).Some? by {
      ParseIntExamples();
    }
    assert HasMultiplePoints(Trim(fields[3])) by {
      MultiplePointsExamples();
      TrimUntouched(fields[3]);
    }
    FieldsMultiplePoints(fields);
  }

  /** Fields whose date and quantity parse and whose price has a second point fail with "multiple points". */
  lemma FieldsMultiplePoints(fields: seq<string>)
    requires |fields| >= 4 && ParseDate(fields[0]).Some? && ParseInt(fields[2]).Some?
    requires HasMultiplePoints(Trim(fields[3]))
    ensures FromCsvFields(fields) == Failure(MultiplePoints)
  {
  }

  lemma FromCsvFieldsMissingFieldsExample()
    ensures FromCsvFields(["2024-01-15", "Mouse"]) == Failure(IndexOutOfBounds(2, 2))
  {
    ParseDateAccepts();
  }

  lemma FromCsvFieldsThreeFieldsExample()
    ensures FromCsvFields(["2024-01-15", "Mouse", "10"]) == Failure(IndexOutOfBounds(3, 3))
  {
    var fields := ["2024-01-15", "Mouse", "10"];
    assert ParseDate(fields[0]).Some? by {
      ParseDateAccepts();
    }
    assert ParseInt(fields[2]).Some? by {
      ParseIntToString(10);
      assert IntToString(10) == "10";
    }
  }

  /** The shown parser accepts a negative quantity: the record it builds has negative revenue. */
  lemma NegativeQuantityAccepted()
    ensures FromCsvFields(["2024-01-15", "Mouse", "-10", "25.50"]) ==
      Success(SalesRecord(CalendarDay(2024, 1, 15), "Mouse", -10, 25.5))
    ensures FromCsvFields(["2024-01-15", "Mouse", "-10", "25.50"]).value.CalculateRevenue() < 0.0
  {
    var fields := ["2024-01-15", "Mouse", "-10", "25.50"];
    assert ParseDate(fields[0]) == Some(CalendarDay(2024, 1, 15)) by {
      ParseDateAccepts();
    }
    assert ParseInt(fields[2]) == Some(-10) by {
      ParseIntExamples();
    }
    assert ParseDecimal(fields[3]) == Some(25.5) by {
      ParseDecimalExample2550();
    }
    FieldsParsed(fields, CalendarDay(2024, 1, 15), -10, 25.5);
  }

  /** The validating parser rejects the same fields with the message the tests expect. */
  lemma NegativeQuantityRejected()
    ensures FromCsvFieldsChecked(["2024-01-15", "Mouse", "-10", "25.50"]) == Failure(IllegalArgument(QUANTITY_MESSAGE))
  {
    NegativeQuantityAccepted();
  }
}
