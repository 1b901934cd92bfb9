# hands-on-java exercises in Dafny

A Dafny model of the stateful and computational core of four exercise projects:

- **Number guesser** (`NumberGuesser`). A `GuessChecker` holds a secret in [1, 100], counts down seven attempts and remembers a win. The class keeps a ghost history of the guesses. Its state is always `Play(NewGame(secret), guesses)`, a pure fold of `Step` over that history.
- **To-do list** (`TodoTask`, `TodoManager`).
  - A `Task` is a class with a fixed description and a completion flag.
  - A `TaskManager` is a class over `seq<Task>`, with 1-based numbering, delete-with-shift and in-place completion.
  - `viewAllTasks` is a loop proved equal to a numbered-lines function.
- **CSV sales analysis** (`SalesRecords`, `DataAnalysis`, `CsvReading`, with helpers `Numerals`, `StringTrim`, `NumberParsing` and `CalendarDates`).
  - `SalesRecord` is an immutable value with the field parser `fromCsvFields`. Its date is parsed as the ISO 8601 extended calendar date YYYY-MM-DD (section 4.1.2.2 of ISO 8601:2004), with the Gregorian leap-year rule. The quantity goes through `Integer.parseInt` and the price through a plain-decimal `Double.parseDouble`.
  - `DataAnalyzer` is a class whose fields are, at all times, the count, revenue sum, product-quantity map and first/last date of a ghost history of processed records.
  - `CsvReader.readFile` is a method over a `FileInput` value. It is either a file that cannot be opened, or the lines `readLine` returns plus an optional `readLine` call that throws. The method drives the analyzer line by line and returns what it would write to the error stream as a sequence of `Diagnostic`s.
- **Temperature converter** (`TemperatureScale`, `TemperatureConversion`). The three scales and the affine conversion through Celsius, over exact reals. Every conversion is checked against one independent reference: how many kelvins a reading lies above absolute zero.

Members labelled *test-derived extension* do not exist in the shown Java. The tests call them, or expect their behaviour:
- `DataAnalyzer.recordError`, `getTotalFailedRecords`, `getBestSellingQuantity` and `getDateRange`;
- the validating `SalesRecord` constructor.

The code as written is modelled separately from these extensions. `ReadFile` takes a flag that selects which record parser it uses.

Where the project's own description and its code disagree, the model follows the code:
- The description calls the quantity positive and the price non-negative. `SalesRecord`'s constructor checks neither; see Findings.
- The description numbers diagnostics by 1-based line. `readFile` numbers them by `lineCount`, which starts at 1 for the header and rises once per non-blank data line (`CsvReading.DiagnosticLineNumbers`). So the header is counted, and the number differs from the physical line number only when blank lines came before the failing line.
- `checkGuess` has no game-over guard, so the attempts left can go negative (`NumberGuesser.OverrunReopensGame`). Only the console driver's loop keeps them at 0 or above (`NumberGuesser.GuardedPlayBounded`).

## Model

| member | source | states |
|---|---|---|
| NumberGuesser.PlayOutcome | 02-number-guesser/src/main/java/refactored/GuessChecker.java:26-47 | For any guesses, the secret never changes. Each in-range guess costs exactly one attempt, an out-of-range guess costs none, and the game is won exactly when the secret was guessed |
| NumberGuesser.PlayAppend | 02-number-guesser/src/main/java/refactored/GuessChecker.java:26-43 | Replaying one more guess takes exactly one more step of the game from the state the earlier guesses reached, which is how each call to checkGuess extends the history |
| NumberGuesser.Step | 02-number-guesser/src/main/java/refactored/GuessChecker.java:26-43 | One `checkGuess` call: OUT_OF_RANGE iff the guess is outside [1, 100], and then the state is unchanged. Otherwise the secret is kept, one attempt is used, CORRECT/TOO_LOW/TOO_HIGH iff the guess is =/</> the secret, and the game is won iff it was already won or the guess is the secret |
| NumberGuesser.GuardedPlayBounded | 02-number-guesser/src/main/java/refactored/Main.java:22 | When every guess is made while `isGameOver()` is false, at most 7 in-range guesses are accepted and attempts left stays at 0 or above |
| NumberGuesser.OverrunReopensGame | 02-number-guesser/src/main/java/refactored/GuessChecker.java:26-47 | Without the guard, an 8th wrong in-range guess takes attempts left to -1, and the game is no longer over |
| NumberGuesser.GuessChecker.constructor | 02-number-guesser/src/main/java/refactored/GuessChecker.java:19-24 | The seeded checker starts with 7 attempts, not won, not over, and with an empty history |
| NumberGuesser.GuessChecker.Create | 02-number-guesser/src/main/java/refactored/GuessChecker.java:19-24 | Rejects (null) exactly the secrets outside [1, 100]; otherwise a fresh checker in the initial state |
| NumberGuesser.GuessChecker.CheckGuess | 02-number-guesser/src/main/java/refactored/GuessChecker.java:26-43 | OUT_OF_RANGE iff the guess is outside [1, 100], and then nothing changes. Otherwise one attempt is used, and the answer is CORRECT/TOO_LOW/TOO_HIGH iff the guess is =/</> the secret. hasWon is only ever set, and only by CORRECT. The guess is appended to the history |
| NumberGuesser.GuessChecker.IsGameOver | 02-number-guesser/src/main/java/refactored/GuessChecker.java:45-47 | Over iff seven in-range guesses were made or the secret was among the guesses |
| NumberGuesser.GuessChecker.AttemptsLeft | 02-number-guesser/src/main/java/refactored/GuessChecker.java:49-51 | 7 minus the number of in-range guesses |
| NumberGuesser.GuessChecker.AttemptsTaken | 02-number-guesser/src/main/java/refactored/GuessChecker.java:53-55 | The number of in-range guesses; attempts taken plus attempts left is always 7 |
| TodoTask.Display | 03-todo-list-manager/src/main/java/Task.java:15-18 | A "[X] " box iff completed, otherwise "[ ] ", followed by the description, which can be read back from position 4 |
| TodoTask.DebugText | 03-todo-list-manager/src/main/java/Task.java:10-13 | The debug text of a task state: the prefix, then the description at a fixed offset, then ", completed=true}" or ", completed=false}" according to the flag, as Java prints a boolean |
| TodoTask.Task.constructor | 03-todo-list-manager/src/main/java/Task.java:5-8 | Any description, "" included, is kept as given, and the task starts uncompleted |
| TodoTask.Task.Complete | 03-todo-list-manager/src/main/java/Task.java:20-22 | Afterwards the task is completed and its description is unchanged, so completing it again changes nothing |
| TodoTask.Task.DisplayString | 03-todo-list-manager/src/main/java/Task.java:15-18 | "[X] " iff this task is completed, otherwise "[ ] ", followed by its description, readable back from position 4 |
| TodoTask.Task.ToString | 03-todo-list-manager/src/main/java/Task.java:10-13 | "Task{description=", this task's description at a fixed offset, then ", completed=true}" iff it is completed, otherwise ", completed=false}" |
| TodoManager.LinesAppend | 03-todo-list-manager/src/main/java/TaskManager.java:13-18 | The lines of a + b are the lines of a followed by the lines of b, numbered on from where a stopped |
| TodoManager.LinesSnoc | 03-todo-list-manager/src/main/java/TaskManager.java:15-18 | One more task adds exactly its line, numbered after the others |
| TodoManager.LinesSplit | 03-todo-list-manager/src/main/java/TaskManager.java:15-18 | A task's line sits between the lines before and after it, with the number of its position |
| TodoManager.LinesAt | 03-todo-list-manager/src/main/java/TaskManager.java:15-18 | Task i (0-based) is listed on the line numbered first + i |
| TodoManager.ListingCases | 03-todo-list-manager/src/main/java/TaskManager.java:19-22 | The empty-list message appears exactly when the list is empty. A non-empty list, even one of empty descriptions, is listed line by line |
| TodoManager.Deleted | 03-todo-list-manager/src/main/java/TaskManager.java:27 | One shorter; earlier elements are kept and later ones shift down by one |
| TodoManager.WithCompleted | 03-todo-list-manager/src/main/java/TaskManager.java:35 | Same length. Task n is completed with the same description, and every other task is unchanged |
| TodoManager.CompleteIdempotent | 03-todo-list-manager/src/main/java/TaskManager.java:33-39 | Completing the same task twice gives the same list as completing it once |
| TodoManager.TaskManager.constructor | 03-todo-list-manager/src/main/java/TaskManager.java:5 | An empty list |
| TodoManager.TaskManager.AddTask | 03-todo-list-manager/src/main/java/TaskManager.java:7-10 | Appends one new, uncompleted task with the description as given; earlier tasks are unchanged |
| TodoManager.TaskManager.ViewAllTasks | 03-todo-list-manager/src/main/java/TaskManager.java:12-23 | The text is the listing of the tasks' states: decimal(i) + ". " + display + "\n" for i = 1..n, or the empty-list message |
| TodoManager.TaskManager.DeleteTask | 03-todo-list-manager/src/main/java/TaskManager.java:25-31 | True iff `isValidTaskNumber(n)` (`IsValidTaskNumber`, lines 41-43: 1 <= n <= size). Then task n is removed and the later ones shift down; otherwise the list is untouched |
| TodoManager.TaskManager.CompleteTask | 03-todo-list-manager/src/main/java/TaskManager.java:33-43 | True iff `isValidTaskNumber(n)` (`IsValidTaskNumber`: 1 <= n <= size). Then only task n becomes completed; otherwise nothing changes. The list itself is never reassigned |
| Numerals.NatToString | 03-todo-list-manager/src/main/java/TaskManager.java:16 | `append(index)` writes at least one ASCII digit and no leading zero |
| Numerals.NatToStringValue | 03-todo-list-manager/src/main/java/TaskManager.java:16 | The digits written read back as the number |
| Numerals.CanonicalRoundTrip | 03-todo-list-manager/src/main/java/TaskManager.java:16 | Every digit string without a leading zero is the text of its own value |
| Numerals.PadDigitsValue | 04-csv-data-analyzer/src/main/java/SalesRecord.java:19 | A zero-padded field of width w reads back as the number modulo 10^w |
| Numerals.PadDigitsOfValue | 04-csv-data-analyzer/src/main/java/SalesRecord.java:19 | Every digit string is the zero-padded text of its own value |
| NumberParsing.ParseInt | 04-csv-data-analyzer/src/main/java/SalesRecord.java:21 | A parsed value fits in 32 bits, and a negative value comes from a text that starts with '-' |
| NumberParsing.ParseIntOfPrinted | 04-csv-data-analyzer/src/main/java/SalesRecord.java:21 | Every printed integer parses back to itself if it fits in 32 bits, and fails otherwise |
| NumberParsing.ParseIntToString | 04-csv-data-analyzer/src/main/java/SalesRecord.java:21 | Round trip: every 32-bit integer survives printing and parsing |
| NumberParsing.ParseIntOutOfRange | 04-csv-data-analyzer/src/main/java/SalesRecord.java:21 | A printed integer outside 32 bits throws rather than wrapping around |
| NumberParsing.ParseIntRejects | 04-csv-data-analyzer/src/test/java/SalesRecordTest.java:76-83 | "", a lone sign and text without digits are rejected |
| NumberParsing.ParseIntExamples | 04-csv-data-analyzer/src/test/java/SalesRecordTest.java:55-65 | "25" is 25 and "-10" is -10 |
| NumberParsing.IndexOfDot | 04-csv-data-analyzer/src/main/java/SalesRecord.java:22 | The position of the first '.', or the length when there is none |
| NumberParsing.UnsignedDecimal | 04-csv-data-analyzer/src/main/java/SalesRecord.java:22 | An unsigned literal (digits, or digits around one point with at least one digit) never has a negative value |
| NumberParsing.UnsignedWithoutDot | 04-csv-data-analyzer/src/main/java/SalesRecord.java:22 | Digits without a point read as the whole number they spell |
| NumberParsing.UnsignedDecimalValue | 04-csv-data-analyzer/src/main/java/SalesRecord.java:22 | A literal I.F is worth the digits of IF read as one number, over 10^|F| (independent of the left-to-right fraction fold) |
| NumberParsing.FractionValueClosed | 04-csv-data-analyzer/src/main/java/SalesRecord.java:22 | The digits after the point are worth their value as one number over ten to their count |
| NumberParsing.DecimalLiteral | 04-csv-data-analyzer/src/main/java/SalesRecord.java:22 | On trimmed text: a result needs at least one character, a negative result comes from a text that starts with '-', and a text with multiple points is rejected |
| NumberParsing.DecimalLiteralNegate | 04-csv-data-analyzer/src/main/java/SalesRecord.java:22 | On trimmed text: a leading '-' negates the unsigned value exactly, and fails exactly when it fails |
| NumberParsing.DigitsAndPoints | 04-csv-data-analyzer/src/main/java/SalesRecord.java:22 | The longest prefix made only of digits and points: every character of it is one, and the next character, if any, is not |
| NumberParsing.SecondPointRejected | 04-csv-data-analyzer/src/main/java/SalesRecord.java:22 | A second point in the run of digits and points after the sign leaves no valid unsigned literal |
| NumberParsing.SignedMultiplePoints | 04-csv-data-analyzer/src/main/java/SalesRecord.java:22 | A leading '-' or '+' does not change whether a text has multiple points |
| NumberParsing.ParseDecimal | 04-csv-data-analyzer/src/main/java/SalesRecord.java:22 | The text is trimmed first; a result needs a non-empty trimmed text, a negative result comes from a trimmed text that starts with '-', and a trimmed text with multiple points is rejected |
| NumberParsing.ParseDecimalPadding | 04-csv-data-analyzer/src/main/java/SalesRecord.java:22 | Characters up to ' ' before and after the literal do not change the result |
| NumberParsing.ParseDecimalTrailingZero | 04-csv-data-analyzer/src/main/java/SalesRecord.java:22 | A zero appended after the point leaves the value unchanged: "25.5" and "25.50" parse alike |
| NumberParsing.ParseDecimalOfNat | 04-csv-data-analyzer/src/main/java/SalesRecord.java:22 | An integer literal parses as the same number when read as a decimal |
| NumberParsing.ParseDecimalNegate | 04-csv-data-analyzer/src/main/java/SalesRecord.java:22 | For a text starting with neither a sign nor a character up to ' ', a leading '-' negates exactly and fails exactly when the unsigned text fails |
| NumberParsing.ParseDecimalExamples | 04-csv-data-analyzer/src/test/java/SalesRecordTest.java:55-65 | "29.99" is 29.99 |
| NumberParsing.ParseDecimalExample2550 | 04-csv-data-analyzer/src/main/java/SalesRecord.java:22 | "25.50" is 25.5 |
| NumberParsing.ParseDecimalRejects | 04-csv-data-analyzer/src/test/java/SalesRecordTest.java:85-92 | "invalid-price" (no digit or point in front) and "." (a point without digits) are rejected |
| NumberParsing.MultiplePointsExamples | 04-csv-data-analyzer/src/main/java/SalesRecord.java:22 | "1.2.3" and ".." have multiple points |
| CalendarDates.DaysInMonth | 04-csv-data-analyzer/src/main/java/SalesRecord.java:19 | 28 to 31 days; February has 29 iff the year is a Gregorian leap year |
| CalendarDates.BeforeIsStrictTotalOrder | 04-csv-data-analyzer/src/main/java/DataAnalyzer.java:19-23 | `isBefore` is irreflexive, transitive, total and asymmetric |
| CalendarDates.ParseDate | 04-csv-data-analyzer/src/main/java/SalesRecord.java:19 | A parsed text has 10 characters and a year of 0..9999 |
| CalendarDates.ShapedText | 04-csv-data-analyzer/src/main/java/SalesRecord.java:19 | Four digits, '-', two digits, '-' and two digits name the day those digits spell, if it exists |
| CalendarDates.ParseFormat | 04-csv-data-analyzer/src/main/java/SalesRecord.java:19 | Round trip: every date with a four-digit year is printed by `FormatDate` (`LocalDate.toString`) in a form that parses back to it |
| CalendarDates.FormatParse | 04-csv-data-analyzer/src/main/java/SalesRecord.java:19 | Every text that parses is the `FormatDate` output of the date it names |
| CalendarDates.ParseDateAccepts | 04-csv-data-analyzer/src/test/java/SalesRecordTest.java:55-65 | "2024-01-15", "2024-02-29" and "2000-02-29" parse to those days |
| CalendarDates.ParseDateLeapRule | 04-csv-data-analyzer/src/main/java/SalesRecord.java:19 | February 29 of 2023 and of 1900 does not exist |
| CalendarDates.ParseDateRejects | 04-csv-data-analyzer/src/test/java/SalesRecordTest.java:67-74 | Month 13, April 31 and free text are rejected |
| SalesRecords.SalesRecord.CalculateRevenue | 04-csv-data-analyzer/src/main/java/SalesRecord.java:42-44 | The revenue divided by a non-zero quantity is the price. It is zero iff the quantity or the price is zero, and non-negative for a positive quantity and a non-negative price |
| SalesRecords.Message | 04-csv-data-analyzer/src/main/java/CsvReader.java:24 | An IllegalArgumentException's message is its own. A NumberFormat error's message ends with the quoted text the parser rejected: `parseInt`'s text as given, `parseDouble`'s trimmed. `parseDouble` reports a blank argument as "empty String" and a second point as "multiple points" |
| SalesRecords.PriceError | 04-csv-data-analyzer/src/main/java/SalesRecord.java:22 | The exception for a rejected trimmed price: "empty String" iff it is empty, "multiple points" iff it is non-empty with multiple points, and otherwise the text quoted |
| SalesRecords.FromCsvFields | 04-csv-data-analyzer/src/main/java/SalesRecord.java:17-24 | Succeeds iff there are at least 4 fields and the date, int and decimal all parse, and then holds exactly those values. Otherwise the first failing step in argument order decides the exception: date, index, int, index, decimal. A blank price is the empty-text error, a price with multiple points the multiple-points error, and any other rejected price is quoted trimmed. Never an IllegalArgumentException |
| SalesRecords.FromCsvFieldsIgnoresExtra | 04-csv-data-analyzer/src/main/java/SalesRecord.java:17-24 | Entries after the fourth are ignored |
| SalesRecords.NewCheckedRecord | 04-csv-data-analyzer/src/test/java/SalesRecordTest.java:19-53 | Test-derived extension. Succeeds iff quantity > 0 and price >= 0, keeping the values. Otherwise the quantity message is checked first, then the price message |
| SalesRecords.FromCsvFieldsChecked | 04-csv-data-analyzer/src/test/java/SalesRecordTest.java:19-53 | Test-derived extension. Succeeds iff the unchecked parser succeeds with a valid record, and gives the same record; its parse errors are unchanged; a record it accepts never has negative revenue |
| SalesRecords.FromCsvFieldsValidExample | 04-csv-data-analyzer/src/test/java/SalesRecordTest.java:55-65 | The valid test fields give the expected record |
| SalesRecords.FromCsvFieldsBadDateExample | 04-csv-data-analyzer/src/test/java/SalesRecordTest.java:67-74 | A bad date gives a date-parse error |
| SalesRecords.FromCsvFieldsBadQuantityExample | 04-csv-data-analyzer/src/test/java/SalesRecordTest.java:76-83 | A bad quantity gives a number-format error |
| SalesRecords.FromCsvFieldsBadPriceExample | 04-csv-data-analyzer/src/test/java/SalesRecordTest.java:85-92 | A bad price gives a number-format error |
| SalesRecords.FromCsvFieldsBlankPriceExample | 04-csv-data-analyzer/src/main/java/SalesRecord.java:22 | A blank price gives the "empty String" number-format error |
| SalesRecords.FromCsvFieldsMultiplePointsExample | 04-csv-data-analyzer/src/main/java/SalesRecord.java:22 | A price of "1.2.3" gives the "multiple points" error |
| SalesRecords.FromCsvFieldsMissingFieldsExample | 04-csv-data-analyzer/src/test/java/SalesRecordTest.java:94-101 | Two fields give an index error at index 2 |
| SalesRecords.FromCsvFieldsThreeFieldsExample | 04-csv-data-analyzer/src/main/java/SalesRecord.java:17-24 | Three valid fields give an index error at index 3 |
| SalesRecords.NegativeQuantityAccepted | 04-csv-data-analyzer/src/main/java/SalesRecord.java:10-24 | As written: a quantity of -10 is accepted, and the record has negative revenue |
| SalesRecords.NegativeQuantityRejected | 04-csv-data-analyzer/src/test/java/SalesRecordTest.java:19-29 | The validating parser rejects the same fields with "Quantity must be positive" |
| DataAnalysis.RevenueAppend | 04-csv-data-analyzer/src/main/java/DataAnalyzer.java:14 | The revenue of two batches processed one after the other is the sum of their revenues |
| DataAnalysis.MergeMeaning | 04-csv-data-analyzer/src/main/java/DataAnalyzer.java:15 | `merge` adds the key. It sums into an existing entry, inserts a new one, and leaves every other entry alone |
| DataAnalysis.QuantitiesOfMeaning | 04-csv-data-analyzer/src/main/java/DataAnalyzer.java:15 | The map holds exactly the products that occur, each with its total quantity sold (an independent reference) |
| DataAnalysis.EarliestIsMinimum | 04-csv-data-analyzer/src/main/java/DataAnalyzer.java:18-21 | No first date iff no records; otherwise a date that occurs and that no record precedes |
| DataAnalysis.LatestIsMaximum | 04-csv-data-analyzer/src/main/java/DataAnalyzer.java:22-24 | No last date iff no records; otherwise a date that occurs and that no record follows |
| DataAnalysis.FirstNotAfterLast | 04-csv-data-analyzer/src/main/java/DataAnalyzer.java:18-24 | With records, both dates exist and the first is not after the last |
| DataAnalysis.MaxEntry | 04-csv-data-analyzer/src/main/java/DataAnalyzer.java:31-36 | A key of the map whose value no other entry exceeds |
| DataAnalysis.CallsAccounted | 04-csv-data-analyzer/src/test/java/DataAnalyzerTest.java:142-150 | Every call in a history either processed one record or counted one failure: records plus failures is the number of calls |
| DataAnalysis.DataAnalyzer.constructor | 04-csv-data-analyzer/src/main/java/DataAnalyzer.java:7-11 | Zero records, zero revenue, an empty map, no dates, no failures and an empty call history |
| DataAnalysis.DataAnalyzer.ProcessRecord | 04-csv-data-analyzer/src/main/java/DataAnalyzer.java:13-25 | One more record and one more call in the history. Revenue increases by its revenue, its quantity is merged, the first/last dates move only to a strictly earlier/later date, and the failure count is unchanged. The fields stay the aggregates of the history |
| DataAnalysis.DataAnalyzer.RecordError | 04-csv-data-analyzer/src/test/java/DataAnalyzerTest.java:142-150 | Test-derived extension: one failed call is appended to the history, the failure count goes up by one, and nothing else changes |
| DataAnalysis.DataAnalyzer.TotalRecords | 04-csv-data-analyzer/src/main/java/DataAnalyzer.java:42-44 | The number of records processed |
| DataAnalysis.DataAnalyzer.TotalRevenue | 04-csv-data-analyzer/src/main/java/DataAnalyzer.java:27-29 | The sum of the revenues of the records processed |
| DataAnalysis.DataAnalyzer.TotalFailedRecords | 04-csv-data-analyzer/src/test/java/DataAnalyzerTest.java:142-150 | Test-derived extension: the number of `recordError` calls in the call history; failures plus records processed equals the number of calls |
| DataAnalysis.DataAnalyzer.FirstSaleDate | 04-csv-data-analyzer/src/main/java/DataAnalyzer.java:46-48 | Null iff no records; otherwise the earliest date processed |
| DataAnalysis.DataAnalyzer.LastSaleDate | 04-csv-data-analyzer/src/main/java/DataAnalyzer.java:50-52 | Null iff no records; otherwise the latest date processed |
| DataAnalysis.DataAnalyzer.AverageSaleValue | 04-csv-data-analyzer/src/main/java/DataAnalyzer.java:38-40 | Exactly 0 without records; otherwise the value that, times the count, is the total revenue |
| DataAnalysis.DataAnalyzer.BestSellingProduct | 04-csv-data-analyzer/src/main/java/DataAnalyzer.java:31-36 | "None" without records. Otherwise a product that occurs and whose total quantity is at least every other product's; ties are unspecified |
| DataAnalysis.DataAnalyzer.BestSellingQuantity | 04-csv-data-analyzer/src/test/java/DataAnalyzerTest.java:157-179 | Test-derived extension: 0 without records, otherwise the largest total quantity of any product |
| DataAnalysis.DataAnalyzer.DateRange | 04-csv-data-analyzer/src/test/java/DataAnalyzerTest.java:100-140 | Test-derived extension: "No valid records" without records, otherwise the earliest and latest dates printed as "first to last" |
| StringTrim.TrimStart | 04-csv-data-analyzer/src/main/java/CsvReader.java:16 | A suffix of the text with every removed character at most ' ', and not starting with such a character |
| StringTrim.TrimEnd | 04-csv-data-analyzer/src/main/java/CsvReader.java:16 | A prefix of the text with every removed character at most ' ', and not ending with such a character |
| StringTrim.TrimEmptyIff | 04-csv-data-analyzer/src/main/java/CsvReader.java:16 | `trim()` (`Trim`) is empty iff every character is at most ' ' |
| StringTrim.TrimUntouched | 04-csv-data-analyzer/src/main/java/SalesRecord.java:22 | Text that neither starts nor ends with a character up to ' ' is its own trim |
| StringTrim.TrimPadding | 04-csv-data-analyzer/src/main/java/SalesRecord.java:22 | Padding of characters up to ' ' on either side does not change `Trim` |
| StringTrim.TrimSnoc | 04-csv-data-analyzer/src/main/java/SalesRecord.java:22 | A kept character appended to text ending in a kept character stays at the end of the trim |
| CsvReading.BlankIffTrimEmpty | 04-csv-data-analyzer/src/main/java/CsvReader.java:16 | The blank test the loop uses is exactly `line.trim().isEmpty()` |
| CsvReading.SplitAll | 04-csv-data-analyzer/src/main/java/CsvReader.java:17 | At least one piece, and no piece holds a comma |
| CsvReading.JoinSplitAll | 04-csv-data-analyzer/src/main/java/CsvReader.java:17 | Joining the pieces with commas gives the line back |
| CsvReading.SplitAllJoin | 04-csv-data-analyzer/src/main/java/CsvReader.java:17 | Splitting undoes joining when no piece holds a comma |
| CsvReading.DropTrailingEmpty | 04-csv-data-analyzer/src/main/java/CsvReader.java:17 | A prefix that does not end with an empty piece, from which only empty pieces were removed |
| CsvReading.SplitFieldsShape | 04-csv-data-analyzer/src/main/java/CsvReader.java:17 | `SplitFields`, i.e. `line.split(",")`: a comma-free line is its own single field. Otherwise comma-free fields, the last non-empty, that followed by only empty pieces are all the pieces between commas |
| CsvReading.SplitFieldsRecovers | 04-csv-data-analyzer/src/main/java/CsvReader.java:17 | The fields are a prefix of the pieces, which join back to the line |
| CsvReading.SplitTrailingComma | 04-csv-data-analyzer/src/main/java/CsvReader.java:17 | A trailing comma adds no field |
| CsvReading.SplitTrailingCommaExample | 04-csv-data-analyzer/src/main/java/CsvReader.java:17 | "2024-01-15,Mouse,10," splits into three fields |
| CsvReading.SplitTwoFieldsExample | 04-csv-data-analyzer/src/main/java/CsvReader.java:17 | "2024-01-15,Mouse" splits into two fields |
| CsvReading.Text | 04-csv-data-analyzer/src/main/java/CsvReader.java:24-30 | A line failure starts "Error processing line ". A missing file starts "File not found at " and the path. A read error is "Error reading file: " and the message |
| CsvReading.LineReport | 04-csv-data-analyzer/src/main/java/CsvReader.java:16-25 | A blank line gives neither a record nor a report; any other line gives exactly one of the two |
| CsvReading.DataLines | 04-csv-data-analyzer/src/main/java/CsvReader.java:12-15 | Nothing for an empty or header-only file; all lines after the header when no read fails |
| CsvReading.ReadFile | 04-csv-data-analyzer/src/main/java/CsvReader.java:9-33 | The analyzer stays valid and gains exactly the records of the lines read, on top of what it held, so reads accumulate. Its failure count grows by the failed lines. The diagnostics are those of the file, and a missing file changes nothing |
| CsvReading.ReadLines | 04-csv-data-analyzer/src/main/java/CsvReader.java:11-31 | The header is dropped and the data lines up to the end or the failing `readLine` are folded in. An I/O error stops the loop, keeps what was processed and is reported last |
| CsvReading.LineLoop | 04-csv-data-analyzer/src/main/java/CsvReader.java:13-26 | Ends at the last line or the failing call. The records processed, the failure count and the numbered diagnostics are those of the lines read |
| CsvReading.ProcessLine | 04-csv-data-analyzer/src/main/java/CsvReader.java:17-25 | A non-blank line either processes its record or counts one failure with one diagnostic |
| CsvReading.RecordsPlusFailures | 04-csv-data-analyzer/src/main/java/CsvReader.java:16-25 | Records plus failures equals the number of non-blank data lines |
| CsvReading.DiagnosticLineNumbers | 04-csv-data-analyzer/src/main/java/CsvReader.java:14-24 | Line numbers in diagnostics are strictly increasing, at least 2 and at most 1 + the number of non-blank lines |
| CsvReading.NonBlankKeepsNonBlank | 04-csv-data-analyzer/src/main/java/CsvReader.java:16 | Only non-blank lines are kept |
| CsvReading.NonBlankOfNonBlank | 04-csv-data-analyzer/src/main/java/CsvReader.java:16 | Non-blank lines are all kept, in order |
| CsvReading.NonBlankIdempotent | 04-csv-data-analyzer/src/main/java/CsvReader.java:16 | Filtering blank lines twice is the same as once |
| CsvReading.BlankLinesIgnoredRecords | 04-csv-data-analyzer/src/main/java/CsvReader.java:16 | Removing blank lines does not change the records |
| CsvReading.BlankLinesIgnoredDiagnostics | 04-csv-data-analyzer/src/main/java/CsvReader.java:16 | Removing blank lines does not change the diagnostics, line numbers included |
| CsvReading.HeaderOnlyChangesNothing | 04-csv-data-analyzer/src/main/java/CsvReader.java:12 | An empty or header-only file adds no record, no failure and no diagnostic |
| CsvReading.MissingFieldsFail | 04-csv-data-analyzer/src/test/java/CsvReaderTest.java:101-115 | A two-field line fails with an index error under either parser |
| CsvReading.TrailingCommaFails | 04-csv-data-analyzer/src/main/java/CsvReader.java:17-25 | "2024-01-15,Mouse,10," fails with an index error under either parser |
| TemperatureScale.ConstantsIdentifyScale | 06-temperature-converter/src/main/java/tempconverter/Scale.java:3-6 | The display name, the symbol and the absolute zero each identify the scale |
| TemperatureScale.AbsoluteZeroOrder | 06-temperature-converter/src/main/java/tempconverter/Scale.java:4-6 | Absolute zero is -459.67 °F < -273.15 °C < 0 K |
| TemperatureConversion.ToCelsius | 06-temperature-converter/src/main/java/tempconverter/Converter.java:22-28 | The Celsius reading lies as far above absolute zero as the input |
| TemperatureConversion.FromCelsius | 06-temperature-converter/src/main/java/tempconverter/Converter.java:30-36 | The target reading lies as far above absolute zero as the Celsius input |
| TemperatureConversion.Convert | 06-temperature-converter/src/main/java/tempconverter/Converter.java:17-20 | The converted reading lies as far above absolute zero as the input |
| TemperatureConversion.ConvertUnique | 06-temperature-converter/src/main/java/tempconverter/Converter.java:17-20 | Any reading as far above absolute zero as the input is the converted one |
| TemperatureConversion.CelsiusRoundTrip | 06-temperature-converter/src/main/java/tempconverter/Converter.java:22-36 | `toCelsius` and `fromCelsius` are inverses on every scale |
| TemperatureConversion.ConvertIdentity | 06-temperature-converter/src/test/java/tempconverter/ConverterTest.java:144-160 | Converting to the same scale returns the input exactly |
| TemperatureConversion.ConvertRoundTrip | 06-temperature-converter/src/main/java/tempconverter/Converter.java:17-36 | Converting there and back returns the input exactly |
| TemperatureConversion.ConvertCompose | 06-temperature-converter/src/main/java/tempconverter/Converter.java:17-36 | Converting through an intermediate scale equals converting directly |
| TemperatureConversion.ConvertAbsoluteZero | 06-temperature-converter/src/main/java/tempconverter/Converter.java:17-36 | Absolute zero converts to absolute zero on every scale |
| TemperatureConversion.ConvertStrictlyMonotone | 06-temperature-converter/src/main/java/tempconverter/Converter.java:17-36 | A warmer reading stays strictly warmer |
| TemperatureConversion.BelowAbsoluteZeroPassesThrough | 06-temperature-converter/src/main/java/tempconverter/Converter.java:17-36 | Never rejects: below/at absolute zero on the source iff below/at it on the target |
| TemperatureConversion.WaterReferencePoints | 06-temperature-converter/src/test/java/tempconverter/ConverterTest.java:18-140 | Exactly: 0 °C = 32 °F = 273.15 K and 100 °C = 212 °F = 373.15 K, in every direction |
| TemperatureConversion.OtherReferencePoints | 06-temperature-converter/src/test/java/tempconverter/ConverterTest.java:30-186 | Exactly: -40 °C = -40 °F, 20 °C = 68 °F, 37.5 °C = 99.5 °F, 1000 °C = 1832 °F, 0.01 °C = 273.16 K and 0 K = -459.67 °F |

## Left out

- Console drivers: all `Main` classes and the console calculator are menus and terminal input/output. The only part kept is the number guesser's `while (!isGameOver())` guard, as the `Guarded` hypothesis of `GuardedPlayBounded`.
- The no-argument `GuessChecker()` draws its secret from `java.util.Random`; the secret is a constructor parameter instead.
- File access in `readFile`: `FileReader`/`BufferedReader`, try-with-resources and `System.err`. The file is the `FileInput` value. The error stream is the returned `Diagnostic` sequence.
- Java `double`: prices, revenue, averages and temperatures are exact reals, so nothing is rounded. This is why the tests' tolerances become exact equalities.
- NumberParsing.ParseDecimal: accepts only an optional sign and a plain decimal literal. Exponents, hexadecimal literals, NaN/Infinity, type suffixes, all of which `Double.parseDouble` accepts, are rejected.
- NumberParsing.ParseInt: accepts ASCII digits only; `Integer.parseInt` also accepts other Unicode decimal digits.
- CalendarDates.ParseDate: accepts years 0000-9999 only; `LocalDate.parse` also accepts any negative year down to -999,999,999 (except -0000), and a '+' year of 5 to 10 digits up to +999,999,999.
- Java `int` overflow of `totalRecords`, the line counter and the per-product quantity sums: these are unbounded integers. Only parsing enforces the 32-bit range.
- SalesRecords.Message: only the line prefix of a date-parse message is determined. The text after the quoted input that `LocalDate.parse` appends (such as `: Invalid date 'FEBRUARY 30'`) is not modelled.
- DataAnalysis.DataAnalyzer.BestSellingProduct: among tied products, HashMap iteration order picks one. The model promises only some product with the maximal total.
- The test CSV resource files are not part of this model, so no count that depends on their contents is stated.
- Task getters and `SalesRecord` getters are the fields themselves (`Task.description`, `Task.completed`, the datatype's fields), so they have no members of their own.
- `Scale`'s display name, symbol and absolute zero are stated by their definitions. Each has no contract of its own beyond `ConstantsIdentifyScale` and `AbsoluteZeroOrder`.

## Findings

| source | as written | input that shows it | evidently intended | confidence | as-written member | corrected member |
|---|---|---|---|---|---|---|
| 04-csv-data-analyzer/src/main/java/SalesRecord.java:10-24 | The constructor stores any quantity and price, so `fromCsvFields` accepts a non-positive quantity or a negative price | fields "2024-01-15", "Mouse", "-10", "25.50" give a record with quantity -10 and negative revenue | reject quantity <= 0 with "Quantity must be positive" and price < 0 with "Price cannot be negative", as the record and reader tests expect | not executed | SalesRecords.NegativeQuantityAccepted | SalesRecords.FromCsvFieldsChecked |
