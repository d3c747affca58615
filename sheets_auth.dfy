/**
 * The phone-number allow-list check of googleSheetsService.js. The spreadsheet
 * read is an input: the state of the Sheets client together with what reading
 * column A through it returns. The matching itself is pure.
 */
module SheetsAuth {
  import opened Wrappers
  import opened Strings

  /**
   * What reading column A gives: the response's `values` (absent when the
   * range holds nothing), or an error thrown by the call.
   */
  datatype ValuesRead = Values(values: Option<seq<seq<string>>>) | ReadFailed

  /**
   * The service's `sheets` field: no client (never initialised, or
   * `initialize` failed), or a client together with what a read through it gives.
   */
  datatype SheetsClient = NotInitialised | Initialised(read: ValuesRead)

  /** `rows.flat()`: every cell of every row, in order. */
  function Flatten(rows: seq<seq<string>>): (cells: seq<string>)
    ensures forall c :: c in cells <==> exists row :: row in rows && c in row
  {
    if rows == [] then []
    else
      var rest := Flatten(rows[1..]);
      assert forall row :: row in rows <==> row == rows[0] || row in rows[1..];
      rows[0] + rest
  }

  /** `cells.map(num => num.trim())`. */
  function TrimEach(cells: seq<string>): (r: seq<string>)
    ensures |r| == |cells|
  {
    seq(|cells|, i requires 0 <= i < |cells| => Trim(cells[i]))
  }

  /** One allow-list entry admits a cleaned number when either digit string contains the other. */
  predicate EntryMatches(entry: string, cleanNumber: string) {
    var digits := StripNonDigits(entry);
    Contains(digits, cleanNumber) || Contains(cleanNumber, digits)
  }

  /** `entries.some(num => ...)` with the test of `EntryMatches`. */
  function AnyEntryMatches(entries: seq<string>, cleanNumber: string): (b: bool)
    ensures b <==> exists i :: 0 <= i < |entries| && EntryMatches(entries[i], cleanNumber)
  {
    if entries == [] then false
    else
      var rest := AnyEntryMatches(entries[1..], cleanNumber);
      assert forall i :: 0 < i < |entries| ==> entries[i] == entries[1..][i - 1];
      EntryMatches(entries[0], cleanNumber) || rest
  }

  /**
   * `isUserAuthorized`: false without a client and false when the read throws
   * (the check fails closed); otherwise whether some trimmed cell matches the
   * caller's digits.
   */
  function IsUserAuthorized(client: SheetsClient, phoneNumber: string): (b: bool)
    ensures !client.Initialised? ==> !b
    ensures client == Initialised(ReadFailed) ==> !b
    ensures client == Initialised(Values(None)) ==> !b
    ensures client == Initialised(Values(Some([]))) ==> !b
  {
    match client
    case NotInitialised => false
    case Initialised(ReadFailed) => false
    case Initialised(Values(values)) =>
      var authorizedNumbers := TrimEach(Flatten(values.GetOr([])));
      var cleanNumber := StripNonDigits(phoneNumber);
      AnyEntryMatches(authorizedNumbers, cleanNumber)
  }

  /** Trimming a cell never changes whether it matches. */
  lemma {:induction false} EntryMatchesTrim(entry: string, cleanNumber: string)
    ensures EntryMatches(Trim(entry), cleanNumber) == EntryMatches(entry, cleanNumber)
  {
    StripNonDigitsOfTrim(entry);
  }

  /** Some cell of some row matches the cleaned number. */
  ghost predicate SomeCellMatches(rows: seq<seq<string>>, cleanNumber: string) {
    exists row, cell :: row in rows && cell in row && EntryMatches(cell, cleanNumber)
  }

  /** Matching the trimmed cells is matching the cells. */
  lemma {:induction false} AnyEntryMatchesTrimEach(cells: seq<string>, cleanNumber: string)
    ensures AnyEntryMatches(TrimEach(cells), cleanNumber)
      <==> exists cell :: cell in cells && EntryMatches(cell, cleanNumber)
  {
    var entries := TrimEach(cells);
    if AnyEntryMatches(entries, cleanNumber) {
      var i :| 0 <= i < |entries| && EntryMatches(entries[i], cleanNumber);
      EntryMatchesTrim(cells[i], cleanNumber);
      assert cells[i] in cells;
    }
    if exists cell :: cell in cells && EntryMatches(cell, cleanNumber) {
      var cell :| cell in cells && EntryMatches(cell, cleanNumber);
      var i :| 0 <= i < |cells| && cells[i] == cell;
      EntryMatchesTrim(cell, cleanNumber);
      assert EntryMatches(entries[i], cleanNumber);
    }
  }

  /**
   * With a sheet read, the caller is admitted exactly when some cell of some
   * row, stripped to its digits, contains the caller's digits or is contained in them.
   */
  lemma {:induction false} AuthorizedIff(rows: seq<seq<string>>, phoneNumber: string)
    ensures IsUserAuthorized(Initialised(Values(Some(rows))), phoneNumber)
      <==> SomeCellMatches(rows, StripNonDigits(phoneNumber))
  {
    var clean := StripNonDigits(phoneNumber);
    var cells := Flatten(rows);
    AnyEntryMatchesTrimEach(cells, clean);
    if SomeCellMatches(rows, clean) {
      var row, cell :| row in rows && cell in row && EntryMatches(cell, clean);
      assert cell in cells;
    }
    if exists cell :: cell in cells && EntryMatches(cell, clean) {
      var cell :| cell in cells && EntryMatches(cell, clean);
      var row :| row in rows && cell in row;
    }
  }

  /**
   * Characters that are not digits (`+`, spaces, dashes, parentheses) can be
   * inserted anywhere in the caller's number without changing the outcome.
   */
  lemma {:induction false} FormattingIgnored(client: SheetsClient, a: string, f: string, b: string)
    requires forall i :: 0 <= i < |f| ==> !IsDigit(f[i])
    ensures IsUserAuthorized(client, a + f + b) == IsUserAuthorized(client, a + b)
  {
    StripNonDigitsAppend(a + f, b);
    StripNonDigitsAppend(a, f);
    StripNonDigitsAppend(a, b);
    StripNonDigitsOfNonDigits(f);
    assert StripNonDigits(a) + StripNonDigits(f) == StripNonDigits(a);
    assert StripNonDigits(a + f + b) == StripNonDigits(a + b);
  }

  /** Every string contains the empty string. */
  lemma {:induction false} ContainsEmpty(s: string)
    ensures Contains(s, [])
  {
  }

  /** A cell without digits, such as a header, strips to "" and so admits every caller. */
  lemma {:induction false} DigitlessCellAdmitsEveryone(rows: seq<seq<string>>, r: nat, c: nat, phoneNumber: string)
    requires r < |rows| && c < |rows[r]|
    requires StripNonDigits(rows[r][c]) == []
    ensures IsUserAuthorized(Initialised(Values(Some(rows))), phoneNumber)
  {
    ContainsEmpty(StripNonDigits(phoneNumber));
    assert rows[r] in rows && rows[r][c] in rows[r];
    AuthorizedIff(rows, phoneNumber);
  }

  /** A caller whose number has no digits is admitted by any sheet with at least one cell. */
  lemma {:induction false} DigitlessCallerAdmitted(rows: seq<seq<string>>, r: nat, c: nat, phoneNumber: string)
    requires r < |rows| && c < |rows[r]|
    requires StripNonDigits(phoneNumber) == []
    ensures IsUserAuthorized(Initialised(Values(Some(rows))), phoneNumber)
  {
    ContainsEmpty(StripNonDigits(rows[r][c]));
    assert rows[r] in rows && rows[r][c] in rows[r];
    AuthorizedIff(rows, phoneNumber);
  }

  /** The numbers `isUserAuthorizedMock` admits. */
  const MockNumbers: seq<string> := ["1234567890", "9876543210"]

  /** `numbers.some(num => cleanNumber.includes(num))`. */
  function AnyContainedIn(numbers: seq<string>, cleanNumber: string): (b: bool)
    ensures b <==> exists i :: 0 <= i < |numbers| && Contains(cleanNumber, numbers[i])
  {
    if numbers == [] then false
    else
      var rest := AnyContainedIn(numbers[1..], cleanNumber);
      assert forall i :: 0 < i < |numbers| ==> numbers[i] == numbers[1..][i - 1];
      Contains(cleanNumber, numbers[0]) || rest
  }

  /**
   * `isUserAuthorizedMock`: whether the caller's digits contain one of the
   * fixed test numbers, 1234567890 or 9876543210.
   */
  function IsUserAuthorizedMock(phoneNumber: string): (b: bool)
    ensures b <==> Contains(StripNonDigits(phoneNumber), "1234567890") || Contains(StripNonDigits(phoneNumber), "9876543210")
  {
    var clean := StripNonDigits(phoneNumber);
    assert Contains(clean, "1234567890") ==> Contains(clean, MockNumbers[0]);
    assert Contains(clean, "9876543210") ==> Contains(clean, MockNumbers[1]);
    AnyContainedIn(MockNumbers, clean)
  }

  /** A sheet holding the two mock numbers admits every caller the mock admits. */
  lemma {:induction false} MockImpliesSheet(phoneNumber: string)
    ensures IsUserAuthorizedMock(phoneNumber) ==> IsUserAuthorized(Initialised(Values(Some([MockNumbers]))), phoneNumber)
  {
    var clean := StripNonDigits(phoneNumber);
    if IsUserAuthorizedMock(phoneNumber) {
      var i :| 0 <= i < |MockNumbers| && Contains(clean, MockNumbers[i]);
      StripNonDigitsOfDigits(MockNumbers[i]);
      assert EntryMatches(MockNumbers[i], clean);
      assert MockNumbers in [MockNumbers] && MockNumbers[i] in MockNumbers;
      AuthorizedIff([MockNumbers], phoneNumber);
    }
  }

  /**
   * The converse fails: the mock tests only one direction, so a caller whose
   * digits lie inside a listed number, such as "123", is admitted by the sheet
   * check with the same list and refused by the mock.
   */
  lemma {:induction false} SheetAdmitsWhatMockRefuses()
    ensures !IsUserAuthorizedMock("123")
    ensures IsUserAuthorized(Initialised(Values(Some([MockNumbers]))), "123")
  {
    StripNonDigitsOfDigits("123");
    StripNonDigitsOfDigits(MockNumbers[0]);
    assert OccursAt(MockNumbers[0], "123", 0);
    assert EntryMatches(MockNumbers[0], "123");
    assert MockNumbers in [MockNumbers] && MockNumbers[0] in MockNumbers;
    AuthorizedIff([MockNumbers], "123");
  }

  /** The entries that carry at least one digit, in order. */
  function WithDigits(entries: seq<string>): (r: seq<string>)
    ensures forall e :: e in r <==> e in entries && StripNonDigits(e) != []
  {
    if entries == [] then []
    else
      var rest := WithDigits(entries[1..]);
      assert forall e :: e in entries <==> e == entries[0] || e in entries[1..];
      (if StripNonDigits(entries[0]) != [] then [entries[0]] else []) + rest
  }

  /**
   * The check as evidently intended: an entry without digits admits nobody,
   * and neither is a caller whose number has no digits admitted.
   */
  function IsUserAuthorizedGuarded(client: SheetsClient, phoneNumber: string): (b: bool)
    ensures b ==> IsUserAuthorized(client, phoneNumber)
    ensures StripNonDigits(phoneNumber) == [] ==> !b
  {
    match client
    case NotInitialised => false
    case Initialised(ReadFailed) => false
    case Initialised(Values(values)) =>
      var entries := TrimEach(Flatten(values.GetOr([])));
      var cleanNumber := StripNonDigits(phoneNumber);
      var b := cleanNumber != [] && AnyEntryMatches(WithDigits(entries), cleanNumber);
      assert b ==> AnyEntryMatches(entries, cleanNumber) by {
        if b {
          var i :| 0 <= i < |WithDigits(entries)| && EntryMatches(WithDigits(entries)[i], cleanNumber);
          assert WithDigits(entries)[i] in entries;
        }
      }
      b
  }

  /** Some cell with digits matches the cleaned number. */
  ghost predicate SomeDigitCellMatches(rows: seq<seq<string>>, cleanNumber: string) {
    exists row, cell :: row in rows && cell in row && StripNonDigits(cell) != [] && EntryMatches(cell, cleanNumber)
  }

  /** Matching the trimmed cells that have digits is matching the cells that have digits. */
  lemma {:induction false} AnyEntryMatchesWithDigits(cells: seq<string>, cleanNumber: string)
    ensures AnyEntryMatches(WithDigits(TrimEach(cells)), cleanNumber)
      <==> exists cell :: cell in cells && StripNonDigits(cell) != [] && EntryMatches(cell, cleanNumber)
  {
    var entries := TrimEach(cells);
    var kept := WithDigits(entries);
    if AnyEntryMatches(kept, cleanNumber) {
      var i :| 0 <= i < |kept| && EntryMatches(kept[i], cleanNumber);
      assert kept[i] in entries;
      var j :| 0 <= j < |entries| && entries[j] == kept[i];
      EntryMatchesTrim(cells[j], cleanNumber);
      StripNonDigitsOfTrim(cells[j]);
      assert cells[j] in cells;
    }
    if exists cell :: cell in cells && StripNonDigits(cell) != [] && EntryMatches(cell, cleanNumber) {
      var cell :| cell in cells && StripNonDigits(cell) != [] && EntryMatches(cell, cleanNumber);
      var j :| 0 <= j < |cells| && cells[j] == cell;
      EntryMatchesTrim(cell, cleanNumber);
      StripNonDigitsOfTrim(cell);
      assert entries[j] in kept;
      var i :| 0 <= i < |kept| && kept[i] == entries[j];
    }
  }

  /**
   * With a sheet read, the guarded check admits a caller exactly when the
   * caller's number has digits and some cell with digits matches it.
   */
  lemma {:induction false} GuardedIff(rows: seq<seq<string>>, phoneNumber: string)
    ensures IsUserAuthorizedGuarded(Initialised(Values(Some(rows))), phoneNumber)
      <==> StripNonDigits(phoneNumber) != [] && SomeDigitCellMatches(rows, StripNonDigits(phoneNumber))
  {
    var clean := StripNonDigits(phoneNumber);
    var cells := Flatten(rows);
    AnyEntryMatchesWithDigits(cells, clean);
    if SomeDigitCellMatches(rows, clean) {
      var row, cell :| row in rows && cell in row && StripNonDigits(cell) != [] && EntryMatches(cell, clean);
      assert cell in cells;
    }
    if exists cell :: cell in cells && StripNonDigits(cell) != [] && EntryMatches(cell, clean) {
      var cell :| cell in cells && StripNonDigits(cell) != [] && EntryMatches(cell, clean);
      var row :| row in rows && cell in row;
    }
  }

  /** Rows of digitless cells, such as a header row, change nothing in the guarded check. */
  lemma {:induction false} GuardedIgnoresDigitlessRows(rows: seq<seq<string>>, extra: seq<seq<string>>, phoneNumber: string)
    requires forall row, cell :: row in extra && cell in row ==> StripNonDigits(cell) == []
    ensures IsUserAuthorizedGuarded(Initialised(Values(Some(extra + rows))), phoneNumber)
      == IsUserAuthorizedGuarded(Initialised(Values(Some(rows))), phoneNumber)
  {
    var clean := StripNonDigits(phoneNumber);
    GuardedIff(extra + rows, phoneNumber);
    GuardedIff(rows, phoneNumber);
    if SomeDigitCellMatches(extra + rows, clean) {
      var row, cell :| row in extra + rows && cell in row && StripNonDigits(cell) != [] && EntryMatches(cell, clean);
      assert row in rows;
    }
    if SomeDigitCellMatches(rows, clean) {
      var row, cell :| row in rows && cell in row && StripNonDigits(cell) != [] && EntryMatches(cell, clean);
      assert row in extra + rows;
    }
  }

  /** Where every cell and the caller's number have digits, the guarded check agrees with the check as written. */
  lemma {:induction false} GuardedAgreesOnDigitCells(rows: seq<seq<string>>, phoneNumber: string)
    requires forall row, cell :: row in rows && cell in row ==> StripNonDigits(cell) != []
    requires StripNonDigits(phoneNumber) != []
    ensures IsUserAuthorizedGuarded(Initialised(Values(Some(rows))), phoneNumber)
      == IsUserAuthorized(Initialised(Values(Some(rows))), phoneNumber)
  {
    GuardedIff(rows, phoneNumber);
    AuthorizedIff(rows, phoneNumber);
  }

  /** The usual header of a phone-number column holds no digit. */
  lemma {:induction false} HeaderHasNoDigits()
    ensures StripNonDigits("Phone Number") == []
  {
  }

  /**
   * A sheet whose column A holds only a header without digits (such as
   * "Phone Number") admits every caller as written, and nobody once guarded.
   */
  lemma {:induction false} HeaderOnlySheet(header: string, phoneNumber: string)
    requires StripNonDigits(header) == []
    ensures IsUserAuthorized(Initialised(Values(Some([[header]]))), phoneNumber)
    ensures !IsUserAuthorizedGuarded(Initialised(Values(Some([[header]]))), phoneNumber)
  {
    var sheet := [[header]];
    DigitlessCellAdmitsEveryone(sheet, 0, 0, phoneNumber);
    var none: seq<seq<string>> := [];
    assert forall row, cell :: row in sheet && cell in row ==> cell == header;
    GuardedIgnoresDigitlessRows(none, sheet, phoneNumber);
    assert sheet + none == sheet;
  }

  /** The header "Phone Number" alone in column A admits every caller as written, and nobody once guarded. */
  lemma {:induction false} PhoneNumberHeaderSheet(phoneNumber: string)
    ensures IsUserAuthorized(Initialised(Values(Some([["Phone Number"]]))), phoneNumber)
    ensures !IsUserAuthorizedGuarded(Initialised(Values(Some([["Phone Number"]]))), phoneNumber)
  {
    HeaderHasNoDigits();
    HeaderOnlySheet("Phone Number", phoneNumber);
  }
}
