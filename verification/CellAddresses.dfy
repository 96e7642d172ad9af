/** Spreadsheet cell addresses such as "B3" (src/common/rqcommon/src/utils/rqgsheets.rs): the printer of column names
    and the parser of cell ids. */
module CellAddresses {
  import opened Wrappers

  const U32_MAX := 0xFFFF_FFFF
  const USIZE_MAX := 0xFFFF_FFFF_FFFF_FFFF

  // ---------- Columns ----------

  predicate IsUpper(c: char) { 'A' <= c <= 'Z' }

  predicate IsLower(c: char) { 'a' <= c <= 'z' }

  predicate IsDigit(c: char) { '0' <= c <= '9' }

  /** A name of upper-case letters only. */
  ghost predicate IsName(s: string) {
    forall i :: 0 <= i < |s| ==> IsUpper(s[i])
  }

  function Letter(k: int): char
    requires 0 <= k < 26
  {
    ('A' as int + k) as char
  }

  function LetterNumber(c: char): int {
    c as int - 'A' as int + 1
  }

  /** The column name of a number. */
  function Name(column: nat): string {
    if column == 0 then "" else Name((column - 1) / 26) + [Letter((column - 1) % 26)]
  }

  /** The column number of a name. */
  function Number(name: string): int {
    if name == "" then 0 else 26 * Number(name[..|name| - 1]) + LetterNumber(name[|name| - 1])
  }

  method ColumnNumberToLetter(columnNum: nat) returns (name: string)
    requires columnNum <= U32_MAX
    ensures name == Name(columnNum)
  {
    name := "";
    var n := columnNum;
    while n > 0
      invariant 0 <= n <= columnNum
      invariant Name(columnNum) == Name(n) + name
    {
      var rem := (n - 1) % 26;
      name := [Letter(rem)] + name;
      n := (n - 1) / 26;
    }
  }

  lemma {:induction false} NameIsName(column: nat)
    ensures IsName(Name(column)) && (Name(column) == "" <==> column == 0)
  {
    if column > 0 { NameIsName((column - 1) / 26); }
  }

  /** The number of a printed name is the number printed. */
  lemma {:induction false} NumberOfName(column: nat)
    ensures Number(Name(column)) == column
  {
    if column > 0 {
      var init := Name((column - 1) / 26);
      NumberOfName((column - 1) / 26);
      assert Name(column)[..|Name(column)| - 1] == init;
    }
  }

  lemma {:induction false} NumberNonNegative(name: string)
    requires IsName(name)
    ensures 0 <= Number(name) && (Number(name) == 0 <==> name == "")
  {
    if name != "" { NumberNonNegative(name[..|name| - 1]); }
  }

  /** Every name is printed for its number, so names and numbers correspond one to one. */
  lemma {:induction false} NameOfNumber(name: string)
    requires IsName(name)
    ensures Number(name) >= 0 && Name(Number(name)) == name
  {
    NumberNonNegative(name);
    if name != "" {
      var init, last := name[..|name| - 1], name[|name| - 1];
      NumberNonNegative(init);
      NameOfNumber(init);
      assert (Number(name) - 1) / 26 == Number(init) && (Number(name) - 1) % 26 == LetterNumber(last) - 1;
      assert name == init + [last];
    }
  }

  /** The greatest number with a name of at most n letters. */
  function Greatest(n: nat): nat {
    if n == 0 then 0 else 26 * Greatest(n - 1) + 26
  }

  lemma {:induction false} NumberBounds(name: string)
    requires IsName(name)
    ensures Number(name) <= Greatest(|name|)
    ensures name != "" ==> Greatest(|name| - 1) < Number(name)
  {
    if name != "" { NumberBounds(name[..|name| - 1]); }
  }

  lemma {:induction false} GreatestIncreases(m: nat, n: nat)
    requires m <= n
    ensures Greatest(m) <= Greatest(n)
  {
    if m < n { GreatestIncreases(m, n - 1); }
  }

  /** A name has at most n letters exactly if its number is at most Greatest(n). */
  lemma {:induction false} NameLength(column: nat, n: nat)
    ensures |Name(column)| <= n <==> column <= Greatest(n)
  {
    NameIsName(column);
    NumberOfName(column);
    NumberBounds(Name(column));
    if |Name(column)| <= n {
      GreatestIncreases(|Name(column)|, n);
    } else {
      GreatestIncreases(n, |Name(column)| - 1);
    }
  }

  /** The printing loop makes at most seven turns for a 32-bit number. */
  lemma SevenLetters(column: nat)
    requires column <= U32_MAX
    ensures |Name(column)| <= 7
  {
    assert Greatest(3) == 18_278;
    assert Greatest(6) == 321_272_406;
    NameLength(column, 7);
  }

  /** Alphabetical order of names of one length: the first difference decides. */
  ghost predicate AlphabeticallyBefore(s: string, t: string)
    requires |s| == |t|
  {
    exists k :: 0 <= k < |s| && s[..k] == t[..k] && s[k] < t[k]
  }

  lemma BeforeByInit(s: string, t: string)
    requires |s| == |t| > 0
    ensures var n := |s| - 1;
      AlphabeticallyBefore(s, t) <==> AlphabeticallyBefore(s[..n], t[..n]) || (s[..n] == t[..n] && s[n] < t[n])
  {
    var n := |s| - 1;
    if AlphabeticallyBefore(s, t) {
      var k :| 0 <= k < |s| && s[..k] == t[..k] && s[k] < t[k];
      if k < n { assert s[..n][..k] == s[..k] && t[..n][..k] == t[..k]; }
    }
    if AlphabeticallyBefore(s[..n], t[..n]) {
      var k :| 0 <= k < n && s[..n][..k] == t[..n][..k] && s[..n][k] < t[..n][k];
      assert s[..n][..k] == s[..k] && t[..n][..k] == t[..k];
    }
  }

  lemma NumberInjective(s: string, t: string)
    requires IsName(s) && IsName(t)
    ensures Number(s) == Number(t) <==> s == t
  {
    NameOfNumber(s);
    NameOfNumber(t);
  }

  lemma {:induction false} SameLengthOrder(s: string, t: string)
    requires IsName(s) && IsName(t) && |s| == |t|
    ensures Number(s) < Number(t) <==> AlphabeticallyBefore(s, t)
  {
    if s != "" {
      var n := |s| - 1;
      SameLengthOrder(s[..n], t[..n]);
      NumberInjective(s[..n], t[..n]);
      BeforeByInit(s, t);
      var a, b, x, y := Number(s[..n]), Number(t[..n]), LetterNumber(s[n]), LetterNumber(t[n]);
      assert 26 * a + x < 26 * b + y <==> a < b || (a == b && x < y);
    }
  }

  /** Columns are in the order of their names: shorter names first, names of one length alphabetically. */
  lemma ColumnOrder(c: nat, d: nat)
    ensures c < d <==>
      |Name(c)| < |Name(d)| || (|Name(c)| == |Name(d)| && AlphabeticallyBefore(Name(c), Name(d)))
  {
    NumberOfName(c);
    NumberOfName(d);
    NameIsName(c);
    NameIsName(d);
    if |Name(c)| == |Name(d)| {
      SameLengthOrder(Name(c), Name(d));
    } else if |Name(c)| < |Name(d)| {
      NameLength(c, |Name(c)|);
      NameLength(d, |Name(c)|);
    } else {
      NameLength(c, |Name(d)|);
      NameLength(d, |Name(d)|);
    }
  }

  // ---------- Rows ----------

  function Digit(k: int): char
    requires 0 <= k < 10
  {
    ('0' as int + k) as char
  }

  /** How a row number is written. */
  function Decimal(n: nat): string {
    if n < 10 then [Digit(n)] else Decimal(n / 10) + [Digit(n % 10)]
  }

  function DecimalValue(s: string): int {
    if s == "" then 0 else 10 * DecimalValue(s[..|s| - 1]) + (s[|s| - 1] as int - '0' as int)
  }

  lemma {:induction false} DecimalRoundTrip(n: nat)
    ensures DecimalValue(Decimal(n)) == n
    ensures Decimal(n) != "" && forall i :: 0 <= i < |Decimal(n)| ==> IsDigit(Decimal(n)[i])
  {
    if n < 10 {
      assert Decimal(n)[..0] == "";
    } else {
      DecimalRoundTrip(n / 10);
      assert Decimal(n)[..|Decimal(n)| - 1] == Decimal(n / 10);
    }
  }

  // ---------- Cell ids ----------

  function LettersOf(cell: string): string {
    if cell == "" then ""
    else
      var c := cell[|cell| - 1];
      LettersOf(cell[..|cell| - 1]) + (if IsUpper(c) || IsLower(c) then [c] else "")
  }

  function DigitsOf(cell: string): string {
    if cell == "" then ""
    else
      var c := cell[|cell| - 1];
      DigitsOf(cell[..|cell| - 1]) + (if IsDigit(c) then [c] else "")
  }

  function ToUpper(c: char): char {
    if IsLower(c) then (c as int - 'a' as int + 'A' as int) as char else c
  }

  function Uppercase(s: string): (r: string)
    ensures |r| == |s|
  {
    seq(|s|, i requires 0 <= i < |s| => ToUpper(s[i]))
  }

  datatype Overflow = Overflow

  /** The row number written; without digits, or beyond the machine's range, it is taken to be 1. */
  function RowNumber(digits: string): int {
    if digits == "" || DecimalValue(digits) > USIZE_MAX then 1 else DecimalValue(digits)
  }

  /** The zero-based row and column of a cell id. Arithmetic that leaves the range of usize is an Overflow: too many
      letters, no letters at all, or row 0. */
  function CellOf(cell: string): Result<(int, int), Overflow> {
    CellFrom(LettersOf(cell), DigitsOf(cell))
  }

  function CellFrom(letters: string, digits: string): Result<(int, int), Overflow> {
    var column, row := Number(Uppercase(letters)), RowNumber(digits);
    if column > USIZE_MAX || column == 0 || row == 0 then Err(Overflow) else Ok((row - 1, column - 1))
  }

  method ParseCellId(cell: string) returns (r: Result<(int, int), Overflow>)
    ensures r == CellOf(cell)
  {
    var letters, digits := "", "";
    for i := 0 to |cell|
      invariant letters == LettersOf(cell[..i]) && digits == DigitsOf(cell[..i])
    {
      assert cell[..i + 1][..i] == cell[..i];
      if IsUpper(cell[i]) || IsLower(cell[i]) {
        letters := letters + [cell[i]];
      } else if IsDigit(cell[i]) {
        digits := digits + [cell[i]];
      }
    }
    assert cell[..|cell|] == cell;
    LettersAreLetters(cell);
    var upper := Uppercase(letters);
    var column := 0;
    for i := 0 to |upper|
      invariant column == Number(upper[..i]) && column <= USIZE_MAX
    {
      assert upper[..i + 1][..i] == upper[..i];
      column := column * 26 + LetterNumber(upper[i]);
      if column > USIZE_MAX {
        PrefixNumber(upper, i + 1);
        return Err(Overflow);
      }
    }
    assert upper[..|upper|] == upper;
    var row := RowNumber(digits);
    if row == 0 || column == 0 { return Err(Overflow); }
    r := Ok((row - 1, column - 1));
  }

  lemma {:induction false} LettersAreLetters(cell: string)
    ensures IsName(Uppercase(LettersOf(cell)))
  {
    if cell != "" { LettersAreLetters(cell[..|cell| - 1]); OnlyLetters(cell); }
  }

  lemma {:induction false} OnlyLetters(cell: string)
    ensures forall i :: 0 <= i < |LettersOf(cell)| ==> IsUpper(LettersOf(cell)[i]) || IsLower(LettersOf(cell)[i])
  {
    if cell != "" { OnlyLetters(cell[..|cell| - 1]); }
  }

  lemma {:induction false} PrefixNumber(name: string, n: nat)
    requires IsName(name) && n <= |name|
    ensures Number(name[..n]) <= Number(name)
    decreases |name|
  {
    if n < |name| {
      var init := name[..|name| - 1];
      assert init[..n] == name[..n];
      PrefixNumber(init, n);
      NumberNonNegative(init);
    } else {
      assert name[..n] == name;
    }
  }

  // ---------- Printing and parsing undo each other ----------

  lemma {:induction false} FiltersOfName(name: string, digits: string)
    requires IsName(name) && forall i :: 0 <= i < |digits| ==> IsDigit(digits[i])
    ensures LettersOf(name + digits) == name && DigitsOf(name + digits) == digits
  {
    if digits == "" {
      FiltersOfLetters(name);
      assert name + digits == name;
    } else {
      var cell, init := name + digits, digits[..|digits| - 1];
      FiltersOfName(name, init);
      assert cell[..|cell| - 1] == name + init;
    }
  }

  lemma {:induction false} FiltersOfLetters(name: string)
    requires IsName(name)
    ensures LettersOf(name) == name && DigitsOf(name) == ""
  {
    if name != "" { FiltersOfLetters(name[..|name| - 1]); }
  }

  /** A printed address is parsed back to its zero-based row and column, for every 32-bit column and every row. */
  lemma CellRoundTrip(column: nat, row: nat)
    requires 1 <= column <= U32_MAX && 1 <= row <= USIZE_MAX
    ensures CellOf(Name(column) + Decimal(row)) == Ok((row - 1, column - 1))
  {
    NameIsName(column);
    NumberOfName(column);
    DecimalRoundTrip(row);
    CellOfParts(Name(column), Decimal(row));
  }

  lemma CellOfParts(name: string, digits: string)
    requires IsName(name) && digits != "" && forall i :: 0 <= i < |digits| ==> IsDigit(digits[i])
    requires 1 <= Number(name) <= USIZE_MAX && 1 <= DecimalValue(digits) <= USIZE_MAX
    ensures CellOf(name + digits) == Ok((DecimalValue(digits) - 1, Number(name) - 1))
  {
    FiltersOfName(name, digits);
    CellFromParts(name, digits);
  }

  lemma CellFromParts(name: string, digits: string)
    requires IsName(name) && digits != ""
    requires 1 <= Number(name) <= USIZE_MAX && 1 <= DecimalValue(digits) <= USIZE_MAX
    ensures CellFrom(name, digits) == Ok((DecimalValue(digits) - 1, Number(name) - 1))
  {
    UppercaseOfName(name);
  }

  lemma UppercaseOfName(name: string)
    requires IsName(name)
    ensures Uppercase(name) == name
  {
  }

  // ---------- What in a cell id matters ----------

  lemma {:induction false} PartsConcatenate(a: string, b: string)
    ensures LettersOf(a + b) == LettersOf(a) + LettersOf(b) && DigitsOf(a + b) == DigitsOf(a) + DigitsOf(b)
  {
    if b == "" {
      assert a + b == a;
    } else {
      PartsConcatenate(a, b[..|b| - 1]);
      assert (a + b)[..|a + b| - 1] == a + b[..|b| - 1];
    }
  }

  lemma PartsInside(a: string, middle: string, b: string)
    ensures LettersOf(a + middle + b) == LettersOf(a) + LettersOf(middle) + LettersOf(b)
    ensures DigitsOf(a + middle + b) == DigitsOf(a) + DigitsOf(middle) + DigitsOf(b)
  {
    PartsConcatenate(a + middle, b);
    PartsConcatenate(a, middle);
  }

  /** Replacing a stretch by one with the same letters and the same digits does not matter. */
  lemma SameStretch(a: string, middle: string, other: string, b: string)
    requires LettersOf(middle) == LettersOf(other) && DigitsOf(middle) == DigitsOf(other)
    ensures CellOf(a + middle + b) == CellOf(a + other + b)
  {
    PartsInside(a, middle, b);
    PartsInside(a, other, b);
  }

  /** Characters that are neither letters nor digits do not matter. */
  lemma OtherCharactersIgnored(a: string, c: char, b: string)
    requires !('A' <= c <= 'Z') && !('a' <= c <= 'z') && !('0' <= c <= '9')
    ensures CellOf(a + [c] + b) == CellOf(a + b)
  {
    assert [c][..0] == "";
    SameStretch(a, [c], "", b);
    assert a + "" == a;
  }

  /** A digit may stand before or behind a letter. */
  lemma DigitsMayStandAnywhere(a: string, letter: char, digit: char, b: string)
    requires ('A' <= letter <= 'Z' || 'a' <= letter <= 'z') && '0' <= digit <= '9'
    ensures CellOf(a + [digit, letter] + b) == CellOf(a + [letter, digit] + b)
  {
    assert [digit, letter][..1] == [digit] && [letter, digit][..1] == [letter];
    assert [digit][..0] == "" && [letter][..0] == "";
    SameStretch(a, [digit, letter], [letter, digit], b);
  }

  /** The same character, or the same letter in upper and lower case. */
  ghost predicate SameButForCase(c: char, d: char) {
    || c == d
    || ('A' <= c <= 'Z' && d as int == c as int + 32)
    || ('A' <= d <= 'Z' && c as int == d as int + 32)
  }

  /** "b3" and "B3" are the same cell. */
  lemma {:induction false} CaseDoesNotMatter(cell: string, other: string)
    requires |cell| == |other| && forall i :: 0 <= i < |cell| ==> SameButForCase(cell[i], other[i])
    ensures CellOf(cell) == CellOf(other)
  {
    SamePartsButForCase(cell, other);
  }

  lemma {:induction false} SamePartsButForCase(cell: string, other: string)
    requires |cell| == |other| && forall i :: 0 <= i < |cell| ==> SameButForCase(cell[i], other[i])
    ensures Uppercase(LettersOf(cell)) == Uppercase(LettersOf(other)) && DigitsOf(cell) == DigitsOf(other)
  {
    if cell != "" {
      var n := |cell| - 1;
      SamePartsButForCase(cell[..n], other[..n]);
      assert SameButForCase(cell[n], other[n]);
      if IsUpper(cell[n]) || IsLower(cell[n]) {
        UppercaseAppend(LettersOf(cell[..n]), cell[n]);
        UppercaseAppend(LettersOf(other[..n]), other[n]);
      } else {
        assert cell[n] == other[n];
        assert LettersOf(cell) == LettersOf(cell[..n]) && LettersOf(other) == LettersOf(other[..n]);
      }
    }
  }

  lemma UppercaseAppend(s: string, c: char)
    ensures Uppercase(s + [c]) == Uppercase(s) + [ToUpper(c)]
  {
  }

  /** With letters first and digits behind them: the column must have a number that the machine can hold, and the row
      must not be written as zero; no digits, or more than the machine can hold, mean the first row. */
  lemma {:induction false} ParsesIff(name: string, digits: string)
    requires IsName(name) && (forall i :: 0 <= i < |digits| ==> IsDigit(digits[i])) && DecimalValue(digits) >= 0
    ensures CellOf(name + digits).Ok? <==>
      name != "" && Number(name) <= USIZE_MAX && (digits == "" || DecimalValue(digits) != 0)
    ensures CellOf(name + digits).Ok? ==>
      var (row, column) := CellOf(name + digits).value;
      && column == Number(name) - 1
      && row == if digits == "" || DecimalValue(digits) > USIZE_MAX then 0 else DecimalValue(digits) - 1
  {
    FiltersOfName(name, digits);
    UppercaseOfName(name);
    NumberNonNegative(name);
    PositiveNumber(name);
  }

  lemma PositiveNumber(name: string)
    requires IsName(name)
    ensures Number(name) == 0 <==> name == ""
  {
    if name != "" { NumberNonNegative(name[..|name| - 1]); }
  }

  /** Conversely, a cell id that parses has the letters and the row of the address printed for its result: case, other
      characters, the place of the digits and a row that is not a number do not matter. */
  lemma ParsedCellPrints(cell: string)
    requires CellOf(cell).Ok?
    ensures var (row, column) := CellOf(cell).value;
      && 0 <= row < USIZE_MAX && 0 <= column < USIZE_MAX
      && Uppercase(LettersOf(cell)) == Name(column + 1)
      && row + 1 == RowNumber(DigitsOf(cell))
  {
    LettersAreLetters(cell);
    DigitsNonNegative(cell);
    ParsedPartsPrint(LettersOf(cell), DigitsOf(cell));
  }

  lemma ParsedPartsPrint(letters: string, digits: string)
    requires CellFrom(letters, digits).Ok? && IsName(Uppercase(letters)) && DecimalValue(digits) >= 0
    ensures var (row, column) := CellFrom(letters, digits).value;
      && 0 <= row < USIZE_MAX && 0 <= column < USIZE_MAX
      && Uppercase(letters) == Name(column + 1)
      && row + 1 == RowNumber(digits)
  {
    NumberNonNegative(Uppercase(letters));
    NameOfNumber(Uppercase(letters));
  }

  lemma {:induction false} DigitsNonNegative(cell: string)
    ensures DecimalValue(DigitsOf(cell)) >= 0
  {
    if cell != "" {
      DigitsNonNegative(cell[..|cell| - 1]);
      if IsDigit(cell[|cell| - 1]) {
        assert DigitsOf(cell)[..|DigitsOf(cell)| - 1] == DigitsOf(cell[..|cell| - 1]);
      } else {
        assert DigitsOf(cell) == DigitsOf(cell[..|cell| - 1]);
      }
    }
  }
}
