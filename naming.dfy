/**
 * Migration file naming (pkg/lib/lib.go:153-158): the millisecond timestamp
 * printed in decimal the way `fmt.Sprint` prints an `int64`, then "-", the
 * migration's name and ".sql". The parsers here read a name back
 * (they are inverses, not part of the source).
 */
module Naming {
  import opened Wrappers

  /** Go's `int64`, the type of `time.Time.UnixMilli()`. */
  newtype Int64 = x: int | -0x8000_0000_0000_0000 <= x < 0x8000_0000_0000_0000

  predicate IsDigit(c: char)
  {
    '0' <= c <= '9'
  }

  predicate AllDigits(s: string)
  {
    forall k :: 0 <= k < |s| ==> IsDigit(s[k])
  }

  /** Digits as `fmt` prints a non-negative number: at least one, no leading zero unless the number is 0. */
  predicate IsCanonicalDigits(s: string)
  {
    |s| >= 1 && AllDigits(s) && (s[0] == '0' ==> |s| == 1)
  }

  function DigitChar(d: nat): (c: char)
    requires d < 10
    ensures IsDigit(c) && c as int - '0' as int == d
  {
    ('0' as int + d) as char
  }

  /** Base-10 digits of n, most significant first. */
  function Digits(n: nat): string
    decreases n
  {
    if n < 10 then [DigitChar(n)] else Digits(n / 10) + [DigitChar(n % 10)]
  }

  /** The number a string of digits denotes. */
  function DigitsValue(s: string): nat
    requires AllDigits(s)
    decreases |s|
  {
    if s == [] then 0
    else DigitsValue(s[..|s| - 1]) * 10 + (s[|s| - 1] as int - '0' as int)
  }

  /** `fmt.Sprint(ts)` for an `int64`: a minus sign before the digits of a negative value. */
  function Decimal(ts: Int64): string
  {
    if ts < 0 then "-" + Digits(-(ts as int)) else Digits(ts as int)
  }

  /** Reads back what `Decimal` prints (the inverse of `Decimal`), refusing anything `fmt` would not print. */
  function ParseDecimal(s: string): Option<Int64>
  {
    if |s| > 0 && s[0] == '-' then
      var body := s[1..];
      if IsCanonicalDigits(body) && body != "0" && DigitsValue(body) <= 0x8000_0000_0000_0000
      then Some(-(DigitsValue(body) as int) as Int64) else None
    else
      if IsCanonicalDigits(s) && DigitsValue(s) < 0x8000_0000_0000_0000
      then Some(DigitsValue(s) as Int64) else None
  }

  lemma {:induction false} DigitsCanonical(n: nat)
    ensures IsCanonicalDigits(Digits(n)) && DigitsValue(Digits(n)) == n
    decreases n
  {
    if n >= 10 {
      DigitsCanonical(n / 10);
      var s := Digits(n);
      assert s[..|s| - 1] == Digits(n / 10);
    }
  }

  lemma {:induction false} LeadingNonZeroIsPositive(s: string)
    requires |s| >= 1 && AllDigits(s) && s[0] != '0'
    ensures DigitsValue(s) >= 1
    decreases |s|
  {
    if |s| > 1 {
      LeadingNonZeroIsPositive(s[..|s| - 1]);
    }
  }

  /** Canonical digit strings are exactly the ones `Digits` prints. */
  lemma {:induction false} CanonicalDigitsRoundTrip(s: string)
    requires IsCanonicalDigits(s)
    ensures Digits(DigitsValue(s)) == s
    decreases |s|
  {
    if |s| > 1 {
      var init := s[..|s| - 1];
      assert IsCanonicalDigits(init);
      LeadingNonZeroIsPositive(init);
      CanonicalDigitsRoundTrip(init);
      var v := DigitsValue(s);
      assert v / 10 == DigitsValue(init) && v % 10 == s[|s| - 1] as int - '0' as int;
      assert s == init + [s[|s| - 1]];
    }
  }

  /** Printing then parsing gives back the timestamp, negative ones included. */
  lemma DecimalRoundTrip(ts: Int64)
    ensures ParseDecimal(Decimal(ts)) == Some(ts)
  {
    if ts < 0 {
      DigitsCanonical(-(ts as int));
      assert Decimal(ts)[1..] == Digits(-(ts as int));
    } else {
      DigitsCanonical(ts as int);
    }
  }

  /** Whatever parses is exactly what `Decimal` prints for the parsed value. */
  lemma ParseDecimalExact(s: string, ts: Int64)
    requires ParseDecimal(s) == Some(ts)
    ensures Decimal(ts) == s
  {
    if |s| > 0 && s[0] == '-' {
      CanonicalDigitsRoundTrip(s[1..]);
      assert s == "-" + s[1..];
    } else {
      CanonicalDigitsRoundTrip(s);
    }
  }

  /** The position of the first occurrence of c in s. */
  function FirstIndexOf(s: string, c: char): (r: Option<nat>)
    ensures r.None? ==> c !in s
    ensures r.Some? ==> r.value < |s| && s[r.value] == c && c !in s[..r.value]
    decreases |s|
  {
    if s == [] then None
    else if s[0] == c then Some(0)
    else
      match FirstIndexOf(s[1..], c)
      case None => None
      case Some(i) => assert s[..i + 1] == [s[0]] + s[1..][..i]; Some(i + 1)
  }

  /** The base name of a new migration file: `fmt.Sprint(ts) + "-" + name + ".sql"`. */
  function MigrationFileName(ts: Int64, name: string): string
  {
    Decimal(ts) + "-" + name + ".sql"
  }

  /** The path a new migration file is created at, joined with "/" whatever the platform. */
  function MigrationFilePath(path: string, ts: Int64, name: string): string
  {
    path + "/" + Decimal(ts) + "-" + name + ".sql"
  }

  /**
   * Splits a base name at its first "-" into a timestamp and a name, with the
   * ".sql" suffix removed; None when the text before the first "-" is not a
   * timestamp `fmt` prints or the name does not end in ".sql".
   */
  function SplitMigrationFileName(base: string): Option<(Int64, string)>
  {
    match FirstIndexOf(base, '-')
    case None => None
    case Some(i) =>
      var stamp, rest := base[..i], base[i + 1..];
      if IsCanonicalDigits(stamp) && DigitsValue(stamp) < 0x8000_0000_0000_0000
         && |rest| >= 4 && rest[|rest| - 4..] == ".sql"
      then Some((DigitsValue(stamp) as Int64, rest[..|rest| - 4]))
      else None
  }

  lemma {:induction false} DigitsHaveNoDash(n: nat)
    ensures '-' !in Digits(n)
  {
    DigitsCanonical(n);
  }

  /** The printed timestamp holds no "/". */
  lemma DecimalHasNoSlash(ts: Int64)
    ensures '/' !in Decimal(ts)
  {
    var n: nat := if ts < 0 then -(ts as int) else ts as int;
    DigitsCanonical(n);
    assert '/' !in Digits(n);
  }

  /** The base name holds a "/" exactly when the migration's name does. */
  lemma FileNameSlashes(ts: Int64, name: string)
    ensures '/' in MigrationFileName(ts, name) <==> '/' in name
  {
    DecimalHasNoSlash(ts);
    var d := Decimal(ts);
    var base := MigrationFileName(ts, name);
    assert base == d + "-" + name + ".sql";
    if '/' in name {
      var k :| 0 <= k < |name| && name[k] == '/';
      assert base[|d| + 1 + k] == '/';
    }
  }

  /** The first c of a text that starts with a c-free prefix and then a c is just after that prefix. */
  lemma {:induction false} FirstIndexAfter(a: string, c: char, b: string)
    requires c !in a
    ensures FirstIndexOf(a + [c] + b, c) == Some(|a|)
    decreases |a|
  {
    if a != [] {
      assert (a + [c] + b)[1..] == a[1..] + [c] + b;
      FirstIndexAfter(a[1..], c, b);
    }
  }

  /**
   * A file named with a non-negative timestamp splits back into that timestamp
   * and name, whatever "-" or ".sql" the name itself contains: decimal digits
   * hold no "-", so the first "-" ends the timestamp.
   */
  lemma FileNameRoundTrip(ts: Int64, name: string)
    requires ts >= 0
    ensures SplitMigrationFileName(MigrationFileName(ts, name)) == Some((ts, name))
  {
    var d := Decimal(ts);
    var base := MigrationFileName(ts, name);
    DigitsHaveNoDash(ts as int);
    DigitsCanonical(ts as int);
    assert base == d + ['-'] + (name + ".sql");
    FirstIndexAfter(d, '-', name + ".sql");
    assert base[..|d|] == d;
    assert DigitsValue(d) as Int64 == ts;
    var rest := base[|d| + 1..];
    assert rest == name + ".sql";
    assert rest[|rest| - 4..] == ".sql";
    assert rest[..|rest| - 4] == name;
  }

  /** Only names of that shape split: a split base name is the name of its parts. */
  lemma SplitFileNameExact(base: string, ts: Int64, name: string)
    requires SplitMigrationFileName(base) == Some((ts, name))
    ensures ts >= 0 && MigrationFileName(ts, name) == base
  {
    var i := FirstIndexOf(base, '-').value;
    var stamp, rest := base[..i], base[i + 1..];
    CanonicalDigitsRoundTrip(stamp);
    assert Decimal(ts) == stamp;
    assert rest == name + ".sql";
    assert base == stamp + "-" + rest;
  }

  /** A negative clock reading prints a leading "-", and the resulting name no longer splits. */
  lemma NegativeTimestampDoesNotSplit(ts: Int64, name: string)
    requires ts < 0
    ensures MigrationFileName(ts, name)[0] == '-'
    ensures SplitMigrationFileName(MigrationFileName(ts, name)) == None
  {
    var base := MigrationFileName(ts, name);
    assert base[0] == '-';
    assert FirstIndexOf(base, '-') == Some(0);
  }

  /**
   * The created path is the directory, a "/", and the base name; in particular
   * it ends in ".sql". For ts >= 0, FileNameRoundTrip reads the timestamp and
   * name back from the base name.
   */
  lemma FilePathShape(path: string, ts: Int64, name: string)
    ensures var p := MigrationFilePath(path, ts, name);
      && p == path + "/" + MigrationFileName(ts, name)
      && |p| >= |path| + 1 + 4
      && p[..|path| + 1] == path + "/"
      && p[|p| - 4..] == ".sql"
  {
    var p := MigrationFilePath(path, ts, name);
    assert p == (path + "/") + (Decimal(ts) + "-" + name) + ".sql";
  }
}
