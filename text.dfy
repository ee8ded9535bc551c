/**
 * The string building the form does: decimal rendering of integers, joining
 * with a separator (and its inverse, splitting), the unpadded
 * `Year_Month_Day` volume label and the file-name part of a path.
 */
module Text {
  import opened Wrappers

  // ---------------------------------------------------------------------------
  // Decimal rendering, as `int.ToString()` produces it

  predicate IsDigit(c: char) {
    '0' <= c <= '9'
  }

  predicate IsNumeral(s: string) {
    |s| > 0 && forall i :: 0 <= i < |s| ==> IsDigit(s[i])
  }

  function DigitChar(d: nat): (c: char)
    requires d < 10
    ensures IsDigit(c) && c as int - '0' as int == d
  {
    ['0', '1', '2', '3', '4', '5', '6', '7', '8', '9'][d]
  }

  /** Decimal digits of `n`, most significant first, without leading zeros. */
  function NatToString(n: nat): (s: string)
    ensures IsNumeral(s)
    ensures s[0] == '0' ==> n == 0
  {
    if n < 10 then [DigitChar(n)] else NatToString(n / 10) + [DigitChar(n % 10)]
  }

  /** `int.ToString()` for any integer: a minus sign, then the digits of the magnitude. */
  function IntToString(i: int): (s: string)
    ensures i >= 0 ==> IsNumeral(s) && DecimalValue(s) == i
    ensures i < 0 ==> |s| > 1 && s[0] == '-' && IsNumeral(s[1..]) && DecimalValue(s[1..]) == -i
  {
    if i < 0 then
      DecimalRoundTrip(-i);
      assert ("-" + NatToString(-i))[1..] == NatToString(-i);
      "-" + NatToString(-i)
    else
      DecimalRoundTrip(i);
      NatToString(i)
  }

  /** The value a string of decimal digits denotes. */
  function DecimalValue(s: string): nat
    requires forall i :: 0 <= i < |s| ==> IsDigit(s[i])
  {
    if |s| == 0 then 0
    else
      assert IsDigit(s[|s| - 1]);
      10 * DecimalValue(s[..|s| - 1]) + (s[|s| - 1] as int - '0' as int) as nat
  }

  /** Rendering a number in decimal loses nothing: reading it back gives the number. */
  lemma {:induction false} DecimalRoundTrip(n: nat)
    ensures DecimalValue(NatToString(n)) == n
  {
    var s := NatToString(n);
    if n >= 10 {
      assert s[..|s| - 1] == NatToString(n / 10);
      DecimalRoundTrip(n / 10);
    }
  }

  // ---------------------------------------------------------------------------
  // Joining and splitting

  /**
   * The parts separated by `sep`, as a loop appending `sep` before every part
   * but the first builds it.
   */
  function Join(sep: string, parts: seq<string>): string
    decreases |parts|
  {
    if |parts| == 0 then ""
    else if |parts| == 1 then parts[0]
    else Join(sep, parts[..|parts| - 1]) + sep + parts[|parts| - 1]
  }

  lemma JoinSnoc(sep: string, parts: seq<string>, last: string)
    ensures Join(sep, parts + [last]) == if parts == [] then last else Join(sep, parts) + sep + last
  {
    assert (parts + [last])[..|parts|] == parts;
  }

  /** When no part is empty, the joined string is empty exactly when there are no parts. */
  lemma {:induction false} JoinEmptyIff(sep: string, parts: seq<string>)
    requires forall i :: 0 <= i < |parts| ==> parts[i] != ""
    ensures Join(sep, parts) == "" <==> parts == []
  {
    if |parts| > 1 {
      var last := parts[|parts| - 1];
      assert |Join(sep, parts)| >= |last| > 0;
    }
  }

  /** A join whose first part is non-empty is non-empty. */
  lemma {:induction false} JoinNonEmptyHead(sep: string, parts: seq<string>)
    requires |parts| > 0 && parts[0] != ""
    ensures |Join(sep, parts)| >= |parts[0]| > 0
    decreases |parts|
  {
    if |parts| > 1 {
      JoinNonEmptyHead(sep, parts[..|parts| - 1]);
    }
  }

  /** The non-empty strings of `names`, in their order (the `IsNullOrEmpty ... continue` filter). */
  function NonEmpty(names: seq<string>): (r: seq<string>)
    ensures forall i :: 0 <= i < |r| ==> r[i] != ""
    ensures forall x :: x in r <==> x in names && x != ""
    ensures |r| <= |names|
    decreases |names|
  {
    if |names| == 0 then []
    else
      var init := NonEmpty(names[..|names| - 1]);
      var last := names[|names| - 1];
      assert forall x :: x in names <==> x in names[..|names| - 1] || x == last;
      if last == "" then init else init + [last]
  }

  lemma NonEmptySnoc(names: seq<string>, x: string)
    ensures NonEmpty(names + [x]) == if x == "" then NonEmpty(names) else NonEmpty(names) + [x]
  {
    assert (names + [x])[..|names|] == names;
  }

  /**
   * The filter distributes over concatenation, so together with its effect on
   * a single name it fixes the result: the kept names keep their order and
   * their repetitions.
   */
  lemma {:induction false} NonEmptyConcat(a: seq<string>, b: seq<string>)
    ensures NonEmpty(a + b) == NonEmpty(a) + NonEmpty(b)
    decreases |b|
  {
    if |b| == 0 {
      assert a + b == a;
    } else {
      var init, last := b[..|b| - 1], b[|b| - 1];
      assert a + b == (a + init) + [last];
      assert b == init + [last];
      NonEmptyConcat(a, init);
      NonEmptySnoc(a + init, last);
      NonEmptySnoc(init, last);
    }
  }

  /**
   * The pieces of `s` between occurrences of `c`, as `string.Split(c)` gives
   * them: always at least one piece, and empty pieces are kept.
   */
  function Split(s: string, c: char): (r: seq<string>)
    ensures |r| >= 1
    decreases |s|
  {
    if |s| == 0 then [""]
    else
      var rest := Split(s[1..], c);
      if s[0] == c then [""] + rest else [[s[0]] + rest[0]] + rest[1..]
  }

  /** A string without `c` is one piece. */
  lemma {:induction false} SplitNoSeparator(s: string, c: char)
    requires c !in s
    ensures Split(s, c) == [s]
  {
    if |s| > 0 {
      SplitNoSeparator(s[1..], c);
      assert [s[0]] + s[1..] == s;
    }
  }

  /** Splitting at an occurrence of the separator splits the pieces on either side of it. */
  lemma {:induction false} SplitConcat(a: string, b: string, c: char)
    ensures Split(a + [c] + b, c) == Split(a, c) + Split(b, c)
  {
    var s := a + [c] + b;
    if |a| == 0 {
      assert s[1..] == b;
    } else {
      assert s[1..] == a[1..] + [c] + b;
      SplitConcat(a[1..], b, c);
    }
  }

  /** Joining with a one-character separator that no part contains is undone by splitting. */
  lemma {:induction false} SplitJoin(parts: seq<string>, c: char)
    requires |parts| > 0
    requires forall i :: 0 <= i < |parts| ==> c !in parts[i]
    ensures Split(Join([c], parts), c) == parts
  {
    var n := |parts|;
    if n == 1 {
      SplitNoSeparator(parts[0], c);
    } else {
      var init := parts[..n - 1];
      SplitJoin(init, c);
      SplitConcat(Join([c], init), parts[n - 1], c);
      SplitNoSeparator(parts[n - 1], c);
      assert init + [parts[n - 1]] == parts;
    }
  }

  // ---------------------------------------------------------------------------
  // The default volume label

  datatype Date = Date(year: nat, month: nat, day: nat)

  /** `now.Year + "_" + now.Month + "_" + now.Day`: unpadded decimal parts joined by `_`. */
  function VolumeLabel(d: Date): (text: string)
    ensures Split(text, '_') == [NatToString(d.year), NatToString(d.month), NatToString(d.day)]
  {
    var y, m, dd := NatToString(d.year), NatToString(d.month), NatToString(d.day);
    assert '_' !in y && '_' !in m && '_' !in dd by {
      assert forall s: string :: IsNumeral(s) ==> '_' !in s;
    }
    SplitConcat(y, m, '_');
    SplitConcat(y + "_" + m, dd, '_');
    SplitNoSeparator(y, '_');
    SplitNoSeparator(m, '_');
    SplitNoSeparator(dd, '_');
    y + "_" + m + "_" + dd
  }

  /** Reads a `Year_Month_Day` label back into its date parts. */
  function ParseVolumeLabel(s: string): Option<Date> {
    var f := Split(s, '_');
    if |f| == 3 && IsNumeral(f[0]) && IsNumeral(f[1]) && IsNumeral(f[2])
    then Some(Date(DecimalValue(f[0]), DecimalValue(f[1]), DecimalValue(f[2])))
    else None
  }

  /** The label names its date unambiguously: parsing it gives the date back. */
  lemma VolumeLabelRoundTrip(d: Date)
    ensures ParseVolumeLabel(VolumeLabel(d)) == Some(d)
  {
    DecimalRoundTrip(d.year);
    DecimalRoundTrip(d.month);
    DecimalRoundTrip(d.day);
  }

  // ---------------------------------------------------------------------------
  // FileInfo.Name

  /** The characters that end a directory or volume part of a Windows path. */
  predicate IsPathSeparator(c: char) {
    c == '\\' || c == '/' || c == ':'
  }

  /** What follows the last separator of `path` (all of it when there is none). */
  function FileName(path: string): (name: string)
    ensures |name| <= |path| && name == path[|path| - |name|..]
    ensures forall i :: 0 <= i < |name| ==> !IsPathSeparator(name[i])
    ensures |name| < |path| ==> IsPathSeparator(path[|path| - |name| - 1])
    decreases |path|
  {
    if |path| == 0 then ""
    else if IsPathSeparator(path[|path| - 1]) then ""
    else
      var name := FileName(path[..|path| - 1]) + [path[|path| - 1]];
      name
  }
}
