/**
 * The display helpers of lib/formatters.ts that compute text: truncation,
 * the masked account number, initials, and the relative age of a timestamp.
 * The locale-dependent formats (currency, dates, numbers) are not modelled;
 * where the relative age falls back to a date, that date text is a parameter.
 */
module Formatters {
  import opened Strings

  const DefaultTruncateLength: int := 8

  /** `str.slice(0, n)`: a negative end counts from the back, and ends are clamped to the string. */
  function SliceTo(s: string, n: int): (r: string)
    ensures r <= s
    ensures 0 <= n <= |s| ==> r == s[..n]
  {
    var end := if n < 0 then (if |s| + n < 0 then 0 else |s| + n) else if n > |s| then |s| else n;
    s[..end]
  }

  /** `truncate(str, length)`: the string when it fits, else its first `length` characters and "...". */
  function Truncate(s: string, length: int): (r: string)
    ensures |s| <= length ==> r == s
    ensures 0 <= length < |s| ==> r == s[..length] + "..."
  {
    if |s| <= length then s else SliceTo(s, length) + "..."
  }

  /** A truncated string is never longer than the limit and the ellipsis, and starts like the original. */
  lemma TruncateBounded(s: string, length: nat)
    ensures |Truncate(s, length)| <= length + 3
    ensures var k := if |s| <= length then |s| else length; Truncate(s, length)[..k] == s[..k]
  {
  }

  /** Truncating with the default length twice is truncating once: a truncated id is eleven characters and stays so. */
  lemma TruncateTwice(s: string)
    ensures |s| > DefaultTruncateLength ==> |Truncate(s, DefaultTruncateLength)| == 11
    ensures Truncate(Truncate(s, DefaultTruncateLength), DefaultTruncateLength) == Truncate(s, DefaultTruncateLength)
  {
  }

  /** `formatAccountNumber`: the number itself when shown in full or short, else "****" and its last four characters. */
  function FormatAccountNumber(accountNumber: string, showFull: bool): (r: string)
    ensures showFull || |accountNumber| <= 4 ==> r == accountNumber
    ensures !showFull && |accountNumber| > 4 ==>
      |r| == 8 && r[..4] == "****" && r[4..] == accountNumber[|accountNumber| - 4..]
  {
    if showFull then accountNumber
    else if |accountNumber| <= 4 then accountNumber
    else "****" + accountNumber[|accountNumber| - 4..]
  }

  /** Masking a masked number changes nothing. */
  lemma MaskIdempotent(accountNumber: string)
    ensures FormatAccountNumber(FormatAccountNumber(accountNumber, false), false) == FormatAccountNumber(accountNumber, false)
  {
  }

  /** `part.charAt(0).toUpperCase()`: the first character upper-cased, or nothing for an empty part. */
  function Initial(part: string): (r: string)
    ensures part == "" ==> r == ""
    ensures part != "" ==> r == [UpperChar(part[0])]
  {
    if part == "" then "" else [UpperChar(part[0])]
  }

  /** `getInitials`: the initials of the first two space-separated parts. */
  function GetInitials(name: string): (r: string)
    ensures |r| <= 2
  {
    var parts := SplitSpace(name);
    if |parts| == 1 then Initial(parts[0]) else Initial(parts[0]) + Initial(parts[1])
  }

  /** A name of two or more words gives the upper-cased first letters of the first two. */
  lemma InitialsOfFullName(first: string, second: string, rest: string)
    requires first != "" && second != "" && ' ' !in first && ' ' !in second
    ensures GetInitials(first + " " + second) == [UpperChar(first[0]), UpperChar(second[0])]
    ensures GetInitials(first + " " + second + " " + rest) == [UpperChar(first[0]), UpperChar(second[0])]
  {
    SplitSpaceOfJoined(first, second);
    assert SplitSpace(second) == [second] by {
      FirstWordWithoutSpace(second);
    }
    assert first + " " + second + " " + rest == first + " " + (second + " " + rest);
    SplitSpaceOfJoined(first, second + " " + rest);
    SplitSpaceOfJoined(second, rest);
  }

  /** A text without a space is its own first word. */
  lemma {:induction false} FirstWordWithoutSpace(s: string)
    requires ' ' !in s
    ensures FirstWord(s) == s
  {
    if s != [] {
      assert ' ' !in s[1..];
      FirstWordWithoutSpace(s[1..]);
    }
  }

  /** A single word gives only its upper-cased first letter. */
  lemma InitialsOfOneWord(word: string)
    requires word != "" && ' ' !in word
    ensures GetInitials(word) == [UpperChar(word[0])]
  {
    FirstWordWithoutSpace(word);
  }

  /** `Math.floor(x / k)` for a positive divisor: Dafny's division on integers already rounds down. */
  function FloorDiv(x: int, k: int): (q: int)
    requires k > 0
    ensures q * k <= x < (q + 1) * k
  {
    x / k
  }

  /**
   * `formatRelativeTime`, with the clock `nowMs` and the timestamp `dateMs`
   * in milliseconds; `dateShort` is what `formatDateShort` gives for the date.
   */
  function FormatRelativeTime(dateMs: int, nowMs: int, dateShort: string): (r: string)
    ensures nowMs - dateMs < 60000 ==> r == "Just now"
    ensures nowMs - dateMs >= 604800000 ==> r == dateShort
  {
    var seconds := FloorDiv(nowMs - dateMs, 1000);
    if seconds < 60 then "Just now"
    else if seconds < 3600 then IntToString(FloorDiv(seconds, 60)) + " minutes ago"
    else if seconds < 86400 then IntToString(FloorDiv(seconds, 3600)) + " hours ago"
    else if seconds < 604800 then IntToString(FloorDiv(seconds, 86400)) + " days ago"
    else dateShort
  }

  /**
   * The bands: under a minute (the future included) is "Just now"; the count
   * shown is whole minutes (1–59), hours (1–23) or days (1–6); a week or
   * more is the date.
   */
  lemma RelativeTimeBands(dateMs: int, nowMs: int, dateShort: string)
    ensures var s := (nowMs - dateMs) / 1000; var r := FormatRelativeTime(dateMs, nowMs, dateShort);
      && (nowMs - dateMs < 60000 ==> r == "Just now")
      && (60000 <= nowMs - dateMs < 3600000 ==> 1 <= s / 60 <= 59 && r == NatToString(s / 60) + " minutes ago")
      && (3600000 <= nowMs - dateMs < 86400000 ==> 1 <= s / 3600 <= 23 && r == NatToString(s / 3600) + " hours ago")
      && (86400000 <= nowMs - dateMs < 604800000 ==> 1 <= s / 86400 <= 6 && r == NatToString(s / 86400) + " days ago")
      && (nowMs - dateMs >= 604800000 ==> r == dateShort)
  {
    var d := nowMs - dateMs;
    var s := d / 1000;
    assert d < 60000 <==> s < 60;
    assert d < 3600000 <==> s < 3600;
    assert d < 86400000 <==> s < 86400;
    assert d < 604800000 <==> s < 604800;
  }
}
