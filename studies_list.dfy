/** `formatDate` of the studies list: a DICOM `YYYYMMDD` date shown as `DD/MM/YYYY`. */
module StudiesList {
  import opened Wrappers
  import opened Js

  const NOT_AVAILABLE: string := "N/A"

  /** `formatDate(dateStr)`; `None` stands for an undefined or null date. */
  function FormatDate(date: Option<string>): (r: string)
    ensures date.None? || date.value == "" ==> r == NOT_AVAILABLE
  {
    if date.None? || date.value == "" then NOT_AVAILABLE
    else
      var s := date.value;
      Substring(s, 6, 8) + "/" + Substring(s, 4, 6) + "/" + Substring(s, 0, 4)
  }

  /** Shows the three parts of a full date, reordered. */
  lemma FullDateLayout(s: string)
    requires |s| == 8
    ensures var r := FormatDate(Some(s));
      |r| == 10 && r[2] == '/' && r[5] == '/' &&
      r[..2] == s[6..8] && r[3..5] == s[4..6] && r[6..] == s[..4]
  {
  }

  /** From a displayed full date the stored date is recovered by reading the parts back. */
  function ParseDisplayed(r: string): (s: string)
    requires |r| == 10
    ensures |s| == 8
  {
    r[6..] + r[3..5] + r[..2]
  }

  lemma RoundTrip(s: string)
    requires |s| == 8
    ensures ParseDisplayed(FormatDate(Some(s))) == s
  {
    FullDateLayout(s);
    var r := FormatDate(Some(s));
    assert s == s[..4] + s[4..6] + s[6..8];
  }

  /** Short dates are clamped rather than rejected: a bare year shows as "//2023". */
  lemma YearOnly()
    ensures FormatDate(Some("2023")) == "//2023"
  {
    assert Substring("2023", 6, 8) == "";
    assert Substring("2023", 4, 6) == "";
    assert Substring("2023", 0, 4) == "2023";
  }

  /** Only the first eight characters are read. */
  lemma IgnoresTail(s: string, tail: string)
    requires |s| == 8
    ensures FormatDate(Some(s + tail)) == FormatDate(Some(s))
  {
    var t := s + tail;
    assert t[6..8] == s[6..8] && t[4..6] == s[4..6] && t[0..4] == s[0..4];
  }
}
