/** Display formatting of titles, links and durations (src/utils/format.ts). */
module Format {
  import opened Text

  /**
   * Shortens `text` to `maxLength` characters ending in `ellipsis`. The cut is a
   * JavaScript `slice(0, maxLength - |ellipsis|)`, so a budget smaller than the
   * ellipsis counts from the end of the text instead (see TruncateNegativeBudget).
   */
  function TruncateWithEllipsis(text: string, maxLength: int, ellipsis: string := "..."): (r: string)
    ensures |text| <= maxLength ==> r == text
    ensures |text| > maxLength ==> EndsWith(r, ellipsis) && StartsWith(text, r[..|r| - |ellipsis|])
    ensures |text| > maxLength && maxLength >= |ellipsis| ==> |r| == maxLength
  {
    if |text| <= maxLength then text
    else
      var kept := SlicePrefix(text, maxLength - |ellipsis|);
      assert (kept + ellipsis)[..|kept|] == kept;
      kept + ellipsis
  }

  /** The unit tests' cases: unchanged when short enough, "He..." and "Hell!" otherwise. */
  lemma TruncateExamples()
    ensures TruncateWithEllipsis("Hello", 10) == "Hello"
    ensures TruncateWithEllipsis("Hello", 5) == "Hello"
    ensures TruncateWithEllipsis("Hello World", 5) == "He..."
    ensures TruncateWithEllipsis("Hello World", 5, "!") == "Hell!"
  {
    assert "Hello World"[..2] == "He";
    assert "Hello World"[..4] == "Hell";
  }

  /**
   * With a budget below the ellipsis length the result keeps all but
   * `|ellipsis| - maxLength` characters of the text and is LONGER than `maxLength`.
   */
  lemma TruncateNegativeBudget()
    ensures TruncateWithEllipsis("Hello World", 2) == "Hello Worl..."
  {
    assert "Hello World"[..10] == "Hello Worl";
  }

  /** The link label: every '[' and ']' replaced by the full-width '［' and '］'. */
  function EscapeBrackets(text: string): (r: string)
    ensures |r| == |text|
    ensures forall i :: 0 <= i < |text| ==>
      r[i] == (if text[i] == '[' then '［' else if text[i] == ']' then '］' else text[i])
    ensures forall i :: 0 <= i < |r| ==> r[i] != '[' && r[i] != ']'
  {
    ReplaceAllChar(ReplaceAllChar(text, '[', '［'), ']', '］')
  }

  /**
   * A Markdown link `[label](<url>)`; the label has no ASCII brackets, so the first
   * ']' of the result is the one that closes it.
   */
  function Hyperlink(text: string, url: string): (r: string)
    ensures |r| == |text| + |url| + 6
    ensures r[0] == '[' && r[|text| + 1..|text| + 4] == "](<" && r[|r| - 2..] == ">)"
    ensures r[1..|text| + 1] == EscapeBrackets(text) && r[|text| + 4..|r| - 2] == url
    ensures forall i :: 0 <= i < |text| + 1 ==> r[i] != ']'
  {
    "[" + EscapeBrackets(text) + "](<" + url + ">)"
  }

  /** The unit tests' cases, for any url: a plain label, and a label whose brackets are replaced. */
  lemma HyperlinkPlain(url: string)
    ensures Hyperlink("Link", url) == "[Link](<" + url + ">)"
  {
    ReplaceAllCharAbsent("Link", '[', '［');
    ReplaceAllCharAbsent("Link", ']', '］');
  }

  lemma SameChars(a: string, b: string)
    requires |a| == |b| && forall i :: 0 <= i < |a| ==> a[i] == b[i]
    ensures a == b
  {
  }

  lemma HyperlinkBrackets(url: string)
    ensures Hyperlink("[Link]", url) == "[［Link］](<" + url + ">)"
  {
    EscapeLinkLabel();
    assert "[" + "［Link］" + "](<" == "[［Link］](<";
  }

  lemma EscapeLinkLabel()
    ensures EscapeBrackets("[Link]") == "［Link］"
  {
    var e := EscapeBrackets("[Link]");
    var want := "［Link］";
    assert e[0] == want[0] && e[1] == want[1] && e[2] == want[2];
    assert e[3] == want[3] && e[4] == want[4] && e[5] == want[5];
    SameChars(e, want);
  }

  /**
   * `MM:SS` below one hour and `H:MM:SS` from one hour on; sub-second milliseconds
   * are dropped. The minutes and seconds fields are always two digits.
   */
  function MsToTime(ms: nat): (r: string)
    ensures |r| >= 5 && AllDigits(r[|r| - 2..]) && AllDigits(r[|r| - 5..|r| - 3])
    ensures r[|r| - 3] == ':'
    ensures DecimalValue(r[|r| - 2..]) == (ms / 1000) % 60
    ensures DecimalValue(r[|r| - 5..|r| - 3]) == (ms / 1000) % 3600 / 60
    ensures |r| == 5 <==> ms < 3600000
    ensures ms >= 3600000 ==> r[|r| - 6] == ':' && AllDigits(r[..|r| - 6])
    ensures ms >= 3600000 ==> DecimalValue(r[..|r| - 6]) == ms / 1000 / 3600
  {
    var s := ms / 1000;
    var h := s / 3600;
    var m := s % 3600 / 60;
    var sec := s % 60;
    var tail := Pad2(m) + ":" + Pad2(sec);
    ClockTail(Pad2(m), Pad2(sec));
    if h > 0 then
      var hs := NatToString(h);
      DecimalValueOfNatToString(h);
      HoursInFront(hs, tail);
      hs + ":" + tail
    else
      tail
  }

  /** "mm:ss" has the minutes before the colon and the seconds after it. */
  lemma ClockTail(mm: string, ss: string)
    requires |mm| == 2 && |ss| == 2
    ensures var t := mm + ":" + ss; |t| == 5 && t[2] == ':' && t[..2] == mm && t[3..] == ss
  {
  }

  /** Putting "h:" in front keeps the last five characters as they were. */
  lemma HoursInFront(hs: string, tail: string)
    requires |tail| == 5
    ensures var r := hs + ":" + tail;
      r[|r| - 2..] == tail[3..] && r[|r| - 5..|r| - 3] == tail[..2] && r[|r| - 3] == tail[2]
      && r[|r| - 6] == ':' && r[..|r| - 6] == hs
  {
    var r := hs + ":" + tail;
    assert r[|r| - 5..] == tail;
  }

  /** The unit tests' cases. */
  lemma MsToTimeZero()
    ensures MsToTime(0) == "00:00"
  {
    assert Pad2(0) == "00";
  }

  lemma MsToTimeMinutes()
    ensures MsToTime(65000) == "01:05"
  {
    assert 65000 / 1000 == 65 && 65 / 3600 == 0 && 65 % 3600 / 60 == 1 && 65 % 60 == 5;
    assert Pad2(1) == "01" && Pad2(5) == "05";
    assert MsToTime(65000) == Pad2(1) + ":" + Pad2(5);
  }

  lemma MsToTimeHours()
    ensures MsToTime(3665000) == "1:01:05"
  {
    assert 3665000 / 1000 == 3665 && 3665 / 3600 == 1 && 3665 % 3600 / 60 == 1 && 3665 % 60 == 5;
    assert Pad2(1) == "01" && Pad2(5) == "05" && NatToString(1) == "1";
    assert MsToTime(3665000) == NatToString(1) + ":" + (Pad2(1) + ":" + Pad2(5));
  }
}
