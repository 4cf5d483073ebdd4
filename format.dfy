/** The string formatters of src/utils/format.ts. Case mapping is ASCII only;
    `formatRelativeTime` takes the elapsed time in whole seconds instead of
    reading the clock. */
module Format {
  import opened Seqs
  import opened Text

  // ---------------------------------------------------------------------------
  // Reading time

  const LessThanOneMinute := "Menos de 1 min"

  /** `formatReadingTime(minutes)` for whole minutes: under one minute a fixed
      label, otherwise the count followed by the singular or plural unit. */
  function FormatReadingTime(minutes: int): (r: string)
    ensures minutes < 1 ==> r == LessThanOneMinute
    ensures minutes >= 1 ==> r == NatToString(minutes) + (if minutes == 1 then " min" else " mins")
  {
    if minutes < 1 then LessThanOneMinute
    else if minutes == 1 then "1 min"
    else NatToString(minutes) + " mins"
  }

  predicate IsDigit(c: char) { '0' <= c <= '9' }

  /** If a digit string followed by text not starting with a digit equals another
      digit string followed by anything, the first digit string is not shorter. */
  lemma DigitPrefixNotShorter(a: string, x: string, b: string, y: string)
    requires forall i :: 0 <= i < |b| ==> IsDigit(b[i])
    requires x != [] && !IsDigit(x[0]) && a + x == b + y
    ensures |b| <= |a|
  {
    assert !IsDigit((a + x)[|a|]);
  }

  /** A decimal rendering followed by text that does not start with a digit can be
      split back into the two. */
  lemma NumberPrefixUnique(m: nat, n: nat, x: string, y: string)
    requires x != [] && !IsDigit(x[0]) && y != [] && !IsDigit(y[0])
    requires NatToString(m) + x == NatToString(n) + y
    ensures m == n && x == y
  {
    var a, b := NatToString(m), NatToString(n);
    DigitPrefixNotShorter(a, x, b, y);
    DigitPrefixNotShorter(b, y, a, x);
    assert a == (a + x)[..|a|] == (b + y)[..|b|] == b;
    assert x == (a + x)[|a|..] == (b + y)[|b|..] == y;
    NatToStringInjective(m, n);
  }

  /** Distinct reading times of at least one minute get distinct labels. */
  lemma ReadingTimeLabelsDistinct(m: int, n: int)
    requires m >= 1 && n >= 1 && FormatReadingTime(m) == FormatReadingTime(n)
    ensures m == n
  {
    var x := if m == 1 then " min" else " mins";
    var y := if n == 1 then " min" else " mins";
    NumberPrefixUnique(m, n, x, y);
  }

  // ---------------------------------------------------------------------------
  // Relative time

  const Minute: int := 60
  const Hour: int := 3600
  const Day: int := 86400

  /** The unit and count `formatRelativeTime` picks. */
  datatype RelativeBucket =
    | JustNow
    | MinutesAgo(n: nat)
    | HoursAgo(n: nat)
    | DaysAgo(n: nat)
    | WeeksAgo(n: nat)
    | MonthsAgo(n: nat)
    | YearsAgo(n: nat)

  /** The nested floor divisions of `formatRelativeTime` are divisions of the
      elapsed seconds by the size of the unit. */
  lemma UnitDivisions(elapsed: int)
    requires elapsed >= 0
    ensures (elapsed / 60) / 60 == elapsed / Hour
    ensures (elapsed / Hour) / 24 == elapsed / Day
    ensures (elapsed / Day) / 7 == elapsed / (7 * Day)
    ensures (elapsed / Day) / 30 == elapsed / (30 * Day)
    ensures (elapsed / Day) / 365 == elapsed / (365 * Day)
  {
  }

  /** `formatRelativeTime` as written: each unit is the floor of the previous one
      divided by its size, and a unit is used when its count is below the next
      threshold (60 minutes, 24 hours, 7 days, 4 weeks, 12 months). */
  function RelativeBucketOf(elapsed: int): (r: RelativeBucket)
    ensures elapsed < Minute <==> r == JustNow
    ensures Minute <= elapsed < Hour ==> r == MinutesAgo(elapsed / Minute)
    ensures Hour <= elapsed < Day ==> r == HoursAgo(elapsed / Hour)
    ensures Day <= elapsed < 7 * Day ==> r == DaysAgo(elapsed / Day)
    ensures 7 * Day <= elapsed < 28 * Day ==> r == WeeksAgo(elapsed / (7 * Day))
    ensures 28 * Day <= elapsed < 360 * Day ==> r == MonthsAgo(elapsed / (30 * Day))
    ensures 360 * Day <= elapsed ==> r == YearsAgo(elapsed / (365 * Day))
  {
    if elapsed < 60 then JustNow
    else
      var minutes := elapsed / 60;
      if minutes < 60 then MinutesAgo(minutes)
      else
        var hours := minutes / 60;
        UnitDivisions(elapsed);
        if hours < 24 then HoursAgo(hours)
        else
          var days := hours / 24;
          if days < 7 then DaysAgo(days)
          else
            var weeks := days / 7;
            if weeks < 4 then WeeksAgo(weeks)
            else
              var months := days / 30;
              if months < 12 then MonthsAgo(months)
              else
                YearsAgo(days / 365)
  }

  /** The label for a bucket. */
  function RenderBucket(b: RelativeBucket): string {
    match b
    case JustNow => "Agora mesmo"
    case MinutesAgo(n) => NatToString(n) + " min atrás"
    case HoursAgo(n) => NatToString(n) + "h atrás"
    case DaysAgo(n) => NatToString(n) + " dias atrás"
    case WeeksAgo(n) => NatToString(n) + " semanas atrás"
    case MonthsAgo(n) => NatToString(n) + " meses atrás"
    case YearsAgo(n) => NatToString(n) + " anos atrás"
  }

  /** `formatRelativeTime` for `elapsed` seconds: each range of the ladder gets
      its count of whole units and that unit's label. */
  function FormatRelativeTime(elapsed: int): (r: string)
    ensures elapsed < Minute ==> r == "Agora mesmo"
    ensures Minute <= elapsed < Hour ==> r == NatToString(elapsed / Minute) + " min atrás"
    ensures Hour <= elapsed < Day ==> r == NatToString(elapsed / Hour) + "h atrás"
    ensures Day <= elapsed < 7 * Day ==> r == NatToString(elapsed / Day) + " dias atrás"
    ensures 7 * Day <= elapsed < 28 * Day ==> r == NatToString(elapsed / (7 * Day)) + " semanas atrás"
    ensures 28 * Day <= elapsed < 360 * Day ==> r == NatToString(elapsed / (30 * Day)) + " meses atrás"
    ensures 360 * Day <= elapsed ==> r == NatToString(elapsed / (365 * Day)) + " anos atrás"
  {
    RenderBucket(RelativeBucketOf(elapsed))
  }

  function Suffix(b: RelativeBucket): string
    requires !b.JustNow?
  {
    match b
    case MinutesAgo(_) => " min atrás"
    case HoursAgo(_) => "h atrás"
    case DaysAgo(_) => " dias atrás"
    case WeeksAgo(_) => " semanas atrás"
    case MonthsAgo(_) => " meses atrás"
    case YearsAgo(_) => " anos atrás"
  }

  /** Only the "just now" label does not start with a digit. */
  lemma LabelStartsWithDigit(b: RelativeBucket)
    ensures IsDigit(RenderBucket(b)[0]) <==> !b.JustNow?
  {
    if !b.JustNow? {
      assert RenderBucket(b)[0] == NatToString(b.n)[0];
    }
  }

  /** A label starts with `0` exactly when it counts zero units. */
  lemma LabelZeroIff(b: RelativeBucket)
    ensures RenderBucket(b)[0] == '0' <==> !b.JustNow? && b.n == 0
  {
    if !b.JustNow? {
      LeadingZeroIff(b.n);
      assert RenderBucket(b)[0] == NatToString(b.n)[0];
    }
  }

  /** Different buckets get different labels, so a label names its unit and
      count unambiguously. */
  lemma RenderBucketInjective(b1: RelativeBucket, b2: RelativeBucket)
    requires RenderBucket(b1) == RenderBucket(b2)
    ensures b1 == b2
  {
    LabelStartsWithDigit(b1);
    LabelStartsWithDigit(b2);
    if !b1.JustNow? && !b2.JustNow? {
      assert RenderBucket(b1) == NatToString(b1.n) + Suffix(b1);
      assert RenderBucket(b2) == NatToString(b2.n) + Suffix(b2);
      NumberPrefixUnique(b1.n, b2.n, Suffix(b1), Suffix(b2));
    }
  }

  /** The count shown with a bucket. */
  function Count(b: RelativeBucket): nat {
    if b.JustNow? then 0 else b.n
  }

  /** Between 28 and 29 days the weeks test fails and the month count is zero. */
  lemma ZeroMonthsAsWritten(elapsed: int)
    requires 28 * Day <= elapsed < 30 * Day
    ensures RelativeBucketOf(elapsed) == MonthsAgo(0)
    ensures FormatRelativeTime(elapsed) == "0 meses atrás"
  {
  }

  /** Between 360 and 364 days the months test fails and the year count is zero. */
  lemma ZeroYearsAsWritten(elapsed: int)
    requires 360 * Day <= elapsed < 365 * Day
    ensures RelativeBucketOf(elapsed) == YearsAgo(0)
    ensures FormatRelativeTime(elapsed) == "0 anos atrás"
  {
  }

  /** The evidently intended buckets: weeks until a month has passed and months
      until a year has passed. */
  function CorrectedBucketOf(elapsed: int): (r: RelativeBucket)
    ensures elapsed < Minute <==> r == JustNow
    ensures elapsed >= Minute ==> Count(r) >= 1
    ensures !(28 * Day <= elapsed < 30 * Day) && !(360 * Day <= elapsed < 365 * Day) ==>
      r == RelativeBucketOf(elapsed)
  {
    if elapsed < 60 then JustNow
    else
      var minutes := elapsed / 60;
      if minutes < 60 then MinutesAgo(minutes)
      else
        var hours := minutes / 60;
        UnitDivisions(elapsed);
        if hours < 24 then HoursAgo(hours)
        else
          var days := hours / 24;
          if days < 7 then DaysAgo(days)
          else if days < 30 then WeeksAgo(days / 7)
          else if days < 365 then MonthsAgo(days / 30)
          else YearsAgo(days / 365)
  }

  function CorrectedFormatRelativeTime(elapsed: int): (r: string)
    ensures elapsed < Minute <==> r == "Agora mesmo"
    ensures r != [] && r[0] != '0'
    ensures !(28 * Day <= elapsed < 30 * Day) && !(360 * Day <= elapsed < 365 * Day) ==>
      r == FormatRelativeTime(elapsed)
  {
    LabelZeroIff(CorrectedBucketOf(elapsed));
    RenderBucket(CorrectedBucketOf(elapsed))
  }

  /** As written, a label reads zero units exactly in the two gaps of the
      ladder: 28 to 29 days and 360 to 364 days. */
  lemma ZeroLabelIff(elapsed: int)
    ensures FormatRelativeTime(elapsed)[0] == '0' <==>
      28 * Day <= elapsed < 30 * Day || 360 * Day <= elapsed < 365 * Day
  {
    LabelZeroIff(RelativeBucketOf(elapsed));
  }

  // ---------------------------------------------------------------------------
  // Truncation

  const Ellipsis := "..."

  /** `piece` is what trimming leaves of `whole`: a contiguous part with only white
      space around it and none at its own ends. */
  predicate TrimmedPiece(piece: string, whole: string) {
    (exists k :: 0 <= k <= |whole| && TrimmedAt(whole, piece, k))
    && (piece != [] ==> !IsSpace(piece[0]) && !IsSpace(piece[|piece| - 1]))
  }

  /** `truncateText(text, maxLength)`: text that fits is returned as it is;
      otherwise the first `maxLength` characters (all but the last `-maxLength`
      when negative, as `slice` counts), trimmed, followed by an ellipsis. */
  function TruncateText(text: string, maxLength: int): (r: string)
    ensures |text| <= maxLength ==> r == text
    ensures |text| > maxLength ==>
      |r| >= 3 && r[|r| - 3..] == Ellipsis && TrimmedPiece(r[..|r| - 3], text[..SliceIndex(maxLength, |text|)])
    ensures |text| > maxLength >= 0 ==> |r| <= maxLength + 3
  {
    if |text| <= maxLength then text
    else
      var head := JsSlice(text, 0, maxLength);
      SliceFromStart(text, maxLength);
      var piece := Trim(head);
      var r := piece + Ellipsis;
      assert r[..|r| - 3] == piece && r[|r| - 3..] == Ellipsis;
      r
  }

  /** Text without white space is cut at exactly `maxLength` characters. */
  lemma TruncateWord(text: string, maxLength: int)
    requires NoSpace(text) && 0 <= maxLength < |text|
    ensures TruncateText(text, maxLength) == text[..maxLength] + Ellipsis
  {
    var head := JsSlice(text, 0, maxLength);
    SliceFromStart(text, maxLength);
    assert head == text[..maxLength];
    assert NoSpace(head);
    TrimNoSpace(head);
    assert TruncateText(text, maxLength) == Trim(head) + Ellipsis;
  }

  // ---------------------------------------------------------------------------
  // Capitalisation

  /** Length of the run of non-white-space characters `s` starts with. */
  function RunLength(s: string): (n: nat)
    ensures n <= |s| && NoSpace(s[..n])
    ensures n < |s| ==> IsSpace(s[n])
  {
    if s == [] || IsSpace(s[0]) then 0
    else
      var m := RunLength(s[1..]);
      assert s[..m + 1] == [s[0]] + s[1..][..m];
      m + 1
  }

  /** `capitalizeWords(str)`: each match of `\w\S*` (a word character and the run of
      non-white-space after it) has its first character upper-cased and the rest
      lower-cased; the characters between matches are kept. */
  function CapitalizeWords(s: string): (r: string)
    ensures |r| == |s|
    decreases |s|
  {
    if s == [] then []
    else if IsWordChar(s[0]) then
      var n := RunLength(s);
      [UpperChar(s[0])] + Lower(s[1..n]) + CapitalizeWords(s[n..])
    else [s[0]] + CapitalizeWords(s[1..])
  }

  /** The same replacement read one character at a time; `inMatch` says whether the
      previous character belongs to a match. */
  function CapStream(s: string, inMatch: bool): (r: string)
    ensures |r| == |s|
  {
    if s == [] then []
    else if inMatch && !IsSpace(s[0]) then [LowerChar(s[0])] + CapStream(s[1..], true)
    else if IsWordChar(s[0]) then [UpperChar(s[0])] + CapStream(s[1..], true)
    else [s[0]] + CapStream(s[1..], false)
  }

  /** The stream keeps white space and changes nothing but letter case. */
  lemma {:induction false} CapStreamCaseOnly(s: string, inMatch: bool)
    ensures forall i :: 0 <= i < |s| && IsSpace(s[i]) ==> CapStream(s, inMatch)[i] == s[i]
    ensures forall i :: 0 <= i < |s| ==>
      CapStream(s, inMatch)[i] in {s[i], LowerChar(s[i]), UpperChar(s[i])}
    decreases |s|
  {
    if s != [] {
      var next := (inMatch && !IsSpace(s[0])) || IsWordChar(s[0]);
      var r, rest := CapStream(s, inMatch), CapStream(s[1..], next);
      assert r[1..] == rest;
      CapStreamCaseOnly(s[1..], next);
      forall i | 0 <= i < |s|
        ensures IsSpace(s[i]) ==> r[i] == s[i]
        ensures r[i] in {s[i], LowerChar(s[i]), UpperChar(s[i])}
      {
        if i > 0 {
          assert r[i] == rest[i - 1] && s[i] == s[1..][i - 1];
        }
      }
    }
  }

  /** Inside a match, the stream lower-cases up to the next white space. */
  lemma {:induction false} StreamRun(t: string, m: nat)
    requires m <= |t| && NoSpace(t[..m]) && (m < |t| ==> IsSpace(t[m]))
    ensures CapStream(t, true) == Lower(t[..m]) + CapStream(t[m..], false)
    decreases m
  {
    if m == 0 {
      assert t[m..] == t;
    } else {
      var u, w := t[1..], t[..m];
      assert w[0] == t[0] && w[1..] == u[..m - 1] && u[m - 1..] == t[m..];
      assert NoSpace(u[..m - 1]);
      StreamRun(u, m - 1);
      var head, rest := [LowerChar(t[0])], CapStream(t[m..], false);
      calc {
        CapStream(t, true);
        head + CapStream(u, true);
        head + (Lower(u[..m - 1]) + rest);
        (head + Lower(u[..m - 1])) + rest;
        { assert Lower(w) == head + Lower(w[1..]); }
        Lower(w) + rest;
      }
    }
  }

  /** A match read by the stream: its first character upper-cased, the rest of the
      run lower-cased, and the stream leaves the match at the white space after. */
  lemma StreamWord(s: string, n: nat)
    requires 0 < n <= |s| && IsWordChar(s[0]) && NoSpace(s[..n]) && (n < |s| ==> IsSpace(s[n]))
    ensures CapStream(s, false) == [UpperChar(s[0])] + Lower(s[1..n]) + CapStream(s[n..], false)
  {
    var t := s[1..];
    assert t[..n - 1] == s[1..n];
    assert t[n - 1..] == s[n..];
    assert NoSpace(t[..n - 1]);
    StreamRun(t, n - 1);
  }

  /** The match-by-match replacement and the character stream agree. */
  lemma {:induction false} CapitalizeIsStream(s: string)
    ensures CapitalizeWords(s) == CapStream(s, false)
    decreases |s|
  {
    if s != [] {
      if IsWordChar(s[0]) {
        var n := RunLength(s);
        StreamWord(s, n);
        CapitalizeIsStream(s[n..]);
      } else {
        CapitalizeIsStream(s[1..]);
      }
    }
  }

  /** A second pass of the stream changes nothing. */
  lemma {:induction false} CapStreamIdempotent(s: string, inMatch: bool)
    ensures CapStream(CapStream(s, inMatch), inMatch) == CapStream(s, inMatch)
    decreases |s|
  {
    if s != [] {
      var r := CapStream(s, inMatch);
      var next := (inMatch && !IsSpace(s[0])) || IsWordChar(s[0]);
      assert r[1..] == CapStream(s[1..], next);
      CapStreamIdempotent(s[1..], next);
    }
  }

  /** Capitalising words twice is capitalising them once. */
  lemma CapitalizeIdempotent(s: string)
    ensures CapitalizeWords(CapitalizeWords(s)) == CapitalizeWords(s)
  {
    CapitalizeIsStream(s);
    CapitalizeIsStream(CapitalizeWords(s));
    CapStreamIdempotent(s, false);
  }

  /** Only letter case changes: white space stays where it was, and every other
      character is itself, its upper case or its lower case. */
  lemma CapitalizeChangesCaseOnly(s: string)
    ensures |CapitalizeWords(s)| == |s|
    ensures forall i :: 0 <= i < |s| && IsSpace(s[i]) ==> CapitalizeWords(s)[i] == s[i]
    ensures forall i :: 0 <= i < |s| ==>
      CapitalizeWords(s)[i] in {s[i], LowerChar(s[i]), UpperChar(s[i])}
  {
    CapitalizeIsStream(s);
    CapStreamCaseOnly(s, false);
  }

  // ---------------------------------------------------------------------------
  // Slugs

  /** Unicode combining diacritical marks, U+0300 to U+036F. */
  predicate IsCombiningMark(c: char) { '\U{300}' <= c <= '\U{36F}' }
  predicate NotMark(c: char) { !IsCombiningMark(c) }

  /** What `[a-z0-9\s-]` lets through. */
  predicate IsSlugSource(c: char) { IsLowerAlnum(c) || IsSpace(c) || c == '-' }

  predicate IsSlugChar(c: char) { IsLowerAlnum(c) || c == '-' }

  predicate SlugChars(s: string) { forall i :: 0 <= i < |s| ==> IsSlugChar(s[i]) }

  lemma SlugCharsNoSpace(s: string)
    requires SlugChars(s)
    ensures NoSpace(s)
  {
    forall i | 0 <= i < |s| ensures !IsSpace(s[i]) {
      assert IsSlugChar(s[i]);
    }
  }

  predicate NoDoubleHyphen(s: string) {
    forall i :: 0 <= i < |s| - 1 ==> !(s[i] == '-' && s[i + 1] == '-')
  }

  /** `replace(/\s+/g, '-')`: each run of white space becomes one hyphen;
      `inRun` says whether the previous character was white space. */
  function HyphenateSpaces(s: string, inRun: bool): (r: string)
    ensures NoSpace(r)
    ensures (forall i :: 0 <= i < |s| ==> IsSlugSource(s[i])) ==> SlugChars(r)
  {
    if s == [] then []
    else if IsSpace(s[0]) then (if inRun then [] else "-") + HyphenateSpaces(s[1..], true)
    else [s[0]] + HyphenateSpaces(s[1..], false)
  }

  /** `replace(/-+/g, '-')`: each run of hyphens becomes one; `afterHyphen` says
      whether the previous character was a hyphen. */
  function SqueezeHyphens(s: string, afterHyphen: bool): (r: string)
    ensures NoDoubleHyphen(r)
    ensures afterHyphen && r != [] ==> r[0] != '-'
    ensures SlugChars(s) ==> SlugChars(r)
  {
    if s == [] then []
    else if s[0] == '-' then
      var rest := SqueezeHyphens(s[1..], true);
      if afterHyphen then rest else "-" + rest
    else [s[0]] + SqueezeHyphens(s[1..], false)
  }

  /** The characters that survive lower-casing, mark removal and the character
      class filter. */
  function SlugSource(title: string): (r: string)
    ensures forall i :: 0 <= i < |r| ==> IsSlugSource(r[i])
  {
    Filter(Filter(Lower(title), NotMark), IsSlugSource)
  }

  /** `generateSlug(title)` as written: the final `trim()` runs after white space
      has already become hyphens. Normalisation to NFD is the identity here. */
  function GenerateSlug(title: string): (r: string)
    ensures SlugChars(r)
    ensures NoDoubleHyphen(r)
  {
    var squeezed := SqueezeHyphens(HyphenateSpaces(SlugSource(title), false), false);
    SlugCharsNoSpace(squeezed);
    TrimNoSpace(squeezed);
    Trim(squeezed)
  }

  /** White-space replacement leaves text without white space alone. */
  lemma {:induction false} HyphenateNoSpace(s: string, inRun: bool)
    requires NoSpace(s)
    ensures HyphenateSpaces(s, inRun) == s
    decreases |s|
  {
    if s != [] {
      assert NoSpace(s[1..]);
      HyphenateNoSpace(s[1..], false);
    }
  }

  /** Hyphen squeezing leaves text without doubled hyphens alone. */
  lemma {:induction false} SqueezeNoDouble(s: string, afterHyphen: bool)
    requires NoDoubleHyphen(s) && (afterHyphen && s != [] ==> s[0] != '-')
    ensures SqueezeHyphens(s, afterHyphen) == s
    decreases |s|
  {
    if s != [] {
      assert NoDoubleHyphen(s[1..]);
      SqueezeNoDouble(s[1..], s[0] == '-');
    }
  }

  /** A slug is its own slug. */
  lemma GenerateSlugIdempotent(title: string)
    ensures GenerateSlug(GenerateSlug(title)) == GenerateSlug(title)
  {
    SlugFixedPoint(GenerateSlug(title));
  }

  /** Text made of slug characters without doubled hyphens is left unchanged. */
  lemma SlugFixedPoint(r: string)
    requires SlugChars(r) && NoDoubleHyphen(r)
    ensures GenerateSlug(r) == r
  {
    assert SlugSource(r) == r by {
      assert Lower(r) == r;
      FilterAll(r, NotMark);
      FilterAll(r, IsSlugSource);
    }
    SlugCharsNoSpace(r);
    assert SqueezeHyphens(HyphenateSpaces(r, false), false) == r by {
      HyphenateNoSpace(r, false);
      SqueezeNoDouble(r, false);
    }
    TrimNoSpace(r);
  }

  lemma {:induction false} HyphenateKeepsAlnum(s: string, inRun: bool)
    ensures Filter(HyphenateSpaces(s, inRun), IsLowerAlnum) == Filter(s, IsLowerAlnum)
    decreases |s|
  {
    if s != [] {
      var rest := HyphenateSpaces(s[1..], IsSpace(s[0]));
      HyphenateKeepsAlnum(s[1..], IsSpace(s[0]));
      FilterStep(s, 0, IsLowerAlnum);
      assert s[0..] == s;
      var lead: string := if !IsSpace(s[0]) then [s[0]] else if inRun then [] else "-";
      assert HyphenateSpaces(s, inRun) == lead + rest;
      FilterAppend(lead, rest, IsLowerAlnum);
      assert Filter(lead, IsLowerAlnum) == Keep(s[0], IsLowerAlnum);
    }
  }

  lemma {:induction false} SqueezeKeepsAlnum(s: string, afterHyphen: bool)
    ensures Filter(SqueezeHyphens(s, afterHyphen), IsLowerAlnum) == Filter(s, IsLowerAlnum)
    decreases |s|
  {
    if s != [] {
      var rest := SqueezeHyphens(s[1..], s[0] == '-');
      SqueezeKeepsAlnum(s[1..], s[0] == '-');
      FilterStep(s, 0, IsLowerAlnum);
      assert s[0..] == s;
      var lead: string := if s[0] != '-' then [s[0]] else if afterHyphen then [] else "-";
      assert SqueezeHyphens(s, afterHyphen) == lead + rest;
      FilterAppend(lead, rest, IsLowerAlnum);
      assert Filter(lead, IsLowerAlnum) == Keep(s[0], IsLowerAlnum);
    }
  }

  /** The slug keeps every lower-case letter and digit of the lower-cased title,
      in order, and adds none: only white space, hyphens and other characters are
      dropped or merged. */
  lemma GenerateSlugKeepsAlnum(title: string)
    ensures Filter(GenerateSlug(title), IsLowerAlnum) == Filter(Lower(title), IsLowerAlnum)
  {
    var low := Lower(title);
    var src := SlugSource(title);
    var h := HyphenateSpaces(src, false);
    var squeezed := SqueezeHyphens(h, false);
    SlugCharsNoSpace(squeezed);
    TrimNoSpace(squeezed);
    assert GenerateSlug(title) == squeezed;
    assert Filter(squeezed, IsLowerAlnum) == Filter(src, IsLowerAlnum) by {
      SqueezeKeepsAlnum(h, false);
      HyphenateKeepsAlnum(src, false);
    }
    assert Filter(src, IsLowerAlnum) == Filter(low, IsLowerAlnum) by {
      FilterFusion(Filter(low, NotMark), IsSlugSource, IsLowerAlnum, IsLowerAlnum);
      FilterFusion(low, NotMark, IsLowerAlnum, IsLowerAlnum);
    }
  }

  /** A title starting with white space gets a slug starting with a hyphen. */
  lemma LeadingSpaceGivesHyphen(t: string)
    ensures GenerateSlug(" " + t) != [] && GenerateSlug(" " + t)[0] == '-'
  {
    SlugSourceSpaceCons(t);
    var src := SlugSource(t);
    var h := HyphenateSpaces(src, true);
    assert HyphenateSpaces(" " + src, false) == "-" + h by {
      assert (" " + src)[1..] == src;
    }
    var sq := SqueezeHyphens(h, true);
    assert SqueezeHyphens("-" + h, false) == "-" + sq by {
      assert ("-" + h)[1..] == h;
    }
    assert GenerateSlug(" " + t) == Trim("-" + sq);
    assert SlugChars("-" + sq);
    SlugCharsNoSpace("-" + sq);
    TrimNoSpace("-" + sq);
  }

  lemma SlugSourceSpaceCons(t: string)
    ensures SlugSource(" " + t) == " " + SlugSource(t)
  {
    LowerAppend(" ", t);
    FilterAppend(Lower(" "), Lower(t), NotMark);
    FilterAppend(" ", Filter(Lower(t), NotMark), IsSlugSource);
  }

  lemma SlugSourceSpaceSnoc(t: string)
    ensures SlugSource(t + " ") == SlugSource(t) + " "
  {
    LowerAppend(t, " ");
    assert Lower(" ") == " ";
    FilterAppend(Lower(t), " ", NotMark);
    assert Filter(" ", NotMark) == " ";
    FilterAppend(Filter(Lower(t), NotMark), " ", IsSlugSource);
    assert Filter(" ", IsSlugSource) == " ";
  }

  /** The evidently intended slug: white space around the title is trimmed before
      the remaining white space becomes hyphens. */
  function CorrectedSlug(title: string): (r: string)
    ensures SlugChars(r)
    ensures NoDoubleHyphen(r)
  {
    var src := SlugSource(title);
    var trimmed := Trim(src);
    TrimKeeps(src, IsSlugSource);
    SqueezeHyphens(HyphenateSpaces(trimmed, false), false)
  }

  /** White space around the title does not change the corrected slug. */
  lemma CorrectedIgnoresSurroundingSpace(t: string)
    ensures CorrectedSlug(" " + t) == CorrectedSlug(t)
    ensures CorrectedSlug(t + " ") == CorrectedSlug(t)
  {
    SlugSourceSpaceCons(t);
    SlugSourceSpaceSnoc(t);
    TrimSpaceCons(' ', SlugSource(t));
    TrimSpaceSnoc(SlugSource(t), ' ');
  }
}
