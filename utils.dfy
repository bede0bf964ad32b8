/**
 * The string, number and timing helpers of `src/lib/utils.ts`: reading time, relative time,
 * slugs, truncation, file-extension checks and `debounce`.
 */
module Utils {
  import opened Wrappers
  import opened Text
  import opened Timers

  // ---------------------------------------------------------------------------------------------
  // calculateReadingTime

  /** The reading speed the platform counts with, in words per minute. */
  const WordsPerMinute: nat := 200

  /** `calculateReadingTime`: the word count divided by the reading speed, rounded up to whole minutes. */
  function CalculateReadingTime(wordCount: int): (minutes: int)
    ensures WordsPerMinute * (minutes - 1) < wordCount <= WordsPerMinute * minutes
  {
    -((-wordCount) / WordsPerMinute)
  }

  /** No smaller number of minutes covers the words: the reading time is the least such bound. */
  lemma ReadingTimeIsLeast(wordCount: int, minutes: int)
    requires wordCount <= WordsPerMinute * minutes
    ensures CalculateReadingTime(wordCount) <= minutes
  {
  }

  // ---------------------------------------------------------------------------------------------
  // formatRelativeTime

  datatype TimeUnit = Minute | Hour | Day | Month | Year

  /** Length of a unit in seconds (a month counts 30 days, a year 365). */
  function UnitSeconds(u: TimeUnit): nat {
    match u
    case Minute => 60
    case Hour => 3600
    case Day => 86400
    case Month => 2592000
    case Year => 31536000
  }

  /** The next larger unit. */
  function Larger(u: TimeUnit): TimeUnit
    requires !u.Year?
  {
    match u
    case Minute => Hour
    case Hour => Day
    case Day => Month
    case Month => Year
  }

  /** Suffix written after the count. */
  function UnitSuffix(u: TimeUnit): string {
    match u
    case Minute => " min"
    case Hour => "h"
    case Day => "j"
    case Month => " mois"
    case Year => " ans"
  }

  /** `u` is the largest unit that fits into `diff` seconds. */
  predicate InBucket(diff: int, u: TimeUnit) {
    UnitSeconds(u) <= diff && (u.Year? || diff < UnitSeconds(Larger(u)))
  }

  const JustNowText: string := "à l'instant"

  /**
   * `formatRelativeTime` on the number of whole seconds elapsed: "à l'instant" below a minute
   * (negative differences included), otherwise the count of the largest unit that fits.
   */
  function FormatRelativeTime(diff: int): (text: string)
    ensures diff < 60 ==> text == JustNowText
    ensures forall u :: InBucket(diff, u) ==>
              text == "il y a " + IntToString(diff / UnitSeconds(u)) + UnitSuffix(u)
  {
    if diff < 60 then JustNowText
    else if diff < 3600 then "il y a " + IntToString(diff / 60) + " min"
    else if diff < 86400 then "il y a " + IntToString(diff / 3600) + "h"
    else if diff < 2592000 then "il y a " + IntToString(diff / 86400) + "j"
    else if diff < 31536000 then "il y a " + IntToString(diff / 2592000) + " mois"
    else "il y a " + IntToString(diff / 31536000) + " ans"
  }

  /**
   * From one minute on, exactly one unit applies and the text is never the "just now" text. The
   * count is at least 1 and stays below the number of such units in the next larger one: under 60
   * minutes, 24 hours and 30 days, and at most 12 months, since a year of 365 days is longer than
   * 12 months of 30 days.
   */
  lemma RelativeTimeBuckets(diff: int)
    requires diff >= 60
    ensures exists u :: InBucket(diff, u)
    ensures forall u, v :: InBucket(diff, u) && InBucket(diff, v) ==> u == v
    ensures InBucket(diff, Minute) ==> 1 <= diff / 60 < 60
    ensures InBucket(diff, Hour) ==> 1 <= diff / 3600 < 24
    ensures InBucket(diff, Day) ==> 1 <= diff / 86400 < 30
    ensures InBucket(diff, Month) ==> 1 <= diff / 2592000 <= 12
    ensures InBucket(diff, Year) ==> diff / 31536000 >= 1
    ensures FormatRelativeTime(diff) != JustNowText
  {
    var u;
    if diff < 3600 { u := Minute; }
    else if diff < 86400 { u := Hour; }
    else if diff < 2592000 { u := Day; }
    else if diff < 31536000 { u := Month; }
    else { u := Year; }
    assert InBucket(diff, u);
    BucketCount(diff, u);
    forall u, v | InBucket(diff, u) && InBucket(diff, v) ensures u == v {
      BucketUnique(diff, u, v);
    }
    assert FormatRelativeTime(diff)[0] == 'i';
  }

  lemma BucketUnique(diff: int, u: TimeUnit, v: TimeUnit)
    requires InBucket(diff, u) && InBucket(diff, v)
    ensures u == v
  {
  }

  /** The count of the unit that applies, against the size of the next larger unit. */
  lemma BucketCount(diff: int, u: TimeUnit)
    requires InBucket(diff, u)
    ensures diff / UnitSeconds(u) >= 1
    ensures u.Minute? ==> diff / 60 < 60
    ensures u.Hour? ==> diff / 3600 < 24
    ensures u.Day? ==> diff / 86400 < 30
    ensures u.Month? ==> diff / 2592000 <= 12
  {
    match u
    case Minute => assert diff / 60 < 60;
    case Hour => assert diff / 3600 < 24;
    case Day => assert diff / 86400 < 30;
    case Month => assert diff / 2592000 < 13;
    case Year =>
  }

  // ---------------------------------------------------------------------------------------------
  // generateSlug, after lower-casing, NFD decomposition and removal of combining accents

  /** The characters of a slug: `a`-`z`, `0`-`9` and `-`. */
  predicate IsSlugChar(c: char) {
    'a' <= c <= 'z' || '0' <= c <= '9' || c == '-'
  }

  predicate IsDash(c: char) {
    c == '-'
  }

  /** The characters the removal step of `generateSlug` leaves in place. */
  predicate Kept(c: char) {
    IsSlugChar(c) || IsSpace(c)
  }

  /** The removal step of `generateSlug`: every character outside `a-z`, `0-9`, whitespace and `-` deleted. */
  function RemoveDisallowed(s: string): (r: string)
    ensures |r| <= |s|
    ensures forall i :: 0 <= i < |r| ==> Kept(r[i]) && r[i] in s
    ensures (forall i :: 0 <= i < |s| ==> Kept(s[i])) ==> r == s
  {
    if s == [] then []
    else if Kept(s[0]) then [s[0]] + RemoveDisallowed(s[1..])
    else RemoveDisallowed(s[1..])
  }

  /**
   * A global replacement of the pattern `p+` by `c`: every maximal run of characters satisfying `p` replaced by the one
   * character `c`. When `c` itself satisfies `p`, no two neighbours of the result satisfy `p`.
   */
  function ReplaceRuns(s: string, p: char -> bool, c: char): (r: string)
    decreases |s|
    ensures r != [] <==> s != []
    ensures s != [] ==> r[0] == (if p(s[0]) then c else s[0])
    ensures forall i :: 0 <= i < |r| ==> r[i] == c || (!p(r[i]) && r[i] in s)
    ensures p(c) ==> forall i :: 0 <= i < |r| - 1 ==> !(p(r[i]) && p(r[i + 1]))
  {
    if s == [] then []
    else if p(s[0]) then
      var rest := DropRun(s, p);
      assert forall x :: x in rest ==> x in s;
      [c] + ReplaceRuns(rest, p, c)
    else
      [s[0]] + ReplaceRuns(s[1..], p, c)
  }

  /** A string made of slug characters in which no two dashes are adjacent. */
  predicate IsSlug(s: string) {
    (forall i :: 0 <= i < |s| ==> IsSlugChar(s[i]))
    && (forall i :: 0 <= i < |s| - 1 ==> !(s[i] == '-' && s[i + 1] == '-'))
  }

  /**
   * `generateSlug` from the point where the text is lower-cased and stripped of accents: disallowed
   * characters removed, ends trimmed, whitespace runs turned into a dash, dash runs collapsed.
   */
  function GenerateSlug(text: string): (slug: string)
    ensures IsSlug(slug)
    ensures NoSpace(slug)
  {
    SlugOfKept(RemoveDisallowed(text))
  }

  /** The steps of `GenerateSlug` after the removal, on text made of slug characters and whitespace. */
  function SlugOfKept(kept: string): (slug: string)
    requires forall i :: 0 <= i < |kept| ==> Kept(kept[i])
    ensures IsSlug(slug)
    ensures NoSpace(slug)
  {
    var trimmed := Trim(kept);
    TrimKeepsKept(kept);
    var dashed := ReplaceRuns(trimmed, IsSpace, '-');
    assert forall i :: 0 <= i < |dashed| ==> IsSlugChar(dashed[i]);
    ReplaceRuns(dashed, IsDash, '-')
  }

  lemma TrimKeepsKept(kept: string)
    requires forall i :: 0 <= i < |kept| ==> Kept(kept[i])
    ensures forall x :: x in Trim(kept) ==> Kept(x)
  {
    TrimIsSlice(kept);
    forall x | x in Trim(kept)
      ensures Kept(x)
    {
      var j :| 0 <= j < |Trim(kept)| && Trim(kept)[j] == x;
      assert x == kept[FirstNonSpace(kept, 0) + j];
    }
  }

  /** Collapsing runs leaves a string unchanged when its `p`-characters are isolated copies of `c`. */
  lemma {:induction false} ReplaceRunsUnchanged(s: string, p: char -> bool, c: char)
    requires forall i :: 0 <= i < |s| ==> p(s[i]) ==> s[i] == c
    requires forall i :: 0 <= i < |s| - 1 ==> !(p(s[i]) && p(s[i + 1]))
    ensures ReplaceRuns(s, p, c) == s
    decreases |s|
  {
    if s != [] {
      ReplaceRunsUnchanged(s[1..], p, c);
      if p(s[0]) {
        assert DropRun(s, p) == s[1..] by {
          assert s[1..] == [] || !p(s[1..][0]);
        }
      }
    }
  }

  /** Removal works character by character: it distributes over concatenation. */
  lemma {:induction false} RemoveDisallowedAppend(a: string, b: string)
    ensures RemoveDisallowed(a + b) == RemoveDisallowed(a) + RemoveDisallowed(b)
    decreases |a|
  {
    if a == [] {
      assert a + b == b;
    } else {
      assert (a + b)[0] == a[0];
      assert (a + b)[1..] == a[1..] + b;
      RemoveDisallowedAppend(a[1..], b);
    }
  }

  /** A single character stays exactly when it is a slug character or whitespace. */
  lemma RemoveDisallowedChar(c: char)
    ensures RemoveDisallowed([c]) == if Kept(c) then [c] else []
  {
    assert [c][1..] == [];
  }

  /**
   * An independent, left-to-right reading of run collapsing: the first character of each maximal
   * `p`-run is written as `c`, the rest of the run is skipped, and every other character is copied.
   * `inRun` says whether the character before `s` satisfied `p`.
   */
  function CollapseScan(s: string, p: char -> bool, c: char, inRun: bool): string {
    if s == [] then []
    else if p(s[0]) then (if inRun then [] else [c]) + CollapseScan(s[1..], p, c, true)
    else [s[0]] + CollapseScan(s[1..], p, c, false)
  }

  /** Inside a run the scan writes nothing until the run ends. */
  lemma {:induction false} ScanSkipsRun(s: string, p: char -> bool, c: char)
    ensures CollapseScan(s, p, c, true) == CollapseScan(DropRun(s, p), p, c, false)
  {
    if s != [] && p(s[0]) {
      ScanSkipsRun(s[1..], p, c);
    }
  }

  /** `ReplaceRuns` computes what the scan writes. */
  lemma {:induction false} ReplaceRunsIsScan(s: string, p: char -> bool, c: char)
    ensures ReplaceRuns(s, p, c) == CollapseScan(s, p, c, false)
    decreases |s|
  {
    if s != [] {
      if p(s[0]) {
        ScanSkipsRun(s[1..], p, c);
        assert DropRun(s, p) == DropRun(s[1..], p);
        ReplaceRunsIsScan(DropRun(s, p), p, c);
      } else {
        ReplaceRunsIsScan(s[1..], p, c);
      }
    }
  }

  /** `s` with every `c` deleted. */
  function Erase(s: string, c: char): string {
    if s == [] then [] else (if s[0] == c then [] else [s[0]]) + Erase(s[1..], c)
  }

  lemma {:induction false} EraseAppend(a: string, b: string, c: char)
    ensures Erase(a + b, c) == Erase(a, c) + Erase(b, c)
    decreases |a|
  {
    if a == [] {
      assert a + b == b;
    } else {
      assert (a + b)[1..] == a[1..] + b;
      EraseAppend(a[1..], b, c);
    }
  }

  /** The characters of `s` that neither satisfy `p` nor are `c`, in order. */
  function Others(s: string, p: char -> bool, c: char): string {
    if s == [] then [] else (if p(s[0]) || s[0] == c then [] else [s[0]]) + Others(s[1..], p, c)
  }

  lemma {:induction false} OthersAppend(a: string, b: string, p: char -> bool, c: char)
    ensures Others(a + b, p, c) == Others(a, p, c) + Others(b, p, c)
    decreases |a|
  {
    if a == [] {
      assert a + b == b;
    } else {
      assert (a + b)[1..] == a[1..] + b;
      OthersAppend(a[1..], b, p, c);
    }
  }

  lemma {:induction false} OthersOfRun(s: string, p: char -> bool, c: char)
    requires forall i :: 0 <= i < |s| ==> p(s[i])
    ensures Others(s, p, c) == []
    decreases |s|
  {
    if s != [] {
      OthersOfRun(s[1..], p, c);
    }
  }

  lemma {:induction false} EraseScan(s: string, p: char -> bool, c: char, inRun: bool)
    ensures Erase(CollapseScan(s, p, c, inRun), c) == Others(s, p, c)
    decreases |s|
  {
    if s != [] {
      var head: string := if p(s[0]) then (if inRun then [] else [c]) else [s[0]];
      var rest := CollapseScan(s[1..], p, c, p(s[0]));
      assert CollapseScan(s, p, c, inRun) == head + rest;
      EraseAppend(head, rest, c);
      assert head != [] ==> head[1..] == [];
      EraseScan(s[1..], p, c, p(s[0]));
    }
  }

  /**
   * Collapsing runs keeps every other character in order: deleting `c` from the result leaves
   * exactly the characters of `s` that neither satisfy `p` nor are `c`.
   */
  lemma ReplaceRunsKeepsOthers(s: string, p: char -> bool, c: char)
    ensures Erase(ReplaceRuns(s, p, c), c) == Others(s, p, c)
  {
    ReplaceRunsIsScan(s, p, c);
    EraseScan(s, p, c, false);
  }

  lemma {:induction false} ScanCountsRuns(s: string, p: char -> bool, c: char, inRun: bool)
    requires forall i :: 0 <= i < |s| ==> s[i] == c ==> p(s[i])
    ensures Occurrences(CollapseScan(s, p, c, inRun), c) == RunStarts(s, p, inRun)
    decreases |s|
  {
    if s != [] {
      var head: string := if p(s[0]) then (if inRun then [] else [c]) else [s[0]];
      var rest := CollapseScan(s[1..], p, c, p(s[0]));
      assert CollapseScan(s, p, c, inRun) == head + rest;
      OccurrencesAppend(head, rest, c);
      assert head != [] ==> head[1..] == [];
      ScanCountsRuns(s[1..], p, c, p(s[0]));
    }
  }

  /** When `c` occurs in `s` only inside runs, the result holds one `c` for each maximal run. */
  lemma ReplaceRunsCountsRuns(s: string, p: char -> bool, c: char)
    requires forall i :: 0 <= i < |s| ==> s[i] == c ==> p(s[i])
    ensures Occurrences(ReplaceRuns(s, p, c), c) == RunStarts(s, p, false)
  {
    ReplaceRunsIsScan(s, p, c);
    ScanCountsRuns(s, p, c, false);
  }

  /** Every character satisfying `p` replaced by `c`. */
  function Substitute(s: string, p: char -> bool, c: char): (r: string)
    ensures |r| == |s| && forall i :: 0 <= i < |s| ==> r[i] == if p(s[i]) then c else s[i]
  {
    seq(|s|, i requires 0 <= i < |s| => if p(s[i]) then c else s[i])
  }

  /** When no two neighbours satisfy `p`, every run is one character long and is replaced by `c`. */
  lemma ReplaceIsolated(s: string, p: char -> bool, c: char)
    requires forall i :: 0 <= i < |s| - 1 ==> !(p(s[i]) && p(s[i + 1]))
    ensures ReplaceRuns(s, p, c) == Substitute(s, p, c)
  {
    ReplaceRunsIsScan(s, p, c);
    ScanIsolated(s, p, c, false);
  }

  lemma {:induction false} ScanIsolated(s: string, p: char -> bool, c: char, inRun: bool)
    requires forall i :: 0 <= i < |s| - 1 ==> !(p(s[i]) && p(s[i + 1]))
    requires inRun ==> s == [] || !p(s[0])
    ensures CollapseScan(s, p, c, inRun) == Substitute(s, p, c)
    decreases |s|
  {
    if s != [] {
      assert forall i :: 0 <= i < |s| - 1 ==> s[1..][i] == s[i + 1];
      ScanIsolated(s[1..], p, c, p(s[0]));
      assert Substitute(s, p, c) == [if p(s[0]) then c else s[0]] + Substitute(s[1..], p, c);
    }
  }

  predicate IsLetterOrDigit(c: char) {
    'a' <= c <= 'z' || '0' <= c <= '9'
  }

  /** The lower-case ASCII letters and digits of `s`, in order. */
  function LettersAndDigits(s: string): string {
    if s == [] then [] else (if IsLetterOrDigit(s[0]) then [s[0]] else []) + LettersAndDigits(s[1..])
  }

  lemma {:induction false} OthersOfKept(text: string)
    ensures Others(RemoveDisallowed(text), IsSpace, '-') == LettersAndDigits(text)
    decreases |text|
  {
    if text != [] {
      OthersOfKept(text[1..]);
      if Kept(text[0]) {
        var rest := RemoveDisallowed(text[1..]);
        assert ([text[0]] + rest)[1..] == rest;
        assert IsLetterOrDigit(text[0]) <==> !(IsSpace(text[0]) || text[0] == '-');
      }
    }
  }

  lemma {:induction false} OthersOfDashes(s: string)
    ensures Others(s, IsDash, '-') == Erase(s, '-')
    decreases |s|
  {
    if s != [] {
      OthersOfDashes(s[1..]);
    }
  }

  /** Trimming removes whitespace only. */
  lemma OthersOfTrim(s: string, c: char)
    ensures Others(Trim(s), IsSpace, c) == Others(s, IsSpace, c)
  {
    TrimIsSlice(s);
    var k := FirstNonSpace(s, 0);
    var e := k + |Trim(s)|;
    assert s == s[..k] + Trim(s) + s[e..];
    assert forall i :: 0 <= i < |s[..k]| ==> IsSpace(s[..k][i]) by {
      forall i | 0 <= i < |s[..k]| ensures IsSpace(s[..k][i]) {
        assert s[..k][i] == s[i];
      }
    }
    assert forall i :: 0 <= i < |s[e..]| ==> IsSpace(s[e..][i]) by {
      forall i | 0 <= i < |s[e..]| ensures IsSpace(s[e..][i]) {
        assert s[e..][i] == s[e + i];
      }
    }
    OthersOfPadded(s[..k], Trim(s), s[e..], IsSpace, c);
  }

  lemma OthersOfPadded(pre: string, mid: string, post: string, p: char -> bool, c: char)
    requires forall i :: 0 <= i < |pre| ==> p(pre[i])
    requires forall i :: 0 <= i < |post| ==> p(post[i])
    ensures Others(pre + mid + post, p, c) == Others(mid, p, c)
  {
    OthersAppend(pre + mid, post, p, c);
    OthersAppend(pre, mid, p, c);
    OthersOfRun(pre, p, c);
    OthersOfRun(post, p, c);
  }

  /** Between its dashes, a slug spells out the letters and digits of the text, in order. */
  lemma SlugKeepsLettersAndDigits(text: string)
    ensures Erase(GenerateSlug(text), '-') == LettersAndDigits(text)
  {
    var kept := RemoveDisallowed(text);
    var trimmed := Trim(kept);
    var dashed := ReplaceRuns(trimmed, IsSpace, '-');
    assert GenerateSlug(text) == ReplaceRuns(dashed, IsDash, '-');
    ReplaceRunsKeepsOthers(dashed, IsDash, '-');
    OthersOfDashes(dashed);
    ReplaceRunsKeepsOthers(trimmed, IsSpace, '-');
    OthersOfTrim(kept, '-');
    OthersOfKept(text);
  }

  /** A slug is a fixed point of `GenerateSlug`. */
  lemma SlugUnchanged(s: string)
    requires IsSlug(s)
    ensures GenerateSlug(s) == s
  {
    assert forall i :: 0 <= i < |s| ==> Kept(s[i]);
    assert RemoveDisallowed(s) == s;
    assert NoSpace(s);
    assert Trimmed(s);
    TrimOfTrimmed(s);
    assert Trim(RemoveDisallowed(s)) == s;
    ReplaceRunsUnchanged(s, IsSpace, '-');
    assert ReplaceRuns(Trim(RemoveDisallowed(s)), IsSpace, '-') == s;
    ReplaceRunsUnchanged(s, IsDash, '-');
  }

  /** `generateSlug` is idempotent. */
  lemma SlugIdempotent(text: string)
    ensures GenerateSlug(GenerateSlug(text)) == GenerateSlug(text)
  {
    SlugUnchanged(GenerateSlug(text));
  }

  /**
   * As written, an apostrophe is one of the removed characters, so the words on either side of it
   * are joined instead of separated.
   */
  lemma ApostropheJoinsWords(a: string, b: string)
    ensures GenerateSlug(a + "'" + b) == GenerateSlug(a + b)
  {
    RemoveDisallowedChar('\'');
    RemovedInBetween(a, "'", b);
    SameKeptSameSlug(a + "'" + b, a + b);
  }

  lemma RemovedInBetween(a: string, q: string, b: string)
    requires RemoveDisallowed(q) == []
    ensures RemoveDisallowed(a + q + b) == RemoveDisallowed(a + b)
  {
    RemoveDisallowedAppend(a + q, b);
    RemoveDisallowedAppend(a, q);
    RemoveDisallowedAppend(a, b);
    assert RemoveDisallowed(a) + [] == RemoveDisallowed(a);
  }

  lemma SameKeptSameSlug(x: string, y: string)
    requires RemoveDisallowed(x) == RemoveDisallowed(y)
    ensures GenerateSlug(x) == GenerateSlug(y)
  {
  }

  /**
   * Two words of letters and digits joined by an apostrophe give the two words run together
   * (`d'a` gives `da`), where the documentation of the source expects them separated by a dash.
   */
  lemma ApostropheDropped(a: string, b: string)
    requires a != [] && b != []
    requires forall i :: 0 <= i < |a| ==> IsLetterOrDigit(a[i])
    requires forall i :: 0 <= i < |b| ==> IsLetterOrDigit(b[i])
    ensures GenerateSlug(a + "'" + b) == a + b
    ensures GenerateSlug(a + "'" + b) != a + "-" + b
  {
    ApostropheJoinsWords(a, b);
    WordIsSlug(a + b);
    SlugUnchanged(a + b);
    assert (a + "-" + b)[|a|] == '-';
    assert (a + b)[|a|] == b[0];
  }

  lemma WordIsSlug(w: string)
    requires forall i :: 0 <= i < |w| ==> IsLetterOrDigit(w[i])
    ensures IsSlug(w) && NoSpace(w)
  {
  }

  /** Every apostrophe replaced by a space. */
  function ApostrophesToSpaces(s: string): (r: string)
    ensures |r| == |s|
    ensures forall i :: 0 <= i < |s| ==> r[i] == if s[i] == '\'' then ' ' else s[i]
  {
    seq(|s|, i requires 0 <= i < |s| => if s[i] == '\'' then ' ' else s[i])
  }

  /**
   * `generateSlug` as its documentation describes it: an apostrophe separates words as whitespace
   * does, before the characters outside the slug alphabet are removed.
   */
  function GenerateSlugAsDocumented(text: string): (slug: string)
    ensures IsSlug(slug) && NoSpace(slug)
  {
    GenerateSlug(ApostrophesToSpaces(text))
  }

  /** Two words joined by an apostrophe become the two words joined by a single dash. */
  lemma ApostropheSeparatesWords(a: string, b: string)
    requires a != [] && b != []
    requires forall i :: 0 <= i < |a| ==> IsLetterOrDigit(a[i])
    requires forall i :: 0 <= i < |b| ==> IsLetterOrDigit(b[i])
    ensures GenerateSlugAsDocumented(a + "'" + b) == a + "-" + b
  {
    SpacedWords(a, b);
    WordIsSlug(a);
    WordIsSlug(b);
    assert GenerateSlug(a + " " + b) == SlugOfKept(a + " " + b);
    SpacedWordsDashed(a, b);
    OnlyDashBetween(a, b);
    SingleDashUnchanged(a + "-" + b, |a|);
  }

  lemma SpacedWords(a: string, b: string)
    requires a != [] && b != []
    requires forall i :: 0 <= i < |a| ==> IsLetterOrDigit(a[i])
    requires forall i :: 0 <= i < |b| ==> IsLetterOrDigit(b[i])
    ensures var spaced := a + " " + b;
            ApostrophesToSpaces(a + "'" + b) == spaced
            && RemoveDisallowed(spaced) == spaced && Trim(spaced) == spaced
  {
    var spaced := a + " " + b;
    assert ApostrophesToSpaces(a + "'" + b) == spaced;
    assert forall i :: 0 <= i < |spaced| ==> Kept(spaced[i]);
    assert spaced[0] == a[0] && spaced[|spaced| - 1] == b[|b| - 1];
    TrimOfTrimmed(spaced);
  }

  lemma SpacedWordsDashed(a: string, b: string)
    requires NoSpace(a) && NoSpace(b)
    ensures ReplaceRuns(a + " " + b, IsSpace, '-') == a + "-" + b
  {
    OnlySpaceBetween(a, b);
    ReplaceIsolated(a + " " + b, IsSpace, '-');
    SubstituteBetween(a, b);
  }

  lemma OnlySpaceBetween(a: string, b: string)
    requires NoSpace(a) && NoSpace(b)
    ensures var spaced := a + " " + b;
            forall i :: 0 <= i < |spaced| ==> IsSpace(spaced[i]) ==> i == |a|
  {
  }

  lemma SubstituteBetween(a: string, b: string)
    requires NoSpace(a) && NoSpace(b)
    ensures Substitute(a + " " + b, IsSpace, '-') == a + "-" + b
  {
  }

  lemma OnlyDashBetween(a: string, b: string)
    requires forall i :: 0 <= i < |a| ==> IsLetterOrDigit(a[i])
    requires forall i :: 0 <= i < |b| ==> IsLetterOrDigit(b[i])
    ensures var dashed := a + "-" + b;
            forall i :: 0 <= i < |dashed| ==> IsDash(dashed[i]) ==> i == |a|
  {
  }

  lemma SingleDashUnchanged(s: string, k: nat)
    requires forall i :: 0 <= i < |s| ==> IsDash(s[i]) ==> i == k
    ensures ReplaceRuns(s, IsDash, '-') == s
  {
    ReplaceRunsUnchanged(s, IsDash, '-');
  }

  /** On text without apostrophes both readings agree. */
  lemma WithoutApostrophesSameSlug(text: string)
    requires forall i :: 0 <= i < |text| ==> text[i] != '\''
    ensures GenerateSlugAsDocumented(text) == GenerateSlug(text)
  {
    assert ApostrophesToSpaces(text) == text;
  }

  // ---------------------------------------------------------------------------------------------
  // truncate

  /** The end index `slice(0, end)` uses on a string of length `len`; a negative `end` counts from the back. */
  function SliceEnd(len: nat, end: int): (k: nat)
    ensures k <= len
    ensures 0 <= end <= len ==> k == end
    ensures end < 0 ==> k == if len + end < 0 then 0 else len + end
  {
    if end < 0 then (if len + end < 0 then 0 else len + end)
    else if end < len then end
    else len
  }

  const Ellipsis: string := "..."

  /** `truncate`: short enough texts are kept; longer ones are cut, trimmed and given an ellipsis. */
  function Truncate(text: string, length: int): (r: string)
    ensures |text| <= length ==> r == text
    ensures |text| > length ==> EndsWith(r, Ellipsis) && Trimmed(r[..|r| - 3])
    ensures |text| > length ==> |r| <= SliceEnd(|text|, length) + 3
    ensures length >= 0 && |text| > length ==> |r| <= length + 3
  {
    if |text| <= length then text
    else
      var cut := Trim(text[..SliceEnd(|text|, length)]);
      var r := cut + Ellipsis;
      assert r[..|r| - 3] == cut;
      r
  }

  /**
   * What precedes the ellipsis is the cut text minus whitespace at both of its ends: a slice of
   * `text` starting at offset `a`, with only whitespace before it and between it and the cut.
   */
  lemma TruncateKeepsText(text: string, length: int)
    requires |text| > length
    ensures var k := SliceEnd(|text|, length);
            var a := FirstNonSpace(text[..k], 0);
            var body := Trim(text[..k]);
            Truncate(text, length) == body + Ellipsis
            && a + |body| <= k && body == text[a..a + |body|]
            && (forall i :: 0 <= i < a ==> IsSpace(text[i]))
            && (forall i :: a + |body| <= i < k ==> IsSpace(text[i]))
  {
    var k := SliceEnd(|text|, length);
    assert Truncate(text, length) == Trim(text[..k]) + Ellipsis;
    PrefixTrim(text, k);
  }

  lemma PrefixTrim(text: string, k: nat)
    requires k <= |text|
    ensures var a := FirstNonSpace(text[..k], 0);
            var body := Trim(text[..k]);
            a + |body| <= k && body == text[a..a + |body|]
            && (forall i :: 0 <= i < a ==> IsSpace(text[i]))
            && (forall i :: a + |body| <= i < k ==> IsSpace(text[i]))
  {
    var cut := text[..k];
    TrimIsSlice(cut);
    SliceOfPrefix(text, k, FirstNonSpace(cut, 0), Trim(cut));
  }

  /** A slice of `text[..k]` with only whitespace around it in `text[..k]` is that slice of `text`, with the same whitespace. */
  lemma SliceOfPrefix(text: string, k: nat, a: nat, body: string)
    requires k <= |text| && a + |body| <= k
    requires body == text[..k][a..a + |body|]
    requires forall i :: 0 <= i < a ==> IsSpace(text[..k][i])
    requires forall i :: a + |body| <= i < k ==> IsSpace(text[..k][i])
    ensures body == text[a..a + |body|]
    ensures forall i :: 0 <= i < a ==> IsSpace(text[i])
    ensures forall i :: a + |body| <= i < k ==> IsSpace(text[i])
  {
    var cut := text[..k];
    assert cut[a..a + |body|] == text[a..a + |body|];
    forall i | 0 <= i < a ensures IsSpace(text[i]) {
      assert text[i] == cut[i];
    }
    forall i | a + |body| <= i < k ensures IsSpace(text[i]) {
      assert text[i] == cut[i];
    }
  }

  // ---------------------------------------------------------------------------------------------
  // isValidFileType

  /** The last piece of `s` split on `sep`: the longest suffix of `s` without `sep`, the text after the last `sep`. */
  function LastSegment(s: string, sep: char): (r: string)
    ensures |r| <= |s| && r == s[|s| - |r|..]
    ensures sep !in r
    ensures |r| < |s| ==> s[|s| - |r| - 1] == sep
  {
    if s == [] then []
    else if s[|s| - 1] == sep then []
    else
      var r := LastSegment(s[..|s| - 1], sep) + [s[|s| - 1]];
      assert s[..|s| - 1][|s| - 1 - (|r| - 1)..] + [s[|s| - 1]] == s[|s| - |r|..];
      r
  }

  /** `isValidFileType`: the lower-cased extension is non-empty and one of the allowed types. */
  function IsValidFileType(filename: string, allowedTypes: seq<string>): bool {
    var extension := ToLower(LastSegment(filename, '.'));
    extension != [] && extension in allowedTypes
  }

  /** The extension of `name.ext` is `ext` whenever `ext` has no dot, whatever `name` holds. */
  lemma {:induction false} LastSegmentAfterDot(name: string, ext: string)
    requires '.' !in ext
    ensures LastSegment(name + "." + ext, '.') == ext
    decreases |ext|
  {
    var s := name + "." + ext;
    if ext != [] {
      var ext' := ext[..|ext| - 1];
      assert s[..|s| - 1] == name + "." + ext';
      LastSegmentAfterDot(name, ext');
      assert ext == ext' + [ext[|ext| - 1]];
    }
  }

  /** A name `name.ext` is judged by the lower-cased `ext`; a trailing dot (`ext` empty) is refused. */
  lemma FileTypeByExtension(name: string, ext: string, allowedTypes: seq<string>)
    requires '.' !in ext
    ensures IsValidFileType(name + "." + ext, allowedTypes) <==> ext != [] && ToLower(ext) in allowedTypes
  {
    LastSegmentAfterDot(name, ext);
  }

  /** A name without a dot is judged by the whole lower-cased name. */
  lemma FileTypeWithoutDot(filename: string, allowedTypes: seq<string>)
    requires '.' !in filename
    ensures IsValidFileType(filename, allowedTypes) <==> filename != [] && ToLower(filename) in allowedTypes
  {
  }

  // ---------------------------------------------------------------------------------------------
  // debounce

  /** The callback `later`, scheduled with the arguments of the call that armed it. */
  datatype Pending<A> = Pending(args: A, due: int)

  /**
   * The closure state of the function returned by `debounce(func, wait)` at time `now`: the one
   * timeout slot, and the argument lists `func` has been run with so far.
   */
  datatype Debounce<A> = Debounce(wait: int, now: int, timeout: Option<Pending<A>>, invoked: seq<A>)

  /** `debounce(func, wait)` at time `now`: the slot is empty and `func` has not run. */
  function NewDebounce<A>(wait: int, now: int): (d: Debounce<A>)
    ensures d.timeout.None? && d.invoked == [] && d.wait == wait && d.now == now
  {
    Debounce(wait, now, None, [])
  }

  /** Calling the debounced function: any pending timeout is cleared and a new one replaces it. */
  function DebounceCall<A>(d: Debounce<A>, args: A): (r: Debounce<A>)
    ensures r.timeout == Some(Pending(args, d.now + Delay(d.wait)))
    ensures r.wait == d.wait && r.now == d.now && r.invoked == d.invoked
  {
    d.(timeout := Some(Pending(args, d.now + Delay(d.wait))))
  }

  /**
   * `ms` milliseconds pass: a timeout falling due meanwhile empties the slot and runs `func` once
   * with its arguments; otherwise only the clock moves.
   */
  function DebounceElapse<A>(d: Debounce<A>, ms: nat): (r: Debounce<A>)
    ensures r.now == d.now + ms && r.wait == d.wait
    ensures d.timeout.Some? && d.timeout.value.due <= d.now + ms ==>
              r.timeout.None? && r.invoked == d.invoked + [d.timeout.value.args]
    ensures !(d.timeout.Some? && d.timeout.value.due <= d.now + ms) ==>
              r.timeout == d.timeout && r.invoked == d.invoked
  {
    match d.timeout
    case Some(p) =>
      if p.due <= d.now + ms then d.(now := d.now + ms, timeout := None, invoked := d.invoked + [p.args])
      else d.(now := d.now + ms)
    case None => d.(now := d.now + ms)
  }

  datatype DebounceEvent<A> = Invoke(args: A) | Wait(ms: nat)

  /** The total time the waits of `events` let pass. */
  function WaitedMs<A>(events: seq<DebounceEvent<A>>): nat {
    if events == [] then 0 else (if events[0].Wait? then events[0].ms else 0) + WaitedMs(events[1..])
  }

  /**
   * One event: a call or a pause. The clock moves only on a pause, and `func` runs at most once,
   * with its past runs kept.
   */
  function DebounceStep<A>(d: Debounce<A>, e: DebounceEvent<A>): (r: Debounce<A>)
    ensures r.wait == d.wait && r.now == d.now + (if e.Wait? then e.ms else 0)
    ensures |d.invoked| <= |r.invoked| <= |d.invoked| + 1 && r.invoked[..|d.invoked|] == d.invoked
    ensures e.Invoke? ==> r.invoked == d.invoked
  {
    match e
    case Invoke(args) => DebounceCall(d, args)
    case Wait(ms) => DebounceElapse(d, ms)
  }

  /**
   * A sequence of events: the clock moves by the total of the pauses, and `func` runs at most once
   * per pause, each run appended after the earlier ones.
   */
  function DebounceRun<A>(d: Debounce<A>, events: seq<DebounceEvent<A>>): (r: Debounce<A>)
    ensures r.wait == d.wait && r.now == d.now + WaitedMs(events)
    ensures |d.invoked| <= |r.invoked| && r.invoked[..|d.invoked|] == d.invoked
    ensures |r.invoked| <= |d.invoked| + |events|
    decreases |events|
  {
    if events == [] then d
    else
      var r := DebounceRun(DebounceStep(d, events[0]), events[1..]);
      assert r.invoked[..|d.invoked|] == DebounceStep(d, events[0]).invoked[..|d.invoked|];
      r
  }

  /**
   * A burst of calls whose gaps are each shorter than the delay, ending with a call: no gap lets a
   * timeout fall due.
   */
  predicate Burst<A>(events: seq<DebounceEvent<A>>, delay: nat) {
    && events != [] && events[|events| - 1].Invoke?
    && forall i :: 0 <= i < |events| && events[i].Wait? ==>
         events[i].ms < delay && i + 1 < |events| && events[i + 1].Invoke?
  }

  /**
   * During a burst `func` never runs, and afterwards exactly one timeout is pending, carrying the
   * last call's arguments and falling due one delay after the last call.
   */
  lemma {:induction false} BurstCoalesces<A>(d: Debounce<A>, events: seq<DebounceEvent<A>>)
    requires Burst(events, Delay(d.wait))
    requires events[0].Wait? ==> d.timeout.Some? && d.timeout.value.due == d.now + Delay(d.wait)
    ensures var r := DebounceRun(d, events);
            r.invoked == d.invoked
            && r.timeout == Some(Pending(events[|events| - 1].args, r.now + Delay(d.wait)))
    decreases |events|
  {
    var d' := DebounceStep(d, events[0]);
    if |events| > 1 {
      assert Burst(events[1..], Delay(d.wait)) by {
        forall i | 0 <= i < |events[1..]| && events[1..][i].Wait?
          ensures events[1..][i].ms < Delay(d.wait) && i + 1 < |events[1..]| && events[1..][i + 1].Invoke?
        {
          assert events[i + 1] == events[1..][i];
        }
      }
      if events[0].Invoke? {
        assert d'.timeout.value.due == d'.now + Delay(d.wait);
      } else {
        assert events[1].Invoke?;
      }
      BurstCoalesces(d', events[1..]);
    }
  }

  /** After a burst, a quiet period of at least the delay runs `func` exactly once, with the last call's arguments. */
  lemma QuietPeriodRunsOnce<A>(d: Debounce<A>, events: seq<DebounceEvent<A>>, quiet: nat)
    requires Burst(events, Delay(d.wait))
    requires events[0].Invoke?
    requires quiet >= Delay(d.wait)
    ensures var r := DebounceElapse(DebounceRun(d, events), quiet);
            r.invoked == d.invoked + [events[|events| - 1].args] && r.timeout.None?
  {
    BurstCoalesces(d, events);
  }

  /** The function returned by `debounce(func, wait)`, with `timeout` as the variable its closure updates. */
  class DebouncedFunction<A> {
    const wait: int
    var now: int
    var timeout: Option<Pending<A>>
    var invoked: seq<A>

    function State(): Debounce<A>
      reads this
    {
      Debounce(wait, now, timeout, invoked)
    }

    constructor (wait: int, now: int)
      ensures State() == NewDebounce(wait, now)
    {
      this.wait := wait;
      this.now := now;
      timeout := None;
      invoked := [];
    }

    /** `executedFunction(...args)`: clear the pending timeout, if any, and arm a new one. */
    method Call(args: A)
      modifies this
      ensures State() == DebounceCall(old(State()), args)
    {
      if timeout.Some? {
        timeout := None;
      }
      timeout := Some(Pending(args, now + Delay(wait)));
    }

    /** Time passes; `later` runs if the timeout falls due: the slot is emptied, then `func` runs. */
    method Elapse(ms: nat)
      modifies this
      ensures State() == DebounceElapse(old(State()), ms)
    {
      now := now + ms;
      if timeout.Some? && timeout.value.due <= now {
        var args := timeout.value.args;
        timeout := None;
        invoked := invoked + [args];
      }
    }
  }
}
