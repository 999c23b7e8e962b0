/**
 * Track fingerprints and their comparison (src/utils/music/autoplay.ts:54-143).
 *
 * The markup-stripping regular expressions at the head of the title and author
 * pipelines, and the word-boundary artist removal, are parameters (`Rules`). The
 * tail of both pipelines is concrete: drop every character outside ASCII `\w`,
 * `\s` and the Hangul syllables, collapse runs of `\s` into one space, trim and
 * lower-case.
 */
module Fingerprints {
  import opened Text
  import opened Similarity
  import opened Tracks

  /** The regular-expression steps the model does not interpret. */
  datatype Rules = Rules(
    /** The title replacements of autoplay.ts:56-65 (brackets, after-pipe text, version and media suffixes, featuring). */
    titleMarkup: string -> string,
    /** The author replacements of autoplay.ts:72-77 (brackets, channel suffixes, "- topic"). */
    authorMarkup: string -> string,
    /** `title.replace(/\bAUTHOR\b/gi, '')` with the author escaped (autoplay.ts:101). */
    removeWord: (string, string) -> string)

  datatype Fingerprint = Fingerprint(
    identifier: string,
    title: string,
    author: string,
    duration: nat,
    normalizedTitle: string,
    normalizedAuthor: string)

  /** The characters `[^\w\s가-힣]` does not remove. */
  predicate Kept(c: char) {
    IsAsciiWord(c) || IsSpace(c) || IsHangul(c)
  }

  predicate AllKept(s: string) {
    forall i :: 0 <= i < |s| ==> Kept(s[i])
  }

  function KeepWordSpaceHangul(s: string): (r: string)
    ensures AllKept(r)
  {
    if s == [] then []
    else (if Kept(s[0]) then [s[0]] else []) + KeepWordSpaceHangul(s[1..])
  }

  /** `replace(/\s+/g, ' ')`: each run of `\s` characters becomes one space. */
  function CollapseSpaces(s: string): (r: string)
    ensures AllKept(s) ==> AllKept(r)
    decreases |s|
  {
    if s == [] then []
    else if IsSpace(s[0]) then
      var rest := CollapseSpaces(TrimStart(s[1..]));
      KeptAfterRun(s);
      ConsKept(' ', rest);
      " " + rest
    else
      var rest := CollapseSpaces(s[1..]);
      KeptSuffix(s, 1);
      ConsKept(s[0], rest);
      [s[0]] + rest
  }

  /** The only whitespace left is the plain space, and a run starts exactly where one started. */
  lemma {:induction false} CollapsedSpacing(s: string)
    ensures var r := CollapseSpaces(s);
      (forall i :: 0 <= i < |r| && IsSpace(r[i]) ==> r[i] == ' ')
      && (s != [] ==> r != [] && IsSpace(r[0]) == IsSpace(s[0]))
    decreases |s|
  {
    if s != [] {
      var rest := if IsSpace(s[0]) then TrimStart(s[1..]) else s[1..];
      CollapsedSpacing(rest);
      var c := if IsSpace(s[0]) then ' ' else s[0];
      assert CollapseSpaces(s) == [c] + CollapseSpaces(rest);
      forall i | 0 < i < |CollapseSpaces(s)|
        ensures CollapseSpaces(s)[i] == CollapseSpaces(rest)[i - 1]
      {
      }
    }
  }

  /** What the suffix of a string keeps, the string kept. */
  lemma KeptSuffix(s: string, k: nat)
    requires k <= |s|
    ensures AllKept(s) ==> AllKept(s[k..])
  {
    if AllKept(s) {
      forall i | 0 <= i < |s| - k
        ensures Kept(s[k..][i])
      {
        assert s[k..][i] == s[k + i];
      }
    }
  }

  lemma KeptAfterRun(s: string)
    requires s != []
    ensures AllKept(s) ==> AllKept(TrimStart(s[1..]))
  {
    KeptSuffix(s, 1);
    KeptSuffix(s[1..], |s| - 1 - |TrimStart(s[1..])|);
  }

  lemma ConsKept(c: char, rest: string)
    ensures Kept(c) && AllKept(rest) ==> AllKept([c] + rest)
  {
    forall i | 0 < i < |rest| + 1
      ensures ([c] + rest)[i] == rest[i - 1]
    {
    }
  }

  lemma TrimKeeps(s: string)
    requires AllKept(s)
    ensures AllKept(Trim(s))
  {
    var r := Trim(s);
    var k: nat :| OccursAt(s, r, k);
    forall i | 0 <= i < |r|
      ensures Kept(r[i])
    {
      assert r[i] == s[k..k + |r|][i] == s[k + i];
    }
  }

  lemma {:induction false} ToLowerKeeps(s: string)
    requires AllKept(s)
    ensures AllKept(ToLower(s))
  {
    if s != [] {
      assert Kept(s[0]);
      assert AllKept(s[1..]) by {
        forall i | 0 <= i < |s| - 1
          ensures Kept(s[1..][i])
        {
          assert s[1..][i] == s[i + 1];
        }
      }
      ToLowerKeeps(s[1..]);
    }
  }

  /** The common tail of both normalisation pipelines. */
  function CleanText(s: string): (r: string)
    ensures AllKept(r)
  {
    var collapsed := CollapseSpaces(KeepWordSpaceHangul(s));
    var trimmed := Trim(collapsed);
    TrimKeeps(collapsed);
    ToLowerKeeps(trimmed);
    ToLower(trimmed)
  }

  lemma KeptHasNoDash(s: string)
    requires AllKept(s)
    ensures !Contains(s, "-")
  {
  }

  /** `author.toLowerCase().includes('topic')`, on the author as given. */
  predicate IsTopic(author: string) {
    Contains(ToLower(author), "topic")
  }

  // `split(/\s*-\s*/)`: cut at every '-', dropping the white space around it (the
  // separator match starts at the run of spaces just before the dash and takes the
  // run just after it).
  function SplitDash(s: string): (parts: seq<string>)
    ensures |parts| >= 1
    ensures !Contains(s, "-") ==> parts == [s]
    decreases |s|
  {
    match IndexOf(s, "-")
    case None => [s]
    case Some(i) => [TrimEnd(s[..i])] + SplitDash(TrimStart(s[i + 1..]))
  }

  /**
   * The "ARTIST - TITLE" rule of autoplay.ts:89-97: with exactly two parts, the
   * part that resembles the author (score above 0.8) is dropped, keeping the other
   * trimmed part unless it is empty.
   */
  function SplitTitle(title: string, author: string): string
  {
    var parts := SplitDash(title);
    if |parts| != 2 then title
    else if parts[0] != "" && Similarity.Similarity(Trim(parts[0]), author) > 0.8 then
      (if Trim(parts[1]) != "" then Trim(parts[1]) else title)
    else if parts[1] != "" && Similarity.Similarity(Trim(parts[1]), author) > 0.8 then
      (if Trim(parts[0]) != "" then Trim(parts[0]) else title)
    else title
  }

  /** The artist-removal rule of autoplay.ts:100-105. */
  function StripArtist(rules: Rules, title: string, author: string): string
  {
    if |author| > 2 && Contains(title, author) then
      var without := Trim(rules.removeWord(title, author));
      if |without| > 2 then without else title
    else title
  }

  /** createTrackFingerprint. */
  function CreateFingerprint(rules: Rules, t: Track): (fp: Fingerprint)
    ensures fp.identifier == t.identifier && fp.title == t.title
    ensures fp.author == t.author && fp.duration == t.duration
    ensures IsTopic(t.author) ==> fp.normalizedAuthor == ""
    ensures IsTopic(t.author) ==> fp.normalizedTitle == CleanText(rules.titleMarkup(t.title))
    ensures !IsTopic(t.author) ==> fp.normalizedAuthor == CleanText(rules.authorMarkup(t.author))
    ensures fp.normalizedTitle == CleanText(rules.titleMarkup(t.title))
      || (|fp.normalizedTitle| > 2 && fp.normalizedTitle == Trim(rules.removeWord(CleanText(rules.titleMarkup(t.title)), fp.normalizedAuthor)))
  {
    var cleanTitle := CleanText(rules.titleMarkup(t.title));
    var topic := IsTopic(t.author);
    var author := if topic then "" else CleanText(rules.authorMarkup(t.author));
    KeptHasNoDash(cleanTitle);
    var title := if !topic && Contains(cleanTitle, "-") then SplitTitle(cleanTitle, author) else cleanTitle;
    var title' := if !topic then StripArtist(rules, title, author) else title;
    Fingerprint(t.identifier, t.title, t.author, t.duration, title', author)
  }

  /**
   * The dash rule never applies: the normalisation steps of the title have
   * already removed every '-' before the rule looks for one, so an "ARTIST - TITLE" title is never
   * split and only the artist-stripping rule can change it.
   */
  lemma DashRuleNeverApplies(rules: Rules, t: Track)
    requires !IsTopic(t.author)
    ensures CreateFingerprint(rules, t).normalizedTitle
      == StripArtist(rules, CleanText(rules.titleMarkup(t.title)), CleanText(rules.authorMarkup(t.author)))
  {
    KeptHasNoDash(CleanText(rules.titleMarkup(t.title)));
  }

  /** A number that may be JavaScript's NaN. */
  datatype Score = Num(v: real) | NaN

  function RMax(x: real, y: real): real {
    if x >= y then x else y
  }

  /**
   * The duration term: 1 when the gap is under a tenth of the longer duration,
   * otherwise `max(0, 1 - gap / longer)`; `0/0` makes it NaN when both are 0.
   */
  function DurationSimilarity(d1: nat, d2: nat): (r: Score)
    ensures r.NaN? <==> d1 == 0 && d2 == 0
    ensures r.Num? ==> 0.0 <= r.v <= 1.0
    ensures r.Num? && r.v < 1.0 ==> (Max(d1, d2) as real) * 0.1 <= (if d1 >= d2 then d1 - d2 else d2 - d1) as real
    ensures (if d1 >= d2 then d1 - d2 else d2 - d1) as real < (Max(d1, d2) as real) * 0.1 ==> r == Num(1.0)
  {
    var longer := Max(d1, d2);
    var gap := if d1 >= d2 then d1 - d2 else d2 - d1;
    if (gap as real) < (longer as real) * 0.1 then Num(1.0)
    else if longer == 0 then NaN
    else
      assert gap <= longer;
      RatioAtMostOne(gap, longer);
      Num(RMax(0.0, 1.0 - gap as real / longer as real))
  }

  lemma RatioAtMostOne(x: nat, y: nat)
    requires x <= y && y > 0
    ensures 0.0 <= x as real / y as real <= 1.0
  {
  }

  /** `base + d * weight`, NaN when `d` is. */
  function PlusWeighted(base: real, d: Score, weight: real): Score {
    if d.NaN? then NaN else Num(base + d.v * weight)
  }

  /** `Math.max(0.9, s)`, NaN when `s` is. */
  function AtLeastNineTenths(s: Score): Score {
    if s.NaN? then NaN else Num(RMax(0.9, s.v))
  }

  /** The partial scores compareTrackFingerprints weighs. */
  datatype Partial = Partial(
    titleSim: real, authorSim: real, noAuthor: bool, sameTitle: bool, sameAuthor: bool, durationSim: Score)

  /** The partial scores of two fingerprints; the author term is 0 when either author is empty. */
  function Parts(fp1: Fingerprint, fp2: Fingerprint): (p: Partial)
    ensures 0.0 <= p.titleSim <= 1.0 && 0.0 <= p.authorSim <= 1.0
    ensures p.durationSim.Num? ==> 0.0 <= p.durationSim.v <= 1.0
    ensures p.durationSim.NaN? <==> fp1.duration == 0 && fp2.duration == 0
  {
    var noAuthor := fp1.normalizedAuthor == "" || fp2.normalizedAuthor == "";
    Partial(
      Similarity.Similarity(fp1.normalizedTitle, fp2.normalizedTitle),
      if noAuthor then 0.0 else Similarity.Similarity(fp1.normalizedAuthor, fp2.normalizedAuthor),
      noAuthor,
      fp1.normalizedTitle == fp2.normalizedTitle,
      fp1.normalizedAuthor == fp2.normalizedAuthor,
      DurationSimilarity(fp1.duration, fp2.duration))
  }

  /**
   * The weighting rules of compareTrackFingerprints once the three partial scores
   * are known: without an author `0.8 * title + 0.2 * duration` (at least 0.9 for
   * equal titles); equal titles with authors above 0.7, or equal authors with
   * titles above 0.7, `max(0.9, 0.7 * title + 0.3 * author)`; otherwise
   * `0.7 * title + 0.25 * author + 0.05 * duration`.
   */
  function Weigh(p: Partial): (r: Score)
    requires 0.0 <= p.titleSim <= 1.0 && 0.0 <= p.authorSim <= 1.0
    requires p.durationSim.Num? ==> 0.0 <= p.durationSim.v <= 1.0
    ensures r.Num? ==> 0.0 <= r.v <= 1.0
    ensures r.NaN? ==> p.durationSim.NaN?
  {
    if p.noAuthor then
      var s := PlusWeighted(p.titleSim * 0.8, p.durationSim, 0.2);
      if p.sameTitle then AtLeastNineTenths(s) else s
    else if p.sameTitle && p.authorSim > 0.7 then
      Num(RMax(0.9, p.titleSim * 0.7 + p.authorSim * 0.3))
    else if p.sameAuthor && p.titleSim > 0.7 then
      Num(RMax(0.9, p.titleSim * 0.7 + p.authorSim * 0.3))
    else
      PlusWeighted(p.titleSim * 0.7 + p.authorSim * 0.25, p.durationSim, 0.05)
  }

  /** compareTrackFingerprints. */
  function Compare(fp1: Fingerprint, fp2: Fingerprint): (r: Score)
    ensures fp1.identifier == fp2.identifier ==> r == Num(1.0)
    ensures r.Num? ==> 0.0 <= r.v <= 1.0
    ensures r.NaN? ==> fp1.identifier != fp2.identifier && fp1.duration == 0 && fp2.duration == 0
  {
    if fp1.identifier == fp2.identifier then Num(1.0) else Weigh(Parts(fp1, fp2))
  }

  lemma PartsSymmetric(fp1: Fingerprint, fp2: Fingerprint)
    ensures Parts(fp1, fp2) == Parts(fp2, fp1)
  {
    SimilaritySymmetric(fp1.normalizedTitle, fp2.normalizedTitle);
    SimilaritySymmetric(fp1.normalizedAuthor, fp2.normalizedAuthor);
    DurationSimilaritySymmetric(fp1.duration, fp2.duration);
  }

  lemma CompareSymmetric(fp1: Fingerprint, fp2: Fingerprint)
    ensures Compare(fp1, fp2) == Compare(fp2, fp1)
  {
    PartsSymmetric(fp1, fp2);
  }

  lemma DurationSimilaritySymmetric(d1: nat, d2: nat)
    ensures DurationSimilarity(d1, d2) == DurationSimilarity(d2, d1)
  {
    assert Max(d1, d2) == Max(d2, d1);
  }

  /**
   * With an empty normalised author on either side, equal normalised titles score
   * at least 0.9 unless both durations are 0.
   */
  lemma EqualTitlesWithoutAuthorScoreHigh(fp1: Fingerprint, fp2: Fingerprint)
    requires fp1.normalizedAuthor == "" || fp2.normalizedAuthor == ""
    requires fp1.normalizedTitle == fp2.normalizedTitle
    requires fp1.duration > 0 || fp2.duration > 0
    ensures Compare(fp1, fp2).Num? && Compare(fp1, fp2).v >= 0.9
  {
  }

  /**
   * Without an author the score is `0.8 * titleSim + 0.2 * durationSim`, where a
   * gap under a tenth of the longer duration counts as 1.
   */
  lemma ScoreWithoutAuthor(fp1: Fingerprint, fp2: Fingerprint)
    requires fp1.identifier != fp2.identifier
    requires fp1.normalizedAuthor == "" || fp2.normalizedAuthor == ""
    requires fp1.normalizedTitle != fp2.normalizedTitle
    requires fp1.duration > 0 || fp2.duration > 0
    ensures Compare(fp1, fp2)
      == Num(Similarity.Similarity(fp1.normalizedTitle, fp2.normalizedTitle) * 0.8
             + DurationSimilarity(fp1.duration, fp2.duration).v * 0.2)
  {
  }

  /**
   * Two different tracks with authors that neither matching rule floors score
   * exactly `0.7 * title + 0.25 * author + 0.05 * duration`.
   */
  lemma ScoreWithAuthors(fp1: Fingerprint, fp2: Fingerprint)
    requires fp1.identifier != fp2.identifier
    requires fp1.normalizedAuthor != "" && fp2.normalizedAuthor != ""
    requires !(fp1.normalizedTitle == fp2.normalizedTitle
               && Similarity.Similarity(fp1.normalizedAuthor, fp2.normalizedAuthor) > 0.7)
    requires !(fp1.normalizedAuthor == fp2.normalizedAuthor
               && Similarity.Similarity(fp1.normalizedTitle, fp2.normalizedTitle) > 0.7)
    requires fp1.duration > 0 || fp2.duration > 0
    ensures Compare(fp1, fp2)
      == Num(Similarity.Similarity(fp1.normalizedTitle, fp2.normalizedTitle) * 0.7
             + Similarity.Similarity(fp1.normalizedAuthor, fp2.normalizedAuthor) * 0.25
             + DurationSimilarity(fp1.duration, fp2.duration).v * 0.05)
  {
    var t := Similarity.Similarity(fp1.normalizedTitle, fp2.normalizedTitle);
    var a := Similarity.Similarity(fp1.normalizedAuthor, fp2.normalizedAuthor);
    var p := Partial(t, a, false, fp1.normalizedTitle == fp2.normalizedTitle, fp1.normalizedAuthor == fp2.normalizedAuthor,
                     DurationSimilarity(fp1.duration, fp2.duration));
    assert Parts(fp1, fp2) == p;
    WeighFallThrough(p);
  }

  /** Neither floor applying, with authors present, weighting is the plain 0.7 / 0.25 / 0.05 mix. */
  lemma WeighFallThrough(p: Partial)
    requires 0.0 <= p.titleSim <= 1.0 && 0.0 <= p.authorSim <= 1.0
    requires p.durationSim.Num? && 0.0 <= p.durationSim.v <= 1.0
    requires !p.noAuthor && !(p.sameTitle && p.authorSim > 0.7) && !(p.sameAuthor && p.titleSim > 0.7)
    ensures Weigh(p) == Num(p.titleSim * 0.7 + p.authorSim * 0.25 + p.durationSim.v * 0.05)
  {
  }

  /**
   * Two different tracks that both last 0 ms and lack an author compare as NaN,
   * which no threshold test accepts.
   */
  lemma ZeroDurationsWithoutAuthorAreNaN(fp1: Fingerprint, fp2: Fingerprint)
    requires fp1.identifier != fp2.identifier
    requires fp1.normalizedAuthor == ""
    requires fp1.duration == 0 && fp2.duration == 0
    ensures Compare(fp1, fp2).NaN?
  {
  }

  /** Equal normalised titles and authors that score above 0.7 give at least 0.9. */
  lemma EqualTitlesSimilarAuthorsScoreHigh(fp1: Fingerprint, fp2: Fingerprint)
    requires fp1.normalizedAuthor != "" && fp2.normalizedAuthor != ""
    requires fp1.normalizedTitle == fp2.normalizedTitle
    requires Similarity.Similarity(fp1.normalizedAuthor, fp2.normalizedAuthor) > 0.7
    ensures Compare(fp1, fp2).Num? && Compare(fp1, fp2).v >= 0.9
  {
    if fp1.identifier != fp2.identifier {
      var p := Parts(fp1, fp2);
      assert !p.noAuthor && p.sameTitle && p.authorSim > 0.7;
      WeighFloorsMatches(p);
    }
  }

  /** Either matching rule floors the weighted score at 0.9. */
  lemma WeighFloorsMatches(p: Partial)
    requires 0.0 <= p.titleSim <= 1.0 && 0.0 <= p.authorSim <= 1.0
    requires p.durationSim.Num? ==> 0.0 <= p.durationSim.v <= 1.0
    requires !p.noAuthor && ((p.sameTitle && p.authorSim > 0.7) || (p.sameAuthor && p.titleSim > 0.7))
    ensures Weigh(p).Num? && Weigh(p).v >= 0.9
  {
  }
}
