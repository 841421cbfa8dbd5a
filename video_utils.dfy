/**
 * Helpers for video URLs and durations (src/utils/videoUtils.ts): which
 * platform a URL belongs to, the identifier inside a YouTube link, the
 * thumbnail address built from it, and the clock notation of a duration.
 */
module VideoUtils {

  import opened Types
  import opened Strings

  // ---- detectVideoSource

  /**
   * The host substrings in the order the source tests them, each with the
   * platform it selects. The first rule with a matching substring wins.
   */
  const HostRules: seq<(VideoSource, seq<string>)> := [
    (YOUTUBE, ["youtube.com", "youtu.be"]),
    (VIMEO, ["vimeo.com"]),
    (FACEBOOK, ["facebook.com"]),
    (SOUNDCLOUD, ["soundcloud.com"]),
    (STREAMABLE, ["streamable.com"]),
    (WISTIA, ["wistia.com"]),
    (TWITCH, ["twitch.tv"]),
    (DAILYMOTION, ["dailymotion.com"]),
    (MIXCLOUD, ["mixcloud.com"]),
    (VIDYARD, ["vidyard.com"]),
    (KALTURA, ["kaltura.com"])
  ]

  /** Some string of `subs` occurs in `url`. */
  predicate ContainsAny(url: string, subs: seq<string>) {
    subs != [] && (Contains(url, subs[0]) || ContainsAny(url, subs[1..]))
  }

  /** Some substring of rule `k` occurs in `url`. */
  predicate RuleMatches(url: string, k: nat)
    requires k < |HostRules|
  {
    ContainsAny(url, HostRules[k].1)
  }

  /** The reference reading of the rule table: the platform of the first matching rule from `k` on. */
  function FirstRule(url: string, k: nat): VideoSource
    requires k <= |HostRules|
    decreases |HostRules| - k
  {
    if k == |HostRules| then FILE
    else if RuleMatches(url, k) then HostRules[k].0
    else FirstRule(url, k + 1)
  }

  function LowerAscii(c: char): char {
    if 'A' <= c <= 'Z' then (c as int + 32) as char else c
  }

  /** `url` ends with `"." + ext`, letters compared without regard to case. */
  predicate EndsWithExtension(url: string, ext: string) {
    |ext| + 1 <= |url| && url[|url| - |ext| - 1] == '.'
    && forall k :: 0 <= k < |ext| ==> LowerAscii(url[|url| - |ext| + k]) == ext[k]
  }

  /** The test `/\.(mp4|webm|ogg|m3u8|mpd)$/i`. */
  predicate HasMediaFileExtension(url: string) {
    || EndsWithExtension(url, "mp4") || EndsWithExtension(url, "webm")
    || EndsWithExtension(url, "ogg") || EndsWithExtension(url, "m3u8")
    || EndsWithExtension(url, "mpd")
  }

  /** The platform of a video URL, decided by substring tests alone. */
  function DetectVideoSource(url: string): (r: VideoSource)
    ensures Contains(url, "youtube.com") || Contains(url, "youtu.be") ==> r == YOUTUBE
  {
    if Contains(url, "youtube.com") || Contains(url, "youtu.be") then YOUTUBE
    else if Contains(url, "vimeo.com") then VIMEO
    else if Contains(url, "facebook.com") then FACEBOOK
    else if Contains(url, "soundcloud.com") then SOUNDCLOUD
    else if Contains(url, "streamable.com") then STREAMABLE
    else if Contains(url, "wistia.com") then WISTIA
    else if Contains(url, "twitch.tv") then TWITCH
    else if Contains(url, "dailymotion.com") then DAILYMOTION
    else if Contains(url, "mixcloud.com") then MIXCLOUD
    else if Contains(url, "vidyard.com") then VIDYARD
    else if Contains(url, "kaltura.com") then KALTURA
    else if HasMediaFileExtension(url) then FILE
    else FILE
  }

  lemma ContainsAnyOne(url: string, a: string)
    ensures ContainsAny(url, [a]) <==> Contains(url, a)
  {
    assert [a][1..] == [];
  }

  lemma ContainsAnyTwo(url: string, a: string, b: string)
    ensures ContainsAny(url, [a, b]) <==> Contains(url, a) || Contains(url, b)
  {
    assert [a, b][1..] == [b];
    ContainsAnyOne(url, b);
  }

  /** The if-chain of the source is the rule table read top to bottom. */
  lemma DetectAgreesWithTable(url: string)
    ensures DetectVideoSource(url) == FirstRule(url, 0)
  {
    ContainsAnyOne(url, "kaltura.com");
    assert FirstRule(url, 10) == if Contains(url, "kaltura.com") then KALTURA else FILE;
    ContainsAnyOne(url, "vidyard.com");
    assert FirstRule(url, 9) == if Contains(url, "vidyard.com") then VIDYARD else FirstRule(url, 10);
    ContainsAnyOne(url, "mixcloud.com");
    assert FirstRule(url, 8) == if Contains(url, "mixcloud.com") then MIXCLOUD else FirstRule(url, 9);
    ContainsAnyOne(url, "dailymotion.com");
    assert FirstRule(url, 7) == if Contains(url, "dailymotion.com") then DAILYMOTION else FirstRule(url, 8);
    ContainsAnyOne(url, "twitch.tv");
    assert FirstRule(url, 6) == if Contains(url, "twitch.tv") then TWITCH else FirstRule(url, 7);
    ContainsAnyOne(url, "wistia.com");
    assert FirstRule(url, 5) == if Contains(url, "wistia.com") then WISTIA else FirstRule(url, 6);
    ContainsAnyOne(url, "streamable.com");
    assert FirstRule(url, 4) == if Contains(url, "streamable.com") then STREAMABLE else FirstRule(url, 5);
    ContainsAnyOne(url, "soundcloud.com");
    assert FirstRule(url, 3) == if Contains(url, "soundcloud.com") then SOUNDCLOUD else FirstRule(url, 4);
    ContainsAnyOne(url, "facebook.com");
    assert FirstRule(url, 2) == if Contains(url, "facebook.com") then FACEBOOK else FirstRule(url, 3);
    ContainsAnyOne(url, "vimeo.com");
    assert FirstRule(url, 1) == if Contains(url, "vimeo.com") then VIMEO else FirstRule(url, 2);
    ContainsAnyTwo(url, "youtube.com", "youtu.be");
  }

  /** The position of a platform's rule in the table; FILE, which has no rule, comes last. */
  function PlatformRank(v: VideoSource): nat {
    match v
    case YOUTUBE => 0
    case VIMEO => 1
    case FACEBOOK => 2
    case SOUNDCLOUD => 3
    case STREAMABLE => 4
    case WISTIA => 5
    case TWITCH => 6
    case DAILYMOTION => 7
    case MIXCLOUD => 8
    case VIDYARD => 9
    case KALTURA => 10
    case FILE => 11
  }

  lemma RuleRank(k: nat)
    requires k < |HostRules|
    ensures PlatformRank(HostRules[k].0) == k
  {
    if k < 6 {
      if k < 3 {
        assert k == 0 || k == 1 || k == 2;
      } else {
        assert k == 3 || k == 4 || k == 5;
      }
    } else {
      if k < 9 {
        assert k == 6 || k == 7 || k == 8;
      } else {
        assert k == 9 || k == 10;
      }
    }
  }

  /** Rule `k` selects a platform no other rule selects, and none selects FILE. */
  lemma RulePlatformsDistinct(j: nat, k: nat)
    requires j < k < |HostRules|
    ensures HostRules[j].0 != HostRules[k].0 && HostRules[k].0 != FILE && HostRules[j].0 != FILE
  {
    RuleRank(j);
    RuleRank(k);
  }

  /** The table read from rule `m` on selects rule `m` or a later one, or FILE. */
  lemma {:induction false} FirstRuleRank(url: string, m: nat)
    requires m <= |HostRules|
    ensures PlatformRank(FirstRule(url, m)) >= m
    decreases |HostRules| - m
  {
    if m < |HostRules| {
      RuleRank(m);
      FirstRuleRank(url, m + 1);
    }
  }

  lemma {:induction false} FirstRuleSpec(url: string, i: nat, k: nat)
    requires i <= k < |HostRules|
    ensures FirstRule(url, i) == HostRules[k].0 <==>
              RuleMatches(url, k) && forall j :: i <= j < k ==> !RuleMatches(url, j)
    decreases k - i
  {
    RuleRank(i);
    RuleRank(k);
    if i < k {
      FirstRuleSpec(url, i + 1, k);
    } else {
      FirstRuleRank(url, k + 1);
    }
  }

  lemma {:induction false} FirstRuleFile(url: string, i: nat)
    requires i <= |HostRules|
    ensures FirstRule(url, i) == FILE <==> forall j :: i <= j < |HostRules| ==> !RuleMatches(url, j)
    decreases |HostRules| - i
  {
    if i < |HostRules| {
      RuleRank(i);
      FirstRuleFile(url, i + 1);
    }
  }

  /**
   * First match wins: the URL is classified by rule `k` exactly when rule `k`
   * matches and no earlier rule does.
   */
  lemma DetectFirstRuleWins(url: string, k: nat)
    requires k < |HostRules|
    ensures DetectVideoSource(url) == HostRules[k].0 <==>
              RuleMatches(url, k) && forall j :: 0 <= j < k ==> !RuleMatches(url, j)
  {
    DetectAgreesWithTable(url);
    FirstRuleSpec(url, 0, k);
  }

  /**
   * FILE is the fallback: it is returned exactly when no host rule matches,
   * whatever the extension, since both trailing branches return it.
   */
  lemma DetectFileIffNoHost(url: string)
    ensures DetectVideoSource(url) == FILE <==> forall k :: 0 <= k < |HostRules| ==> !RuleMatches(url, k)
  {
    DetectAgreesWithTable(url);
    FirstRuleFile(url, 0);
  }

  // ---- extractYouTubeVideoId

  /** The alternatives of `(?:youtube\.com\/watch\?v=|youtu\.be\/|youtube\.com\/embed\/)`, in order. */
  const YouTubePrefixes: seq<string> := ["youtube.com/watch?v=", "youtu.be/", "youtube.com/embed/"]

  /** The characters the capture group `([^&\n?#]+)` stops at. */
  predicate IsStop(c: char) {
    c == '&' || c == '\n' || c == '?' || c == '#'
  }

  /** The end of the longest run of non-stop characters of `url` that starts at `j`. */
  function RunEnd(url: string, j: nat): (e: nat)
    requires j <= |url|
    ensures j <= e <= |url|
    ensures forall k :: j <= k < e ==> !IsStop(url[k])
    ensures e == |url| || IsStop(url[e])
    decreases |url| - j
  {
    if j == |url| || IsStop(url[j]) then j else RunEnd(url, j + 1)
  }

  /** Tries the alternatives `alts` in order at position `i`; a match needs a non-empty capture. */
  function MatchAt(url: string, i: nat, alts: seq<string>): Option<string>
    requires i <= |url|
  {
    if alts == [] then None
    else
      var p := alts[0];
      if OccursAt(url, p, i) && RunEnd(url, i + |p|) > i + |p| then
        Some(url[i + |p|..RunEnd(url, i + |p|)])
      else
        MatchAt(url, i, alts[1..])
  }

  /** The regular expression search: the leftmost position at which some alternative matches. */
  function SearchFrom(url: string, i: nat): Option<string>
    requires i <= |url|
    decreases |url| - i
  {
    match MatchAt(url, i, YouTubePrefixes)
    case Some(id) => Some(id)
    case None => if i == |url| then None else SearchFrom(url, i + 1)
  }

  /** The video identifier inside a YouTube watch, short or embed link, or None. */
  function ExtractYouTubeVideoId(url: string): Option<string> {
    var m := SearchFrom(url, 0);
    if m.Some? && m.value != "" then m else None
  }

  /** Alternative `p` occurs at `i` and is followed by at least one non-stop character. */
  predicate PrefixMatches(url: string, p: string, i: int) {
    OccursAt(url, p, i) && i + |p| < |url| && !IsStop(url[i + |p|])
  }

  /** The regular expression matches at position `i`. */
  predicate MatchesAt(url: string, i: int) {
    exists k :: 0 <= k < |YouTubePrefixes| && PrefixMatches(url, YouTubePrefixes[k], i)
  }

  /**
   * `id` is what the capture group takes when alternative `p` matches at `i`:
   * it directly follows `p`, is non-empty, holds no stop character, and is
   * followed by a stop character or the end of the URL.
   */
  predicate CapturedAt(url: string, p: string, i: int, id: string) {
    && OccursAt(url, p, i)
    && id != []
    && OccursAt(url, id, i + |p|)
    && (forall k :: 0 <= k < |id| ==> !IsStop(id[k]))
    && (i + |p| + |id| == |url| || IsStop(url[i + |p| + |id|]))
  }

  /** No position in `[lo, hi)` matches. */
  predicate NoMatchIn(url: string, lo: int, hi: int) {
    forall j :: lo <= j < hi ==> !MatchesAt(url, j)
  }

  /** Trying the alternatives at one position fails exactly when none of them matches there. */
  lemma {:induction false} MatchAtNone(url: string, i: nat, alts: seq<string>)
    requires i <= |url|
    ensures MatchAt(url, i, alts).None? <==> forall k :: 0 <= k < |alts| ==> !PrefixMatches(url, alts[k], i)
    decreases |alts|
  {
    if alts != [] {
      var p := alts[0];
      if !(OccursAt(url, p, i) && RunEnd(url, i + |p|) > i + |p|) {
        MatchAtNone(url, i, alts[1..]);
        forall k | 0 <= k < |alts[1..]| ensures alts[1..][k] == alts[k + 1] {}
      }
    }
  }

  /** When trying the alternatives at one position succeeds, the result is the capture after one of them. */
  lemma {:induction false} MatchAtFound(url: string, i: nat, alts: seq<string>) returns (k: nat)
    requires i <= |url| && MatchAt(url, i, alts).Some?
    ensures k < |alts| && CapturedAt(url, alts[k], i, MatchAt(url, i, alts).value)
    decreases |alts|
  {
    var p := alts[0];
    if OccursAt(url, p, i) && RunEnd(url, i + |p|) > i + |p| {
      var e := RunEnd(url, i + |p|);
      assert CapturedAt(url, p, i, url[i + |p|..e]);
      k := 0;
    } else {
      var k' := MatchAtFound(url, i, alts[1..]);
      assert alts[1..][k'] == alts[k' + 1];
      k := k' + 1;
    }
  }

  lemma MatchAtSpec(url: string, i: nat, alts: seq<string>)
    requires i <= |url|
    ensures MatchAt(url, i, alts).None? <==> forall k :: 0 <= k < |alts| ==> !PrefixMatches(url, alts[k], i)
    ensures MatchAt(url, i, alts).Some? ==>
              exists k :: 0 <= k < |alts| && CapturedAt(url, alts[k], i, MatchAt(url, i, alts).value)
  {
    MatchAtNone(url, i, alts);
    if MatchAt(url, i, alts).Some? {
      var k := MatchAtFound(url, i, alts);
    }
  }

  /** The search from `i` finds nothing exactly when no position from `i` on matches. */
  lemma {:induction false} SearchFromNone(url: string, i: nat)
    requires i <= |url|
    ensures SearchFrom(url, i).None? <==> NoMatchIn(url, i, |url| + 1)
    decreases |url| - i
  {
    MatchAtNone(url, i, YouTubePrefixes);
    if MatchAt(url, i, YouTubePrefixes).Some? {
      assert MatchesAt(url, i);
    } else if i < |url| {
      SearchFromNone(url, i + 1);
      assert NoMatchIn(url, i, |url| + 1) <==> !MatchesAt(url, i) && NoMatchIn(url, i + 1, |url| + 1);
    } else {
      assert NoMatchIn(url, i, |url| + 1) <==> !MatchesAt(url, i);
    }
  }

  /** When the search from `i` succeeds, it returns the capture at the leftmost matching position. */
  lemma {:induction false} SearchFromFound(url: string, i: nat) returns (j: nat, k: nat)
    requires i <= |url| && SearchFrom(url, i).Some?
    ensures i <= j <= |url| && k < |YouTubePrefixes| && NoMatchIn(url, i, j)
    ensures CapturedAt(url, YouTubePrefixes[k], j, SearchFrom(url, i).value)
    decreases |url| - i
  {
    if MatchAt(url, i, YouTubePrefixes).Some? {
      k := MatchAtFound(url, i, YouTubePrefixes);
      j := i;
    } else {
      MatchAtNone(url, i, YouTubePrefixes);
      j, k := SearchFromFound(url, i + 1);
    }
  }

  lemma SearchFromSpec(url: string, i: nat)
    requires i <= |url|
    ensures SearchFrom(url, i).None? <==> NoMatchIn(url, i, |url| + 1)
    ensures SearchFrom(url, i).Some? ==>
              exists j, k :: i <= j <= |url| && 0 <= k < |YouTubePrefixes| && NoMatchIn(url, i, j)
                && CapturedAt(url, YouTubePrefixes[k], j, SearchFrom(url, i).value)
  {
    SearchFromNone(url, i);
    if SearchFrom(url, i).Some? {
      var j, k := SearchFromFound(url, i);
    }
  }

  /**
   * The extracted identifier is None exactly when the regular expression matches
   * nowhere; otherwise it is the capture at the leftmost matching position.
   */
  lemma ExtractYouTubeVideoIdSpec(url: string)
    ensures ExtractYouTubeVideoId(url).None? <==> NoMatchIn(url, 0, |url| + 1)
    ensures ExtractYouTubeVideoId(url).Some? ==>
              exists i, k :: 0 <= i <= |url| && 0 <= k < |YouTubePrefixes| && NoMatchIn(url, 0, i)
                && CapturedAt(url, YouTubePrefixes[k], i, ExtractYouTubeVideoId(url).value)
  {
    SearchFromNone(url, 0);
    if SearchFrom(url, 0).Some? {
      var i, k := SearchFromFound(url, 0);
    }
  }

  /** A short link yields the identifier that follows it, up to the first stop character. */
  lemma ShortLinkExample()
    ensures ExtractYouTubeVideoId("https://youtu.be/abc?t=5") == Some("abc")
  {
    var url := "https://youtu.be/abc?t=5";
    ShortLinkMatch(url);
    var i := 8;
    while i > 0
      invariant 0 <= i <= 8
      invariant SearchFrom(url, i) == Some("abc")
    {
      i := i - 1;
      assert url[i] in "https://";
      NoMatchWithoutY(url, i);
    }
  }

  /** At index 8 the short-link alternative matches, the first two fail, and the capture ends at `?`. */
  lemma ShortLinkMatch(url: string)
    requires url == "https://youtu.be/abc?t=5"
    ensures MatchAt(url, 8, YouTubePrefixes) == Some("abc")
  {
    var alts := YouTubePrefixes;
    assert !OccursAt(url, alts[0], 8);
    assert OccursAt(url, "youtu.be/", 8);
    assert IsStop(url[20]) && RunEnd(url, 20) == 20;
    assert !IsStop(url[19]) && RunEnd(url, 19) == 20;
    assert !IsStop(url[18]) && RunEnd(url, 18) == 20;
    assert !IsStop(url[17]) && RunEnd(url, 17) == 20;
    assert url[17..20] == "abc";
  }

  /** Every alternative starts with `y`, so none matches at a position holding another character. */
  lemma NoMatchWithoutY(url: string, i: nat)
    requires i < |url| && url[i] != 'y'
    ensures MatchAt(url, i, YouTubePrefixes) == None
  {
    MatchAtNone(url, i, YouTubePrefixes);
    forall k | 0 <= k < |YouTubePrefixes| ensures !OccursAt(url, YouTubePrefixes[k], i) {
      var p := YouTubePrefixes[k];
      assert p[0] == 'y';
      OccursAtHead(url, p, i);
    }
  }

  /** An occurrence of a non-empty string starts with its first character. */
  lemma OccursAtHead(s: string, t: string, i: nat)
    requires i < |s| && t != []
    ensures OccursAt(s, t, i) ==> s[i] == t[0]
  {
    if OccursAt(s, t, i) {
      assert s[i..i + |t|][0] == s[i];
    }
  }

  // ---- getYouTubeThumbnail

  datatype ThumbnailQuality = Default | MqDefault | HqDefault | SdDefault | MaxResDefault

  function QualityName(q: ThumbnailQuality): string {
    match q
    case Default => "default"
    case MqDefault => "mqdefault"
    case HqDefault => "hqdefault"
    case SdDefault => "sddefault"
    case MaxResDefault => "maxresdefault"
  }

  const ThumbnailHost := "https://img.youtube.com/vi/"

  /** The image address YouTube serves for the video a URL links to, at the given quality. */
  function GetYouTubeThumbnail(url: string, quality: ThumbnailQuality := MqDefault): Option<string> {
    var videoId := ExtractYouTubeVideoId(url);
    if videoId.Some? && videoId.value != "" then
      Some(ThumbnailHost + videoId.value + "/" + QualityName(quality) + ".jpg")
    else
      None
  }

  /** A thumbnail exists exactly when an identifier can be extracted, and it is built from that identifier. */
  lemma ThumbnailSpec(url: string, quality: ThumbnailQuality)
    ensures GetYouTubeThumbnail(url, quality).None? <==> ExtractYouTubeVideoId(url).None?
    ensures GetYouTubeThumbnail(url, quality).Some? ==>
              GetYouTubeThumbnail(url, quality).value
                == ThumbnailHost + ExtractYouTubeVideoId(url).value + "/" + QualityName(quality) + ".jpg"
    ensures GetYouTubeThumbnail(url) == GetYouTubeThumbnail(url, MqDefault)
  {
  }

  // ---- formatDuration

  /** `h:mm:ss` when the duration reaches an hour, `m:ss` otherwise. */
  function FormatDuration(seconds: nat): string {
    var hours := seconds / 3600;
    var minutes := (seconds % 3600) / 60;
    var secs := seconds % 60;
    if hours > 0 then
      NatToString(hours) + ":" + PadStart2(NatToString(minutes)) + ":" + PadStart2(NatToString(secs))
    else
      NatToString(minutes) + ":" + PadStart2(NatToString(secs))
  }

  /** The three components `formatDuration` prints add back up to the input. */
  lemma DurationDecomposition(seconds: nat)
    ensures (seconds / 3600) * 3600 + ((seconds % 3600) / 60) * 60 + seconds % 60 == seconds
    ensures (seconds % 3600) / 60 < 60 && seconds % 60 < 60
    ensures seconds < 3600 ==> (seconds % 3600) / 60 == seconds / 60
  {
  }

  /** A reader for the clock notation: two or three colon-separated digit fields, in base 60. */
  function ParseClock(t: string): Option<nat> {
    ClockValue(Split(t, ':'))
  }

  /** The value of the colon-separated fields of a clock reading. */
  function ClockValue(f: seq<string>): Option<nat> {
    if |f| == 2 && IsClockField(f[0]) && IsClockField(f[1]) then
      Some(ParseNat(f[0]) * 60 + ParseNat(f[1]))
    else if |f| == 3 && IsClockField(f[0]) && IsClockField(f[1]) && IsClockField(f[2]) then
      Some(ParseNat(f[0]) * 3600 + ParseNat(f[1]) * 60 + ParseNat(f[2]))
    else None
  }

  /** A field of the clock notation: one or more decimal digits. */
  predicate IsClockField(x: string) {
    x != [] && AllDigits(x)
  }

  lemma NoColonInDigits(s: string)
    requires AllDigits(s)
    ensures ':' !in s
  {
  }

  /** Splitting `a:b` at the colon when neither part holds one. */
  lemma SplitClockTwo(a: string, b: string)
    requires AllDigits(a) && AllDigits(b)
    ensures Split(a + ":" + b, ':') == [a, b]
  {
    NoColonInDigits(a);
    NoColonInDigits(b);
    assert a + ":" + b == a + [':'] + b;
    SplitAt(a, ':', b);
  }

  /** Splitting `a:b:c` at the colons when no part holds one. */
  lemma SplitClockThree(a: string, b: string, c: string)
    requires AllDigits(a) && AllDigits(b) && AllDigits(c)
    ensures Split(a + ":" + b + ":" + c, ':') == [a, b, c]
  {
    NoColonInDigits(a);
    NoColonInDigits(b);
    NoColonInDigits(c);
    assert a + ":" + b + ":" + c == a + [':'] + (b + [':'] + c);
    SplitAt(a, ':', b + [':'] + c);
    SplitAt(b, ':', c);
  }

  /** The printed fields: hours, padded minutes and padded seconds, or minutes and padded seconds. */
  lemma FormatDurationFields(seconds: nat)
    ensures var f := Split(FormatDuration(seconds), ':');
      && (seconds >= 3600 ==>
            f == [NatToString(seconds / 3600), PadStart2(NatToString((seconds % 3600) / 60)),
                  PadStart2(NatToString(seconds % 60))])
      && (seconds < 3600 ==> f == [NatToString(seconds / 60), PadStart2(NatToString(seconds % 60))])
  {
    var h, m, sec := seconds / 3600, (seconds % 3600) / 60, seconds % 60;
    var H, M, S := NatToString(h), PadStart2(NatToString(m)), PadStart2(NatToString(sec));
    PadStart2Digits(m);
    PadStart2Digits(sec);
    if h > 0 {
      assert FormatDuration(seconds) == H + ":" + M + ":" + S;
      SplitClockThree(H, M, S);
    } else {
      assert FormatDuration(seconds) == NatToString(m) + ":" + S;
      SplitClockTwo(NatToString(m), S);
      assert seconds / 60 == m;
    }
  }

  /** Reading the printed duration back gives the number of seconds. */
  lemma ClockValueTwo(a: string, b: string, x: nat, y: nat)
    requires IsClockField(a) && IsClockField(b)
    requires ParseNat(a) == x && ParseNat(b) == y
    ensures ClockValue([a, b]) == Some(x * 60 + y)
  {
  }

  lemma ClockValueThree(a: string, b: string, c: string, x: nat, y: nat, z: nat)
    requires IsClockField(a) && IsClockField(b) && IsClockField(c)
    requires ParseNat(a) == x && ParseNat(b) == y && ParseNat(c) == z
    ensures ClockValue([a, b, c]) == Some(x * 3600 + y * 60 + z)
  {
  }

  /** A field printed by `toString` reads back as its value. */
  lemma PrintedField(n: nat)
    ensures IsClockField(NatToString(n)) && ParseNat(NatToString(n)) == n
  {
    ParseNatToString(n);
  }

  /** A field printed by `toString` and `padStart` reads back as its value. */
  lemma PaddedField(m: nat)
    requires m < 100
    ensures IsClockField(PadStart2(NatToString(m))) && ParseNat(PadStart2(NatToString(m))) == m
  {
    PadStart2Digits(m);
  }

  lemma FormatDurationRoundTrip(seconds: nat)
    ensures ParseClock(FormatDuration(seconds)) == Some(seconds)
  {
    var h, m, sec := seconds / 3600, (seconds % 3600) / 60, seconds % 60;
    DurationDecomposition(seconds);
    FormatDurationFields(seconds);
    PaddedField(sec);
    if seconds >= 3600 {
      PrintedField(h);
      PaddedField(m);
      ClockValueThree(NatToString(h), PadStart2(NatToString(m)), PadStart2(NatToString(sec)), h, m, sec);
    } else {
      PrintedField(seconds / 60);
      ClockValueTwo(NatToString(seconds / 60), PadStart2(NatToString(sec)), seconds / 60, sec);
    }
  }



}
