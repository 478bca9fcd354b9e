/** YouTube video ids and URLs. `ExtractYouTubeId` follows the two regular
    expressions of the source with JavaScript's `String.prototype.match`
    semantics (leftmost match, alternatives in order, greedy quantifiers with
    backtracking), then falls back to a bare 11-character id. */
module YouTube {
  import opened Common

  // ---------------------------------------------------------------------------
  // Character classes

  /** The characters `[^&\n?#]` excludes. */
  predicate IsSeparator(c: char) {
    c == '&' || c == '\n' || c == '?' || c == '#'
  }

  /** The characters `.` does not match. */
  predicate IsLineTerminator(c: char) {
    c == '\n' || c == '\r' || c == '\U{2028}' || c == '\U{2029}'
  }

  /** `[a-zA-Z0-9_-]`. */
  predicate IsIdChar(c: char) {
    ('a' <= c <= 'z') || ('A' <= c <= 'Z') || ('0' <= c <= '9') || c == '_' || c == '-'
  }

  /** What `String.prototype.trim` removes: white space and line terminators. */
  predicate IsJsWhitespace(c: char) {
    c == '\t' || c == '\n' || c == '\U{000B}' || c == '\U{000C}' || c == '\r' || c == ' '
    || c == '\U{00A0}' || c == '\U{1680}' || ('\U{2000}' <= c <= '\U{200A}')
    || c == '\U{2028}' || c == '\U{2029}' || c == '\U{202F}' || c == '\U{205F}'
    || c == '\U{3000}' || c == '\U{FEFF}'
  }

  /** A usable id: non-empty and free of the separator characters. */
  predicate Clean(id: string) {
    id != [] && forall k :: 0 <= k < |id| ==> !IsSeparator(id[k])
  }

  predicate LiteralAt(s: string, i: nat, lit: string) {
    i + |lit| <= |s| && s[i..i + |lit|] == lit
  }

  const WatchMarker := "youtube.com/watch?v="
  const ShortMarker := "youtu.be/"
  const EmbedMarker := "youtube.com/embed/"
  const SiteMarker := "youtube.com/"

  // ---------------------------------------------------------------------------
  // Maximal runs: `([^&\n?#]+)`

  /** The end of the run of non-separator characters starting at `k`. */
  function RunEnd(s: string, k: nat): (e: nat)
    requires k <= |s|
    ensures k <= e <= |s|
    ensures forall j :: k <= j < e ==> !IsSeparator(s[j])
    ensures e == |s| || IsSeparator(s[e])
    decreases |s| - k
  {
    if k == |s| || IsSeparator(s[k]) then k else RunEnd(s, k + 1)
  }

  function RunFrom(s: string, k: nat): (run: string)
    requires k <= |s|
  {
    s[k..RunEnd(s, k)]
  }

  /** A run that starts on an allowed character is a clean id. */
  lemma RunFromIsClean(s: string, k: nat)
    requires k < |s| && !IsSeparator(s[k])
    ensures Clean(RunFrom(s, k))
  {
    assert forall j :: 0 <= j < |RunFrom(s, k)| ==> RunFrom(s, k)[j] == s[k + j];
  }

  /** The run ends at the first separator at or after `k`. */
  lemma RunEndIsFirstSeparator(s: string, k: nat, e: nat)
    requires k <= e <= |s|
    requires forall j :: k <= j < e ==> !IsSeparator(s[j])
    requires e == |s| || IsSeparator(s[e])
    ensures RunEnd(s, k) == e
  {
  }

  // ---------------------------------------------------------------------------
  // First pattern:
  // (?:youtube\.com\/watch\?v=|youtu\.be\/|youtube\.com\/embed\/)([^&\n?#]+)

  /** Where the captured group starts when the first pattern matches at `i`:
      the alternatives in order, each followed by at least one allowed
      character. */
  function DirectGroup(s: string, i: nat): (g: Option<nat>)
    ensures g.Some? ==> i < g.value < |s| && !IsSeparator(s[g.value])
  {
    if LiteralAt(s, i, WatchMarker) && i + |WatchMarker| < |s| && !IsSeparator(s[i + |WatchMarker|]) then Some(i + |WatchMarker|)
    else if LiteralAt(s, i, ShortMarker) && i + |ShortMarker| < |s| && !IsSeparator(s[i + |ShortMarker|]) then Some(i + |ShortMarker|)
    else if LiteralAt(s, i, EmbedMarker) && i + |EmbedMarker| < |s| && !IsSeparator(s[i + |EmbedMarker|]) then Some(i + |EmbedMarker|)
    else None
  }

  predicate DirectAt(s: string, i: nat) {
    DirectGroup(s, i).Some?
  }

  /** The first pattern matches at `i` and nowhere before it. */
  predicate LeftmostDirect(s: string, i: nat) {
    DirectAt(s, i) && forall j :: 0 <= j < i ==> !DirectAt(s, j)
  }

  /** The leftmost position at or after `i` where the first pattern matches. */
  function ScanDirect(s: string, i: nat): (r: Option<nat>)
    requires i <= |s|
    ensures r.Some? ==> i <= r.value < |s| && DirectAt(s, r.value)
    ensures r.Some? ==> forall j :: i <= j < r.value ==> !DirectAt(s, j)
    ensures r.None? ==> forall j: nat :: i <= j ==> !DirectAt(s, j)
    decreases |s| - i
  {
    if i == |s| then None
    else if DirectAt(s, i) then Some(i)
    else ScanDirect(s, i + 1)
  }

  /** The capture of the first pattern, if it matches. It is the maximal run
      of allowed characters after the leftmost marker that is followed by an
      allowed character. */
  function MatchDirect(s: string): (r: Option<string>)
    ensures r.Some? ==> Clean(r.value)
    ensures r.None? <==> forall i: nat :: !DirectAt(s, i)
    ensures forall i: nat :: LeftmostDirect(s, i) ==> r == Some(RunFrom(s, DirectGroup(s, i).value))
  {
    match ScanDirect(s, 0)
    case None => None
    case Some(i) =>
      var g := DirectGroup(s, i).value;
      RunFromIsClean(s, g);
      assert forall i': nat :: LeftmostDirect(s, i') ==> i' == i by {
        forall i': nat | LeftmostDirect(s, i') ensures i' == i {
          assert DirectAt(s, i) && DirectAt(s, i');
        }
      }
      Some(RunFrom(s, g))
  }

  // ---------------------------------------------------------------------------
  // Second pattern: youtube\.com\/.*[?&]v=([^&\n?#]+)

  /** `[?&]v=` at `p` followed by at least one allowed character. */
  predicate ParamAt(s: string, p: nat) {
    p + 3 < |s| && (s[p] == '?' || s[p] == '&') && s[p + 1] == 'v' && s[p + 2] == '=' && !IsSeparator(s[p + 3])
  }

  /** The second pattern matches at `i` with `[?&]v=` at `p`: the `.*` in
      between crosses no line terminator. */
  predicate SiteMatch(s: string, i: nat, p: nat) {
    && LiteralAt(s, i, SiteMarker)
    && i + |SiteMarker| <= p
    && ParamAt(s, p)
    && (forall k :: i + |SiteMarker| <= k < p ==> !IsLineTerminator(s[k]))
  }

  /** The second pattern matches first at `i`, with its last `[?&]v=` at `p`. */
  ghost predicate LeftmostSite(s: string, i: nat, p: nat) {
    && SiteMatch(s, i, p)
    && (forall j: nat, q: nat :: j < i ==> !SiteMatch(s, j, q))
    && (forall q: nat :: p < q ==> !SiteMatch(s, i, q))
  }

  /** The first line terminator at or after `k`, or the end. */
  function LineEnd(s: string, k: nat): (e: nat)
    requires k <= |s|
    ensures k <= e <= |s|
    ensures forall j :: k <= j < e ==> !IsLineTerminator(s[j])
    ensures e == |s| || IsLineTerminator(s[e])
    decreases |s| - k
  {
    if k == |s| || IsLineTerminator(s[k]) then k else LineEnd(s, k + 1)
  }

  /** The last `[?&]v=` position in `[lo, hi)`: the greedy `.*` backtracks
      from the end of the line. */
  function LastParam(s: string, lo: nat, hi: nat): (r: Option<nat>)
    requires lo <= hi <= |s|
    ensures r.Some? ==> lo <= r.value < hi && ParamAt(s, r.value)
    ensures r.Some? ==> forall q :: r.value < q < hi ==> !ParamAt(s, q)
    ensures r.None? ==> forall q :: lo <= q < hi ==> !ParamAt(s, q)
    decreases hi - lo
  {
    if hi == lo then None
    else if ParamAt(s, hi - 1) then Some(hi - 1)
    else LastParam(s, lo, hi - 1)
  }

  /** The `[?&]v=` position the second pattern uses when it matches at `i`:
      the last one on the line after the marker. */
  function SiteParam(s: string, i: nat): (r: Option<nat>)
    ensures r.Some? ==> SiteMatch(s, i, r.value)
    ensures r.Some? ==> forall q: nat :: r.value < q ==> !SiteMatch(s, i, q)
    ensures r.None? ==> forall q: nat :: !SiteMatch(s, i, q)
  {
    if !LiteralAt(s, i, SiteMarker) then None
    else
      var lo := i + |SiteMarker|;
      var hi := LineEnd(s, lo);
      var r := LastParam(s, lo, hi);
      assert forall q: nat :: SiteMatch(s, i, q) ==> q < hi by {
        forall q: nat | SiteMatch(s, i, q) ensures q < hi {
          if hi < |s| {
            assert IsLineTerminator(s[hi]);
          }
        }
      }
      r
  }

  /** The leftmost position at or after `i` where the second pattern matches. */
  function ScanSite(s: string, i: nat): (r: Option<nat>)
    requires i <= |s|
    ensures r.Some? ==> i <= r.value < |s| && SiteParam(s, r.value).Some?
    ensures r.Some? ==> forall j :: i <= j < r.value ==> SiteParam(s, j).None?
    ensures r.None? ==> forall j: nat :: i <= j ==> SiteParam(s, j).None?
    decreases |s| - i
  {
    if i == |s| then None
    else if SiteParam(s, i).Some? then Some(i)
    else ScanSite(s, i + 1)
  }

  /** The capture of the second pattern, if it matches: the run after the
      last `[?&]v=` on the line of the leftmost `youtube.com/` that has one. */
  function MatchSiteParam(s: string): (r: Option<string>)
    ensures r.Some? ==> Clean(r.value)
    ensures r.None? <==> forall i: nat, p: nat :: !SiteMatch(s, i, p)
    ensures forall i: nat, p: nat :: LeftmostSite(s, i, p) ==> r == Some(RunFrom(s, p + 3))
  {
    match ScanSite(s, 0)
    case None =>
      NoSiteMatch(s);
      None
    case Some(i) =>
      var p := SiteParam(s, i).value;
      FoundSite(s, i, p);
      Some(RunFrom(s, p + 3))
  }

  /** What the scan finds is a match, its capture is clean, and it is the
      leftmost match with the last `[?&]v=`. */
  lemma FoundSite(s: string, i: nat, p: nat)
    requires i <= |s| && ScanSite(s, 0) == Some(i) && SiteParam(s, i) == Some(p)
    ensures p + 3 < |s| && SiteMatch(s, i, p)
    ensures Clean(RunFrom(s, p + 3))
    ensures forall i': nat, p': nat :: LeftmostSite(s, i', p') ==> p' == p
  {
    RunFromIsClean(s, p + 3);
    LeftmostSiteUnique(s, i, p);
  }

  lemma NoSiteMatch(s: string)
    requires ScanSite(s, 0).None?
    ensures forall i: nat, p: nat :: !SiteMatch(s, i, p)
  {
    forall i: nat, p: nat ensures !SiteMatch(s, i, p) {
      assert SiteParam(s, i).None?;
    }
  }

  lemma LeftmostSiteUnique(s: string, i: nat, p: nat)
    requires i <= |s| && ScanSite(s, 0) == Some(i) && SiteParam(s, i) == Some(p)
    ensures forall i': nat, p': nat :: LeftmostSite(s, i', p') ==> i' == i && p' == p
  {
    forall i': nat, p': nat | LeftmostSite(s, i', p') ensures i' == i && p' == p {
      assert SiteParam(s, i').Some? && SiteMatch(s, i, p);
      assert i' == i;
      assert SiteMatch(s, i, p');
    }
  }

  // ---------------------------------------------------------------------------
  // Bare ids: /^[a-zA-Z0-9_-]{11}$/ on the trimmed input

  /** The end of the white space that starts at `i`. */
  function LeadingWhitespace(s: string, i: nat): (n: nat)
    requires i <= |s|
    ensures i <= n <= |s|
    ensures forall k :: i <= k < n ==> IsJsWhitespace(s[k])
    ensures n < |s| ==> !IsJsWhitespace(s[n])
    decreases |s| - i
  {
    if i < |s| && IsJsWhitespace(s[i]) then LeadingWhitespace(s, i + 1) else i
  }

  /** The start of the white space that ends at `j`, not going below `lo`. */
  function TrailingWhitespace(s: string, lo: nat, j: nat): (m: nat)
    requires lo <= j <= |s|
    ensures lo <= m <= j
    ensures forall k :: m <= k < j ==> IsJsWhitespace(s[k])
    ensures m > lo ==> !IsJsWhitespace(s[m - 1])
    decreases j
  {
    if j > lo && IsJsWhitespace(s[j - 1]) then TrailingWhitespace(s, lo, j - 1) else j
  }

  /** Every character before `i` and from `j` on satisfies `ws`. */
  predicate Margins(s: string, i: nat, j: nat, ws: char -> bool)
    requires i <= j <= |s|
  {
    (forall k :: 0 <= k < i ==> ws(s[k])) && (forall k :: j <= k < |s| ==> ws(s[k]))
  }

  /** Everything before `i` and from `j` on is white space. */
  predicate WhitespaceMargins(s: string, i: nat, j: nat)
    requires i <= j <= |s|
  {
    Margins(s, i, j, IsJsWhitespace)
  }

  /** Margins whose inner ends are not margin characters are determined by
      the text: two such pairs of bounds coincide. */
  lemma MarginsUnique(s: string, i: nat, j: nat, a: nat, b: nat, ws: char -> bool)
    requires i <= j <= |s| && a < b <= |s|
    requires Margins(s, i, j, ws) && Margins(s, a, b, ws)
    requires !ws(s[a]) && !ws(s[b - 1])
    requires i < j ==> !ws(s[i]) && !ws(s[j - 1])
    ensures i == a && j == b
  {
  }

  /** `String.prototype.trim`: the input with white space cut off both ends,
      and no white space left at either end of the result; an input without
      white space at its ends is returned unchanged. */
  function Trim(s: string): (r: string)
    ensures |r| <= |s|
    ensures var i := LeadingWhitespace(s, 0);
      i + |r| <= |s| && r == s[i..i + |r|] && WhitespaceMargins(s, i, i + |r|)
    ensures r != [] ==> !IsJsWhitespace(r[0]) && !IsJsWhitespace(r[|r| - 1])
    ensures s == [] || (!IsJsWhitespace(s[0]) && !IsJsWhitespace(s[|s| - 1])) ==> r == s
  {
    var i := LeadingWhitespace(s, 0);
    var j := TrailingWhitespace(s, i, |s|);
    assert i < j ==> s[i..j][0] == s[i] && s[i..j][j - i - 1] == s[j - 1];
    s[i..j]
  }

  /** Padding with white space on either side is exactly what trimming
      removes: a text whose ends are not white space is recovered. */
  lemma TrimPadded(before: string, t: string, after: string)
    requires forall k :: 0 <= k < |before| ==> IsJsWhitespace(before[k])
    requires forall k :: 0 <= k < |after| ==> IsJsWhitespace(after[k])
    requires t != [] && !IsJsWhitespace(t[0]) && !IsJsWhitespace(t[|t| - 1])
    ensures Trim(before + t + after) == t
  {
    var s := before + t + after;
    var a, b := |before|, |before| + |t|;
    assert s[a..b] == t;
    assert s[a] == t[0] && s[b - 1] == t[|t| - 1];
    assert WhitespaceMargins(s, a, b) by {
      assert forall k :: 0 <= k < a ==> s[k] == before[k];
      assert forall k :: b <= k < |s| ==> s[k] == after[k - b];
    }
    TrimBetween(s, a, b);
  }

  /** Trimming keeps exactly the part between white-space margins whose inner
      ends are not white space. */
  lemma TrimBetween(s: string, a: nat, b: nat)
    requires a < b <= |s| && WhitespaceMargins(s, a, b)
    requires !IsJsWhitespace(s[a]) && !IsJsWhitespace(s[b - 1])
    ensures Trim(s) == s[a..b]
  {
    var r := Trim(s);
    var i := LeadingWhitespace(s, 0);
    var j := i + |r|;
    assert i < j ==> r[0] == s[i] && r[|r| - 1] == s[j - 1];
    MarginsUnique(s, i, j, a, b, IsJsWhitespace);
  }

  predicate IdChars(t: string) {
    forall k :: 0 <= k < |t| ==> IsIdChar(t[k])
  }

  /** `/^[a-zA-Z0-9_-]{11}$/`. */
  predicate IsBareId(t: string) {
    |t| == 11 && IdChars(t)
  }

  // ---------------------------------------------------------------------------
  // extractYouTubeId

  /** The patterns in order, then the bare id, else nothing. Any id returned
      is non-empty and free of `&`, `?`, `#` and newlines. */
  function ExtractYouTubeId(url: string): (r: Option<string>)
    ensures r.Some? ==> Clean(r.value)
    ensures MatchDirect(url).Some? ==> r == MatchDirect(url)
    ensures MatchDirect(url).None? && MatchSiteParam(url).Some? ==> r == MatchSiteParam(url)
    ensures MatchDirect(url).None? && MatchSiteParam(url).None? ==>
      r == (if IsBareId(Trim(url)) then Some(Trim(url)) else None)
  {
    match MatchDirect(url)
    case Some(id) => Some(id)
    case None =>
      match MatchSiteParam(url)
      case Some(id) => Some(id)
      case None =>
        var t := Trim(url);
        if IsBareId(t) then
          IdCharsAreClean(t);
          Some(t)
        else None
  }

  /** Id characters are never separators. */
  lemma IdCharsAreClean(t: string)
    requires t != [] && IdChars(t)
    ensures Clean(t)
  {
    forall k | 0 <= k < |t| ensures !IsSeparator(t[k]) {
      assert IsIdChar(t[k]);
    }
  }

  // ---------------------------------------------------------------------------
  // URL builders

  const ThumbnailPrefix := "https://img.youtube.com/vi/"
  const ThumbnailSuffix := "/maxresdefault.jpg"

  /** `getYouTubeThumbnail`: the id can be read back from the URL. */
  function ThumbnailUrl(videoId: string): (u: string)
    ensures |u| == |ThumbnailPrefix| + |videoId| + |ThumbnailSuffix|
    ensures u[..|ThumbnailPrefix|] == ThumbnailPrefix
    ensures u[|u| - |ThumbnailSuffix|..] == ThumbnailSuffix
    ensures u[|ThumbnailPrefix|..|u| - |ThumbnailSuffix|] == videoId
  {
    ThumbnailPrefix + videoId + ThumbnailSuffix
  }

  /** Different ids give different thumbnails. */
  lemma ThumbnailInjective(a: string, b: string)
    requires ThumbnailUrl(a) == ThumbnailUrl(b)
    ensures a == b
  {
    var u := ThumbnailUrl(a);
    assert a == u[|ThumbnailPrefix|..|u| - |ThumbnailSuffix|];
  }

  const EmbedPrefix := "https://www.youtube.com/embed/"

  function AutoplaySuffix(autoplay: bool): string {
    "?enablejsapi=1&autoplay=" + (if autoplay then "1" else "0")
  }

  /** The front of a concatenation is its first part; its last `k` elements
      are the last `k` of its second part. */
  lemma EndsOfConcat(a: string, b: string, k: nat)
    requires k <= |b|
    ensures (a + b)[..|a|] == a
    ensures (a + b)[|a + b| - k..] == b[|b| - k..]
    ensures k > 0 ==> (a + b)[|a + b| - 1] == b[|b| - 1]
    ensures k > 0 ==> (a + b)[|a + b| - k..][..k - 1] == b[|b| - k..][..k - 1]
  {
  }

  /** `getYouTubeEmbedUrl`, with autoplay off unless asked for: the URL ends
      in `autoplay=` and the flag's digit, which is 1 exactly when asked for. */
  function EmbedUrl(videoId: string, autoplay: bool := false): (u: string)
    ensures |u| >= |EmbedPrefix| + 10 && u[..|EmbedPrefix|] == EmbedPrefix
    ensures u[|u| - 10..|u| - 1] == "autoplay="
    ensures u[|u| - 1] == '1' <==> autoplay
    ensures u[|u| - 1] == '0' <==> !autoplay
  {
    var tail := AutoplaySuffix(autoplay);
    AutoplayTail(autoplay);
    EndsOfConcat(EmbedPrefix + videoId, tail, 10);
    EndsOfConcat(EmbedPrefix, videoId + tail, 0);
    EmbedPrefix + videoId + tail
  }

  lemma AutoplayTail(autoplay: bool)
    ensures var tail := AutoplaySuffix(autoplay);
      && |tail| >= 10
      && tail[|tail| - 10..][..9] == "autoplay="
      && tail[|tail| - 1] == if autoplay then '1' else '0'
  {
  }

  // ---------------------------------------------------------------------------
  // Round trips

  lemma NotLiteralAt(s: string, i: nat, lit: string, k: nat)
    requires k < |lit| && i + k < |s| && s[i + k] != lit[k]
    ensures !LiteralAt(s, i, lit)
  {
    if i + |lit| <= |s| {
      assert s[i..i + |lit|][k] == s[i + k];
    }
  }

  lemma LiteralAtConcat(a: string, lit: string, rest: string)
    ensures LiteralAt(a + lit + rest, |a|, lit)
  {
    var s := a + lit + rest;
    assert s[|a|..|a| + |lit|] == lit;
  }

  /** Every marker of the first pattern starts with 'y'. */
  lemma NoDirectWithoutY(s: string, i: nat)
    requires i < |s| && s[i] != 'y'
    ensures !DirectAt(s, i)
  {
    NotLiteralAt(s, i, WatchMarker, 0);
    NotLiteralAt(s, i, ShortMarker, 0);
    NotLiteralAt(s, i, EmbedMarker, 0);
  }

  /** The group of the first pattern starts right after the marker, whichever
      of the three it is: no two markers match at the same place. */
  lemma DirectGroupAfterMarker(lead: string, marker: string, id: string, tail: string)
    requires marker == WatchMarker || marker == ShortMarker || marker == EmbedMarker
    requires Clean(id)
    ensures DirectGroup(lead + marker + id + tail, |lead|) == Some(|lead| + |marker|)
  {
    var s := lead + marker + id + tail;
    var i := |lead|;
    LiteralAtConcat(lead, marker, id + tail);
    assert s == lead + marker + (id + tail);
    assert s[i + |marker|] == id[0];
    if marker == ShortMarker {
      assert s[i + 5] == marker[5];
      NotLiteralAt(s, i, WatchMarker, 5);
    } else if marker == EmbedMarker {
      assert s[i + 12] == marker[12];
      assert s[i + 5] == marker[5];
      NotLiteralAt(s, i, WatchMarker, 12);
      NotLiteralAt(s, i, ShortMarker, 5);
    }
  }

  /** A URL made of a lead without 'y', one of the first pattern's markers, a
      clean id and a tail that starts with a separator yields that id. */
  lemma DirectRoundTrip(lead: string, marker: string, id: string, tail: string)
    requires 'y' !in lead
    requires marker == WatchMarker || marker == ShortMarker || marker == EmbedMarker
    requires Clean(id)
    requires tail == [] || IsSeparator(tail[0])
    ensures ExtractYouTubeId(lead + marker + id + tail) == Some(id)
  {
    var s := lead + marker + id + tail;
    var i := |lead|;
    var g := i + |marker|;
    forall j: nat | j < i ensures !DirectAt(s, j) {
      assert s[j] == lead[j];
      NoDirectWithoutY(s, j);
    }
    DirectGroupAfterMarker(lead, marker, id, tail);
    assert LeftmostDirect(s, i);
    RunOfId(lead + marker, id, tail);
    assert s == (lead + marker) + id + tail;
  }

  lemma RunOfId(a: string, id: string, tail: string)
    requires Clean(id)
    requires tail == [] || IsSeparator(tail[0])
    ensures RunFrom(a + id + tail, |a|) == id
  {
    var s := a + id + tail;
    var g := |a|;
    assert forall k :: g <= k < g + |id| ==> s[k] == id[k - g];
    RunEndIsFirstSeparator(s, g, g + |id|);
    assert s[g..g + |id|] == id;
  }

  /** The embed URL of a clean id gives the id back. */
  lemma EmbedUrlRoundTrip(id: string, autoplay: bool)
    requires Clean(id)
    ensures ExtractYouTubeId(EmbedUrl(id, autoplay)) == Some(id)
  {
    assert EmbedPrefix == "https://www." + EmbedMarker;
    DirectRoundTrip("https://www.", EmbedMarker, id, AutoplaySuffix(autoplay));
  }

  /** A watch link of a clean id gives the id back. */
  lemma WatchLinkRoundTrip(id: string)
    requires Clean(id)
    ensures ExtractYouTubeId("https://www.youtube.com/watch?v=" + id) == Some(id)
  {
    assert "https://www.youtube.com/watch?v=" == "https://www." + WatchMarker;
    assert "https://www.youtube.com/watch?v=" + id == "https://www." + WatchMarker + id + [];
    DirectRoundTrip("https://www.", WatchMarker, id, []);
  }

  /** A short link of a clean id gives the id back. */
  lemma ShortLinkRoundTrip(id: string)
    requires Clean(id)
    ensures ExtractYouTubeId("https://youtu.be/" + id) == Some(id)
  {
    assert "https://youtu.be/" == "https://" + ShortMarker;
    assert "https://youtu.be/" + id == "https://" + ShortMarker + id + [];
    DirectRoundTrip("https://", ShortMarker, id, []);
  }

  /** No marker of the first pattern fits in a bare id: each contains a '.'. */
  lemma BareIdNoDirect(id: string)
    requires IsBareId(id)
    ensures MatchDirect(id) == None
  {
    forall i: nat ensures !DirectAt(id, i) {
      NoDirectInIdChars(id, i);
    }
  }

  /** `youtube.com/` is longer than a bare id. */
  lemma BareIdNoSite(id: string)
    requires IsBareId(id)
    ensures MatchSiteParam(id) == None
  {
    forall i: nat, p: nat ensures !SiteMatch(id, i, p) {
    }
  }

  /** A bare 11-character id is returned as it is. */
  lemma BareIdRoundTrip(id: string)
    requires IsBareId(id)
    ensures ExtractYouTubeId(id) == Some(id)
  {
    BareIdNoDirect(id);
    BareIdNoSite(id);
    BareIdUntrimmed(id);
  }

  lemma BareIdUntrimmed(id: string)
    requires IsBareId(id)
    ensures Trim(id) == id
  {
    IdCharNotWhitespace(id[0]);
    IdCharNotWhitespace(id[|id| - 1]);
  }

  lemma IdCharNotWhitespace(c: char)
    requires IsIdChar(c)
    ensures !IsJsWhitespace(c)
  {
  }

  // ---------------------------------------------------------------------------
  // The second pattern on a link whose `v` is not the first parameter

  const SharedLinkLead := "https://www."
  const SharedLinkQuery := "watch?feature=share&v="

  /** A watch link with another parameter before `v`, as share buttons make them. */
  function SharedLink(id: string): string {
    SharedLinkLead + SiteMarker + SharedLinkQuery + id
  }

  /** Every marker of the first pattern has a '.' at 5 or 7, which no id
      character is. */
  lemma NoDirectInIdChars(s: string, i: nat)
    requires forall k :: i <= k < |s| ==> IsIdChar(s[k])
    ensures !DirectAt(s, i)
  {
    if i + 5 < |s| {
      assert IsIdChar(s[i + 5]);
      NotLiteralAt(s, i, ShortMarker, 5);
    }
    if i + 7 < |s| {
      assert IsIdChar(s[i + 7]);
      NotLiteralAt(s, i, WatchMarker, 7);
      NotLiteralAt(s, i, EmbedMarker, 7);
    }
  }

  /** Where the parts of a shared link sit: the lead in [0, 12),
      `youtube.com/` in [12, 24), the query in [24, 46), the id from 46. */
  lemma SharedLinkParts(id: string)
    ensures var s := SharedLink(id);
      && |s| == 46 + |id|
      && (forall k :: 0 <= k < 12 ==> s[k] == SharedLinkLead[k])
      && LiteralAt(s, 12, SiteMarker)
      && (forall k :: 12 <= k < 24 ==> s[k] == SiteMarker[k - 12])
      && (forall k :: 24 <= k < 46 ==> s[k] == SharedLinkQuery[k - 24])
      && (forall k :: 46 <= k < |s| ==> s[k] == id[k - 46])
  {
    var s := SharedLink(id);
    assert s == SharedLinkLead + SiteMarker + (SharedLinkQuery + id);
    LiteralAtConcat(SharedLinkLead, SiteMarker, SharedLinkQuery + id);
  }

  /** The only 'y' before the id starts `youtube.com/`, and no marker of the
      first pattern matches there. */
  lemma SharedLinkNoDirect(id: string)
    requires IdChars(id)
    ensures forall i: nat :: !DirectAt(SharedLink(id), i)
  {
    var s := SharedLink(id);
    SharedLinkParts(id);
    forall i: nat ensures !DirectAt(s, i) {
      if i == 12 {
        NoDirectAtSite(id);
      } else if i < 46 {
        NoYBeforeId(id, i);
        NoDirectWithoutY(s, i);
      } else {
        NoDirectInIdChars(s, i);
      }
    }
  }

  lemma NoDirectAtSite(id: string)
    ensures !DirectAt(SharedLink(id), 12)
  {
    var s := SharedLink(id);
    SharedLinkParts(id);
    assert s[30] == SharedLinkQuery[6];
    assert s[17] == SiteMarker[5];
    assert s[24] == SharedLinkQuery[0];
    NotLiteralAt(s, 12, WatchMarker, 18);
    NotLiteralAt(s, 12, ShortMarker, 5);
    NotLiteralAt(s, 12, EmbedMarker, 12);
  }

  lemma NoYBeforeId(id: string, i: nat)
    requires i < 46 && i != 12
    ensures i < |SharedLink(id)| && SharedLink(id)[i] != 'y'
  {
    var s := SharedLink(id);
    SharedLinkParts(id);
    if i < 12 {
      assert s[i] == SharedLinkLead[i];
    } else if i < 24 {
      assert s[i] == SiteMarker[i - 12];
    } else {
      assert s[i] == SharedLinkQuery[i - 24];
    }
  }

  /** The second pattern matches first at `youtube.com/`, with its `&v=` as
      the last `[?&]v=` on the line. */
  lemma SharedLinkSite(id: string)
    requires id != [] && IdChars(id)
    ensures LeftmostSite(SharedLink(id), 12, 43)
  {
    var s := SharedLink(id);
    SharedLinkMatch(id);
    forall j: nat, q: nat | j < 12 ensures !SiteMatch(s, j, q) {
      NoYBeforeId(id, j);
      NotLiteralAt(s, j, SiteMarker, 0);
    }
    SharedLinkLastParam(id);
  }

  lemma SharedLinkMatch(id: string)
    requires id != [] && IdChars(id)
    ensures SiteMatch(SharedLink(id), 12, 43)
  {
    var s := SharedLink(id);
    SharedLinkParts(id);
    assert s[43] == SharedLinkQuery[19] && s[44] == SharedLinkQuery[20] && s[45] == SharedLinkQuery[21];
    assert IsIdChar(s[46]);
    forall k | 24 <= k < 43 ensures !IsLineTerminator(s[k]) {
      assert s[k] == SharedLinkQuery[k - 24];
    }
  }

  lemma SharedLinkLastParam(id: string)
    requires IdChars(id)
    ensures forall q: nat :: 43 < q ==> !SiteMatch(SharedLink(id), 12, q)
  {
    var s := SharedLink(id);
    SharedLinkParts(id);
    assert s[44] == SharedLinkQuery[20] && s[45] == SharedLinkQuery[21];
    forall q: nat | 43 < q ensures !ParamAt(s, q) {
      if 46 <= q < |s| {
        assert IsIdChar(s[q]);
      }
    }
  }

  /** A shared watch link of an id made of id characters gives the id back,
      through the second pattern. */
  lemma SharedLinkRoundTrip(id: string)
    requires id != [] && IdChars(id)
    ensures ExtractYouTubeId(SharedLink(id)) == Some(id)
  {
    var s := SharedLink(id);
    SharedLinkNoDirect(id);
    SharedLinkSite(id);
    IdCharsAreClean(id);
    RunOfId(SharedLinkLead + SiteMarker + SharedLinkQuery, id, []);
    assert s == (SharedLinkLead + SiteMarker + SharedLinkQuery) + id + [];
    assert |SharedLinkLead + SiteMarker + SharedLinkQuery| == 46;
  }
}
