/** URL classification of the music service: the substring test that picks the
    embedded-video backend, and the regular expression that extracts an
    eleven-character video id. */
module YouTubeUrl {
  import opened Wrappers

  /** `lit` occurs in `s` starting at position `p`. */
  predicate HasAt(s: string, p: nat, lit: string) {
    p + |lit| <= |s| && forall k :: 0 <= k < |lit| ==> s[p + k] == lit[k]
  }

  /** `String.prototype.includes`, searched from position `i` on. */
  function ContainsFrom(s: string, sub: string, i: nat): (b: bool)
    requires i <= |s|
    ensures b <==> exists j :: i <= j <= |s| && HasAt(s, j, sub)
    decreases |s| - i
  {
    if HasAt(s, i, sub) then true
    else if i == |s| then false
    else ContainsFrom(s, sub, i + 1)
  }

  function Contains(s: string, sub: string): (b: bool)
    ensures b <==> exists j :: 0 <= j <= |s| && HasAt(s, j, sub)
  {
    ContainsFrom(s, sub, 0)
  }

  /** The test `url.includes('youtube.com') || url.includes('youtu.be')` that decides
      between the embedded-video and the native-audio backend. */
  function IsYouTubeUrl(u: string): (b: bool)
    ensures b <==> ((exists j :: 0 <= j <= |u| && HasAt(u, j, "youtube.com"))
                    || (exists j :: 0 <= j <= |u| && HasAt(u, j, "youtu.be")))
  {
    Contains(u, "youtube.com") || Contains(u, "youtu.be")
  }

  /** The characters a JavaScript `.` refuses to match. */
  predicate IsLineTerminator(c: char) {
    c == '\n' || c == '\r' || c == '\U{2028}' || c == '\U{2029}'
  }

  /** `\w` without the `u` flag. */
  predicate IsWordChar(c: char) {
    ('a' <= c <= 'z') || ('A' <= c <= 'Z') || ('0' <= c <= '9') || c == '_'
  }

  /** The characters `[^#&?]` excludes: they end the video id. */
  predicate IsIdStop(c: char) {
    c == '#' || c == '&' || c == '?'
  }

  /** Length of the marker alternative `youtu.be\/|v\/|u\/\w\/|embed\/|watch\?v=|&v=`
      that matches at `p`, or 0 when none does. The six alternatives start with
      six different characters, so the first character picks the only candidate. */
  function MarkerLength(s: string, p: nat): (m: nat)
    ensures m == 0 || p + m <= |s|
    ensures m != 0 ==> 2 <= m <= 9
  {
    if p >= |s| then 0
    else match s[p]
      case 'y' => if HasAt(s, p, "youtu") && p + 9 <= |s| && !IsLineTerminator(s[p + 5]) && HasAt(s, p + 6, "be/") then 9 else 0
      case 'v' => if HasAt(s, p, "v/") then 2 else 0
      case 'u' => if p + 4 <= |s| && s[p + 1] == '/' && IsWordChar(s[p + 2]) && s[p + 3] == '/' then 4 else 0
      case 'e' => if HasAt(s, p, "embed/") then 6 else 0
      case 'w' => if HasAt(s, p, "watch?v=") then 8 else 0
      case '&' => if HasAt(s, p, "&v=") then 3 else 0
      case _ => 0
  }

  /** Each alternative of `youtu.be\/|v\/|u\/\w\/|embed\/|watch\?v=|&v=`, stated
      with its own literal: MarkerLength is the length of the alternative that
      matches at `p`, and 0 exactly when none does. */
  lemma MarkerAlternatives(s: string, p: nat)
    ensures MarkerLength(s, p) == 9 <==>
              HasAt(s, p, "youtu") && p + 9 <= |s| && !IsLineTerminator(s[p + 5]) && HasAt(s, p + 6, "be/")
    ensures MarkerLength(s, p) == 2 <==> HasAt(s, p, "v/")
    ensures MarkerLength(s, p) == 4 <==>
              p + 4 <= |s| && s[p] == 'u' && s[p + 1] == '/' && IsWordChar(s[p + 2]) && s[p + 3] == '/'
    ensures MarkerLength(s, p) == 6 <==> HasAt(s, p, "embed/")
    ensures MarkerLength(s, p) == 8 <==> HasAt(s, p, "watch?v=")
    ensures MarkerLength(s, p) == 3 <==> HasAt(s, p, "&v=")
    ensures MarkerLength(s, p) in {0, 2, 3, 4, 6, 8, 9}
  {
    HasAtChar(s, p, "youtu", 0);
    HasAtChar(s, p, "v/", 0);
    HasAtChar(s, p, "embed/", 0);
    HasAtChar(s, p, "watch?v=", 0);
    HasAtChar(s, p, "&v=", 0);
  }

  /** Index of the first line terminator at or after `i`, or `|s|`: the leading
      `^.*` can reach no further than this. */
  function LineEndFrom(s: string, i: nat): (e: nat)
    requires i <= |s|
    ensures i <= e <= |s|
    ensures forall j :: i <= j < e ==> !IsLineTerminator(s[j])
    ensures e == |s| || IsLineTerminator(s[e])
    decreases |s| - i
  {
    if i == |s| || IsLineTerminator(s[i]) then i else LineEndFrom(s, i + 1)
  }

  /** The greatest position `q <= p` where a marker matches: the greedy `^.*`
      backs off one character at a time from its longest match. */
  function LastMarker(s: string, p: nat): (r: Option<nat>)
    ensures r.Some? ==> r.value <= p && MarkerLength(s, r.value) > 0
    ensures r.Some? ==> forall q :: r.value < q <= p ==> MarkerLength(s, q) == 0
    ensures r.None? ==> forall q :: 0 <= q <= p ==> MarkerLength(s, q) == 0
    decreases p
  {
    if MarkerLength(s, p) > 0 then Some(p)
    else if p == 0 then None
    else LastMarker(s, p - 1)
  }

  /** End of the greedy group `([^#&?]*)` that starts at `i`. */
  function IdEnd(s: string, i: nat): (e: nat)
    requires i <= |s|
    ensures i <= e <= |s|
    ensures forall j :: i <= j < e ==> !IsIdStop(s[j])
    ensures e == |s| || IsIdStop(s[e])
    decreases |s| - i
  {
    if i == |s| || IsIdStop(s[i]) then i else IdEnd(s, i + 1)
  }

  /** `extractVideoId`: the second capture group of the match when it is exactly
      eleven characters long, `None` (JavaScript's `null`) otherwise. */
  function ExtractVideoId(s: string): (r: Option<string>)
    ensures r.Some? ==> |r.value| == 11
    ensures r.Some? ==> forall k :: 0 <= k < |r.value| ==> !IsIdStop(r.value[k])
  {
    match LastMarker(s, LineEndFrom(s, 0))
    case None => None
    case Some(p) =>
      var start := p + MarkerLength(s, p);
      var id := s[start..IdEnd(s, start)];
      if |id| == 11 then Some(id) else None
  }

  /** The thumbnail address built from a video id (`img.youtube.com/vi/<id>/default.jpg`). */
  function ThumbnailFor(videoId: string): (t: string)
    ensures |t| == |videoId| + 39
    ensures HasAt(t, 0, "https://img.youtube.com/vi/")
    ensures HasAt(t, 27, videoId)
    ensures HasAt(t, 27 + |videoId|, "/default.jpg")
  {
    "https://img.youtube.com/vi/" + videoId + "/default.jpg"
  }

  /** Different videos get different thumbnails. */
  lemma ThumbnailForInjective(a: string, b: string)
    requires ThumbnailFor(a) == ThumbnailFor(b)
    ensures a == b
  {
    assert |a| == |b|;
    assert a == ThumbnailFor(a)[27..27 + |a|];
  }

  // ---------------------------------------------------------------------------
  // A declarative reading of the regular expression, and its agreement with
  // ExtractVideoId.

  /** The regular expression matches with its marker at `p`: the prefix `^.*`
      crosses no line terminator, a marker matches at `p`, and no later position
      that `^.*` could reach holds a marker (greedy backtracking stops at the
      first, i.e. rightmost, success). */
  ghost predicate GreedyMatchAt(s: string, p: nat) {
    && p <= |s|
    && (forall j :: 0 <= j < p ==> !IsLineTerminator(s[j]))
    && MarkerLength(s, p) > 0
    && (forall q :: p < q <= |s| && (forall j :: 0 <= j < q ==> !IsLineTerminator(s[j])) ==> MarkerLength(s, q) == 0)
  }

  /** `id` is what the greedy group `([^#&?]*)` captures from position `a`. */
  ghost predicate GroupFrom(s: string, a: nat, id: string) {
    && a + |id| <= |s|
    && (forall k :: 0 <= k < |id| ==> s[a + k] == id[k] && !IsIdStop(id[k]))
    && (a + |id| == |s| || IsIdStop(s[a + |id|]))
  }

  /** Stepping LastMarker down over positions that hold no marker. */
  lemma {:induction false} LastMarkerSkips(s: string, p: nat, q: nat)
    requires q <= p
    requires forall k :: q < k <= p ==> MarkerLength(s, k) == 0
    ensures LastMarker(s, p) == LastMarker(s, q)
    decreases p - q
  {
    if q < p {
      LastMarkerSkips(s, p - 1, q);
    }
  }

  /** A greedy match is the one ExtractVideoId finds. */
  lemma {:induction false} GreedyMatchIsLastMarker(s: string, p: nat)
    requires GreedyMatchAt(s, p)
    ensures LastMarker(s, LineEndFrom(s, 0)) == Some(p)
  {
    var e := LineEndFrom(s, 0);
    assert p <= e;
    forall q | p < q <= e
      ensures MarkerLength(s, q) == 0
    {
      assert forall j :: 0 <= j < q ==> !IsLineTerminator(s[j]);
    }
    LastMarkerSkips(s, e, p);
  }

  /** ExtractVideoId's marker position is a greedy match. */
  lemma {:induction false} LastMarkerIsGreedyMatch(s: string)
    ensures LastMarker(s, LineEndFrom(s, 0)).Some? ==> GreedyMatchAt(s, LastMarker(s, LineEndFrom(s, 0)).value)
  {
    var e := LineEndFrom(s, 0);
    if LastMarker(s, e).Some? {
      var p := LastMarker(s, e).value;
      forall q | p < q <= |s| && (forall j :: 0 <= j < q ==> !IsLineTerminator(s[j]))
        ensures MarkerLength(s, q) == 0
      {
        assert q <= e;
      }
    }
  }

  /** The group captured from `a` is the run up to IdEnd. */
  lemma {:induction false} GroupFromIsIdEnd(s: string, a: nat, id: string)
    requires GroupFrom(s, a, id)
    ensures a + |id| == IdEnd(s, a) && id == s[a..IdEnd(s, a)]
  {
    forall j | a <= j < a + |id|
      ensures !IsIdStop(s[j])
    {
      assert s[a + (j - a)] == id[j - a];
    }
  }

  /** Every id ExtractVideoId returns is the group of a greedy match. */
  lemma {:induction false} ExtractVideoIdSound(s: string, id: string)
    requires ExtractVideoId(s) == Some(id)
    ensures exists p: nat :: GreedyMatchAt(s, p) && GroupFrom(s, p + MarkerLength(s, p), id)
  {
    LastMarkerIsGreedyMatch(s);
    var p := LastMarker(s, LineEndFrom(s, 0)).value;
    var a := p + MarkerLength(s, p);
    assert GroupFrom(s, a, id);
  }

  /** Every greedy match whose group has eleven characters is what
      ExtractVideoId returns. */
  lemma {:induction false} ExtractVideoIdComplete(s: string, p: nat, id: string)
    requires GreedyMatchAt(s, p) && GroupFrom(s, p + MarkerLength(s, p), id)
    requires |id| == 11
    ensures ExtractVideoId(s) == Some(id)
  {
    GreedyMatchIsLastMarker(s, p);
    GroupFromIsIdEnd(s, p + MarkerLength(s, p), id);
  }

  /** ExtractVideoId returns `Some(id)` exactly when the regular expression
      matches with its marker at some `p` and the group after that marker is
      `id`, of length eleven. */
  lemma {:induction false} ExtractVideoIdMatchesRegex(s: string, id: string)
    ensures ExtractVideoId(s) == Some(id) <==>
            |id| == 11 && exists p: nat :: GreedyMatchAt(s, p) && GroupFrom(s, p + MarkerLength(s, p), id)
  {
    if ExtractVideoId(s) == Some(id) {
      ExtractVideoIdSound(s, id);
    }
    if |id| == 11 && exists p: nat :: GreedyMatchAt(s, p) && GroupFrom(s, p + MarkerLength(s, p), id) {
      var p: nat :| GreedyMatchAt(s, p) && GroupFrom(s, p + MarkerLength(s, p), id);
      ExtractVideoIdComplete(s, p, id);
    }
  }

  // ---------------------------------------------------------------------------
  // The canonical forms are accepted.

  lemma HasAtChar(s: string, p: nat, lit: string, k: nat)
    ensures HasAt(s, p, lit) && k < |lit| ==> s[p + k] == lit[k]
  {
  }

  /** The characters YouTube uses in video ids. */
  predicate IsVideoIdChar(c: char) {
    IsWordChar(c) || c == '-'
  }

  /** No marker can start inside a run of video-id characters that reaches the
      end of the string: every marker holds a `/`, `?` or `&`. */
  lemma NoMarkerInIdTail(s: string, q: nat)
    requires forall j :: q <= j < |s| ==> IsVideoIdChar(s[j])
    ensures MarkerLength(s, q) == 0
  {
    HasAtChar(s, q, "v/", 1);
    HasAtChar(s, q, "embed/", 5);
    HasAtChar(s, q, "watch?v=", 5);
    HasAtChar(s, q, "&v=", 0);
    HasAtChar(s, q + 6, "be/", 2);
  }

  lemma {:induction false} IdEndAtTail(s: string, i: nat)
    requires i <= |s|
    requires forall j :: i <= j < |s| ==> IsVideoIdChar(s[j])
    ensures IdEnd(s, i) == |s|
    decreases |s| - i
  {
    if i < |s| {
      IdEndAtTail(s, i + 1);
    }
  }

  /** Shared tail of the canonical-form proofs: the marker of length `m` sits at
      `p`, nothing between it and the id is a marker, and the id runs to the
      end; the id is returned exactly when it has eleven characters. */
  lemma {:induction false} ExtractAfterMarker(s: string, p: nat, m: nat, id: string)
    requires p + m + |id| == |s| && 0 < m && MarkerLength(s, p) == m
    requires s[p + m..] == id
    requires forall j :: 0 <= j < |s| ==> !IsLineTerminator(s[j])
    requires forall j :: p + m <= j < |s| ==> IsVideoIdChar(s[j])
    requires forall k :: p < k < p + m ==> MarkerLength(s, k) == 0
    ensures ExtractVideoId(s) == if |id| == 11 then Some(id) else None
  {
    assert LineEndFrom(s, 0) == |s|;
    forall k | p < k <= |s|
      ensures MarkerLength(s, k) == 0
    {
      if p + m <= k {
        NoMarkerInIdTail(s, k);
      }
    }
    LastMarkerSkips(s, |s|, p);
    assert LastMarker(s, |s|) == Some(p);
    IdEndAtTail(s, p + m);
    assert s[p + m..IdEnd(s, p + m)] == id;
  }

  /** A `youtube.com/watch?v=<id>` address is classified as YouTube and yields its id. */
  lemma WatchUrlAccepted(id: string)
    requires |id| == 11 && forall k :: 0 <= k < 11 ==> IsVideoIdChar(id[k])
    ensures IsYouTubeUrl("https://www.youtube.com/watch?v=" + id)
    ensures ExtractVideoId("https://www.youtube.com/watch?v=" + id) == Some(id)
  {
    var pre := "https://www.youtube.com/watch?v=";
    var s := pre + id;
    assert s[12..23] == pre[12..23] == "youtube.com";
    assert HasAt(s, 12, "youtube.com");
    assert s[24..32] == pre[24..32] == "watch?v=";
    assert s[24] == 'w';
    assert MarkerLength(s, 24) == 8;
    assert s[25] == 'a' && s[26] == 't' && s[27] == 'c' && s[28] == 'h' && s[29] == '?' && s[30] == 'v' && s[31] == '=';
    assert MarkerLength(s, 25) == 0;
    assert MarkerLength(s, 26) == 0;
    assert MarkerLength(s, 27) == 0;
    assert MarkerLength(s, 28) == 0;
    assert MarkerLength(s, 29) == 0;
    HasAtChar(s, 30, "v/", 1);
    assert MarkerLength(s, 30) == 0;
    assert MarkerLength(s, 31) == 0;
    assert s[32..] == id;
    ExtractAfterMarker(s, 24, 8, id);
  }

  /** A `youtube.com/embed/<id>` address is classified as YouTube and yields its id. */
  lemma EmbedUrlAccepted(id: string)
    requires |id| == 11 && forall k :: 0 <= k < 11 ==> IsVideoIdChar(id[k])
    ensures IsYouTubeUrl("https://www.youtube.com/embed/" + id)
    ensures ExtractVideoId("https://www.youtube.com/embed/" + id) == Some(id)
  {
    var pre := "https://www.youtube.com/embed/";
    var s := pre + id;
    assert s[12..23] == pre[12..23] == "youtube.com";
    assert HasAt(s, 12, "youtube.com");
    assert s[24..30] == pre[24..30] == "embed/";
    assert s[24] == 'e';
    assert MarkerLength(s, 24) == 6;
    assert s[25] == 'm' && s[26] == 'b' && s[27] == 'e' && s[28] == 'd' && s[29] == '/';
    assert MarkerLength(s, 25) == 0;
    assert MarkerLength(s, 26) == 0;
    HasAtChar(s, 27, "embed/", 1);
    assert MarkerLength(s, 27) == 0;
    assert MarkerLength(s, 28) == 0;
    assert MarkerLength(s, 29) == 0;
    assert s[30..] == id;
    ExtractAfterMarker(s, 24, 6, id);
  }

  /** A `youtube.com/v/<id>` address is classified as YouTube and yields its id. */
  lemma LegacyUrlAccepted(id: string)
    requires |id| == 11 && forall k :: 0 <= k < 11 ==> IsVideoIdChar(id[k])
    ensures IsYouTubeUrl("https://www.youtube.com/v/" + id)
    ensures ExtractVideoId("https://www.youtube.com/v/" + id) == Some(id)
  {
    var pre := "https://www.youtube.com/v/";
    var s := pre + id;
    assert s[12..23] == pre[12..23] == "youtube.com";
    assert HasAt(s, 12, "youtube.com");
    assert s[24..26] == pre[24..26] == "v/";
    assert s[24] == 'v';
    assert MarkerLength(s, 24) == 2;
    assert s[25] == '/';
    assert MarkerLength(s, 25) == 0;
    assert s[26..] == id;
    ExtractAfterMarker(s, 24, 2, id);
  }

  /** A `youtu.be/<id>` short address is classified as YouTube, and yields its
      id exactly when the id has eleven characters; otherwise loading it creates
      no backend at all. */
  lemma ShortUrlAcceptedIffEleven(id: string)
    requires forall k :: 0 <= k < |id| ==> IsVideoIdChar(id[k])
    ensures IsYouTubeUrl("https://youtu.be/" + id)
    ensures ExtractVideoId("https://youtu.be/" + id) == if |id| == 11 then Some(id) else None
  {
    var pre := "https://youtu.be/";
    var s := pre + id;
    assert s[8..16] == pre[8..16] == "youtu.be";
    assert HasAt(s, 8, "youtu.be");
    assert s[8..13] == "youtu" && s[14..17] == "be/";
    assert s[8] == 'y' && s[13] == '.';
    assert MarkerLength(s, 8) == 9;
    assert s[9] == 'o' && s[10] == 'u' && s[11] == 't' && s[12] == 'u' && s[14] == 'b' && s[15] == 'e' && s[16] == '/';
    assert MarkerLength(s, 9) == 0;
    assert MarkerLength(s, 10) == 0;
    assert MarkerLength(s, 11) == 0;
    assert MarkerLength(s, 12) == 0;
    assert MarkerLength(s, 13) == 0;
    assert MarkerLength(s, 14) == 0;
    HasAtChar(s, 15, "embed/", 1);
    assert MarkerLength(s, 15) == 0;
    assert MarkerLength(s, 16) == 0;
    assert s[17..] == id;
    ExtractAfterMarker(s, 8, 9, id);
  }
}
