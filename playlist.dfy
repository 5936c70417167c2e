/** The playlist of the music service as values: tracks, the cursor arithmetic
    of next/previous/remove, the splice, the first-match metadata back-fill, and
    the cursor invariant that every playlist command keeps. */
module Playlist {
  import opened Wrappers
  import opened YouTubeUrl

  /** A playlist entry `{ url, title, thumbnail }`. */
  datatype Track = Track(url: string, title: string, thumbnail: string)

  function Max(a: int, b: int): int {
    if a >= b then a else b
  }

  // ---------------------------------------------------------------------------
  // New entries

  /** The title `addToPlaylist` falls back to when none is given. */
  function DefaultTitle(u: string): (t: string)
    ensures IsYouTubeUrl(u) ==> t == "YouTube Video"
    ensures !IsYouTubeUrl(u) ==> t == "Audio File"
  {
    if IsYouTubeUrl(u) then "YouTube Video" else "Audio File"
  }

  /** The entry `addToPlaylist(url, title, thumbnail)` pushes. An empty string
      stands for an omitted or empty argument (both are falsy for `||`). */
  function NewTrack(u: string, title: string, thumbnail: string): (t: Track)
    ensures t.url == u
    ensures t.title == if title != "" then title else DefaultTitle(u)
    ensures thumbnail != "" ==> t.thumbnail == thumbnail
    ensures thumbnail == "" && IsYouTubeUrl(u) && ExtractVideoId(u).Some? ==>
              t.thumbnail == ThumbnailFor(ExtractVideoId(u).value)
    ensures thumbnail == "" && !(IsYouTubeUrl(u) && ExtractVideoId(u).Some?) ==> t.thumbnail == ""
  {
    if IsYouTubeUrl(u) then
      match ExtractVideoId(u)
      case Some(id) =>
        Track(u, if title != "" then title else "YouTube Video", if thumbnail != "" then thumbnail else ThumbnailFor(id))
      case None =>
        Track(u, if title != "" then title else "YouTube Video", thumbnail)
    else
      Track(u, if title != "" then title else "Audio File", thumbnail)
  }

  // ---------------------------------------------------------------------------
  // Cursor arithmetic

  /** The cursor invariant the code keeps: −1 (no current track) or an index
      no greater than `max(0, n − 1)`. It admits the stale cursor 0 on an empty
      playlist that removing the last remaining track leaves behind. */
  predicate CursorOk(ci: int, n: nat) {
    -1 <= ci <= Max(0, n - 1)
  }

  /** The stricter invariant "−1 or a valid index", which the code does not keep. */
  predicate CursorStrict(ci: int, n: nat) {
    ci == -1 || 0 <= ci < n
  }

  /** The new cursor of `nextTrack` on a non-empty playlist of length `n`. */
  function NextIndex(ci: int, n: nat): (r: nat)
    requires 0 < n && CursorOk(ci, n)
    ensures r < n
    ensures ci == -1 || ci == n - 1 ==> r == 0
    ensures 0 <= ci < n - 1 ==> r == ci + 1
  {
    if ci == -1 then 0 else (ci + 1) % n
  }

  /** The new cursor of `previousTrack` on a non-empty playlist of length `n`. */
  function PrevIndex(ci: int, n: nat): (r: nat)
    requires 0 < n && CursorOk(ci, n)
    ensures r < n
    ensures ci <= 0 ==> r == n - 1
    ensures 0 < ci ==> r == ci - 1
  {
    if ci == -1 then n - 1
    else if ci <= 0 then n - 1
    else ci - 1
  }

  /** On a valid index `nextTrack` lands on `(i + 1) mod n`. */
  lemma NextIndexIsSuccessorMod(i: int, n: nat)
    requires 0 <= i < n
    ensures NextIndex(i, n) == (i + 1) % n
  {
  }

  /** On a valid index `previousTrack` lands on `(i − 1 + n) mod n`. */
  lemma {:induction false} PrevIndexIsPredecessorMod(i: int, n: nat)
    requires 0 <= i < n
    ensures PrevIndex(i, n) == (i - 1 + n) % n
  {
    if i > 0 {
      assert (i - 1 + n) % n == i - 1 by {
        assert i - 1 + n == (i - 1) + 1 * n;
      }
    }
  }

  /** `previousTrack` undoes `nextTrack` on a valid index, and vice versa. */
  lemma NextPrevInverse(i: int, n: nat)
    requires 0 <= i < n
    ensures PrevIndex(NextIndex(i, n), n) == i
    ensures NextIndex(PrevIndex(i, n), n) == i
  {
  }

  /** The cursor after `k` calls of `nextTrack`. */
  function NextTimes(ci: int, n: nat, k: nat): (r: int)
    requires 0 < n && CursorOk(ci, n)
    ensures CursorOk(r, n)
    ensures 0 < k ==> 0 <= r < n
  {
    if k == 0 then ci else NextIndex(NextTimes(ci, n, k - 1), n)
  }

  /** Running `a` then `b` calls of `nextTrack` is running `a + b` calls. */
  lemma {:induction false} NextTimesAdd(ci: int, n: nat, a: nat, b: nat)
    requires 0 < n && CursorOk(ci, n)
    ensures NextTimes(NextTimes(ci, n, a), n, b) == NextTimes(ci, n, a + b)
    decreases b
  {
    if b > 0 {
      NextTimesAdd(ci, n, a, b - 1);
    }
  }

  /** Before the end is reached, `k` calls of `nextTrack` step forward by `k`. */
  lemma {:induction false} NextTimesForward(i: int, n: nat, k: nat)
    requires 0 <= i && i + k < n
    ensures NextTimes(i, n, k) == i + k
    decreases k
  {
    if k > 0 {
      NextTimesForward(i, n, k - 1);
    }
  }

  /** Wrap-around: `n` calls of `nextTrack` from any valid index return to it. */
  lemma NextTimesFullCycle(i: int, n: nat)
    requires 0 <= i < n
    ensures NextTimes(i, n, n) == i
  {
    NextTimesForward(i, n, n - 1 - i);
    assert NextTimes(i, n, n - i) == 0;
    NextTimesForward(0, n, i);
    NextTimesAdd(i, n, n - i, i);
  }

  /** The cursor after `removeFromPlaylist` shortened the list to `newLen`. */
  function ClampAfterRemove(ci: int, newLen: nat): (r: int)
    ensures ci < newLen ==> r == ci
    ensures newLen <= ci ==> r == Max(0, newLen - 1)
  {
    if ci >= newLen then Max(0, newLen - 1) else ci
  }

  // ---------------------------------------------------------------------------
  // The splice

  /** `playlist.splice(k, 1)`: entry `k` removed, the rest in order. */
  function RemoveAt<T>(s: seq<T>, k: nat): (r: seq<T>)
    requires k < |s|
    ensures |r| == |s| - 1
    ensures forall j :: 0 <= j < k ==> r[j] == s[j]
    ensures forall j :: k <= j < |r| ==> r[j] == s[j + 1]
  {
    s[..k] + s[k + 1..]
  }

  /** The splice removes exactly one occurrence of the entry at `k`. */
  lemma RemoveAtMultiset<T>(s: seq<T>, k: nat)
    requires k < |s|
    ensures multiset(RemoveAt(s, k)) + multiset{s[k]} == multiset(s)
  {
    assert s == s[..k] + [s[k]] + s[k + 1..];
  }

  // ---------------------------------------------------------------------------
  // First-match metadata back-fill

  /** `findIndex(track => track.url === u)` started at `i`. */
  function FindFrom(pl: seq<Track>, u: string, i: nat): (r: Option<nat>)
    requires i <= |pl|
    ensures r.Some? ==> i <= r.value < |pl| && pl[r.value].url == u
    ensures r.Some? ==> forall j :: i <= j < r.value ==> pl[j].url != u
    ensures r.None? ==> forall j :: i <= j < |pl| ==> pl[j].url != u
    decreases |pl| - i
  {
    if i == |pl| then None
    else if pl[i].url == u then Some(i)
    else FindFrom(pl, u, i + 1)
  }

  /** `findIndex` over the whole playlist; `None` is JavaScript's −1. */
  function FirstIndexOf(pl: seq<Track>, u: string): (r: Option<nat>)
    ensures r.Some? ==> r.value < |pl| && pl[r.value].url == u
    ensures r.Some? ==> forall j :: 0 <= j < r.value ==> pl[j].url != u
    ensures r.None? ==> forall j :: 0 <= j < |pl| ==> pl[j].url != u
  {
    FindFrom(pl, u, 0)
  }

  /** `updatePlaylistTrackTitle`: the first entry with url `u` gets title `t`. */
  function Retitled(pl: seq<Track>, u: string, t: string): (r: seq<Track>)
    ensures |r| == |pl|
    ensures forall j :: 0 <= j < |pl| ==>
              r[j] == if Some(j) == FirstIndexOf(pl, u) then pl[j].(title := t) else pl[j]
  {
    match FirstIndexOf(pl, u)
    case None => pl
    case Some(k) => pl[k := pl[k].(title := t)]
  }

  /** `updatePlaylistTrackInfo`: the first entry with url `u` gets thumbnail `th`. */
  function Rethumbed(pl: seq<Track>, u: string, th: string): (r: seq<Track>)
    ensures |r| == |pl|
    ensures forall j :: 0 <= j < |pl| ==>
              r[j] == if Some(j) == FirstIndexOf(pl, u) then pl[j].(thumbnail := th) else pl[j]
  {
    match FirstIndexOf(pl, u)
    case None => pl
    case Some(k) => pl[k := pl[k].(thumbnail := th)]
  }

  /** The urls of a playlist, in order. */
  predicate SameUrls(a: seq<Track>, b: seq<Track>) {
    |a| == |b| && forall j :: 0 <= j < |a| ==> a[j].url == b[j].url
  }

  /** Where the first match lies depends on the urls alone. */
  lemma {:induction false} FindFromSameUrls(a: seq<Track>, b: seq<Track>, u: string, i: nat)
    requires SameUrls(a, b) && i <= |a|
    ensures FindFrom(a, u, i) == FindFrom(b, u, i)
    decreases |a| - i
  {
    if i < |a| && a[i].url != u {
      FindFromSameUrls(a, b, u, i + 1);
    }
  }

  /** Back-filling changes no url, so it never moves the first match. */
  lemma BackfillKeepsUrls(pl: seq<Track>, u: string, t: string)
    ensures SameUrls(Retitled(pl, u, t), pl) && SameUrls(Rethumbed(pl, u, t), pl)
    ensures FirstIndexOf(Retitled(pl, u, t), u) == FirstIndexOf(pl, u)
    ensures FirstIndexOf(Rethumbed(pl, u, t), u) == FirstIndexOf(pl, u)
  {
    FindFromSameUrls(Retitled(pl, u, t), pl, u, 0);
    FindFromSameUrls(Rethumbed(pl, u, t), pl, u, 0);
  }

  /** Back-filling the same title twice is the same as once. */
  lemma RetitledIdempotent(pl: seq<Track>, u: string, t: string)
    ensures Retitled(Retitled(pl, u, t), u, t) == Retitled(pl, u, t)
  {
    BackfillKeepsUrls(pl, u, t);
  }

  /** Title and thumbnail back-fills touch different fields of the same entry,
      so their order does not matter. */
  lemma BackfillsCommute(pl: seq<Track>, u: string, t: string, th: string)
    ensures Rethumbed(Retitled(pl, u, t), u, th) == Retitled(Rethumbed(pl, u, th), u, t)
  {
    BackfillKeepsUrls(pl, u, t);
    BackfillKeepsUrls(pl, u, th);
  }

  // ---------------------------------------------------------------------------
  // The cursor over sequences of playlist commands

  /** The playlist commands that move the cursor or change the length. */
  datatype Command = Add | Remove(k: int) | Clear | PlayAt(k: int) | Next | Prev

  /** Length and cursor: all the cursor invariant depends on. */
  datatype Shape = Shape(len: nat, index: int)

  /** What one command does to the length and the cursor. */
  function Step(c: Shape, cmd: Command): (r: Shape)
    requires CursorOk(c.index, c.len)
    ensures CursorOk(r.index, r.len)
    ensures cmd.Next? || cmd.Prev? ==> r.len == c.len
    ensures cmd.Add? ==> r.len == c.len + 1
  {
    match cmd
    case Add => Shape(c.len + 1, if c.index == -1 then 0 else c.index)
    case Remove(k) =>
      if 0 <= k < c.len then Shape(c.len - 1, ClampAfterRemove(c.index, c.len - 1)) else c
    case Clear => Shape(0, -1)
    case PlayAt(k) => if 0 <= k < c.len then Shape(c.len, k) else c
    case Next => if c.len > 0 then Shape(c.len, NextIndex(c.index, c.len)) else c
    case Prev => if c.len > 0 then Shape(c.len, PrevIndex(c.index, c.len)) else c
  }

  /** The shape after running `cmds` in order. */
  function Run(c: Shape, cmds: seq<Command>): (r: Shape)
    requires CursorOk(c.index, c.len)
    ensures CursorOk(r.index, r.len)
    decreases |cmds|
  {
    if cmds == [] then c else Run(Step(c, cmds[0]), cmds[1..])
  }

  /** The service starts with an empty playlist and the cursor at −1. */
  const Initial: Shape := Shape(0, -1)

  /** A cursor of −1 is only ever seen with an empty playlist. */
  predicate UnsetOnlyWhenEmpty(c: Shape) {
    c.index == -1 ==> c.len == 0
  }

  lemma {:induction false} RunKeepsUnsetOnlyWhenEmpty(c: Shape, cmds: seq<Command>)
    requires CursorOk(c.index, c.len) && UnsetOnlyWhenEmpty(c)
    ensures UnsetOnlyWhenEmpty(Run(c, cmds))
    decreases |cmds|
  {
    if cmds != [] {
      RunKeepsUnsetOnlyWhenEmpty(Step(c, cmds[0]), cmds[1..]);
    }
  }

  /** In every reachable state a cursor of −1 means an empty playlist, so the
      `currentIndex === -1` branches of `nextTrack` and `previousTrack` are never
      taken on a non-empty playlist. */
  lemma ReachableUnsetOnlyWhenEmpty(cmds: seq<Command>)
    ensures CursorOk(Run(Initial, cmds).index, Run(Initial, cmds).len)
    ensures UnsetOnlyWhenEmpty(Run(Initial, cmds))
  {
    RunKeepsUnsetOnlyWhenEmpty(Initial, cmds);
  }

  /** Removing the only track leaves the cursor at 0 on an empty playlist (not
      −1), and a following add then keeps it at 0, so the add does not load. */
  lemma RemoveOnlyTrackLeavesStaleCursor()
    ensures Run(Initial, [Add, Remove(0)]) == Shape(0, 0)
    ensures !CursorStrict(Run(Initial, [Add, Remove(0)]).index, Run(Initial, [Add, Remove(0)]).len)
    ensures Run(Initial, [Add, Remove(0), Add]) == Shape(1, 0)
  {
    assert [Add, Remove(0)][1..] == [Remove(0)];
    assert [Add, Remove(0), Add][1..] == [Remove(0), Add];
    assert [Remove(0), Add][1..] == [Add];
  }

  /** Removing entry 2 of three with the cursor on it moves the cursor to 1. */
  lemma RemoveLastWithCursorOnIt()
    ensures Step(Shape(3, 2), Remove(2)) == Shape(2, 1)
  {
  }
}
