/** The playback controller: one object that owns the playlist, the cursor, the
    mirrored playback fields and at most one live backend handle (a native audio
    element or an embedded YouTube player). Every call the controller makes into
    a backend object is appended to `backendCalls`, so the order of releases,
    creations and commands is part of the state. */
module Music {
  import opened Wrappers
  import opened YouTubeUrl
  import opened Playlist

  /** A live backend handle, named by what it was created from. */
  datatype Handle = AudioElement(src: string) | EmbeddedPlayer(videoId: string)

  /** A call the controller makes into a backend object. */
  datatype Call =
    | Create(h: Handle)                 // `new Audio(url)` / `new YT.Player(…, { videoId })`
    | Release(h: Handle)                // `audio.pause()` and dropping it / `youtubePlayer.destroy()`
    | Play(h: Handle)                   // `audio.play()` / `playVideo()`
    | Pause(h: Handle)                  // `audio.pause()` / `pauseVideo()`
    | Seek(h: Handle, to: real)         // `audio.currentTime = t` / `seekTo(t)`
    | SetMuted(h: Handle, on: bool)     // `audio.muted = b` / `mute()`, `unMute()`
    | Volume(h: Handle, level: real)    // `audio.volume = v / 100` / `setVolume(v)`

  /** The backend `loadAudio(u)` creates: an audio element for any address that
      does not look like YouTube, an embedded player for a YouTube address with
      a valid id, and nothing for a YouTube address without one. */
  function SelectBackend(u: string): (h: Option<Handle>)
    ensures (h.Some? && h.value.AudioElement?) <==> !IsYouTubeUrl(u)
    ensures h.Some? && h.value.AudioElement? ==> h.value.src == u
    ensures h.None? <==> IsYouTubeUrl(u) && ExtractVideoId(u).None?
    ensures h.Some? && h.value.EmbeddedPlayer? ==>
              ExtractVideoId(u) == Some(h.value.videoId) && |h.value.videoId| == 11
  {
    if IsYouTubeUrl(u) then
      match ExtractVideoId(u)
      case Some(id) => Some(EmbeddedPlayer(id))
      case None => None
    else Some(AudioElement(u))
  }

  /** The calls that release whichever handles are live, audio first. */
  function ReleaseCalls(audio: Option<string>, player: Option<string>): (cs: seq<Call>)
    ensures forall c :: c in cs ==> c.Release?
    ensures audio.Some? ==> Release(AudioElement(audio.value)) in cs
    ensures player.Some? ==> Release(EmbeddedPlayer(player.value)) in cs
    ensures |cs| == (if audio.Some? then 1 else 0) + (if player.Some? then 1 else 0)
    ensures audio.Some? ==> cs[0] == Release(AudioElement(audio.value))
  {
    (if audio.Some? then [Release(AudioElement(audio.value))] else [])
    + (if player.Some? then [Release(EmbeddedPlayer(player.value))] else [])
  }

  /** The calls that acquire the selected backend; a new audio element starts
      playing at once when the controller is in the playing state. */
  function AcquireCalls(h: Option<Handle>, playing: bool): (cs: seq<Call>)
    ensures forall c :: c in cs ==> !c.Release?
    ensures h.None? <==> cs == []
    ensures h.Some? ==> cs[0] == Create(h.value)
    ensures forall k :: 0 < k < |cs| ==> cs[k] == Play(h.value) && h.value.AudioElement? && playing
    ensures |cs| == if h.None? then 0 else if h.value.AudioElement? && playing then 2 else 1
  {
    match h
    case None => []
    case Some(AudioElement(src)) => [Create(h.value)] + (if playing then [Play(h.value)] else [])
    case Some(EmbeddedPlayer(id)) => [Create(h.value)]
  }

  /** Everything `loadAudio(u)` sends to backend objects. */
  function LoadCalls(audio: Option<string>, player: Option<string>, u: string, playing: bool): (cs: seq<Call>)
    ensures audio.Some? ==> Release(AudioElement(audio.value)) in cs
    ensures player.Some? ==> Release(EmbeddedPlayer(player.value)) in cs
    ensures forall c :: c in cs && c.Release? ==>
              (audio.Some? && c == Release(AudioElement(audio.value)))
              || (player.Some? && c == Release(EmbeddedPlayer(player.value)))
    ensures forall c :: c in cs && c.Create? ==> SelectBackend(u) == Some(c.h)
    ensures SelectBackend(u).Some? ==> Create(SelectBackend(u).value) in cs
    ensures playing && SelectBackend(u).Some? && SelectBackend(u).value.AudioElement? ==>
              Play(SelectBackend(u).value) in cs
    ensures forall c :: c in cs && !c.Release? && !c.Create? ==>
              playing && SelectBackend(u).Some? && SelectBackend(u).value.AudioElement?
              && c == Play(SelectBackend(u).value)
  {
    ReleaseCalls(audio, player) + AcquireCalls(SelectBackend(u), playing)
  }

  /** No handle is created before every live one has been released. */
  predicate ReleasesFirst(cs: seq<Call>) {
    forall i, j :: 0 <= i < j < |cs| && cs[i].Create? ==> !cs[j].Release?
  }

  /** Loading releases both old handles before it creates the new one, and
      creates at most one. */
  lemma {:induction false} LoadReleasesBeforeAcquiring(audio: Option<string>, player: Option<string>, u: string, playing: bool)
    ensures ReleasesFirst(LoadCalls(audio, player, u, playing))
    ensures forall i, j :: 0 <= i < j < |LoadCalls(audio, player, u, playing)| ==>
              !(LoadCalls(audio, player, u, playing)[i].Create? && LoadCalls(audio, player, u, playing)[j].Create?)
  {
    var rs, as_ := ReleaseCalls(audio, player), AcquireCalls(SelectBackend(u), playing);
    var cs := rs + as_;
    forall i, j | 0 <= i < j < |cs| && cs[i].Create?
      ensures !cs[j].Release? && !cs[j].Create?
    {
      assert forall k :: 0 <= k < |rs| ==> cs[k] == rs[k] && rs[k] in rs;
      assert |rs| <= i;
      assert cs[j] == as_[j - |rs|];
    }
  }

  /** The thumbnail back-fill `loadAudio` does for a YouTube address with an id. */
  function BackfillOnLoad(pl: seq<Track>, u: string): (r: seq<Track>)
    ensures SameUrls(r, pl)
    ensures forall j :: 0 <= j < |pl| ==> r[j].title == pl[j].title
    ensures forall j :: 0 <= j < |pl| && Some(j) != FirstIndexOf(pl, u) ==> r[j] == pl[j]
    ensures !(SelectBackend(u).Some? && SelectBackend(u).value.EmbeddedPlayer?) ==> r == pl
    ensures SelectBackend(u).Some? && SelectBackend(u).value.EmbeddedPlayer? && FirstIndexOf(pl, u).Some? ==>
              r[FirstIndexOf(pl, u).value].thumbnail == ThumbnailFor(SelectBackend(u).value.videoId)
  {
    match SelectBackend(u)
    case Some(EmbeddedPlayer(id)) => Rethumbed(pl, u, ThumbnailFor(id))
    case _ => pl
  }

  // ---------------------------------------------------------------------------
  // The policy when a track ends

  datatype EndedAction = Restart | Advance | Stop

  /** Loop first, then auto-advance on a non-empty playlist, else stop. */
  function OnEnded(loop: bool, autoNext: bool, len: nat): (a: EndedAction)
    ensures a == Restart <==> loop
    ensures a == Advance <==> !loop && autoNext && len > 0
    ensures a == Stop <==> !loop && (!autoNext || len == 0)
  {
    if loop then Restart
    else if autoNext && len > 0 then Advance
    else Stop
  }

  // ---------------------------------------------------------------------------
  // Seek targets

  /** `Math.min(currentTime + seconds, duration)`. */
  function ForwardTarget(now: real, seconds: real, duration: real): (r: real)
    ensures r <= duration && r <= now + seconds
    ensures r == duration || r == now + seconds
  {
    if now + seconds <= duration then now + seconds else duration
  }

  /** `Math.max(currentTime - seconds, 0)`. */
  function RewindTarget(now: real, seconds: real): (r: real)
    ensures r >= 0.0 && r >= now - seconds
    ensures r == 0.0 || r == now - seconds
  {
    if now - seconds >= 0.0 then now - seconds else 0.0
  }

  /** From a position inside the track, skipping by a non-negative amount in
      either direction stays inside the track. */
  lemma SeekTargetsWithinTrack(now: real, seconds: real, duration: real)
    requires 0.0 <= now <= duration && 0.0 <= seconds
    ensures 0.0 <= ForwardTarget(now, seconds, duration) <= duration
    ensures 0.0 <= RewindTarget(now, seconds) <= duration
  {
  }

  /** Loading a new track keeps the old position, so after a switch to a
      shorter track a non-negative rewind can still seek past its end. */
  lemma StalePositionRewindsPastEnd()
    ensures RewindTarget(250.0, 10.0) > 100.0
  {
  }

  /** A negative skip is not clamped from below by `fastForward`. */
  lemma NegativeForwardLeavesTrack()
    ensures ForwardTarget(1.0, -5.0, 100.0) < 0.0
  {
  }

  // ---------------------------------------------------------------------------
  // The controller

  /** The embedded player's state codes the controller reacts to. */
  datatype PlayerState = Unstarted | Ended | Playing | Paused | Buffering | Cued

  /** The snapshot `getState()` returns and listeners receive. */
  datatype PlaybackState = PlaybackState(
    isPlaying: bool, currentTime: real, duration: real, volume: int, muted: bool, loop: bool,
    url: string, title: string, thumbnail: string,
    playlist: seq<Track>, currentIndex: int, autoNext: bool)

  /** The fixed thumbnail shown for audio files. */
  const AudioThumbnail: string :=
    "https://images.unsplash.com/photo-1493225457124-a3eb161ffa5f?w=100&h=100&fit=crop&crop=center"

  class MusicService {
    var audio: Option<string>          // the live audio element, by its `src` address
    var youtubePlayer: Option<string>  // the live embedded player, by its video id
    var isPlaying: bool
    var currentTime: real
    var duration: real
    var volume: int
    var muted: bool
    var loop: bool
    var url: string
    var title: string
    var thumbnail: string
    var playlist: seq<Track>
    var currentIndex: int
    var autoNext: bool
    var backendCalls: seq<Call>

    /** The object invariant: the cursor stays within `[-1, max(0, n - 1)]` and
        is −1 only on an empty playlist, at most one handle is live, and a live
        handle is the one `url` selects. */
    ghost predicate Valid()
      reads this
    {
      && CursorOk(currentIndex, |playlist|)
      && (currentIndex == -1 ==> |playlist| == 0)
      && !(audio.Some? && youtubePlayer.Some?)
      && (audio.Some? ==> SelectBackend(url) == Some(AudioElement(audio.value)))
      && (youtubePlayer.Some? ==> SelectBackend(url) == Some(EmbeddedPlayer(youtubePlayer.value)))
    }

    /** Length and cursor of the playlist. */
    function CursorShape(): Shape
      reads this
    {
      Shape(|playlist|, currentIndex)
    }

    /** The handle commands go to: the `if (this.youtubePlayer) … else if
        (this.audio)` dispatch of the code. */
    function Live(): (h: Option<Handle>)
      reads this
      ensures h.None? <==> audio.None? && youtubePlayer.None?
      ensures youtubePlayer.Some? ==> h == Some(EmbeddedPlayer(youtubePlayer.value))
      ensures youtubePlayer.None? && audio.Some? ==> h == Some(AudioElement(audio.value))
    {
      if youtubePlayer.Some? then Some(EmbeddedPlayer(youtubePlayer.value))
      else if audio.Some? then Some(AudioElement(audio.value))
      else None
    }

    /** The state `loadAudio(u)` leaves behind, relative to the state before it. */
    twostate predicate LoadedFrom(u: string)
      reads this
    {
      && url == u
      && Live() == SelectBackend(u)
      && playlist == BackfillOnLoad(old(playlist), u)
      && backendCalls == old(backendCalls) + LoadCalls(old(audio), old(youtubePlayer), u, old(isPlaying))
    }

    constructor ()
      ensures Valid()
      ensures audio == None && youtubePlayer == None
      ensures !isPlaying && currentTime == 0.0 && duration == 0.0 && volume == 100
      ensures !muted && !loop && url == "" && title == "" && thumbnail == ""
      ensures playlist == [] && currentIndex == -1 && autoNext
      ensures CursorShape() == Initial
      ensures backendCalls == []
    {
      audio, youtubePlayer := None, None;
      isPlaying, currentTime, duration, volume := false, 0.0, 0.0, 100;
      muted, loop := false, false;
      url, title, thumbnail := "", "", "";
      playlist, currentIndex, autoNext := [], -1, true;
      backendCalls := [];
    }

    /** `createYouTubePlayer(videoId)` once the YouTube API is available. */
    method CreateYouTubePlayer(videoId: string)
      modifies this`youtubePlayer, this`backendCalls
      ensures youtubePlayer == Some(videoId)
      ensures backendCalls == old(backendCalls)
                + (if old(youtubePlayer).Some? then [Release(EmbeddedPlayer(old(youtubePlayer).value))] else [])
                + [Create(EmbeddedPlayer(videoId))]
    {
      if youtubePlayer.Some? {
        backendCalls := backendCalls + [Release(EmbeddedPlayer(youtubePlayer.value))];
      }
      youtubePlayer := Some(videoId);
      backendCalls := backendCalls + [Create(EmbeddedPlayer(videoId))];
    }

    /** `updatePlaylistTrackTitle(u, t)`: only the first entry with url `u`. */
    method UpdatePlaylistTrackTitle(u: string, t: string)
      modifies this`playlist
      ensures playlist == Retitled(old(playlist), u, t)
    {
      var k := FirstIndexOf(playlist, u);
      if k.Some? {
        playlist := playlist[k.value := playlist[k.value].(title := t)];
      }
    }

    /** `updatePlaylistTrackInfo(u, videoId)`: the thumbnail of the first entry
        with url `u` becomes the video's thumbnail. */
    method UpdatePlaylistTrackInfo(u: string, videoId: string)
      modifies this`playlist
      ensures playlist == Rethumbed(old(playlist), u, ThumbnailFor(videoId))
    {
      var k := FirstIndexOf(playlist, u);
      if k.Some? {
        playlist := playlist[k.value := playlist[k.value].(thumbnail := ThumbnailFor(videoId))];
      }
    }

    /** The second half of `loadAudio(u)`, once no handle is live: create the
        backend `u` selects and back-fill the thumbnail of its playlist entry. */
    method AcquireBackend(u: string)
      requires audio.None? && youtubePlayer.None?
      modifies this`audio, this`youtubePlayer, this`playlist, this`backendCalls
      ensures Live() == SelectBackend(u)
      ensures audio == (if IsYouTubeUrl(u) then None else Some(u))
      ensures youtubePlayer == (if IsYouTubeUrl(u) then ExtractVideoId(u) else None)
      ensures playlist == BackfillOnLoad(old(playlist), u)
      ensures backendCalls == old(backendCalls) + AcquireCalls(SelectBackend(u), isPlaying)
    {
      if IsYouTubeUrl(u) {
        var videoId := ExtractVideoId(u);
        if videoId.Some? {
          assert SelectBackend(u) == Some(EmbeddedPlayer(videoId.value));
          CreateYouTubePlayer(videoId.value);
          UpdatePlaylistTrackInfo(u, videoId.value);
        } else {
          assert SelectBackend(u) == None;
        }
      } else {
        assert SelectBackend(u) == Some(AudioElement(u));
        audio := Some(u);
        backendCalls := backendCalls + [Create(AudioElement(u))];
        if isPlaying {
          backendCalls := backendCalls + [Play(AudioElement(u))];
        }
      }
    }

    /** `loadAudio(u)`: release both handles, then select and create a backend. */
    method LoadAudio(u: string)
      requires Valid()
      modifies this`audio, this`youtubePlayer, this`url, this`playlist, this`backendCalls
      ensures Valid()
      ensures LoadedFrom(u)
      ensures audio == (if IsYouTubeUrl(u) then None else Some(u))
      ensures youtubePlayer == (if IsYouTubeUrl(u) then ExtractVideoId(u) else None)
    {
      ReleaseHandles();
      url := u;
      AcquireBackend(u);
    }

    /** `addToPlaylist(u, title, thumbnail)`: append one entry; the first entry
        of an unset cursor is selected and loaded. */
    method AddToPlaylist(u: string, title: string := "", thumbnail: string := "")
      requires Valid()
      modifies this`playlist, this`currentIndex, this`audio, this`youtubePlayer, this`url, this`backendCalls
      ensures Valid()
      ensures CursorShape() == Step(old(CursorShape()), Add)
      ensures |playlist| == |old(playlist)| + 1 && playlist[..|old(playlist)|] == old(playlist)
      ensures old(currentIndex) != -1 ==>
                && playlist == old(playlist) + [NewTrack(u, title, thumbnail)]
                && currentIndex == old(currentIndex)
                && url == old(url) && audio == old(audio) && youtubePlayer == old(youtubePlayer)
                && backendCalls == old(backendCalls)
      ensures old(currentIndex) == -1 ==>
                && currentIndex == 0
                && url == u && Live() == SelectBackend(u)
                && playlist == BackfillOnLoad(old(playlist) + [NewTrack(u, title, thumbnail)], u)
                && backendCalls == old(backendCalls) + LoadCalls(old(audio), old(youtubePlayer), u, isPlaying)
    {
      playlist := playlist + [NewTrack(u, title, thumbnail)];
      if currentIndex == -1 {
        currentIndex := 0;
        LoadAudio(u);
      }
    }

    /** `removeFromPlaylist(k)`: splice out entry `k` and reclamp the cursor;
        an index out of range changes nothing. */
    method RemoveFromPlaylist(k: int)
      requires Valid()
      modifies this`playlist, this`currentIndex
      ensures Valid()
      ensures CursorShape() == Step(old(CursorShape()), Remove(k))
      ensures 0 <= k < |old(playlist)| ==>
                && playlist == RemoveAt(old(playlist), k)
                && currentIndex == ClampAfterRemove(old(currentIndex), |playlist|)
      ensures !(0 <= k < |old(playlist)|) ==> playlist == old(playlist) && currentIndex == old(currentIndex)
    {
      if 0 <= k < |playlist| {
        playlist := RemoveAt(playlist, k);
        if currentIndex >= |playlist| {
          currentIndex := Max(0, |playlist| - 1);
        }
      }
    }

    /** `clearPlaylist()`: empty list, unset cursor; the loaded url and its
        backend stay as they are. */
    method ClearPlaylist()
      requires Valid()
      modifies this`playlist, this`currentIndex
      ensures Valid()
      ensures CursorShape() == Step(old(CursorShape()), Clear)
      ensures playlist == [] && currentIndex == -1
    {
      playlist := [];
      currentIndex := -1;
    }

    /** `nextTrack()`: advance the cursor with wrap-around and load that entry. */
    method NextTrack()
      requires Valid()
      modifies this`currentIndex, this`audio, this`youtubePlayer, this`url, this`playlist, this`backendCalls
      ensures Valid()
      ensures CursorShape() == Step(old(CursorShape()), Next)
      ensures |old(playlist)| == 0 ==> unchanged(this)
      ensures |old(playlist)| > 0 ==>
                && currentIndex == NextIndex(old(currentIndex), |old(playlist)|)
                && LoadedFrom(old(playlist)[currentIndex].url)
    {
      if |playlist| > 0 {
        currentIndex := NextIndex(currentIndex, |playlist|);
        var track := playlist[currentIndex];
        LoadAudio(track.url);
      }
    }

    /** `previousTrack()`: step the cursor back with wrap-around and load that entry. */
    method PreviousTrack()
      requires Valid()
      modifies this`currentIndex, this`audio, this`youtubePlayer, this`url, this`playlist, this`backendCalls
      ensures Valid()
      ensures CursorShape() == Step(old(CursorShape()), Prev)
      ensures |old(playlist)| == 0 ==> unchanged(this)
      ensures |old(playlist)| > 0 ==>
                && currentIndex == PrevIndex(old(currentIndex), |old(playlist)|)
                && LoadedFrom(old(playlist)[currentIndex].url)
    {
      if |playlist| > 0 {
        currentIndex := PrevIndex(currentIndex, |playlist|);
        var track := playlist[currentIndex];
        LoadAudio(track.url);
      }
    }

    /** `playTrack(k)`: jump to entry `k` and load it; out of range is a no-op. */
    method PlayTrack(k: int)
      requires Valid()
      modifies this`currentIndex, this`audio, this`youtubePlayer, this`url, this`playlist, this`backendCalls
      ensures Valid()
      ensures CursorShape() == Step(old(CursorShape()), PlayAt(k))
      ensures !(0 <= k < |old(playlist)|) ==> unchanged(this)
      ensures 0 <= k < |old(playlist)| ==> currentIndex == k && LoadedFrom(old(playlist)[k].url)
    {
      if 0 <= k < |playlist| {
        currentIndex := k;
        var track := playlist[k];
        LoadAudio(track.url);
      }
    }

    method ToggleAutoNext()
      modifies this`autoNext
      ensures autoNext == !old(autoNext)
    {
      autoNext := !autoNext;
    }

    /** `toggle()`: flips `isPlaying` whether or not a backend is live, and
        sends play or pause to the live one. */
    method Toggle()
      modifies this`isPlaying, this`backendCalls
      ensures isPlaying == !old(isPlaying)
      ensures backendCalls == old(backendCalls) +
                match Live()
                case None => []
                case Some(h) => [if isPlaying then Play(h) else Pause(h)]
    {
      isPlaying := !isPlaying;
      match Live()
      case None =>
      case Some(h) =>
        backendCalls := backendCalls + [if isPlaying then Play(h) else Pause(h)];
    }

    method ToggleMute()
      modifies this`muted, this`backendCalls
      ensures muted == !old(muted)
      ensures backendCalls == old(backendCalls) +
                match Live()
                case None => []
                case Some(h) => [SetMuted(h, muted)]
    {
      muted := !muted;
      match Live()
      case None =>
      case Some(h) =>
        backendCalls := backendCalls + [SetMuted(h, muted)];
    }

    method ToggleLoop()
      modifies this`loop
      ensures loop == !old(loop)
    {
      loop := !loop;
    }

    /** `setVolume(v)`: stored as given, with no clamping; the player takes the
        percentage, the audio element the fraction `v / 100`. */
    method SetVolume(v: int)
      modifies this`volume, this`backendCalls
      ensures volume == v
      ensures backendCalls == old(backendCalls) +
                match Live()
                case None => []
                case Some(EmbeddedPlayer(id)) => [Volume(EmbeddedPlayer(id), v as real)]
                case Some(AudioElement(src)) => [Volume(AudioElement(src), v as real / 100.0)]
    {
      volume := v;
      match Live()
      case None =>
      case Some(EmbeddedPlayer(id)) =>
        backendCalls := backendCalls + [Volume(EmbeddedPlayer(id), v as real)];
      case Some(AudioElement(src)) =>
        backendCalls := backendCalls + [Volume(AudioElement(src), v as real / 100.0)];
    }

    /** `seekTo(t)`: only the live backend is told; no mirrored field changes. */
    method SeekTo(t: real)
      modifies this`backendCalls
      ensures backendCalls == old(backendCalls) +
                match Live()
                case None => []
                case Some(h) => [Seek(h, t)]
    {
      match Live()
      case None =>
      case Some(h) =>
        backendCalls := backendCalls + [Seek(h, t)];
    }

    /** `fastForward(seconds)`: seek to at most the duration. */
    method FastForward(seconds: real := 10.0)
      modifies this`backendCalls
      ensures backendCalls == old(backendCalls) +
                match Live()
                case None => []
                case Some(h) => [Seek(h, ForwardTarget(currentTime, seconds, duration))]
    {
      SeekTo(ForwardTarget(currentTime, seconds, duration));
    }

    /** `rewind(seconds)`: seek to at least 0. */
    method Rewind(seconds: real := 10.0)
      modifies this`backendCalls
      ensures backendCalls == old(backendCalls) +
                match Live()
                case None => []
                case Some(h) => [Seek(h, RewindTarget(currentTime, seconds))]
    {
      SeekTo(RewindTarget(currentTime, seconds));
    }

    // -------------------------------------------------------------------------
    // Backend events

    /** The embedded player's `onReady`: duration, title and thumbnail are
        taken from the player and the title is back-filled into the playlist. */
    method PlayerReady(reportedDuration: real, videoTitle: string)
      requires youtubePlayer.Some?
      modifies this`duration, this`title, this`thumbnail, this`playlist, this`backendCalls
      ensures duration == reportedDuration
      ensures title == if videoTitle != "" then videoTitle else "YouTube Video"
      ensures thumbnail == ThumbnailFor(youtubePlayer.value)
      ensures playlist == Retitled(old(playlist), url, title)
      ensures backendCalls == old(backendCalls) + (if isPlaying then [Play(EmbeddedPlayer(youtubePlayer.value))] else [])
    {
      duration := reportedDuration;
      var videoTitle' := if videoTitle != "" then videoTitle else "YouTube Video";
      title := videoTitle';
      thumbnail := ThumbnailFor(youtubePlayer.value);
      UpdatePlaylistTrackTitle(url, videoTitle');
      if isPlaying {
        backendCalls := backendCalls + [Play(EmbeddedPlayer(youtubePlayer.value))];
      }
    }

    /** The embedded player's `onStateChange`. */
    method PlayerStateChanged(state: PlayerState)
      requires Valid() && youtubePlayer.Some?
      modifies this`isPlaying, this`currentIndex, this`audio, this`youtubePlayer, this`url, this`playlist, this`backendCalls
      ensures Valid()
      ensures state.Playing? ==>
                && isPlaying && playlist == old(playlist) && currentIndex == old(currentIndex)
                && backendCalls == old(backendCalls)
      ensures state.Paused? ==>
                && !isPlaying && playlist == old(playlist) && currentIndex == old(currentIndex)
                && backendCalls == old(backendCalls)
      ensures state.Ended? && OnEnded(old(loop), old(autoNext), |old(playlist)|) == Restart ==>
                && isPlaying == old(isPlaying) && playlist == old(playlist) && currentIndex == old(currentIndex)
                && backendCalls == old(backendCalls) + [Play(EmbeddedPlayer(old(youtubePlayer).value))]
      ensures state.Ended? && OnEnded(old(loop), old(autoNext), |old(playlist)|) == Advance ==>
                && isPlaying == old(isPlaying)
                && currentIndex == NextIndex(old(currentIndex), |old(playlist)|)
                && LoadedFrom(old(playlist)[currentIndex].url)
      ensures state.Ended? && OnEnded(old(loop), old(autoNext), |old(playlist)|) == Stop ==>
                && !isPlaying && playlist == old(playlist) && currentIndex == old(currentIndex)
                && backendCalls == old(backendCalls)
      ensures !(state.Playing? || state.Paused? || state.Ended?) ==> unchanged(this)
      ensures !(state.Ended? && OnEnded(old(loop), old(autoNext), |old(playlist)|) == Advance) ==>
                url == old(url) && audio == old(audio) && youtubePlayer == old(youtubePlayer)
    {
      match state
      case Playing =>
        isPlaying := true;
      case Paused =>
        isPlaying := false;
      case Ended =>
        match OnEnded(loop, autoNext, |playlist|) {
          case Restart =>
            backendCalls := backendCalls + [Play(EmbeddedPlayer(youtubePlayer.value))];
          case Advance =>
            NextTrack();
          case Stop =>
            isPlaying := false;
        }
      case _ =>
    }

    /** The audio element's `loadedmetadata`. */
    method AudioLoadedMetadata(reportedDuration: real)
      requires audio.Some?
      modifies this`duration, this`title, this`thumbnail
      ensures duration == reportedDuration && title == "Audio File" && thumbnail == AudioThumbnail
    {
      duration := reportedDuration;
      title := "Audio File";
      thumbnail := AudioThumbnail;
    }

    /** The audio element's `timeupdate`. */
    method AudioTimeUpdate(position: real)
      requires audio.Some?
      modifies this`currentTime
      ensures currentTime == position
    {
      currentTime := position;
    }

    /** The audio element's `ended`: restart from 0, advance, or stop. */
    method AudioEnded()
      requires Valid() && audio.Some?
      modifies this`isPlaying, this`currentIndex, this`audio, this`youtubePlayer, this`url, this`playlist, this`backendCalls
      ensures Valid()
      ensures OnEnded(old(loop), old(autoNext), |old(playlist)|) == Restart ==>
                && isPlaying == old(isPlaying) && playlist == old(playlist) && currentIndex == old(currentIndex)
                && url == old(url) && audio == old(audio) && youtubePlayer == old(youtubePlayer)
                && backendCalls == old(backendCalls)
                     + [Seek(AudioElement(old(audio).value), 0.0), Play(AudioElement(old(audio).value))]
      ensures OnEnded(old(loop), old(autoNext), |old(playlist)|) == Advance ==>
                && isPlaying == old(isPlaying)
                && currentIndex == NextIndex(old(currentIndex), |old(playlist)|)
                && LoadedFrom(old(playlist)[currentIndex].url)
      ensures OnEnded(old(loop), old(autoNext), |old(playlist)|) == Stop ==>
                && !isPlaying && playlist == old(playlist) && currentIndex == old(currentIndex)
                && url == old(url) && audio == old(audio) && youtubePlayer == old(youtubePlayer)
                && backendCalls == old(backendCalls)
    {
      match OnEnded(loop, autoNext, |playlist|)
      case Restart =>
        backendCalls := backendCalls + [Seek(AudioElement(audio.value), 0.0), Play(AudioElement(audio.value))];
      case Advance =>
        NextTrack();
      case Stop =>
        isPlaying := false;
    }

    // -------------------------------------------------------------------------
    // Snapshot and teardown

    /** `getState()`: the full snapshot; it never shows the cursor out of its range. */
    function GetState(): (s: PlaybackState)
      reads this
      requires Valid()
      ensures CursorOk(s.currentIndex, |s.playlist|)
      ensures s.isPlaying == isPlaying && s.currentTime == currentTime && s.duration == duration
      ensures s.volume == volume && s.muted == muted && s.loop == loop
      ensures s.url == url && s.title == title && s.thumbnail == thumbnail
      ensures s.playlist == playlist && s.currentIndex == currentIndex && s.autoNext == autoNext
    {
      PlaybackState(isPlaying, currentTime, duration, volume, muted, loop,
                    url, title, thumbnail, playlist, currentIndex, autoNext)
    }

    /** The release sequence `loadAudio` and `destroy` share: pause and drop the
        audio element, then destroy the embedded player. */
    method ReleaseHandles()
      modifies this`audio, this`youtubePlayer, this`backendCalls
      ensures audio.None? && youtubePlayer.None?
      ensures backendCalls == old(backendCalls) + ReleaseCalls(old(audio), old(youtubePlayer))
    {
      if audio.Some? {
        backendCalls := backendCalls + [Release(AudioElement(audio.value))];
        audio := None;
      }
      if youtubePlayer.Some? {
        backendCalls := backendCalls + [Release(EmbeddedPlayer(youtubePlayer.value))];
        youtubePlayer := None;
      }
    }

    /** `destroy()`: release whichever handles are live. */
    method Destroy()
      requires Valid()
      modifies this`audio, this`youtubePlayer, this`backendCalls
      ensures Valid()
      ensures audio.None? && youtubePlayer.None? && Live().None?
      ensures backendCalls == old(backendCalls) + ReleaseCalls(old(audio), old(youtubePlayer))
    {
      ReleaseHandles();
    }
  }
}
