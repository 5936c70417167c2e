# Music service: playlist and playback state machine

This project models the `MusicService` controller of a web music player in
Dafny. The controller owns a playlist of tracks, a cursor into it (`currentIndex`),
mirrored playback fields (playing, position, duration, volume, mute, loop,
auto-advance, url, title, thumbnail) and at most one live backend: a native audio
element for ordinary audio addresses, or an embedded YouTube player for YouTube
addresses that carry an 11-character video id.

The model has four modules:

- `Wrappers`: the `Option` type.
- `YouTubeUrl`: the substring test that classifies an address as YouTube,
  and `extractVideoId`, with the regular expression
  `^.*(youtu.be\/|v\/|u\/\w\/|embed\/|watch\?v=|&v=)([^#&?]*).*` written out as
  functions. The greedy `^.*` becomes "the rightmost marker position before the
  first line terminator". The greedy group becomes "the maximal run of characters
  other than `#`, `&` and `?`". These functions are proved equal to a
  declarative statement of the greedy match and the capture group. That
  statement and the functions share one definition of the marker alternation,
  `MarkerLength`. `MarkerAlternatives` ties it to the six literals one by one.
- `Playlist`: tracks as values, the cursor arithmetic of next, previous and
  remove, the splice, the first-match title and thumbnail back-fill, and the
  cursor invariant over any sequence of playlist commands.
- `Music`: the class `MusicService`. Its fields are the controller's fields. Its
  methods update them in place and state their whole new state. The backend
  objects are abstract handles: `audio` holds the source of the live audio
  element and `youtubePlayer` the id of the live embedded player. Every call the
  controller makes into a backend (create, release, play, pause, seek, mute,
  volume) is appended to the log `backendCalls`. This lets the contracts say
  that loading releases both old handles before it creates the new one, and
  that commands go to the embedded player first and to the audio element
  otherwise.

The class invariant `Valid()` has four parts:

- The cursor lies in `[-1, max(0, |playlist| - 1)]`.
- The cursor is −1 only on an empty playlist.
- At most one handle is live.
- A live handle is the one the current `url` selects.

Every state-changing command keeps it.

Where the code and its documented intent differ, the model follows the code:

- Removing the only track leaves `currentIndex` at 0 on an empty playlist, not −1.
  The next `addToPlaylist` therefore does not load the new track
  (`Playlist.RemoveOnlyTrackLeavesStaleCursor`).
- `clearPlaylist` keeps the loaded `url` and its backend.
- `toggle` flips `isPlaying` even when no backend is live.
- The seek targets of `fastForward` and `rewind` are not always inside the track.
  A negative skip is not clamped from below (`Music.NegativeForwardLeavesTrack`).
  `loadAudio` also resets neither `currentTime` nor `duration`, and the model's
  `LoadAudio` leaves them alone too. So after a switch to a shorter track, a
  non-negative `rewind` can seek past the new track's end
  (`Music.StalePositionRewindsPastEnd`). `Music.SeekTargetsWithinTrack` holds
  only from a position inside the current track.
- When a YouTube track ends with `loop` on, the player is told to play again
  without a seek to 0. An audio track is rewound to 0 first.

## Model

| member | source | states |
|---|---|---|
| YouTubeUrl.IsYouTubeUrl | src/services/musicService.js:156 | an address is YouTube exactly when `youtube.com` or `youtu.be` occurs somewhere in it (the same test as at line 203) |
| YouTubeUrl.Contains | src/services/musicService.js:156 | `includes` holds exactly when the needle occurs at some position of the address |
| YouTubeUrl.ContainsFrom | src/services/musicService.js:156 | the search from position `i` finds the needle exactly when it occurs at or after `i` |
| YouTubeUrl.MarkerLength | src/services/musicService.js:46 | the length of the alternative that matches at `p`, or 0. A match lies inside the string and is 2 to 9 characters long. Which literal gives which length is stated in `MarkerAlternatives` |
| YouTubeUrl.MarkerAlternatives | src/services/musicService.js:46 | each of the six alternatives, written with its own literal, matches exactly when `MarkerLength` gives its length; no other length occurs |
| YouTubeUrl.LineEndFrom | src/services/musicService.js:46 | the greedy `^.*` cannot cross a line terminator: the result is the first one, or the end |
| YouTubeUrl.LastMarker | src/services/musicService.js:46 | the result is the greatest position up to the bound where a marker matches; no marker matches above it, and none at all when it is `None` |
| YouTubeUrl.IdEnd | src/services/musicService.js:46 | group 2 runs over non-`#&?` characters and stops at the first of them or at the end |
| YouTubeUrl.ExtractVideoId | src/services/musicService.js:45-49 | an accepted id has exactly 11 characters and contains none of `#`, `&`, `?` |
| YouTubeUrl.ThumbnailFor | src/services/musicService.js:83 | the thumbnail address is `https://img.youtube.com/vi/`, then the video id, then `/default.jpg` |
| YouTubeUrl.ThumbnailForInjective | src/services/musicService.js:83 | different video ids give different thumbnail addresses |
| YouTubeUrl.LastMarkerSkips | src/services/musicService.js:46 | positions without a marker do not change the rightmost marker |
| YouTubeUrl.GreedyMatchIsLastMarker | src/services/musicService.js:46 | any position where the regular expression can match with maximal `^.*` is the one the model finds |
| YouTubeUrl.LastMarkerIsGreedyMatch | src/services/musicService.js:46 | the position the model finds is a match of the regular expression with maximal `^.*` |
| YouTubeUrl.GroupFromIsIdEnd | src/services/musicService.js:46 | the greedy capture group from a position is exactly the run up to `IdEnd` |
| YouTubeUrl.ExtractVideoIdSound | src/services/musicService.js:45-49 | every id returned is group 2 of a match of the regular expression |
| YouTubeUrl.ExtractVideoIdComplete | src/services/musicService.js:45-49 | a match whose group 2 has 11 characters is returned |
| YouTubeUrl.ExtractVideoIdMatchesRegex | src/services/musicService.js:45-49 | both directions: `Some(id)` exactly when the regular expression matches, its group 2 is `id`, and `|id| == 11` |
| YouTubeUrl.HasAtChar | src/services/musicService.js:46 | a literal occurring at `p` fixes each character after `p` |
| YouTubeUrl.NoMarkerInIdTail | src/services/musicService.js:46 | no marker starts inside a tail of video-id characters |
| YouTubeUrl.IdEndAtTail | src/services/musicService.js:46 | group 2 over a tail of video-id characters runs to the end |
| YouTubeUrl.ExtractAfterMarker | src/services/musicService.js:45-49 | after the last marker, a tail of id characters is accepted exactly when it has 11 of them |
| YouTubeUrl.WatchUrlAccepted | src/services/musicService.js:45-49 | a `youtube.com/watch?v=<id>` address is classified as YouTube and yields its 11-character id |
| YouTubeUrl.EmbedUrlAccepted | src/services/musicService.js:45-49 | a `youtube.com/embed/<id>` address is classified as YouTube and yields its 11-character id |
| YouTubeUrl.LegacyUrlAccepted | src/services/musicService.js:45-49 | a `youtube.com/v/<id>` address is classified as YouTube and yields its 11-character id |
| YouTubeUrl.ShortUrlAcceptedIffEleven | src/services/musicService.js:45-49 | a `youtu.be/<id>` address is YouTube, and its id is accepted exactly when it has 11 characters |
| Playlist.DefaultTitle | src/services/musicService.js:203-213 | the title default is `YouTube Video` for YouTube addresses and `Audio File` otherwise |
| Playlist.NewTrack | src/services/musicService.js:201-214 | the pushed entry has the given url and the given title or the default. The thumbnail is the given one, else the video thumbnail for a YouTube address with an id, else empty |
| Playlist.NextIndex | src/services/musicService.js:264-271 | on a non-empty list the new cursor is a valid index: 0 from −1 or from the last entry, otherwise one more |
| Playlist.PrevIndex | src/services/musicService.js:306-313 | on a non-empty list the new cursor is a valid index: the last entry from −1 or 0, otherwise one less |
| Playlist.NextIndexIsSuccessorMod | src/services/musicService.js:270 | on a valid index `nextTrack` lands on `(i + 1) % n` |
| Playlist.PrevIndexIsPredecessorMod | src/services/musicService.js:312 | on a valid index `previousTrack` lands on `(i - 1 + n) % n` |
| Playlist.NextPrevInverse | src/services/musicService.js:264-313 | previous undoes next, and next undoes previous, on a valid index |
| Playlist.NextTimes | src/services/musicService.js:264-271 | repeated next keeps the cursor in range and, after one step, on a valid index |
| Playlist.NextTimesAdd | src/services/musicService.js:264-271 | `a` then `b` steps of next equal `a + b` steps |
| Playlist.NextTimesForward | src/services/musicService.js:264-271 | before the end, `k` steps of next advance the cursor by `k` |
| Playlist.NextTimesFullCycle | src/services/musicService.js:264-271 | wrap-around: `n` steps of next return to the starting index |
| Playlist.ClampAfterRemove | src/services/musicService.js:227-229 | the cursor is kept when below the new length, otherwise becomes `max(0, newLength - 1)` |
| Playlist.RemoveAt | src/services/musicService.js:226 | the splice removes exactly entry `k`; the others keep their order |
| Playlist.RemoveAtMultiset | src/services/musicService.js:226 | the splice removes exactly one occurrence of entry `k` and nothing else |
| Playlist.FindFrom | src/services/musicService.js:120 | the result is the first entry at or after `i` with the url, or `None` when there is none |
| Playlist.FirstIndexOf | src/services/musicService.js:120 | `findIndex` returns the first entry with the url, or −1 (`None`) when there is none |
| Playlist.Retitled | src/services/musicService.js:119-125 | only the first entry with the url gets the new title; every other entry is unchanged |
| Playlist.Rethumbed | src/services/musicService.js:191-198 | only the first entry with the url gets the new thumbnail; every other entry is unchanged |
| Playlist.FindFromSameUrls | src/services/musicService.js:120 | the first match depends only on the urls |
| Playlist.BackfillKeepsUrls | src/services/musicService.js:119-125 | back-fills change no url and never move the first match |
| Playlist.RetitledIdempotent | src/services/musicService.js:119-125 | setting the same title twice equals setting it once |
| Playlist.BackfillsCommute | src/services/musicService.js:119-198 | title and thumbnail back-fills commute |
| Playlist.Step | src/services/musicService.js:201-350 | each playlist command (add, remove, clear, play, next, previous) keeps the cursor invariant; add grows the list by one, next and previous keep its length |
| Playlist.Run | src/services/musicService.js:201-350 | any sequence of playlist commands keeps the cursor invariant |
| Playlist.RunKeepsUnsetOnlyWhenEmpty | src/services/musicService.js:216-236 | "cursor −1 only on an empty list" survives every command |
| Playlist.ReachableUnsetOnlyWhenEmpty | src/services/musicService.js:264-313 | from the initial state, a cursor of −1 means an empty list, so the −1 branches of next and previous are never taken on a non-empty list |
| Playlist.RemoveOnlyTrackLeavesStaleCursor | src/services/musicService.js:216-229 | after adding then removing one track the cursor is 0 on an empty list, and a further add keeps it at 0 (no auto-load) |
| Playlist.RemoveLastWithCursorOnIt | src/services/musicService.js:227-229 | removing the current last entry of three moves the cursor to the new last one |
| Music.SelectBackend | src/services/musicService.js:156-164 | audio element exactly for non-YouTube addresses, with that source; embedded player with the extracted id; nothing exactly for YouTube addresses with no id |
| Music.ReleaseCalls | src/services/musicService.js:144-151 | only releases, one for each live handle, the audio element's first |
| Music.AcquireCalls | src/services/musicService.js:156-186 | no releases. Creation of the selected handle comes first. Exactly one play follows it for an audio element created while playing, and nothing follows it otherwise |
| Music.LoadCalls | src/services/musicService.js:143-188 | the calls of `loadAudio`: a release for each live handle and for nothing else, and a creation of the selected backend and of nothing else. A play of a new audio element is sent exactly when playing, and no other call is sent |
| Music.LoadReleasesBeforeAcquiring | src/services/musicService.js:143-188 | in the load sequence no release follows a creation, and at most one handle is created |
| Music.BackfillOnLoad | src/services/musicService.js:158-161 | loading changes no url and no title of the playlist. When an embedded player is selected, the first entry with the url gets the video's thumbnail. No other entry changes, and nothing changes for any other backend |
| Music.OnEnded | src/services/musicService.js:102-111 | restart exactly when looping; advance exactly when not looping, auto-advance on and the list non-empty; stop otherwise |
| Music.ForwardTarget | src/services/musicService.js:436-439 | the target is the smaller of `currentTime + seconds` and `duration` |
| Music.RewindTarget | src/services/musicService.js:441-444 | the target is the larger of `currentTime - seconds` and 0 |
| Music.SeekTargetsWithinTrack | src/services/musicService.js:436-444 | from a position inside the track, a non-negative skip either way stays inside it |
| Music.NegativeForwardLeavesTrack | src/services/musicService.js:436-439 | a negative `fastForward` can seek before 0 |
| Music.StalePositionRewindsPastEnd | src/services/musicService.js:441-444 | a position of 250 kept from a longer track rewinds by 10 to 240, past the end of a 100-second track |
| Music.MusicService.Live | src/services/musicService.js:381-393 | the handle commands go to: the embedded player when live, else the audio element, else none |
| Music.MusicService.constructor | src/services/musicService.js:3-21 | the initial fields: no handles, volume 100, auto-advance on, empty playlist, cursor −1 |
| Music.MusicService.CreateYouTubePlayer | src/services/musicService.js:51-64 | an existing player is destroyed, then the new one is created with the id |
| Music.MusicService.UpdatePlaylistTrackTitle | src/services/musicService.js:119-125 | the playlist becomes `Retitled` of the old one |
| Music.MusicService.UpdatePlaylistTrackInfo | src/services/musicService.js:191-198 | the playlist becomes `Rethumbed` of the old one with the video thumbnail |
| Music.MusicService.AcquireBackend | src/services/musicService.js:156-187 | with no handle live, creates the selected backend, back-fills its thumbnail and logs the acquire calls |
| Music.MusicService.LoadAudio | src/services/musicService.js:143-188 | sets `url`, releases both handles before creating the selected one, keeps the invariant. The audio handle is live exactly for non-YouTube addresses |
| Music.MusicService.AddToPlaylist | src/services/musicService.js:201-222 | appends exactly one entry and leaves earlier ones alone. A cursor of −1 becomes 0 and the address is loaded; any other cursor is unchanged and nothing is loaded |
| Music.MusicService.RemoveFromPlaylist | src/services/musicService.js:224-232 | out of range changes nothing; otherwise entry `k` is spliced out and the cursor reclamped, keeping the invariant |
| Music.MusicService.ClearPlaylist | src/services/musicService.js:234-238 | the list empties and the cursor becomes −1; url and backend stay |
| Music.MusicService.NextTrack | src/services/musicService.js:264-279 | empty list: nothing changes; otherwise the cursor advances with wrap-around and that entry is loaded |
| Music.MusicService.PreviousTrack | src/services/musicService.js:306-319 | empty list: nothing changes; otherwise the cursor steps back with wrap-around and that entry is loaded |
| Music.MusicService.PlayTrack | src/services/musicService.js:342-350 | out of range changes nothing; otherwise the cursor becomes `k` and entry `k` is loaded |
| Music.MusicService.ToggleAutoNext | src/services/musicService.js:373-376 | auto-advance flips |
| Music.MusicService.Toggle | src/services/musicService.js:378-396 | `isPlaying` flips even with no backend; the live backend is told play or pause to match |
| Music.MusicService.ToggleMute | src/services/musicService.js:398-410 | mute flips and the live backend is told the new value |
| Music.MusicService.ToggleLoop | src/services/musicService.js:412-415 | loop flips |
| Music.MusicService.SetVolume | src/services/musicService.js:417-425 | the value is stored unclamped; the player receives it as is, the audio element receives `v / 100` |
| Music.MusicService.SeekTo | src/services/musicService.js:427-433 | only the live backend is told to seek; no mirrored field changes |
| Music.MusicService.FastForward | src/services/musicService.js:436-439 | the live backend seeks to `ForwardTarget` |
| Music.MusicService.Rewind | src/services/musicService.js:441-444 | the live backend seeks to `RewindTarget` |
| Music.MusicService.PlayerReady | src/services/musicService.js:79-92 | duration, title (default `YouTube Video`) and thumbnail are taken from the player, the title is back-filled into the playlist, and play is sent when playing |
| Music.MusicService.PlayerStateChanged | src/services/musicService.js:93-112 | playing and paused set `isPlaying`. Ended restarts when looping, advances by `nextTrack` when auto-advancing on a non-empty list, and stops otherwise. Other states change nothing. Outside the advance branch the playlist, the cursor, the url and the handles stay as they were |
| Music.MusicService.AudioLoadedMetadata | src/services/musicService.js:165-170 | duration from the element, title `Audio File`, the fixed audio thumbnail |
| Music.MusicService.AudioTimeUpdate | src/services/musicService.js:171-174 | the position is mirrored |
| Music.MusicService.AudioEnded | src/services/musicService.js:175-185 | looping seeks the element to 0 and plays; auto-advance on a non-empty list runs `nextTrack`; otherwise `isPlaying` becomes false. Outside the advance branch the playlist, the cursor, the url and the handles stay as they were |
| Music.MusicService.GetState | src/services/musicService.js:474-489 | each of the twelve snapshot fields equals the controller field of the same name, so the snapshot never shows the cursor out of range |
| Music.MusicService.ReleaseHandles | src/services/musicService.js:144-151 | both handles end up released, audio first, each logged once |
| Music.MusicService.Destroy | src/services/musicService.js:491-500 | no handle stays live and each live one was released |

## Left out

- `loadYouTubeAPI` (src/services/musicService.js:27-43) injects a script tag and installs a global callback. That is DOM work, not modelled.
- The YouTube player is created at once in `CreateYouTubePlayer`. The code instead retries every second while the YouTube API is missing (src/services/musicService.js:57-62); that retry is timer-driven. In the code the retry can fire after a later `loadAudio` of an audio address has created an audio element. It then creates a player as well, which leaves two live handles, one of them not the handle `url` selects. Commands then go to the player, and its `onReady` retitles the audio entry. The "at most one handle" and "the handle `url` selects" parts of `Valid()` hold only because the retry is not modelled.
- The delayed resumes after `nextTrack`, `previousTrack` and `playTrack`, and `forcePlay`, are races against backend readiness on one- and two-second timers. Only the synchronous part of each command is modelled.
- `startTimeTracking` and `stopTimeTracking` poll a foreign player with `setInterval`. `startTimeTracking` does not cancel an interval already running, so the code has no single-sampler invariant to prove.
- `isYouTubePlayerReady` only probes methods of the foreign player object.
- The listener set, `addListener`, `removeListener` and `notifyListeners` are callback dispatch with no state of their own. `Destroy` does not model `listeners.clear()`.
- The module-level singleton export is not modelled.
- Aliasing is not modelled. The playlist is a value (`seq<Track>`), so a snapshot from `GetState` cannot be changed by later back-fills. In the code the snapshot shares the live array and its track objects.
- Times are exact reals. Volume is an integer, and the audio element receives `v / 100` as an exact real. Floating-point rounding, `NaN` and an unloaded element's `NaN` duration are not modelled.
- `MusicService.SetVolume` does not model the exception the audio element throws for a volume outside `[0, 1]`.
- Indices are integers. Non-integer indices passed to `removeFromPlaylist` or `playTrack` are not modelled.
- Strings are sequences of characters, and JavaScript strings are sequences of UTF-16 code units. The two readings differ for any address holding a character outside the basic plane, which JavaScript stores as two code units:
  - An id with such a character has a different length in the model.
  - Without the `u` flag, the `.` in `youtu.be\/` matches a single code unit. So `youtu` followed by such a character and then `be/` is no marker in the code, but it is one in the model.
  - For example, `https://youtube.com/x/youtu😀be/dQw4w9WgXcQ` makes `extractVideoId` return `null`, and the code creates no backend. The model finds an id there and creates an embedded player.
- `\w` is the ASCII word class, as in a regular expression without the `u` flag.
- `Music.MusicService.AudioEnded`, `AudioLoadedMetadata` and `AudioTimeUpdate` require a live audio handle. The code's listeners stay attached to an audio element after it is released, and then act on `this.audio`, which is `null` or a newer element. Events from released elements are not modelled.
- `Music.MusicService.PlayerReady` and `PlayerStateChanged` require a live embedded player, for the same reason.
- The thumbnail is a fixed function of the video id, `ThumbnailFor`. Its contract fixes the format: the prefix `https://img.youtube.com/vi/`, the id, then `/default.jpg`. `ThumbnailForInjective` shows that different ids give different addresses.
