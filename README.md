# Music player: waveform view and playlist state, in Dafny

This project models the two pieces of sequential logic inside an Android
music player.

- **The waveform view (`VisualizerView`).** A platform capture callback hands
  it byte buffers. It keeps only the latest one. On every draw it turns that
  buffer into line-segment endpoints in a reusable `points` array: four
  coordinates per pair of consecutive samples, x spread evenly over the view's
  width, y centred on half the height. It also holds at most one platform
  capture session (`android.media.audiofx.Visualizer`).
- **The playback state of `MainActivity`.** This covers the track list and
  the filtered list the search box shows, the current track index (starting
  at -1), next/previous with wrap-around, the shuffle and repeat flags, the
  completion rule, and the `m:ss` time display.

Modules:

- `JavaInt`: Java's `byte`, its truncating `/` and `%`, and the `(byte)` cast.
- `Waveform`: the geometry of one draw as pure functions, plus the capacity
  rule for `points`.
- `Visualizer`: the view as a class. It holds `bytes`, the
  `points: array?<int>` that the drawing loop writes in place, and the
  `visualizer` slot. A ghost history of every capture session it opened
  makes "at most one live session" something a proof can state.
- `Playlist`: next/previous index arithmetic, the search filter and
  `indexOf`.
- `TimeFormat`: `formatTime`, with a parser as its inverse.
- `Activity`: the activity's fields as a class, with one method per handler.

All arithmetic in the source is Java `int`. The view stores its results in a
`float[]`, but only after computing them as integers, so the model uses
integers throughout and spells out truncating division
(`JavaInt.Div`, `JavaInt.Rem`).

The code behaves as follows where one might expect otherwise, and the model
follows it:

- Segment x coordinates only satisfy `x0 <= x1`, not `x0 < x1`. When the
  width is smaller than `n - 1`, the division truncates and some segments
  have `x0 == x1`.
- `setAudioSessionId` releases the previous session without first disabling
  it. Only `release` disables capture before releasing.
- Raw byte 0 is drawn on the top edge (`y == 0`) and raw byte -128 on the
  centre line. The cast `(byte) (b + 128)` flips the top bit of the byte.
- For a track from the media store, the player is constructed before its
  data source is set and prepared. If preparing fails, the activity keeps
  that unprepared player. Only a bundled track, created with
  `MediaPlayer.create`, can leave the activity without a player.
- "Previous" from the initial index -1 selects track `size - 2`, not the last
  track, when there are at least two tracks. With one track it selects track
  0. `PrevIndex` states this behaviour exactly as the code has it.

## Model

| member | source | states |
|---|---|---|
| JavaInt.Div | MusicPlayer2/app/src/main/java/com/myco/musicplayer/VisualizerView.java:89-94 | Java `/` by a positive divisor rounds toward zero: the remainder has the dividend's sign and is smaller than the divisor |
| JavaInt.Rem | MusicPlayer2/app/src/main/java/com/myco/musicplayer/MainActivity.java:297-303 | Java `%`: `a == Div(a, d) * d + r`, with `r` in `[0, d)` for `a >= 0` and in `(-d, 0]` for `a < 0` |
| JavaInt.ToByte | MusicPlayer2/app/src/main/java/com/myco/musicplayer/VisualizerView.java:91 | `(byte) x` is the byte value congruent to `x` modulo 256 |
| Waveform.X | MusicPlayer2/app/src/main/java/com/myco/musicplayer/VisualizerView.java:89-92 | x of sample `i` is `width * i / (n - 1)` with Java's truncating division; `XWithinWidth`, `XMonotone` and `XEnds` state its properties |
| Waveform.Amplitude | MusicPlayer2/app/src/main/java/com/myco/musicplayer/VisualizerView.java:91 | the deviation drawn for a raw byte is `(byte) (b + 128)`; `AmplitudeFlipsTopBit` states its value |
| Waveform.Y | MusicPlayer2/app/src/main/java/com/myco/musicplayer/VisualizerView.java:90-94 | y of a raw byte is `height / 2 + amplitude * (height / 2) / 128`; `YWithinHeight` and `YExtremes` state its range and extremes |
| Waveform.Geometry | MusicPlayer2/app/src/main/java/com/myco/musicplayer/VisualizerView.java:88-95 | a buffer of `n` bytes gives exactly `4 * (n - 1)` coordinates, and none when `n <= 1` |
| Waveform.GeometryAt | MusicPlayer2/app/src/main/java/com/myco/musicplayer/VisualizerView.java:88-95 | segment `i` sits at `[4i .. 4i+3]` as `width*i/(n-1)`, the y of byte `i`, `width*(i+1)/(n-1)`, the y of byte `i+1` |
| Waveform.SegmentsJoin | MusicPlayer2/app/src/main/java/com/myco/musicplayer/VisualizerView.java:89-94 | the end point of segment `i` is the start point of segment `i+1`, in both x and y |
| Waveform.XWithinWidth | MusicPlayer2/app/src/main/java/com/myco/musicplayer/VisualizerView.java:89-92 | for `width >= 0`, every x value lies in `[0, width]` |
| Waveform.XMonotone | MusicPlayer2/app/src/main/java/com/myco/musicplayer/VisualizerView.java:89-92 | x values never decrease with the sample index |
| Waveform.XEnds | MusicPlayer2/app/src/main/java/com/myco/musicplayer/VisualizerView.java:89-92 | the first sample has x 0 and the last has x exactly `width` |
| Waveform.AmplitudeFlipsTopBit | MusicPlayer2/app/src/main/java/com/myco/musicplayer/VisualizerView.java:91 | `(byte)(b + 128)` is `b + 128` for negative `b` and `b - 128` otherwise |
| Waveform.YWithinHeight | MusicPlayer2/app/src/main/java/com/myco/musicplayer/VisualizerView.java:90-94 | for `height >= 0`, every y value lies in `[0, height]` |
| Waveform.YExtremes | MusicPlayer2/app/src/main/java/com/myco/musicplayer/VisualizerView.java:90-94 | raw byte 0 maps to y 0; raw byte -128 maps to `height / 2` |
| Waveform.GeometryInViewport | MusicPlayer2/app/src/main/java/com/myco/musicplayer/VisualizerView.java:88-95 | a whole frame lies inside a non-negative viewport, each segment runs left to right, and the frame spans x from 0 to `width` |
| Waveform.ShortBufferDrawsNothing | MusicPlayer2/app/src/main/java/com/myco/musicplayer/VisualizerView.java:88 | a buffer of 0 or 1 bytes yields no coordinates; no division by `n - 1` happens |
| Waveform.Drawn | MusicPlayer2/app/src/main/java/com/myco/musicplayer/VisualizerView.java:82-95 | the whole `points` buffer after a draw is the geometry over its front and the old entries after it; `DrawnKeepsTail` and `DrawnIdempotent` state this |
| Waveform.DrawnKeepsTail | MusicPlayer2/app/src/main/java/com/myco/musicplayer/VisualizerView.java:82-95 | a draw writes the geometry to the front of `points` and leaves every later entry as it was, stale ones included |
| Waveform.DrawnIdempotent | MusicPlayer2/app/src/main/java/com/myco/musicplayer/VisualizerView.java:82-95 | drawing the same buffer into the same viewport again changes nothing |
| Waveform.Grown | MusicPlayer2/app/src/main/java/com/myco/musicplayer/VisualizerView.java:82-84 | capacity after a draw is at least `4 * n` and at least the old capacity, and is one of the two |
| Waveform.CapacityAfterIsLargest | MusicPlayer2/app/src/main/java/com/myco/musicplayer/VisualizerView.java:82-84 | after any run of buffers, the capacity is four times the longest buffer (or the starting capacity, if larger): it never shrinks |
| Waveform.CapacityExample | MusicPlayer2/app/src/main/java/com/myco/musicplayer/VisualizerView.java:82-84 | buffers of 10, 50 and 20 bytes leave capacity 200 |
| Visualizer.Zeros | MusicPlayer2/app/src/main/java/com/myco/musicplayer/VisualizerView.java:83 | a newly allocated `float[n]` holds `n` zeros |
| Visualizer.VisualizerView.constructor | MusicPlayer2/app/src/main/java/com/myco/musicplayer/VisualizerView.java:22-37 | a new view has no buffer, no `points` and no capture session |
| Visualizer.VisualizerView.AtMostOneLive | MusicPlayer2/app/src/main/java/com/myco/musicplayer/VisualizerView.java:39-67 | of all the sessions a view has opened, the only unreleased one is the one in its slot |
| Visualizer.VisualizerView.SetAudioSessionId | MusicPlayer2/app/src/main/java/com/myco/musicplayer/VisualizerView.java:39-59 | the previously held session is released with its enabled flag left as it was, and a new enabled session for the given id fills the slot and is the only live one |
| Visualizer.VisualizerView.Release | MusicPlayer2/app/src/main/java/com/myco/musicplayer/VisualizerView.java:61-67 | the held session is disabled and released and the slot is emptied; with an empty slot nothing changes |
| Visualizer.VisualizerView.UpdateVisualizer | MusicPlayer2/app/src/main/java/com/myco/musicplayer/VisualizerView.java:69-72 | the stored buffer becomes the new one whatever it was (last write wins), and nothing else changes |
| Visualizer.VisualizerView.OnDraw | MusicPlayer2/app/src/main/java/com/myco/musicplayer/VisualizerView.java:75-98 | with no buffer, `points` is untouched; otherwise it is kept if it holds at least `4 * n` entries and replaced by `4 * n` zeros if not, and its contents become `Drawn` of the previous contents |
| Visualizer.DrawSegments | MusicPlayer2/app/src/main/java/com/myco/musicplayer/VisualizerView.java:88-95 | the in-place loop leaves the array equal to the geometry over its front and unchanged after `4 * (n - 1)` |
| Visualizer.RedrawIsIdempotent | MusicPlayer2/app/src/main/java/com/myco/musicplayer/VisualizerView.java:82-95 | two draws with no capture in between leave `points` exactly as one draw does: the same array holding `Drawn` of its old contents when it was large enough, otherwise a fresh `4 * n` array holding `Drawn` of zeros |
| Visualizer.AttachDetachAttach | MusicPlayer2/app/src/main/java/com/myco/musicplayer/VisualizerView.java:39-67 | attach, release, attach leaves exactly one live session, bound to the second id |
| Visualizer.CapacityNeverShrinks | MusicPlayer2/app/src/main/java/com/myco/musicplayer/VisualizerView.java:82-84 | on a real view, drawing buffers of 10, 50 and 20 bytes leaves `points` 200 long |
| Visualizer.CaptureSession.constructor | MusicPlayer2/app/src/main/java/com/myco/musicplayer/VisualizerView.java:44 | a new platform session is bound to its id, neither enabled nor released |
| Visualizer.CaptureSession.SetEnabled | MusicPlayer2/app/src/main/java/com/myco/musicplayer/VisualizerView.java:58-63 | enabling or disabling capture does not release the session |
| Visualizer.CaptureSession.Release | MusicPlayer2/app/src/main/java/com/myco/musicplayer/VisualizerView.java:41-64 | releasing marks the session released and leaves its enabled flag alone |
| Playlist.NextIndex | MusicPlayer2/app/src/main/java/com/myco/musicplayer/MainActivity.java:297 | from any index in `[-1, size)`, next lies in `[0, size)`: one step on, and back to 0 from the last track (so 0 from -1) |
| Playlist.PrevIndex | MusicPlayer2/app/src/main/java/com/myco/musicplayer/MainActivity.java:303 | from `[-1, size)`, previous lies in `[0, size)`: one step back, `size - 1` from 0, and `size - 2` (or 0 with one track) from -1 |
| Playlist.NextUndoesPrev | MusicPlayer2/app/src/main/java/com/myco/musicplayer/MainActivity.java:297-303 | on a playing track, previous then next (and next then previous) returns to it |
| Playlist.NextPressesAdd | MusicPlayer2/app/src/main/java/com/myco/musicplayer/MainActivity.java:297 | `j` presses of next followed by `k` presses are `j + k` presses |
| Playlist.NextPressesWalk | MusicPlayer2/app/src/main/java/com/myco/musicplayer/MainActivity.java:297 | before the end of the list, each press of next moves forward by one |
| Playlist.NextPressesCycle | MusicPlayer2/app/src/main/java/com/myco/musicplayer/MainActivity.java:297 | `size` presses of next come back to the same track |
| Playlist.Lower | MusicPlayer2/app/src/main/java/com/myco/musicplayer/MainActivity.java:150-151 | lower-casing keeps the length of the string |
| Playlist.Contains | MusicPlayer2/app/src/main/java/com/myco/musicplayer/MainActivity.java:150-151 | `String.contains`: the query occurs at some position of the string |
| Playlist.Matches | MusicPlayer2/app/src/main/java/com/myco/musicplayer/MainActivity.java:150-151 | the filter's test: the lower-cased title or the lower-cased artist contains the lower-cased query |
| Playlist.ContainsEmpty | MusicPlayer2/app/src/main/java/com/myco/musicplayer/MainActivity.java:150-151 | every string contains the empty string |
| Playlist.Filtered | MusicPlayer2/app/src/main/java/com/myco/musicplayer/MainActivity.java:147-154 | a song is in the result exactly when it is in the list and its lower-cased title or artist contains the lower-cased query; the result is no longer than the list |
| Playlist.FilteredAppend | MusicPlayer2/app/src/main/java/com/myco/musicplayer/MainActivity.java:147-154 | filtering distributes over concatenation, so matching songs keep their original order |
| Playlist.EmptyQueryKeepsAll | MusicPlayer2/app/src/main/java/com/myco/musicplayer/MainActivity.java:147-154 | an empty query keeps every song, in order |
| Playlist.FilteredIdempotent | MusicPlayer2/app/src/main/java/com/myco/musicplayer/MainActivity.java:147-154 | filtering twice by the same query is filtering once |
| Playlist.IndexOf | MusicPlayer2/app/src/main/java/com/myco/musicplayer/MainActivity.java:188 | -1 exactly when the song is absent; otherwise the position of its first occurrence |
| TimeFormat.Digits | MusicPlayer2/app/src/main/java/com/myco/musicplayer/MainActivity.java:336 | `%d` of a natural number is a non-empty run of decimal digits, one digit exactly below ten |
| TimeFormat.Decimal | MusicPlayer2/app/src/main/java/com/myco/musicplayer/MainActivity.java:336 | `%d`: the digits of the value, after a minus sign when it is negative |
| TimeFormat.ZeroPad2 | MusicPlayer2/app/src/main/java/com/myco/musicplayer/MainActivity.java:336 | `%02d`: a value in `[0, 10)` gets a leading zero, any other value prints as `%d`; `SecondsFieldIsTwoDigits` states the two-digit case |
| TimeFormat.FormatTime | MusicPlayer2/app/src/main/java/com/myco/musicplayer/MainActivity.java:333-337 | the `m:ss` display of a position; `FormatTimeRoundTrip` and `UnknownDurationShowsZero` state its meaning |
| TimeFormat.Clock | MusicPlayer2/app/src/main/java/com/myco/musicplayer/MainActivity.java:334-335 | for `ms >= 0`: `m >= 0`, `0 <= s < 60` and `m * 60 + s == ms / 1000` |
| TimeFormat.ParseDigitsOfDigits | MusicPlayer2/app/src/main/java/com/myco/musicplayer/MainActivity.java:336 | reading the printed digits of a number back gives the number |
| TimeFormat.SecondsFieldIsTwoDigits | MusicPlayer2/app/src/main/java/com/myco/musicplayer/MainActivity.java:335-336 | `%02d` of a seconds value prints exactly two digits that denote it |
| TimeFormat.FormatTimeRoundTrip | MusicPlayer2/app/src/main/java/com/myco/musicplayer/MainActivity.java:333-337 | for `ms >= 0` the display is `m:ss` with `m * 60 + ss` the whole seconds and `ss < 60`, and it parses back to `(m, ss)` |
| TimeFormat.UnknownDurationShowsZero | MusicPlayer2/app/src/main/java/com/myco/musicplayer/MainActivity.java:333-337 | a duration of -1 (unknown) is shown as `0:00` under Java's truncating division |
| Activity.MainActivity.constructor | MusicPlayer2/app/src/main/java/com/myco/musicplayer/MainActivity.java:44-185 | starts at index -1 with both flags off and no player; the bundled track is listed exactly when its resource id is non-zero, and the list on screen equals the track list |
| Activity.MainActivity.LoadSongsFromStorage | MusicPlayer2/app/src/main/java/com/myco/musicplayer/MainActivity.java:218-241 | the found tracks are appended, the list on screen is reset to the whole track list, and the index and flags are kept |
| Activity.MainActivity.Filter | MusicPlayer2/app/src/main/java/com/myco/musicplayer/MainActivity.java:147-156 | the list on screen becomes `Filtered(songList, text)`, and the track list is untouched |
| Activity.MainActivity.PlayNewSong | MusicPlayer2/app/src/main/java/com/myco/musicplayer/MainActivity.java:251-293 | an index outside `[0, size)` changes nothing; an index inside it becomes current, and afterwards a player exists exactly when the track comes from the media store or `MediaPlayer.create` returned one for the bundled track |
| Activity.MainActivity.PlayNextSong | MusicPlayer2/app/src/main/java/com/myco/musicplayer/MainActivity.java:295-299 | no-op on an empty list; otherwise the new index is in range, it is `NextIndex` of the old one when shuffle is off, and the player rule of `PlayNewSong` holds for the new track |
| Activity.MainActivity.PlayPreviousSong | MusicPlayer2/app/src/main/java/com/myco/musicplayer/MainActivity.java:301-305 | no-op on an empty list; otherwise the new index is `PrevIndex` of the old one, whatever shuffle says, and the player rule of `PlayNewSong` holds for the new track |
| Activity.MainActivity.OnCompletion | MusicPlayer2/app/src/main/java/com/myco/musicplayer/MainActivity.java:282-285 | with an empty list, or with repeat on at index -1, nothing changes; with repeat on, the current index is replayed unchanged; otherwise the next-song rule applies; whenever a track starts, the player rule of `PlayNewSong` holds for it |
| Activity.MainActivity.PlayPauseClicked | MusicPlayer2/app/src/main/java/com/myco/musicplayer/MainActivity.java:79-86 | with no player and a non-empty list, track 0 starts under the player rule of `PlayNewSong`, and both flags are kept; otherwise no modelled state changes |
| Activity.MainActivity.SongClicked | MusicPlayer2/app/src/main/java/com/myco/musicplayer/MainActivity.java:187-191 | a tapped song that is in the track list becomes current at its first occurrence, under the player rule of `PlayNewSong`; any other tap changes nothing |
| Activity.MainActivity.ToggleShuffle | MusicPlayer2/app/src/main/java/com/myco/musicplayer/MainActivity.java:91-97 | negates `isShuffle` and changes nothing else |
| Activity.MainActivity.ToggleRepeat | MusicPlayer2/app/src/main/java/com/myco/musicplayer/MainActivity.java:99-105 | negates `isRepeat` and changes nothing else |
| Activity.MainActivity.OnDestroy | MusicPlayer2/app/src/main/java/com/myco/musicplayer/MainActivity.java:345-354 | afterwards there is no player |
| Activity.TapAfterSearch | MusicPlayer2/app/src/main/java/com/myco/musicplayer/MainActivity.java:147-191 | every song shown after a search is in the track list, so tapping it makes that song current under the player rule of `PlayNewSong` |
| Activity.ToggleTwice | MusicPlayer2/app/src/main/java/com/myco/musicplayer/MainActivity.java:91-105 | pressing shuffle twice, or repeat twice, restores the flag |
| Activity.NextFromStart | MusicPlayer2/app/src/main/java/com/myco/musicplayer/MainActivity.java:295-299 | from the initial index -1 with a non-empty list, next plays track 0 |

## Left out

- Visualizer.VisualizerView.OnDraw: does not model Java `int` overflow of `rect.width() * i` or of `amplitude * (height / 2)`. Integers are unbounded here, and the viewport only has to be non-negative.
- Visualizer.VisualizerView.OnDraw: `points` holds integers. The source widens each `int` result to `float`, which is exact for the values a screen produces. `super.onDraw`, `rect.set`, `canvas.drawLines` and the `Paint` settings (stroke width, colour, anti-aliasing) are painting and are not modelled.
- Visualizer.VisualizerView.SetAudioSessionId: the platform calls on the new session are not modelled. These are `setCaptureSize(getCaptureSizeRange()[1])`, the capture rate `getMaxCaptureRate() / 2` and the listener registration. Only creation, enabling and releasing are tracked. Creation failures, such as a missing permission or an invalid session, are not modelled.
- Visualizer.VisualizerView.UpdateVisualizer: the hand-off of the buffer from the capture thread to the UI thread, and `invalidate()`, are not modelled. Capture and draw are sequential calls. The buffer is an immutable sequence, so aliasing of the platform's array is not captured. `onFftDataCapture` does nothing in the source and is omitted.
- Activity.MainActivity.PlayNewSong: `MediaPlayer` is reduced to whether a player exists. That includes creation from a resource or a URI, `prepare`, `stop`, `release`, `start`, duration and the error Toast. Whether `MediaPlayer.create` returned a player for a bundled track is a parameter. A stored track always leaves a player, because it is constructed before `setDataSource` and `prepare` can fail. Whether that player was prepared is not modelled. The view and text updates, and the calls into the waveform view, are not modelled. Those calls are `release()` of the old session and `setAudioSessionId` after the `RECORD_AUDIO` permission check. The view's own contracts cover what those calls do.
- Activity.MainActivity.PlayNextSong: `new Random().nextInt(size)` is modelled as an arbitrary choice in `[0, size)`.
- Activity.MainActivity.PlayPauseClicked: pausing and resuming an existing player (`pauseMusic`, `playMusic`, the GIF switch and `updateSeekBar`) are not modelled. They change only platform state.
- Activity.MainActivity.OnDestroy: `onPause` releases the waveform view's session; `onDestroy` does so too and also cancels pending seek-bar callbacks. Those are not modelled here.
- Playlist.IndexOf: Java's `List.indexOf` compares `Song` objects with `equals`, which `Song` does not override, so it compares them by identity. The model compares songs by value. The two agree on the lists the activity builds: each media-store entry has its own id, and the bundled track is added once.
- Playlist.Lower: `String.toLowerCase` is locale-dependent and covers all of Unicode. The model lower-cases the ASCII letters only.
- TimeFormat.Digits: `String.format` can print locale-specific digits. The model prints ASCII digits.
- Permission checks and requests (`checkPermissions`, `onRequestPermissionsResult`) are not modelled. Neither are the `ContentResolver` query, cursor reading, `getIdentifier` look-ups and the try/catch around them. Their results are parameters: the tracks found, and the bundled resource id.
- UI plumbing is not modelled: `initViews`, `loadGif`/Glide, the seek-bar listener, the drawer, Toasts, the `SongAdapter` and its `ViewHolder`, and the `Song` getters.
