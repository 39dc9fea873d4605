/** The playback state of `MainActivity`: the track list and its filtered
    view, the index of the current track, the shuffle and repeat flags, and
    whether a media player exists.  The media player itself, the views and
    the platform calls are outside the model; where the code depends on one
    of them (whether `MediaPlayer.create` returned a player for a bundled
    track) the outcome is a parameter. */
module Activity {
  import opened Playlist

  class MainActivity {
    var songList: seq<Song>
    var filteredList: seq<Song>
    var currentSongIndex: int
    var isShuffle: bool
    var isRepeat: bool
    /** `mediaPlayer != null`. */
    var hasPlayer: bool

    /** The current index is the initial -1 or a position in the list, and
        the list on screen shows only songs of the track list. */
    ghost predicate Valid()
      reads this
    {
      -1 <= currentSongIndex < |songList| &&
      forall s :: s in filteredList ==> s in songList
    }

    /** The field initialisers, then `setupRecyclerView`: the bundled track is
        listed when its raw resource exists (`resId != 0`). */
    constructor (resId: int)
      ensures Valid()
      ensures currentSongIndex == -1 && !isShuffle && !isRepeat && !hasPlayer
      ensures songList == (if resId != 0 then [Song("Naat Sharif", "Official", Resource(resId))] else [])
      ensures filteredList == songList
    {
      songList := [];
      filteredList := [];
      currentSongIndex := -1;
      isShuffle := false;
      isRepeat := false;
      hasPlayer := false;
      if resId != 0 {
        songList := songList + [Song("Naat Sharif", "Official", Resource(resId))];
      }
      filteredList := filteredList + songList;
    }

    /** `loadSongsFromStorage`: the tracks the media store returned are
        appended, and the list on screen is reset to the whole track list. */
    method LoadSongsFromStorage(found: seq<Song>)
      requires Valid()
      modifies this
      ensures Valid()
      ensures songList == old(songList) + found && filteredList == songList
      ensures currentSongIndex == old(currentSongIndex)
      ensures isShuffle == old(isShuffle) && isRepeat == old(isRepeat) && hasPlayer == old(hasPlayer)
    {
      songList := songList + found;
      filteredList := [];
      filteredList := filteredList + songList;
    }

    /** `filter`: the list on screen becomes the songs whose lower-cased title
        or artist contains the lower-cased query, in track-list order. */
    method Filter(text: string)
      requires Valid()
      modifies this`filteredList
      ensures Valid()
      ensures filteredList == Filtered(songList, text)
    {
      filteredList := [];
      var i := 0;
      while i < |songList|
        invariant 0 <= i <= |songList|
        invariant filteredList == Filtered(songList[..i], text)
      {
        var song := songList[i];
        assert songList[..i + 1][..i] == songList[..i];
        if Matches(song, text) {
          filteredList := filteredList + [song];
        }
        i := i + 1;
      }
      assert songList[..i] == songList;
    }

    /** `playNewSong`: an index outside the list changes nothing; otherwise
        the track becomes current and the old player is replaced by a new
        one.  A bundled track gets its player from `MediaPlayer.create`, which
        may return none (`playerCreated`); a stored track's player is
        constructed before its data source is prepared, so it exists even
        when preparing fails. */
    method PlayNewSong(index: int, playerCreated: bool)
      requires Valid()
      modifies this
      ensures Valid()
      ensures (index < 0 || index >= |songList|) ==> unchanged(this)
      ensures 0 <= index < |songList| ==> currentSongIndex == index
      ensures 0 <= index < |songList| ==> (hasPlayer <==> playerCreated || songList[index].source.Stored?)
      ensures songList == old(songList) && filteredList == old(filteredList)
      ensures isShuffle == old(isShuffle) && isRepeat == old(isRepeat)
    {
      if index < 0 || index >= |songList| {
        return;
      }
      currentSongIndex := index;
      hasPlayer := playerCreated || songList[index].source.Stored?;
    }

    /** `playNextSong`: nothing with an empty list; with shuffle on, any
        track (the random choice); otherwise the next one, wrapping around. */
    method PlayNextSong(playerCreated: bool)
      requires Valid()
      modifies this
      ensures Valid()
      ensures songList == [] ==> unchanged(this)
      ensures songList != [] ==> 0 <= currentSongIndex < |songList|
      ensures songList != [] ==> (hasPlayer <==> playerCreated || songList[currentSongIndex].source.Stored?)
      ensures songList != [] && !isShuffle ==>
        currentSongIndex == NextIndex(old(currentSongIndex), |songList|)
      ensures songList == old(songList) && filteredList == old(filteredList)
      ensures isShuffle == old(isShuffle) && isRepeat == old(isRepeat)
    {
      if |songList| == 0 {
        return;
      }
      var nextIndex: int;
      if isShuffle {
        nextIndex :| 0 <= nextIndex < |songList|;
      } else {
        nextIndex := NextIndex(currentSongIndex, |songList|);
      }
      PlayNewSong(nextIndex, playerCreated);
    }

    /** `playPreviousSong`: nothing with an empty list; otherwise the
        previous track, wrapping around (shuffle plays no part). */
    method PlayPreviousSong(playerCreated: bool)
      requires Valid()
      modifies this
      ensures Valid()
      ensures songList == [] ==> unchanged(this)
      ensures songList != [] ==>
        currentSongIndex == PrevIndex(old(currentSongIndex), |songList|)
      ensures songList != [] ==> (hasPlayer <==> playerCreated || songList[currentSongIndex].source.Stored?)
      ensures songList == old(songList) && filteredList == old(filteredList)
      ensures isShuffle == old(isShuffle) && isRepeat == old(isRepeat)
    {
      if |songList| == 0 {
        return;
      }
      var prevIndex := PrevIndex(currentSongIndex, |songList|);
      PlayNewSong(prevIndex, playerCreated);
    }

    /** The completion listener: with repeat on the same track plays again,
        otherwise playback moves on as the "next" button does. */
    method OnCompletion(playerCreated: bool)
      requires Valid()
      modifies this
      ensures Valid()
      ensures songList == [] || (isRepeat && old(currentSongIndex) == -1) ==> unchanged(this)
      ensures isRepeat ==> currentSongIndex == old(currentSongIndex)
      ensures !isRepeat && songList != [] ==> 0 <= currentSongIndex < |songList|
      ensures (isRepeat && old(currentSongIndex) >= 0) || (!isRepeat && songList != []) ==>
        (hasPlayer <==> playerCreated || songList[currentSongIndex].source.Stored?)
      ensures !isRepeat && songList != [] && !isShuffle ==>
        currentSongIndex == NextIndex(old(currentSongIndex), |songList|)
      ensures songList == old(songList) && filteredList == old(filteredList)
      ensures isShuffle == old(isShuffle) && isRepeat == old(isRepeat)
    {
      if isRepeat {
        PlayNewSong(currentSongIndex, playerCreated);
      } else {
        PlayNextSong(playerCreated);
      }
    }

    /** The play/pause button with no player yet starts the first track, if
        there is one.  With a player it pauses or resumes it, which changes
        none of the modelled state. */
    method PlayPauseClicked(playerCreated: bool)
      requires Valid()
      modifies this
      ensures Valid()
      ensures !old(hasPlayer) && songList != [] ==>
        currentSongIndex == 0 && (hasPlayer <==> playerCreated || songList[0].source.Stored?)
      ensures old(hasPlayer) || songList == [] ==> unchanged(this)
      ensures songList == old(songList) && filteredList == old(filteredList)
      ensures isShuffle == old(isShuffle) && isRepeat == old(isRepeat)
    {
      if !hasPlayer {
        if |songList| > 0 {
          PlayNewSong(0, playerCreated);
        }
        return;
      }
    }

    /** A tap on a listed song plays its first occurrence in the track list. */
    method SongClicked(song: Song, playerCreated: bool)
      requires Valid()
      modifies this
      ensures Valid()
      ensures song in songList ==>
        0 <= currentSongIndex < |songList| && songList[currentSongIndex] == song &&
        song !in songList[..currentSongIndex] &&
        (hasPlayer <==> playerCreated || song.source.Stored?)
      ensures song !in songList ==> unchanged(this)
      ensures songList == old(songList) && filteredList == old(filteredList)
      ensures isShuffle == old(isShuffle) && isRepeat == old(isRepeat)
    {
      var index := IndexOf(songList, song);
      PlayNewSong(index, playerCreated);
    }

    /** The shuffle button flips its own flag and nothing else. */
    method ToggleShuffle()
      modifies this`isShuffle
      ensures isShuffle == !old(isShuffle)
    {
      isShuffle := !isShuffle;
    }

    /** The repeat button flips its own flag and nothing else. */
    method ToggleRepeat()
      modifies this`isRepeat
      ensures isRepeat == !old(isRepeat)
    {
      isRepeat := !isRepeat;
    }

    /** `onDestroy` releases the player. */
    method OnDestroy()
      modifies this`hasPlayer
      ensures !hasPlayer
    {
      hasPlayer := false;
    }
  }

  /** Every song shown after a search can be tapped to play: it is in the
      track list, so the tap always reaches an in-range index. */
  method TapAfterSearch(activity: MainActivity, text: string, song: Song, playerCreated: bool)
    requires activity.Valid()
    modifies activity
    ensures activity.Valid() && activity.filteredList == Filtered(activity.songList, text)
    ensures song in activity.filteredList ==>
      0 <= activity.currentSongIndex < |activity.songList| &&
      activity.songList[activity.currentSongIndex] == song &&
      (activity.hasPlayer <==> playerCreated || song.source.Stored?)
  {
    activity.Filter(text);
    if song in activity.filteredList {
      activity.SongClicked(song, playerCreated);
    }
  }

  /** Pressing shuffle or repeat twice restores the flag. */
  method ToggleTwice(activity: MainActivity)
    modifies activity
    ensures activity.isShuffle == old(activity.isShuffle) && activity.isRepeat == old(activity.isRepeat)
    ensures activity.songList == old(activity.songList)
    ensures activity.currentSongIndex == old(activity.currentSongIndex)
  {
    activity.ToggleShuffle();
    activity.ToggleShuffle();
    activity.ToggleRepeat();
    activity.ToggleRepeat();
  }

  /** From the initial state, "next" starts the first track. */
  method NextFromStart(resId: int, found: seq<Song>, playerCreated: bool) returns (index: int)
    requires resId != 0 || found != []
    ensures index == 0
  {
    var activity := new MainActivity(resId);
    activity.LoadSongsFromStorage(found);
    activity.PlayNextSong(playerCreated);
    index := activity.currentSongIndex;
  }
}
