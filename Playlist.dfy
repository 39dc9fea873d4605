/** The playlist logic of `MainActivity` that is plain integer and sequence
    computation: the index arithmetic of the next and previous buttons, the
    search filter over titles and artists, and the lookup of a tapped song. */
module Playlist {
  import opened JavaInt

  /** Where a track's audio comes from: a raw resource bundled with the app,
      or a media-store entry found on the device. */
  datatype SongSource = Resource(resId: int) | Stored(mediaId: int)

  datatype Song = Song(title: string, artist: string, source: SongSource)

  // ---------------------------------------------------------------------
  // Next and previous

  /** The index "next" picks without shuffle: `(current + 1) % size`. */
  function NextIndex(current: int, size: int): (r: int)
    requires size > 0
    ensures -1 <= current < size ==> 0 <= r < size
    ensures -1 <= current < size - 1 ==> r == current + 1
    ensures current == size - 1 ==> r == 0
  {
    Rem(current + 1, size)
  }

  /** The index "previous" picks: `(current - 1 + size) % size`. */
  function PrevIndex(current: int, size: int): (r: int)
    requires size > 0
    ensures -1 <= current < size ==> 0 <= r < size
    ensures 0 < current < size ==> r == current - 1
    ensures current == 0 ==> r == size - 1
    ensures current == -1 ==> r == if size >= 2 then size - 2 else 0
  {
    Rem(current - 1 + size, size)
  }

  /** Where `k` presses of "next" (without shuffle) lead from `current`. */
  function NextPresses(current: int, size: int, k: nat): int
    requires size > 0
  {
    if k == 0 then current else NextIndex(NextPresses(current, size, k - 1), size)
  }

  /** "Next" undoes "previous" and "previous" undoes "next" on a playing track. */
  lemma NextUndoesPrev(current: int, size: int)
    requires 0 <= current < size
    ensures NextIndex(PrevIndex(current, size), size) == current
    ensures PrevIndex(NextIndex(current, size), size) == current
  {
  }

  /** Pressing "next" `j` times and then `k` times is pressing it `j + k` times. */
  lemma {:induction false} NextPressesAdd(current: int, size: int, j: nat, k: nat)
    requires size > 0
    ensures NextPresses(NextPresses(current, size, j), size, k) == NextPresses(current, size, j + k)
  {
    if k > 0 {
      NextPressesAdd(current, size, j, k - 1);
    }
  }

  /** Before the end of the list, "next" walks forward one track per press. */
  lemma {:induction false} NextPressesWalk(current: int, size: int, k: nat)
    requires size > 0 && -1 <= current && current + k < size
    ensures NextPresses(current, size, k) == current + k
  {
    if k > 0 {
      NextPressesWalk(current, size, k - 1);
    }
  }

  /** "Next" cycles through the whole list: `size` presses come back to the same track. */
  lemma {:induction false} NextPressesCycle(current: int, size: int)
    requires 0 <= current < size
    ensures NextPresses(current, size, size) == current
  {
    var toEnd := size - 1 - current;
    NextPressesWalk(current, size, toEnd);
    NextPressesAdd(current, size, toEnd, 1);
    assert NextPresses(current, size, toEnd + 1) == 0;
    NextPressesWalk(0, size, current);
    NextPressesAdd(current, size, toEnd + 1, current);
  }

  // ---------------------------------------------------------------------
  // Search filter

  /** Lower-casing of one character, for the ASCII letters. */
  function LowerChar(c: char): char
  {
    if 'A' <= c <= 'Z' then (c as int - 'A' as int + 'a' as int) as char else c
  }

  /** `String.toLowerCase`, restricted to ASCII letters. */
  function Lower(s: string): (r: string)
    ensures |r| == |s|
  {
    seq(|s|, i requires 0 <= i < |s| => LowerChar(s[i]))
  }

  /** `sub` occurs in `s` starting at position `i`. */
  predicate OccursAt(s: string, sub: string, i: int)
    requires 0 <= i <= |s| - |sub|
  {
    s[i..i + |sub|] == sub
  }

  /** `String.contains`: `sub` occurs somewhere in `s`. */
  predicate Contains(s: string, sub: string)
  {
    exists i :: 0 <= i <= |s| - |sub| && OccursAt(s, sub, i)
  }

  /** The filter's test: the lower-cased title or artist contains the lower-cased query. */
  predicate Matches(song: Song, query: string)
  {
    Contains(Lower(song.title), Lower(query)) || Contains(Lower(song.artist), Lower(query))
  }

  /** The songs of `songs` that match `query`, in their original order. */
  function Filtered(songs: seq<Song>, query: string): (r: seq<Song>)
    ensures |r| <= |songs|
    ensures forall s :: s in r ==> s in songs && Matches(s, query)
    ensures forall s :: s in songs && Matches(s, query) ==> s in r
    decreases |songs|
  {
    if songs == [] then []
    else
      var last := songs[|songs| - 1];
      var front := Filtered(songs[..|songs| - 1], query);
      assert songs == songs[..|songs| - 1] + [last];
      if Matches(last, query) then front + [last] else front
  }

  /** Filtering distributes over concatenation, so it keeps the relative order of the songs. */
  lemma {:induction false} FilteredAppend(xs: seq<Song>, ys: seq<Song>, query: string)
    ensures Filtered(xs + ys, query) == Filtered(xs, query) + Filtered(ys, query)
    decreases |ys|
  {
    if ys != [] {
      var ys' := ys[..|ys| - 1];
      assert (xs + ys)[..|xs + ys| - 1] == xs + ys';
      assert (xs + ys)[|xs + ys| - 1] == ys[|ys| - 1];
      FilteredAppend(xs, ys', query);
    } else {
      assert xs + ys == xs;
    }
  }

  /** Every string contains the empty string. */
  lemma ContainsEmpty(s: string)
    ensures Contains(s, "")
  {
    assert OccursAt(s, "", 0);
  }

  /** An empty query keeps every song. */
  lemma {:induction false} EmptyQueryKeepsAll(songs: seq<Song>)
    ensures Filtered(songs, "") == songs
    decreases |songs|
  {
    if songs != [] {
      var last := songs[|songs| - 1];
      ContainsEmpty(Lower(last.title));
      EmptyQueryKeepsAll(songs[..|songs| - 1]);
      assert songs == songs[..|songs| - 1] + [last];
    }
  }

  /** Filtering twice by the same query is filtering once. */
  lemma {:induction false} FilteredIdempotent(songs: seq<Song>, query: string)
    ensures Filtered(Filtered(songs, query), query) == Filtered(songs, query)
    decreases |songs|
  {
    if songs != [] {
      var last := songs[|songs| - 1];
      var front := songs[..|songs| - 1];
      FilteredIdempotent(front, query);
      if Matches(last, query) {
        FilteredAppend(Filtered(front, query), [last], query);
      }
    }
  }

  // ---------------------------------------------------------------------
  // Tapping a listed song

  /** `List.indexOf`: the first position of `s`, or -1 when it is absent. */
  function IndexOf(songs: seq<Song>, s: Song): (r: int)
    ensures r == -1 <==> s !in songs
    ensures r != -1 ==> 0 <= r < |songs| && songs[r] == s && s !in songs[..r]
    decreases |songs|
  {
    if songs == [] then -1
    else if songs[0] == s then 0
    else
      var k := IndexOf(songs[1..], s);
      assert songs == [songs[0]] + songs[1..];
      if k == -1 then -1
      else
        assert songs[..k + 1] == [songs[0]] + songs[1..][..k];
        k + 1
  }
}
