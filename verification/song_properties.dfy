/**
  Properties of the song record that relate several writes and reads: what a
  list write stores and how to get the list back, how writes combine, and why
  the title cache is invisible to every later read.
 */
module SongProperties {
  import Strings
  import opened Structures

  /**
    The empty list stores the empty string and a one-item list stores that item;
    the two-item case is an example of the general join.
   */
  lemma WriteListShapes(song: Song, key: string, x: string, y: string)
    ensures Set(song, key, List([])).data[key] == Str("")
    ensures Set(song, key, List([x])).data[key] == Str(x)
    ensures Set(song, key, List([x, y])).data[key] == Str(x + ", " + y)
  {
    assert [x, y][1..] == [y];
    assert Strings.Join([x, y], Strings.Separator) == x + Strings.Separator + Strings.Join([y], Strings.Separator);
  }

  /**
    A written list can be recovered by splitting the stored string on `", "`,
    provided the list is non-empty and no item contains the separator.
   */
  lemma WriteListRoundTrip(song: Song, key: string, items: seq<string>)
    requires |items| >= 1
    requires forall i :: 0 <= i < |items| ==> !Strings.ContainsSeparator(items[i])
    ensures Set(song, key, List(items)).data[key].Str?
    ensures Strings.Split(Set(song, key, List(items)).data[key].s) == items
  {
    Strings.SplitJoin(items);
  }

  /** Reading back a written key yields the normalised value, logs nothing and changes nothing. */
  lemma ReadAfterWrite(song: Song, key: string, v: Input)
    ensures Get(Set(song, key, v), key) == Lookup(Normalize(v), Set(song, key, v), [])
  {
  }

  /** A second write to the same key replaces the first entirely. */
  lemma LastWriteWins(song: Song, key: string, v: Input, w: Input)
    ensures Set(Set(song, key, v), key, w) == Set(song, key, w)
  {
  }

  /** Writes to different keys can be done in either order. */
  lemma WritesCommute(song: Song, a: string, v: Input, b: string, w: Input)
    requires a != b
    ensures Set(Set(song, a, v), b, w) == Set(Set(song, b, w), a, v)
  {
  }

  /**
    Reading a key and then reading it again gives the same value, logs the same
    warnings and leaves the record as the first read left it: the title is
    cached, every other default is recomputed identically.
   */
  lemma ReadIsIdempotent(song: Song, key: string)
    ensures Get(Get(song, key).song, key).value == Get(song, key).value
    ensures Get(Get(song, key).song, key).song == Get(song, key).song
    ensures Get(Get(song, key).song, key).warnings == Get(song, key).warnings
  {
  }

  /**
    The title cache is invisible: whatever key was read first, a later read of
    any key returns what it would have returned without it, and two reads leave
    the record the same in either order.
   */
  lemma ReadsAreTransparent(song: Song, a: string, b: string)
    ensures Get(Get(song, a).song, b).value == Get(song, b).value
    ensures Get(Get(song, a).song, b).warnings == Get(song, b).warnings
    ensures Get(Get(song, a).song, b).song == Get(Get(song, b).song, a).song
  {
  }

  /**
    A write does not change what a read of another key returns, and the two
    commute; the warning a missing duration logs changes only when `file` is
    the key written.
   */
  lemma WriteThenReadOther(song: Song, key: string, v: Input, other: string)
    requires key != other
    ensures Get(Set(song, key, v), other).value == Get(song, other).value
    ensures Get(Set(song, key, v), other).song == Set(Get(song, other).song, key, v)
    ensures key != "file" ==> Get(Set(song, key, v), other).warnings == Get(song, other).warnings
  {
  }

  /**
    The nested `file` lookup of a missing duration resolves through the
    empty-string default when the record has no `file`, and does not read the
    duration again.
   */
  lemma DurationWithoutFile(song: Song)
    requires "duration" !in song.data && "file" !in song.data
    ensures Get(song, "duration") == Lookup(Zero, song, [Str("")])
  {
  }

  /** Built from a dictionary (distinct keys), the record holds every pair's normalised value. */
  lemma FromDistinctItems(items: seq<(string, Input)>)
    requires forall i, j :: 0 <= i < j < |items| ==> items[i].0 != items[j].0
    ensures forall i :: 0 <= i < |items| ==> FromItems(items).data[items[i].0] == Normalize(items[i].1)
  {
  }
}
