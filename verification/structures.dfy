/**
  The `Song` record of mpdevil: a dictionary of MPD track metadata that
  flattens multi-valued tags when they are written and supplies a default
  when an absent tag is read, caching only the placeholder title.

  The record is an immutable value here: a write returns the new record, and a
  read returns the value together with the record afterwards, so that the one
  write a read can make (caching the title) is explicit.
 */
module Structures {
  import Strings

  /** A stored value: a string as MPD sends it, or the `0.0` duration default (a tag, not a float). */
  datatype Value = Str(s: string) | Zero

  /** What a caller writes: a scalar is stored as given, a list of strings is joined first. */
  datatype Input = Scalar(value: Value) | List(items: seq<string>)

  /** The record; `data` is the backing dictionary of the `UserDict`. */
  datatype Song = Song(data: map<string, Value>)

  /**
    The outcome of a read: the value, the record after the read, and the track
    identifiers for which a "duration not found" warning was logged, in order.
   */
  datatype Lookup = Lookup(value: Value, song: Song, warnings: seq<Value>)

  /** The placeholder title (localisation is not modelled). */
  const UnknownTitle: string := "Unknown Title"

  /** The keys for which a missing-key read has a special case. */
  const SpecialKeys: set<string> := {"title", "duration", "track"}

  /** The value a write stores for an input. */
  function Normalize(v: Input): Value
  {
    match v
    case Scalar(x) => x
    case List(items) => Str(Strings.Join(items, Strings.Separator))
  }

  /** What a read of `file` yields: the stored file, or the empty-string default. */
  function FileOf(song: Song): Value
  {
    if "file" in song.data then song.data["file"] else Str("")
  }

  /** `song[key] = v`: stores the normalised value under `key` and leaves every other entry alone. */
  function Set(song: Song, key: string, v: Input): (r: Song)
    ensures r.data.Keys == song.data.Keys + {key}
    ensures r.data[key] == Normalize(v)
    ensures forall k :: k in song.data && k != key ==> r.data[k] == song.data[k]
  {
    Song(song.data[key := Normalize(v)])
  }

  /**
    `song.__missing__(key)`: the default for a key the dictionary lacks. Only the
    title placeholder is written back; the duration default logs a warning that
    names the track's `file`, looked up through the ordinary read.
    The title, track and catch-all clauses are the lookup table itself; the
    duration clause also says the nested `file` read changes nothing.
   */
  function Missing(song: Song, key: string): (r: Lookup)
    ensures key == "title" ==>
      r == Lookup(Str(UnknownTitle), Song(song.data[key := Str(UnknownTitle)]), [])
    ensures key == "duration" ==> r == Lookup(Zero, song, [FileOf(song)])
    ensures key == "track" ==> r == Lookup(Str("0"), song, [])
    ensures key !in SpecialKeys ==> r == Lookup(Str(""), song, [])
    decreases if key == "duration" then 1 else 0, 0
  {
    if key == "title" then
      var value := Str(UnknownTitle);
      Lookup(value, Song(song.data[key := value]), [])
    else if key == "duration" then
      var file := Get(song, "file");
      Lookup(Zero, file.song, file.warnings + [file.value])
    else if key == "track" then
      Lookup(Str("0"), song, [])
    else
      Lookup(Str(""), song, [])
  }

  /**
    `song[key]`: a present key yields its stored value; an absent key falls back
    to `Missing`. A read never removes or changes an entry, can add only `title`,
    and logs a warning only for an absent `duration`.
   */
  function Get(song: Song, key: string): (r: Lookup)
    ensures key in song.data ==> r == Lookup(song.data[key], song, [])
    ensures r.song.data.Keys == song.data.Keys + (if key == "title" then {key} else {})
    ensures forall k :: k in song.data ==> r.song.data[k] == song.data[k]
    ensures key != "title" ==> r.song == song
    ensures |r.warnings| == (if key == "duration" && key !in song.data then 1 else 0)
    ensures key !in song.data && key == "title" ==>
      r.value == Str(UnknownTitle) && r.song.data[key] == Str(UnknownTitle)
    ensures key !in song.data && key == "duration" ==> r.value == Zero && r.warnings == [FileOf(song)]
    ensures key !in song.data && key == "track" ==> r.value == Str("0")
    ensures key !in song.data && key !in SpecialKeys ==> r.value == Str("")
    decreases if key == "duration" then 1 else 0, 1
  {
    if key in song.data then Lookup(song.data[key], song, []) else Missing(song, key)
  }

  /** `Song(items)`: starts empty and writes each (key, value) pair in order, as `UserDict` does. */
  function FromItems(items: seq<(string, Input)>): (r: Song)
    ensures r.data.Keys == set p | p in items :: p.0
    ensures forall i :: 0 <= i < |items| && IsLast(items, i) ==>
      r.data[items[i].0] == Normalize(items[i].1)
  {
    if |items| == 0 then Song(map[])
    else
      var prefix, last := items[..|items| - 1], items[|items| - 1];
      assert items == prefix + [last];
      assert forall i :: 0 <= i < |prefix| && IsLast(items, i) ==> IsLast(prefix, i);
      Set(FromItems(prefix), last.0, last.1)
  }

  /** True iff no later pair of `items` has the key of pair `i`. */
  predicate IsLast(items: seq<(string, Input)>, i: int)
    requires 0 <= i < |items|
  {
    forall j :: i < j < |items| ==> items[j].0 != items[i].0
  }
}
