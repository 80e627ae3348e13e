# mpdevil `Song` record, modelled in Dafny

mpdevil is a GTK client for the Music Player Daemon (MPD). Its `Song` class in
`bin/structures.py` is a `collections.UserDict` holding one track's metadata
as MPD reports it. It does two things beyond a plain dictionary:

- **Writes normalise lists.** MPD reports a multi-valued tag (several artists,
  say) as a list of strings; `song[key] = value` stores such a list as one
  string joined with `", "`. Any other value is stored unchanged.
- **Reads of absent keys never fail.** `__missing__` supplies a default per key:
  the "Unknown Title" placeholder for `title` (which is also written back into
  the record), `0.0` for `duration` (after logging a warning that names the
  track's `file`), `"0"` for `track`, and `""` for every other key. Only the
  title is cached.

The model treats the record as an immutable value:

- `Structures.Set(song, key, input)` returns the new record;
- `Structures.Get(song, key)` returns a `Lookup` holding the value read, the
  record after the read (which differs from the input only when the title
  placeholder is cached), and the list of track identifiers for which a
  "duration not found" warning was logged;
- `Structures.Missing` is `__missing__`; the duration case looks the `file` up
  through `Get` exactly as `self['file']` does, so the nested lookup and its
  termination are part of the proof;
- `Structures.FromItems` is construction: `UserDict.__init__` calls `update`,
  which writes each pair through `__setitem__`, so the model is a left fold
  of `Set` over the pairs in order;
- `Strings.Join` is `", ".join`; `Strings.Split` (`str.split(", ")`) is not
  used by the program and exists only as the inverse that shows when a joined
  tag can be taken apart again.

Values are `Str(string)` or `Zero`, a tag standing for the `0.0` literal.

Files: `strings.dfy` (module `Strings`), `structures.dfy` (module `Structures`,
the record itself), `song_properties.dfy` (module `SongProperties`, laws that
relate several operations).

`bin/structures.py` does not coerce `duration` or `disc` on write, has no
`disc` default and has no derived `human_*` fields, so the model has none
either.

## Model

| member | source | states |
|---|---|---|
| Structures.Set | bin/structures.py:13-17 | a write stores the normalised value (the `", "`-join for a list, the value itself otherwise) under the key, adds only that key, and leaves every other entry unchanged |
| Structures.Missing | bin/structures.py:19-30 | the per-key default table: the title placeholder is written back, duration gives the zero tag and one warning naming the track's file (found by an ordinary read), track gives `"0"`, anything else `""`; nothing but the title is stored |
| Structures.Get | bin/structures.py:10-30 | a present key returns its stored value, logs nothing and changes nothing; an absent key gets the default table (the placeholder title, also stored under `title`; the zero tag for duration; `"0"` for track; `""` otherwise); in every case no entry is removed or altered, the only key a read can add is `title`, and a warning is logged exactly when `duration` is absent |
| Structures.FromItems | bin/structures.py:10-17 | constructing from pairs gives exactly the keys of the pairs, each holding the normalised value of the last pair with that key |
| Strings.Join | bin/structures.py:15 | the joined string is as long as the parts plus one separator between each neighbouring pair, and starts with the first part |
| Strings.SplitJoin | bin/structures.py:15 | splitting on `", "` gives back the joined parts whenever there is at least one part and no part contains the separator |
| SongProperties.WriteListShapes | bin/structures.py:14-15 | writing the empty list stores `""`, a one-item list stores that item, a two-item list stores the items with `", "` between |
| SongProperties.WriteListRoundTrip | bin/structures.py:14-15 | the stored string of a written list splits back into that list when it is non-empty and no item contains `", "` |
| SongProperties.ReadAfterWrite | bin/structures.py:13-19 | reading a key just written returns the normalised value, logs nothing and leaves the record unchanged |
| SongProperties.LastWriteWins | bin/structures.py:13-17 | a second write to a key replaces the first completely |
| SongProperties.WritesCommute | bin/structures.py:13-17 | writes to different keys give the same record in either order |
| SongProperties.ReadIsIdempotent | bin/structures.py:19-30 | a second read of any key returns the same value, logs the same warnings and leaves the record as the first read left it |
| SongProperties.ReadsAreTransparent | bin/structures.py:19-30 | caching the title never changes what a later read of any key returns or logs, and two reads leave the same record in either order |
| SongProperties.WriteThenReadOther | bin/structures.py:13-30 | a write does not change the value read for another key, the write and the read commute, and the duration warning changes only when `file` is written |
| SongProperties.DurationWithoutFile | bin/structures.py:23-25 | on a record without `duration` and `file`, reading `duration` returns the zero tag, leaves the record unchanged and logs one warning naming the empty string, without recursing |
| SongProperties.FromDistinctItems | bin/structures.py:10-17 | constructing from a dictionary (distinct keys) stores every pair's normalised value |

## Left out

- The `logging.warning` call (bin/structures.py:24) is I/O; it is modelled only as the `warnings` list of a `Lookup`, holding the `file` value the message names, not the message text or the logging configuration.
- `gettext` localisation of the placeholder (bin/structures.py:7, 21): the placeholder is the constant `"Unknown Title"`.
- Float semantics of `0.0` (bin/structures.py:25): it is the tag `Zero`, with no arithmetic.
- Python values other than strings and `0.0` (integers, other floats, lists of non-strings, on which `", ".join` would raise) are not modelled; a written list is a list of strings.
- `UserDict`'s other inherited operations (deletion, iteration, `get` with a default, `in`, keyword arguments to the constructor) are library code outside this file; `Get` models only the `__getitem__` path that falls back to `__missing__`.
