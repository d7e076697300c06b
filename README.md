# yt-cc: YouTube JSON3 captions, flattened and queried

This project models the core of `yt-cc`, a small library that reads a YouTube
JSON3 closed-caption document and answers queries over it:

- **Validation.** The library checks a decoded document against a fixed JSON
  Schema. `json3_schema.dfy` models the four schema keywords it uses:
  `type` (JSON Schema Validation 2020-12, section 6.1.1), `required`
  (section 6.5.3), `properties` (JSON Schema Core 2020-12, section 10.3.2.1)
  and `items` (section 10.3.1.2). They become one recursive predicate,
  `Conforms`, over a small `Json` datatype. The schema itself is written as a
  `Schema` value, `DocumentSchema`. A hand-written reading, `ValidDocument`, is
  proved to accept exactly the same documents.
- **Flattening.** `youtube_cc.dfy` models the loading step. A valid document
  becomes two tables: the lines table (one row per event) and the segments
  table (one row per text run, tagged with its event's position and a derived
  start time). `FlattenEvents` is the two nested loops, proved against the
  functions `LineTable` and `SegmentTable`. The class `YoutubeCC` holds both
  tables. Its ghost field `Events` records the events they were built from.
- **Queries.** `YoutubeCC.Len`, `GetItem`, `Iter` and `GetText` state their
  results in terms of `Events`, the document's own data, not just the tables.

Files: `wrappers.dfy` (Option, Result), `json.dfy` (the JSON value),
`json3_schema.dfy` (validation), `youtube_cc.dfy` (tables, store, queries,
lemmas and a two-event client).

### Behaviour that follows the code

- A line's `event_id` is the event's own `id` member, or `None` when the event
  has none. It is not the event's position (`yt_cc/youtube_cc.py:25`, `:72`).
  Only a segment's `line_id` is the position.
- A JSON `null` for `tStartMs` is rejected, because type `integer` excludes
  `null`. So is a missing `tStartMs`. After validation every segment row has
  a start time (`ValidEventsDated`).
- `GetItem(-1)` on a non-empty store does not fail. It returns the last
  line's fields with an empty `segments` list (see Findings). Keys below
  `-len` and keys from `len` up fail with `IndexError`.
- `GetText()` (start 0, no end) returns the whole transcript only when no
  segment starts before 0. A negative `tStartMs` passes validation, and the
  text of such a segment is left out (`NegativeStartLeftOut`,
  `WholeTranscript`).

## Model

| member | source | states |
|---|---|---|
| `Json3Schema.ValidateYoutubeCcJson3` | yt_cc/youtube_json3_schema.py:6-15 | Total: returns `false` exactly when the document breaks a rule (`ok <==> ValidDocument(doc)`); no failure escapes to the caller |
| `Json3Schema.DocumentMeaning` | yt_cc/youtube_json3_schema.py:18-84 | A document conforms to the declared schema, under the meaning of `type`/`properties`/`items`/`required`, iff `ValidDocument` holds |
| `Json3Schema.IntegerMeaning` | yt_cc/youtube_json3_schema.py:58 | `{"type": "integer"}` accepts exactly integers: not `null`, not a boolean, not a string |
| `Json3Schema.StringMeaning` | yt_cc/youtube_json3_schema.py:24 | `{"type": "string"}` accepts exactly strings |
| `Json3Schema.ArrayMeaning` | yt_cc/youtube_json3_schema.py:25-27 | An `array` schema with `items` accepts exactly arrays whose every element conforms to the item schema |
| `Json3Schema.PenMeaning` | yt_cc/youtube_json3_schema.py:27 | A pen conforms iff it is an object whose `iAttr`, when present, is an integer |
| `Json3Schema.WinStyleMeaning` | yt_cc/youtube_json3_schema.py:31-38 | A window style conforms iff it is an object whose three declared members, when present, are integers |
| `Json3Schema.WinPositionMeaning` | yt_cc/youtube_json3_schema.py:42-51 | A window position conforms iff it is an object whose five declared members, when present, are integers |
| `Json3Schema.SegmentMeaning` | yt_cc/youtube_json3_schema.py:66-75 | A segment conforms iff it is an object with a string `utf8` and integer `acAsrConf`/`tOffsetMs`/`pPenId` when present |
| `Json3Schema.EventMeaning` | yt_cc/youtube_json3_schema.py:55-80 | An event conforms iff it is an object with an integer `tStartMs`, integer optional members when present, and `segs`, when present, an array of conforming segments |
| `Json3Schema.SegsMeaning` | yt_cc/youtube_json3_schema.py:64-76 | `segs` conforms iff it is an array of valid segments |
| `Json3Schema.EventSound` | yt_cc/youtube_json3_schema.py:55-80 | A conforming event meets every rule of `ValidEvent` |
| `Json3Schema.EventComplete` | yt_cc/youtube_json3_schema.py:55-80 | An event meeting `ValidEvent` conforms to the event subschema |
| `Json3Schema.ObjectComplete` | yt_cc/youtube_json3_schema.py:22-23 | `type`/`properties`/`required`: an object with every required name whose named members conform, conforms |
| `Json3Schema.PensMeaning` | yt_cc/youtube_json3_schema.py:25-28 | `pens` conforms iff it is an array of valid pens |
| `Json3Schema.WinStylesMeaning` | yt_cc/youtube_json3_schema.py:29-39 | `wsWinStyles` conforms iff it is an array of valid window styles |
| `Json3Schema.WinPositionsMeaning` | yt_cc/youtube_json3_schema.py:40-52 | `wpWinPositions` conforms iff it is an array of valid window positions |
| `Json3Schema.EventsMeaning` | yt_cc/youtube_json3_schema.py:53-81 | `events` conforms iff it is an array of valid events |
| `Json3Schema.MembersMeaning` | yt_cc/youtube_json3_schema.py:23-82 | Each top-level member, when present, conforms to its subschema iff the hand-written reading accepts it |
| `Json3Schema.PropertyOf` | yt_cc/youtube_json3_schema.py:23 | `properties`: a member that a property entry names conforms to that entry's subschema |
| `Json3Schema.RequiredOf` | yt_cc/youtube_json3_schema.py:83 | `required`: every listed name is a member of a conforming object |
| `Json3Schema.DocumentComplete` | yt_cc/youtube_json3_schema.py:18-84 | A document meeting `ValidDocument` conforms to the declared schema |
| `Json3Schema.DocumentSound` | yt_cc/youtube_json3_schema.py:18-84 | A conforming document meets every rule of `ValidDocument` |
| `Json3Schema.TopLevelMembersRequired` | yt_cc/youtube_json3_schema.py:83 | A valid document is an object holding `events`, `pens`, `wireMagic`, `wpWinPositions` and `wsWinStyles` |
| `Json3Schema.TopLevelMemberTypes` | yt_cc/youtube_json3_schema.py:24-56 | In a valid document `wireMagic` is a string, and the other four members are arrays whose items are all objects |
| `Json3Schema.MissingOrNullStartRejected` | yt_cc/youtube_json3_schema.py:57-79 | An event with no `tStartMs`, or a `null` one, makes the whole document invalid |
| `Json3Schema.EventMembers` | yt_cc/youtube_json3_schema.py:57-79 | In a valid document each event's `tStartMs` is an integer; `dDurationMs`, `id`, `wpWinPosId`, `wsWinStyleId`, `wWinId` and `aAppend` are integers when present; `segs`, when present, is an array of objects |
| `Json3Schema.SegmentMembers` | yt_cc/youtube_json3_schema.py:66-74 | In a valid document every segment has a string `utf8`; `acAsrConf`, `tOffsetMs` and `pPenId` are integers when present |
| `Json3Schema.NestedViolationRejected` | yt_cc/youtube_json3_schema.py:8-11 | One invalid segment, two levels down, makes the whole document invalid |
| `Json3Schema.UndeclaredMemberAccepted` | yt_cc/youtube_json3_schema.py:18-84 | For any subschema, adding or replacing a member that no `properties` entry names keeps an object conforming (no `additionalProperties`) |
| `Json3Schema.UndeclaredTopLevelMemberAccepted` | yt_cc/youtube_json3_schema.py:22-23 | A valid document stays valid when an extra top-level member is added |
| `Captions.FlattenEvents` | yt_cc/youtube_cc.py:62-87 | The nested loops over `events` and `segs` produce exactly `LineTable(events)` and `SegmentTable(events)` |
| `Captions.YoutubeCC.constructor` | yt_cc/youtube_cc.py:62-87 | From a valid document, builds both tables over the document's `events` and establishes `Valid()` |
| `Captions.Load` | yt_cc/youtube_cc.py:53-60 | Fails with `InvalidJson3`, building nothing, exactly when the validator returns `false`; otherwise yields a fresh valid store over the document's events |
| `Captions.LineTableRows` | yt_cc/youtube_cc.py:69-72 | The lines table has one row per event, in event order; each row's `eventId` is the event's integer `id`, or `None` |
| `Captions.ValidLineFields` | yt_cc/youtube_cc.py:24-32 | On a valid event, each line field is the source member's value when present and `None` exactly when absent; the start time is always present |
| `Captions.SegmentTableLength` | yt_cc/youtube_cc.py:75-77 | The segments table has as many rows as there are segments across all events; an event without `segs` contributes none |
| `Captions.SegmentTablePrefix` | yt_cc/youtube_cc.py:69-84 | The table built from the first `k` events is a prefix of the whole table: rows are only ever appended |
| `Captions.SegmentTableAt` | yt_cc/youtube_cc.py:69-84 | Segment `j` of event `i` is row `|SegmentTable(events[..i])| + j`, built from that segment with `line_id == i` |
| `Captions.LineIdsInRange` | yt_cc/youtube_cc.py:84 | Every segment row's `line_id` names an existing line (it is below the number of events) |
| `Captions.ValidSegmentFields` | yt_cc/youtube_cc.py:32-37 | On a valid segment, `text` is its `utf8` string; `asr_confidence`, `offset_ms` and `pen_id` are the member's value when present and `None` exactly when absent; `line_id` is the owning event's position |
| `Captions.SegmentRowFields` | yt_cc/youtube_cc.py:74-84 | A row's start is `tStartMs + tOffsetMs`, with the offset defaulting to 0; it is `None` exactly when the event start is; an absent offset stays `None` in `offsetMs` |
| `Captions.ValidEventsDated` | yt_cc/youtube_cc.py:74-83 | On valid events every segment row has a start time |
| `Captions.TextsOfLineAppend` | yt_cc/youtube_cc.py:128-130 | The `line_id` filter distributes over concatenation of tables |
| `Captions.SegmentsOfLine` | yt_cc/youtube_cc.py:128-130 | The texts of the rows with `line_id == k` are exactly event `k`'s `utf8` texts, in order; a key outside `[0, len)` matches no row |
| `Captions.YoutubeCC.Len` | yt_cc/youtube_cc.py:115-116 | The length is the number of events in the document |
| `Captions.YoutubeCC.GetItem` | yt_cc/youtube_cc.py:118-132 | For `0 <= k < len`: event `k`'s fields with its segment texts. For `-len <= k < 0`: event `len + k`'s fields with no segments. `IndexError` exactly outside `[-len, len)` |
| `Captions.YoutubeCC.GetItemNormalized` | yt_cc/youtube_cc.py:118-132 | Corrected indexing: any key in `[-len, len)` gives the line at its position together with that line's own segment texts |
| `Captions.NegativeKeyDropsSegments` | yt_cc/youtube_cc.py:128-130 | As written, key `-1` returns the last line with an empty `segments` list whenever that line has segments, so it differs from key `len - 1` |
| `Captions.YoutubeCC.Iter` | yt_cc/youtube_cc.py:134-136 | Yields `len` views in order; view `i` is `GetItem(i)`, i.e. event `i` with its segment texts |
| `Captions.YoutubeCC.GetText` | yt_cc/youtube_cc.py:138-153 | Equals the document-order concatenation of the `utf8` of every segment whose start lies in `[start, end)` (or at or after `start` with no end); empty when `end <= start` |
| `Captions.EmptyWindow` | yt_cc/youtube_cc.py:150-153 | A window whose end is not after its start selects no segment |
| `Captions.WindowTextsAppend` | yt_cc/youtube_cc.py:150-153 | The window filter distributes over concatenation of tables |
| `Captions.TableWindowText` | yt_cc/youtube_cc.py:150-153 | The window text over the segments table equals the window text read straight off the events, event by event and segment by segment; undated segments never match |
| `Captions.WholeTranscript` | yt_cc/youtube_cc.py:150-153 | With no end and a start at or before every segment start, valid events yield the whole transcript |
| `Captions.NegativeStartLeftOut` | yt_cc/youtube_cc.py:139-150 | With the default start 0, a valid event dated at -5 ms contributes nothing, although its text is part of the transcript |

## Findings

| source | as written | input that shows it | evidently intended | confidence | as-written member | corrected member |
|---|---|---|---|---|---|---|
| yt_cc/youtube_cc.py:118-130 | `iloc[key]` picks row `len + key` for a negative key, but the segment filter compares `line_id` with the raw negative key, which no row has | a store whose last event has a segment, key `-1`: the last line is returned with `segments == []` | two readings: either a negative key follows Python's convention and returns the same view, segments included, as position `len + key`; or any key outside `[0, len)` raises `IndexError`. `GetItemNormalized` models the first reading | medium; not executed | `Captions.NegativeKeyDropsSegments` (on `Captions.YoutubeCC.GetItem`) | `Captions.YoutubeCC.GetItemNormalized` |

`GetItemNormalized` agrees with `GetItem` on every non-negative key, so
`Iter`, which only uses non-negative keys, is the same under either.

## Left out

- File access: path resolution, the existence check, `open` and `json.load` (`yt_cc/youtube_cc.py:41-56`) are I/O. The model starts from an already decoded `Json` value, and `FileNotFoundError` is not modelled.
- Logging calls: they are diagnostics only and never change a result.
- pandas mechanics: dtype coercion (integer columns holding `None` become floats with `NaN`), `iloc`/mask internals, and the copying `lines`/`segments` properties (`yt_cc/youtube_cc.py:89-97`). The tables are sequences of row records, which are values, so any read is already a copy. The source stores the tables as columns of lists; the model stores rows.
- The stray `lines_df`/`segments_df` attributes (`yt_cc/youtube_cc.py:49-50`): no query reads them.
- Display: `__repr__`, `__str__` and `_repr_html_`.
- Schema-library behaviour outside the four keywords: `$schema` draft detection, the annotation keywords, the unreachable `SchemaError` branch, floats with zero fraction counting as integers. JSON numbers are modelled as integers only.
- Captions.IntField: a member that is present but not an integer reads as `None`, where the source would store the raw value. Validation rules out every such document before flattening.
- Captions.Text: a segment without a string `utf8` gives the empty text, where the source would store `None`. Validation rules this out too.
- Captions.YoutubeCC.GetItem: only integer keys are modelled, not slices or lists of keys.
- Captions.YoutubeCC.Iter: the source's generator is lazy; the model returns the whole sequence of views at once.
- The `LineCC` field annotations (`append: bool`, and so on) are not enforced by the source. The model types every line field as an optional integer.
- `setup.py`: it is packaging.
