/** The caption store: a validated JSON3 document flattened into a lines
    table (one row per event) and a segments table (one row per text run),
    and the queries answered from those two tables. */
module Captions {
  import opened Wrappers
  import opened Json
  import opened Json3Schema

  // ---------------------------------------------------------------------
  // Rows and views

  /** One row of the lines table: the event's own fields, each absent
      (`None`) when the event does not carry it. */
  datatype LineRow = LineRow(
    eventId: Option<int>,
    startTimeMs: Option<int>,
    durationMs: Option<int>,
    windowId: Option<int>,
    windowStyleId: Option<int>,
    windowPositionId: Option<int>,
    append: Option<int>)

  /** One row of the segments table. `startTimeMs` is derived from the
      owning event; `lineId` is the owning event's position in `events`. */
  datatype SegmentRow = SegmentRow(
    text: string,
    asrConfidence: Option<int>,
    offsetMs: Option<int>,
    penId: Option<int>,
    startTimeMs: Option<int>,
    lineId: nat)

  /** The assembled view of one line: its fields and its segment texts. */
  datatype LineCC = LineCC(
    eventId: Option<int>,
    startTimeMs: Option<int>,
    durationMs: Option<int>,
    windowId: Option<int>,
    windowStyleId: Option<int>,
    windowPositionId: Option<int>,
    append: Option<int>,
    segments: seq<string>)

  /** Loading rejects a document that fails validation (a `ValueError`). */
  datatype LoadError = InvalidJson3

  /** Indexing outside the table (an `IndexError`). */
  datatype QueryError = IndexError

  // ---------------------------------------------------------------------
  // Reading fields with "absent becomes None"

  /** `j.get(key, None)`: the member, if `j` is an object holding `key`. */
  function Get(j: Json, key: string): Option<Json> {
    if j.JObject? && key in j.fields then Some(j.fields[key]) else None
  }

  /** An integer member, or `None` when absent. */
  function IntField(j: Json, key: string): Option<int> {
    match Get(j, key)
    case Some(JInt(n)) => Some(n)
    case _ => None
  }

  /** A segment's `utf8` text. */
  function Text(seg: Json): string {
    match Get(seg, "utf8")
    case Some(JString(s)) => s
    case _ => ""
  }

  /** `line.get("segs", [])`. */
  function Segs(ev: Json): seq<Json> {
    match Get(ev, "segs")
    case Some(JArray(a)) => a
    case _ => []
  }

  /** The document's `events` array. */
  function EventsOf(doc: Json): seq<Json> {
    match Get(doc, "events")
    case Some(JArray(a)) => a
    case _ => []
  }

  // ---------------------------------------------------------------------
  // The tables the flattener builds, as functions of the events

  /** The lines-table column map: event_id <- id, start_time_ms <- tStartMs,
      duration_ms <- dDurationMs, window_id <- wWinId,
      window_style_id <- wsWinStyleId, window_position_id <- wpWinPosId,
      append <- aAppend. */
  function LineOf(ev: Json): LineRow {
    LineRow(
      IntField(ev, "id"),
      IntField(ev, "tStartMs"),
      IntField(ev, "dDurationMs"),
      IntField(ev, "wWinId"),
      IntField(ev, "wsWinStyleId"),
      IntField(ev, "wpWinPosId"),
      IntField(ev, "aAppend"))
  }

  /** A segment's start: absent when the event start is absent, otherwise
      the event start plus the segment offset (0 when absent). */
  function SegmentStart(eventStart: Option<int>, seg: Json): Option<int> {
    if eventStart.None? then None else Some(eventStart.value + IntField(seg, "tOffsetMs").GetOr(0))
  }

  /** The segments-table column map: text <- utf8, asr_confidence <- acAsrConf,
      offset_ms <- tOffsetMs, pen_id <- pPenId; plus the derived start time
      and the owning line's position. */
  function SegmentOf(seg: Json, eventStart: Option<int>, lineId: nat): SegmentRow {
    SegmentRow(
      Text(seg),
      IntField(seg, "acAsrConf"),
      IntField(seg, "tOffsetMs"),
      IntField(seg, "pPenId"),
      SegmentStart(eventStart, seg),
      lineId)
  }

  /** The rows event `ev`, at position `lineId`, contributes to the segments table. */
  function EventSegments(ev: Json, lineId: nat): seq<SegmentRow> {
    var segs := Segs(ev);
    seq(|segs|, j requires 0 <= j < |segs| => SegmentOf(segs[j], IntField(ev, "tStartMs"), lineId))
  }

  /** The lines table: one row per event, in event order. */
  function LineTable(events: seq<Json>): seq<LineRow> {
    seq(|events|, i requires 0 <= i < |events| => LineOf(events[i]))
  }

  /** The segments table: every event's rows, in event order. */
  function SegmentTable(events: seq<Json>): seq<SegmentRow>
    decreases |events|
  {
    if events == [] then []
    else SegmentTable(events[..|events| - 1]) + EventSegments(events[|events| - 1], |events| - 1)
  }

  /** The `utf8` texts of an event's segments, in source order. */
  function SegmentTexts(ev: Json): seq<string> {
    var segs := Segs(ev);
    seq(|segs|, j requires 0 <= j < |segs| => Text(segs[j]))
  }

  /** The number of segments across all events. */
  function SegmentCount(events: seq<Json>): nat {
    if events == [] then 0 else |Segs(events[0])| + SegmentCount(events[1..])
  }

  // ---------------------------------------------------------------------
  // Flattening

  /** The single pass over `events` and their `segs` that fills the two
      tables row by row. */
  method FlattenEvents(events: seq<Json>) returns (lineRows: seq<LineRow>, segmentRows: seq<SegmentRow>)
    ensures lineRows == LineTable(events)
    ensures segmentRows == SegmentTable(events)
  {
    lineRows, segmentRows := [], [];
    var lineId := 0;
    while lineId < |events|
      invariant 0 <= lineId <= |events|
      invariant lineRows == LineTable(events[..lineId])
      invariant segmentRows == SegmentTable(events[..lineId])
    {
      var line := events[lineId];
      lineRows := lineRows + [LineOf(line)];
      var eventStartTimeMs := IntField(line, "tStartMs");
      var segs := Segs(line);
      ghost var before := segmentRows;
      var j := 0;
      while j < |segs|
        invariant 0 <= j <= |segs|
        invariant segmentRows == before + EventSegments(line, lineId)[..j]
      {
        segmentRows := segmentRows + [SegmentOf(segs[j], eventStartTimeMs, lineId)];
        assert EventSegments(line, lineId)[..j + 1] == EventSegments(line, lineId)[..j] + [SegmentOf(segs[j], eventStartTimeMs, lineId)];
        j := j + 1;
      }
      assert events[..lineId + 1][..lineId] == events[..lineId];
      assert EventSegments(line, lineId)[..j] == EventSegments(line, lineId);
      assert LineTable(events[..lineId + 1]) == LineTable(events[..lineId]) + [LineOf(line)];
      assert SegmentTable(events[..lineId + 1]) == SegmentTable(events[..lineId]) + EventSegments(line, lineId);
      lineId := lineId + 1;
    }
    assert events[..|events|] == events;
  }

  // ---------------------------------------------------------------------
  // Helpers over rows

  function Texts(rows: seq<SegmentRow>): seq<string> {
    seq(|rows|, i requires 0 <= i < |rows| => rows[i].text)
  }

  /** The texts of the rows whose `lineId` equals `key`, in stored order. */
  function TextsOfLine(rows: seq<SegmentRow>, key: int): seq<string> {
    if rows == [] then []
    else (if rows[0].lineId == key then [rows[0].text] else []) + TextsOfLine(rows[1..], key)
  }

  /** `start <= t` and, when an end is given, `t < end`; an absent `t`
      never matches. */
  predicate InWindow(t: Option<int>, start: int, end: Option<int>) {
    t.Some? && start <= t.value && (end.None? || t.value < end.value)
  }

  /** The texts of the rows whose start time lies in the window, in stored order. */
  function WindowTexts(rows: seq<SegmentRow>, start: int, end: Option<int>): seq<string> {
    if rows == [] then []
    else (if InWindow(rows[0].startTimeMs, start, end) then [rows[0].text] else [])
         + WindowTexts(rows[1..], start, end)
  }

  /** `"".join(parts)`. */
  function Concat(parts: seq<string>): string {
    if parts == [] then "" else parts[0] + Concat(parts[1..])
  }

  function Assemble(row: LineRow, segments: seq<string>): LineCC {
    LineCC(row.eventId, row.startTimeMs, row.durationMs, row.windowId,
           row.windowStyleId, row.windowPositionId, row.append, segments)
  }

  /** The view of event `ev` with the given segment texts. */
  function LineView(ev: Json, segments: seq<string>): LineCC {
    Assemble(LineOf(ev), segments)
  }

  // ---------------------------------------------------------------------
  // The window text, read straight off the document

  /** The texts of `segs` whose start (event start plus offset) lies in the
      window, concatenated in source order. */
  function SegsWindowText(segs: seq<Json>, eventStart: Option<int>, start: int, end: Option<int>): string {
    if segs == [] then ""
    else (if InWindow(SegmentStart(eventStart, segs[0]), start, end) then Text(segs[0]) else "")
         + SegsWindowText(segs[1..], eventStart, start, end)
  }

  /** Event by event, segment by segment: every `utf8` whose start lies in
      the window, concatenated. */
  function DocumentTextBetween(events: seq<Json>, start: int, end: Option<int>): string {
    if events == [] then ""
    else SegsWindowText(Segs(events[0]), IntField(events[0], "tStartMs"), start, end)
         + DocumentTextBetween(events[1..], start, end)
  }

  /** Every `utf8` of the document, event by event, segment by segment. */
  function FullText(events: seq<Json>): string {
    if events == [] then "" else Concat(SegmentTexts(events[0])) + FullText(events[1..])
  }

  // ---------------------------------------------------------------------
  // The store

  class YoutubeCC {
    /** The `events` of the document the tables were built from. */
    ghost var Events: seq<Json>

    var lines: seq<LineRow>
    var segments: seq<SegmentRow>

    ghost predicate Valid()
      reads this
    {
      && ValidEvents(Events)
      && lines == LineTable(Events)
      && segments == SegmentTable(Events)
    }

    /** Builds both tables from a document that passed validation. */
    constructor (doc: Json)
      requires ValidDocument(doc)
      ensures Valid() && Events == EventsOf(doc)
    {
      var events := EventsOf(doc);
      var lineRows, segmentRows := FlattenEvents(events);
      Events := events;
      lines := lineRows;
      segments := segmentRows;
    }

    /** The number of lines: one per event. */
    function Len(): (n: nat)
      reads this
      requires Valid()
      ensures n == |Events|
    {
      |lines|
    }

    /** Positional indexing. A key in [0, len) gives that line with its
        segment texts; a key in [-len, 0) counts from the end but matches no
        segment row, so its `segments` is empty; any other key fails. */
    function GetItem(key: int): (r: Result<LineCC, QueryError>)
      reads this
      requires Valid()
      ensures 0 <= key < |Events| ==> r == Success(LineView(Events[key], SegmentTexts(Events[key])))
      ensures -|Events| <= key < 0 ==> r == Success(LineView(Events[|Events| + key], []))
      ensures r.Failure? <==> key < -|Events| || |Events| <= key
    {
      if key < -|lines| || |lines| <= key then Failure(IndexError)
      else
        var row := lines[if key < 0 then |lines| + key else key];
        SegmentsOfLine(Events, key);
        Success(Assemble(row, TextsOfLine(segments, key)))
    }

    /** Indexing with a negative key turned into its position before the
        join, so that the line and its segments always belong together. */
    function GetItemNormalized(key: int): (r: Result<LineCC, QueryError>)
      reads this
      requires Valid()
      ensures r.Failure? <==> key < -|Events| || |Events| <= key
      ensures r.Success? ==>
                var k := if key < 0 then |Events| + key else key;
                r == Success(LineView(Events[k], SegmentTexts(Events[k])))
    {
      if key < -|lines| || |lines| <= key then Failure(IndexError)
      else GetItem(if key < 0 then |lines| + key else key)
    }

    /** Every line, in order, as `GetItem` gives it. */
    method Iter() returns (views: seq<LineCC>)
      requires Valid()
      ensures |views| == |Events|
      ensures forall i | 0 <= i < |views| :: GetItem(i) == Success(views[i])
      ensures forall i | 0 <= i < |views| :: views[i] == LineView(Events[i], SegmentTexts(Events[i]))
    {
      views := [];
      for i := 0 to Len()
        invariant |views| == i
        invariant forall k | 0 <= k < i :: views[k] == LineView(Events[k], SegmentTexts(Events[k]))
      {
        var item := GetItem(i);
        views := views + [item.value];
      }
    }

    /** The texts of the segments starting in [start, end), or at or after
        `start` when no end is given, concatenated in stored order. */
    function GetText(start: int := 0, end: Option<int> := None): (text: string)
      reads this
      requires Valid()
      ensures text == DocumentTextBetween(Events, start, end)
      ensures end.Some? && end.value <= start ==> text == ""
    {
      TableWindowText(Events, start, end);
      if end.Some? && end.value <= start then
        EmptyWindow(segments, start, end.value);
        ""
      else
        Concat(WindowTexts(segments, start, end))
    }
  }

  /** Loading: a document that fails validation raises and builds no
      tables; any other document yields a store over its events. */
  method Load(doc: Json) returns (r: Result<YoutubeCC, LoadError>)
    ensures r.Failure? <==> !ValidateYoutubeCcJson3(doc)
    ensures r.Failure? ==> r.error == InvalidJson3
    ensures r.Success? ==> fresh(r.value) && r.value.Valid() && r.value.Events == EventsOf(doc)
  {
    if !ValidateYoutubeCcJson3(doc) {
      return Failure(InvalidJson3);
    }
    var cc := new YoutubeCC(doc);
    return Success(cc);
  }

  // ---------------------------------------------------------------------
  // Lemmas: the lines table

  /** One line per event, in event order; `event_id` is the event's own
      `id` (absent when the event has none), not its position. */
  lemma LineTableRows(events: seq<Json>, i: nat)
    requires i < |events|
    ensures |LineTable(events)| == |events|
    ensures LineTable(events)[i] == LineOf(events[i])
    ensures events[i].JObject? && "id" in events[i].fields && events[i].fields["id"].JInt? ==>
              LineTable(events)[i].eventId == Some(events[i].fields["id"].n)
    ensures !(events[i].JObject? && "id" in events[i].fields) ==> LineTable(events)[i].eventId.None?
  {
  }

  /** On a valid event every lines-table field is the event's value when
      present and `None` exactly when absent; the start time is always there. */
  lemma ValidLineFields(ev: Json)
    requires ValidEvent(ev)
    ensures LineOf(ev).startTimeMs == Some(ev.fields["tStartMs"].n)
    ensures LineOf(ev).eventId.None? <==> "id" !in ev.fields
    ensures "id" in ev.fields ==> LineOf(ev).eventId == Some(ev.fields["id"].n)
    ensures LineOf(ev).durationMs.None? <==> "dDurationMs" !in ev.fields
    ensures "dDurationMs" in ev.fields ==> LineOf(ev).durationMs == Some(ev.fields["dDurationMs"].n)
    ensures LineOf(ev).windowId.None? <==> "wWinId" !in ev.fields
    ensures "wWinId" in ev.fields ==> LineOf(ev).windowId == Some(ev.fields["wWinId"].n)
    ensures LineOf(ev).windowStyleId.None? <==> "wsWinStyleId" !in ev.fields
    ensures "wsWinStyleId" in ev.fields ==> LineOf(ev).windowStyleId == Some(ev.fields["wsWinStyleId"].n)
    ensures LineOf(ev).windowPositionId.None? <==> "wpWinPosId" !in ev.fields
    ensures "wpWinPosId" in ev.fields ==> LineOf(ev).windowPositionId == Some(ev.fields["wpWinPosId"].n)
    ensures LineOf(ev).append.None? <==> "aAppend" !in ev.fields
    ensures "aAppend" in ev.fields ==> LineOf(ev).append == Some(ev.fields["aAppend"].n)
  {
  }

  /** On a valid segment every segments-table field is the segment's value
      when present and `None` exactly when absent; the text is its `utf8`. */
  lemma ValidSegmentFields(seg: Json, eventStart: Option<int>, lineId: nat)
    requires ValidSegment(seg)
    ensures SegmentOf(seg, eventStart, lineId).text == seg.fields["utf8"].s
    ensures SegmentOf(seg, eventStart, lineId).asrConfidence.None? <==> "acAsrConf" !in seg.fields
    ensures "acAsrConf" in seg.fields ==> SegmentOf(seg, eventStart, lineId).asrConfidence == Some(seg.fields["acAsrConf"].n)
    ensures SegmentOf(seg, eventStart, lineId).offsetMs.None? <==> "tOffsetMs" !in seg.fields
    ensures "tOffsetMs" in seg.fields ==> SegmentOf(seg, eventStart, lineId).offsetMs == Some(seg.fields["tOffsetMs"].n)
    ensures SegmentOf(seg, eventStart, lineId).penId.None? <==> "pPenId" !in seg.fields
    ensures "pPenId" in seg.fields ==> SegmentOf(seg, eventStart, lineId).penId == Some(seg.fields["pPenId"].n)
    ensures SegmentOf(seg, eventStart, lineId).lineId == lineId
  {
  }

  // ---------------------------------------------------------------------
  // Lemmas: the segments table

  lemma {:induction false} SegmentTableLength(events: seq<Json>)
    ensures |SegmentTable(events)| == SegmentCount(events)
  {
    if events != [] {
      var n := |events|;
      SegmentTableLength(events[..n - 1]);
      SegmentCountSnoc(events[..n - 1], events[n - 1]);
      assert events[..n - 1] + [events[n - 1]] == events;
    }
  }

  lemma {:induction false} SegmentCountSnoc(events: seq<Json>, ev: Json)
    ensures SegmentCount(events + [ev]) == SegmentCount(events) + |Segs(ev)|
  {
    if events != [] {
      assert (events + [ev])[1..] == events[1..] + [ev];
      SegmentCountSnoc(events[1..], ev);
    }
  }

  /** The table for a prefix of the events is a prefix of the table. */
  lemma {:induction false} SegmentTablePrefix(events: seq<Json>, k: nat)
    requires k <= |events|
    ensures SegmentTable(events[..k]) <= SegmentTable(events)
  {
    if k < |events| {
      var n := |events|;
      assert events[..n - 1][..k] == events[..k];
      SegmentTablePrefix(events[..n - 1], k);
    } else {
      assert events[..k] == events;
    }
  }

  /** Segment `j` of event `i` sits at row `|SegmentTable(events[..i])| + j`
      of the segments table: the table is every event's `segs` in order. */
  lemma SegmentTableAt(events: seq<Json>, i: nat, j: nat)
    requires i < |events| && j < |Segs(events[i])|
    ensures |SegmentTable(events[..i])| + j < |SegmentTable(events)|
    ensures SegmentTable(events)[|SegmentTable(events[..i])| + j]
              == SegmentOf(Segs(events[i])[j], IntField(events[i], "tStartMs"), i)
  {
    SegmentTablePrefix(events, i + 1);
    var pre := events[..i + 1];
    assert pre[..i] == events[..i];
    assert SegmentTable(pre) == SegmentTable(events[..i]) + EventSegments(events[i], i);
  }

  /** Every row refers to an existing line: `line_id` is below the number
      of events. */
  lemma {:induction false} LineIdsInRange(events: seq<Json>)
    ensures forall r | r in SegmentTable(events) :: r.lineId < |events|
  {
    if events != [] {
      LineIdsInRange(events[..|events| - 1]);
    }
  }

  /** A row's derived start is the event start plus the offset (0 when
      absent), absent only when the event start is; the stored offset stays
      absent when the segment has none. */
  lemma SegmentRowFields(ev: Json, lineId: nat, j: nat)
    requires j < |Segs(ev)|
    ensures var row := EventSegments(ev, lineId)[j];
            var seg := Segs(ev)[j];
            && row.lineId == lineId
            && row.text == Text(seg)
            && (row.startTimeMs.None? <==> IntField(ev, "tStartMs").None?)
            && (IntField(ev, "tStartMs").Some? && IntField(seg, "tOffsetMs").None? ==>
                  row.offsetMs.None? && row.startTimeMs == IntField(ev, "tStartMs"))
            && (IntField(ev, "tStartMs").Some? && IntField(seg, "tOffsetMs").Some? ==>
                  row.startTimeMs.value == IntField(ev, "tStartMs").value + IntField(seg, "tOffsetMs").value)
  {
  }

  /** On valid events every segment row has a start time. */
  lemma {:induction false} ValidEventsDated(events: seq<Json>)
    requires ValidEvents(events)
    ensures forall r | r in SegmentTable(events) :: r.startTimeMs.Some?
  {
    if events != [] {
      var n := |events|;
      var init := events[..n - 1];
      assert ValidEvents(init) by {
        forall i | 0 <= i < |init| ensures ValidEvent(init[i]) {
          assert init[i] == events[i];
        }
      }
      ValidEventsDated(init);
      assert ValidEvent(events[n - 1]);
    }
  }

  // ---------------------------------------------------------------------
  // Lemmas: joining a line with its segments

  lemma {:induction false} TextsOfLineAppend(a: seq<SegmentRow>, b: seq<SegmentRow>, key: int)
    ensures TextsOfLine(a + b, key) == TextsOfLine(a, key) + TextsOfLine(b, key)
  {
    if a != [] {
      assert (a + b)[0] == a[0];
      assert (a + b)[1..] == a[1..] + b;
      TextsOfLineAppend(a[1..], b, key);
    } else {
      assert a + b == b;
    }
  }

  lemma {:induction false} TextsOfOtherLine(rows: seq<SegmentRow>, key: int)
    requires forall r | r in rows :: r.lineId != key
    ensures TextsOfLine(rows, key) == []
  {
    if rows != [] {
      TextsOfOtherLine(rows[1..], key);
    }
  }

  lemma {:induction false} TextsOfOneLine(rows: seq<SegmentRow>, key: int)
    requires forall r | r in rows :: r.lineId == key
    ensures TextsOfLine(rows, key) == Texts(rows)
  {
    if rows != [] {
      TextsOfOneLine(rows[1..], key);
      assert Texts(rows) == [rows[0].text] + Texts(rows[1..]);
    }
  }

  /** The rows whose `line_id` is `k` are exactly event `k`'s segments, in
      source order; a negative key matches no row. */
  lemma {:induction false} SegmentsOfLine(events: seq<Json>, k: int)
    ensures 0 <= k < |events| ==> TextsOfLine(SegmentTable(events), k) == SegmentTexts(events[k])
    ensures k < 0 || |events| <= k ==> TextsOfLine(SegmentTable(events), k) == []
  {
    if events == [] {
    } else {
      var n := |events|;
      var init := events[..n - 1];
      var last := EventSegments(events[n - 1], n - 1);
      TextsOfLineAppend(SegmentTable(init), last, k);
      LineIdsInRange(init);
      if k == n - 1 {
        TextsOfOtherLine(SegmentTable(init), k);
        TextsOfOneLine(last, k);
        assert Texts(last) == SegmentTexts(events[k]);
      } else {
        TextsOfOtherLine(last, k);
        SegmentsOfLine(init, k);
        if 0 <= k < n - 1 {
          assert init[k] == events[k];
        }
      }
    }
  }

  /** As written, key -1 names the last line but drops its segments
      whenever that line has any. */
  lemma NegativeKeyDropsSegments(cc: YoutubeCC)
    requires cc.Valid() && |cc.Events| > 0
    requires |Segs(cc.Events[|cc.Events| - 1])| > 0
    ensures cc.GetItem(-1).Success? && cc.GetItem(-1).value.segments == []
    ensures cc.GetItem(-1) != cc.GetItem(|cc.Events| - 1)
  {
    var n := |cc.Events|;
    assert |SegmentTexts(cc.Events[n - 1])| > 0;
    assert cc.GetItem(n - 1).value.segments == SegmentTexts(cc.Events[n - 1]);
  }

  // ---------------------------------------------------------------------
  // Lemmas: the time window

  /** An empty window (end not after start) selects nothing. */
  lemma {:induction false} EmptyWindow(rows: seq<SegmentRow>, start: int, end: int)
    requires end <= start
    ensures WindowTexts(rows, start, Some(end)) == []
  {
    if rows != [] {
      EmptyWindow(rows[1..], start, end);
    }
  }

  lemma {:induction false} WindowTextsAppend(a: seq<SegmentRow>, b: seq<SegmentRow>, start: int, end: Option<int>)
    ensures WindowTexts(a + b, start, end) == WindowTexts(a, start, end) + WindowTexts(b, start, end)
  {
    if a != [] {
      assert (a + b)[0] == a[0];
      assert (a + b)[1..] == a[1..] + b;
      WindowTextsAppend(a[1..], b, start, end);
    } else {
      assert a + b == b;
    }
  }

  lemma {:induction false} ConcatAppend(a: seq<string>, b: seq<string>)
    ensures Concat(a + b) == Concat(a) + Concat(b)
  {
    if a != [] {
      assert (a + b)[0] == a[0];
      assert (a + b)[1..] == a[1..] + b;
      ConcatAppend(a[1..], b);
    } else {
      assert a + b == b;
    }
  }

  /** One event's rows select, in the window, exactly the segments the
      document-level reading selects. */
  lemma {:induction false} EventWindowText(segs: seq<Json>, eventStart: Option<int>, lineId: nat, start: int, end: Option<int>)
    ensures Concat(WindowTexts(seq(|segs|, j requires 0 <= j < |segs| => SegmentOf(segs[j], eventStart, lineId)), start, end))
              == SegsWindowText(segs, eventStart, start, end)
  {
    var rows := seq(|segs|, j requires 0 <= j < |segs| => SegmentOf(segs[j], eventStart, lineId));
    if segs != [] {
      var rest := seq(|segs[1..]|, j requires 0 <= j < |segs[1..]| => SegmentOf(segs[1..][j], eventStart, lineId));
      assert rows[1..] == rest;
      EventWindowText(segs[1..], eventStart, lineId, start, end);
      var head := if InWindow(rows[0].startTimeMs, start, end) then [rows[0].text] else [];
      ConcatAppend(head, WindowTexts(rest, start, end));
    }
  }

  lemma {:induction false} DocumentTextSnoc(events: seq<Json>, ev: Json, start: int, end: Option<int>)
    ensures DocumentTextBetween(events + [ev], start, end)
              == DocumentTextBetween(events, start, end) + SegsWindowText(Segs(ev), IntField(ev, "tStartMs"), start, end)
  {
    if events != [] {
      assert (events + [ev])[1..] == events[1..] + [ev];
      DocumentTextSnoc(events[1..], ev, start, end);
    }
  }

  /** The window text over the segments table is the window text read
      straight off the events: event order, then segment order. */
  lemma {:induction false} TableWindowText(events: seq<Json>, start: int, end: Option<int>)
    ensures Concat(WindowTexts(SegmentTable(events), start, end)) == DocumentTextBetween(events, start, end)
  {
    if events != [] {
      var n := |events|;
      var init := events[..n - 1];
      var ev := events[n - 1];
      var rows := EventSegments(ev, n - 1);
      calc {
        Concat(WindowTexts(SegmentTable(events), start, end));
        Concat(WindowTexts(SegmentTable(init) + rows, start, end));
        { WindowTextsConcat(SegmentTable(init), rows, start, end); }
        Concat(WindowTexts(SegmentTable(init), start, end)) + Concat(WindowTexts(rows, start, end));
        { TableWindowText(init, start, end);
          EventWindowText(Segs(ev), IntField(ev, "tStartMs"), n - 1, start, end); }
        DocumentTextBetween(init, start, end) + SegsWindowText(Segs(ev), IntField(ev, "tStartMs"), start, end);
        { DocumentTextSnoc(init, ev, start, end); }
        DocumentTextBetween(init + [ev], start, end);
        { assert init + [ev] == events; }
        DocumentTextBetween(events, start, end);
      }
    }
  }

  lemma WindowTextsConcat(a: seq<SegmentRow>, b: seq<SegmentRow>, start: int, end: Option<int>)
    ensures Concat(WindowTexts(a + b, start, end)) == Concat(WindowTexts(a, start, end)) + Concat(WindowTexts(b, start, end))
  {
    WindowTextsAppend(a, b, start, end);
    ConcatAppend(WindowTexts(a, start, end), WindowTexts(b, start, end));
  }

  /** With no end and a start at or before every segment's start, the
      window text of valid events is the whole transcript. */
  lemma {:induction false} WholeTranscript(events: seq<Json>, start: int)
    requires ValidEvents(events)
    requires forall i, j | 0 <= i < |events| && 0 <= j < |Segs(events[i])| ::
               start <= IntField(events[i], "tStartMs").value + IntField(Segs(events[i])[j], "tOffsetMs").GetOr(0)
    ensures DocumentTextBetween(events, start, None) == FullText(events)
  {
    if events != [] {
      WholeEventText(Segs(events[0]), IntField(events[0], "tStartMs").value, start);
      assert ValidEvents(events[1..]) by {
        forall i | 0 <= i < |events[1..]| ensures ValidEvent(events[1..][i]) {
          assert events[1..][i] == events[i + 1];
        }
      }
      forall i, j | 0 <= i < |events[1..]| && 0 <= j < |Segs(events[1..][i])|
        ensures start <= IntField(events[1..][i], "tStartMs").value + IntField(Segs(events[1..][i])[j], "tOffsetMs").GetOr(0)
      {
        assert events[1..][i] == events[i + 1];
      }
      WholeTranscript(events[1..], start);
    }
  }

  lemma {:induction false} WholeEventText(segs: seq<Json>, eventStart: int, start: int)
    requires forall j | 0 <= j < |segs| :: start <= eventStart + IntField(segs[j], "tOffsetMs").GetOr(0)
    ensures SegsWindowText(segs, Some(eventStart), start, None)
              == Concat(seq(|segs|, j requires 0 <= j < |segs| => Text(segs[j])))
  {
    if segs != [] {
      WholeEventText(segs[1..], eventStart, start);
      var texts := seq(|segs|, j requires 0 <= j < |segs| => Text(segs[j]));
      assert texts[1..] == seq(|segs[1..]|, j requires 0 <= j < |segs[1..]| => Text(segs[1..][j]));
    }
  }

  // ---------------------------------------------------------------------
  // A client

  /** Two events, at 1000 ms (segments "Hello " at offset 0 and "world" at
      offset 500) and at 5000 ms (one segment "Bye" without offset). */
  function Hello(): Json { JObject(map["utf8" := JString("Hello "), "tOffsetMs" := JInt(0)]) }
  function World(): Json { JObject(map["utf8" := JString("world"), "tOffsetMs" := JInt(500)]) }
  function Bye(): Json { JObject(map["utf8" := JString("Bye")]) }
  function FirstEvent(): Json { JObject(map["tStartMs" := JInt(1000), "segs" := JArray([Hello(), World()])]) }
  function SecondEvent(): Json { JObject(map["tStartMs" := JInt(5000), "segs" := JArray([Bye()])]) }
  function TwoEventDocument(): Json {
    JObject(map["wireMagic" := JString("pb3"), "pens" := JArray([]),
                "wsWinStyles" := JArray([]), "wpWinPositions" := JArray([]),
                "events" := JArray([FirstEvent(), SecondEvent()])])
  }

  lemma TwoEventSegments()
    ensures Text(Hello()) == "Hello " && Text(World()) == "world" && Text(Bye()) == "Bye"
    ensures IntField(Hello(), "tOffsetMs") == Some(0) && IntField(World(), "tOffsetMs") == Some(500)
    ensures IntField(Bye(), "tOffsetMs") == None
    ensures ValidSegment(Hello()) && ValidSegment(World()) && ValidSegment(Bye())
  {
  }

  lemma TwoEventEvents()
    ensures Segs(FirstEvent()) == [Hello(), World()] && Segs(SecondEvent()) == [Bye()]
    ensures IntField(FirstEvent(), "tStartMs") == Some(1000) && IntField(SecondEvent(), "tStartMs") == Some(5000)
    ensures ValidEvent(FirstEvent()) && ValidEvent(SecondEvent())
    ensures SegmentTexts(FirstEvent()) == ["Hello ", "world"] && SegmentTexts(SecondEvent()) == ["Bye"]
  {
    TwoEventSegments();
  }

  lemma TwoEventValid()
    ensures ValidDocument(TwoEventDocument())
    ensures EventsOf(TwoEventDocument()) == [FirstEvent(), SecondEvent()]
  {
    TwoEventEvents();
  }

  lemma TwoEventWindows()
    ensures DocumentTextBetween([FirstEvent(), SecondEvent()], 0, Some(2000)) == "Hello world"
    ensures DocumentTextBetween([FirstEvent(), SecondEvent()], 2000, None) == "Bye"
    ensures DocumentTextBetween([FirstEvent(), SecondEvent()], 0, None) == "Hello worldBye"
  {
    TwoEventEvents();
    TwoEventSegments();
    assert SegsWindowText([Hello(), World()], Some(1000), 0, Some(2000)) == "Hello world";
    assert SegsWindowText([Bye()], Some(5000), 0, Some(2000)) == "";
    assert SegsWindowText([Hello(), World()], Some(1000), 2000, None) == "";
    assert SegsWindowText([Bye()], Some(5000), 2000, None) == "Bye";
    assert SegsWindowText([Hello(), World()], Some(1000), 0, None) == "Hello world";
    assert SegsWindowText([Bye()], Some(5000), 0, None) == "Bye";
  }

  /** The default window starts at 0, so an event dated before 0 (a
      negative `tStartMs` passes validation) is left out of `GetText()`. */
  lemma NegativeStartLeftOut()
    ensures var ev := JObject(map["tStartMs" := JInt(-5), "segs" := JArray([Bye()])]);
            && ValidEvent(ev)
            && DocumentTextBetween([ev], 0, None) == ""
            && FullText([ev]) == "Bye"
  {
    var ev := JObject(map["tStartMs" := JInt(-5), "segs" := JArray([Bye()])]);
    TwoEventSegments();
    assert Segs(ev) == [Bye()];
    assert SegmentTexts(ev) == ["Bye"];
    assert Concat(["Bye"]) == "Bye" + Concat([]);
    assert FullText([ev]) == Concat(["Bye"]) + FullText([]);
  }

  method TwoEventClient()
  {
    TwoEventValid();
    TwoEventEvents();
    TwoEventSegments();
    var r := Load(TwoEventDocument());
    var cc := r.value;
    assert cc.Len() == 2;
    assert cc.Events[0] == FirstEvent() && cc.Events[1] == SecondEvent();
    var line0 := cc.GetItem(0);
    assert line0 == Success(LineView(FirstEvent(), SegmentTexts(FirstEvent())));
    assert line0.value.segments == ["Hello ", "world"];
    var last := cc.GetItem(-1);
    assert last == Success(LineView(SecondEvent(), []));
    assert last.value.startTimeMs == Some(5000) && last.value.segments == [];
    var past := cc.GetItem(2);
    assert past == Failure(IndexError);
    var normalized := cc.GetItemNormalized(-1);
    assert normalized.value.segments == ["Bye"];
    TwoEventWindows();
    assert cc.GetText(0, Some(2000)) == "Hello world";
    assert cc.GetText(2000) == "Bye";
    assert cc.GetText() == "Hello worldBye";
  }
}
