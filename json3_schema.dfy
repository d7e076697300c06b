/** The structural rules a YouTube JSON3 caption document must follow.

    The source declares them as a JSON Schema document and hands it to a
    schema validator. This module models the four assertion keywords that
    schema uses (`type`, `properties`, `items`, `required`) as a recursive
    predicate `Conforms`, writes the fixed schema as a `Schema` value, and
    proves that conforming to it means exactly the hand-written reading
    `ValidDocument`. */
module Json3Schema {
  import opened Wrappers
  import opened Json

  // ---------------------------------------------------------------------
  // The schema keywords

  /** The primitive types the schema names in its `type` keywords. */
  datatype JsonType = ObjectType | ArrayType | StringType | IntegerType

  /** One subschema: a `type`, the `properties` it constrains when the
      instance is an object, the `items` schema it applies when the instance
      is an array, and the `required` member names. Annotation keywords
      (`$schema`, `title`, `description`) assert nothing and are omitted. */
  datatype Schema = Schema(ty: JsonType, properties: seq<Property>, items: Option<Schema>, required: seq<string>)

  /** An entry of a `properties` keyword. */
  datatype Property = Property(name: string, schema: Schema)

  /** The `type` keyword. A boolean is not an integer. */
  predicate HasType(j: Json, t: JsonType) {
    match t
    case ObjectType => j.JObject?
    case ArrayType => j.JArray?
    case StringType => j.JString?
    case IntegerType => j.JInt?
  }

  /** Instance `j` is valid against schema `s`. `properties` and `required`
      only look at objects, `items` only at arrays; a member that no
      `properties` entry names is unconstrained (no `additionalProperties`). */
  predicate Conforms(j: Json, s: Schema)
    decreases s
  {
    && HasType(j, s.ty)
    && (j.JObject? ==>
          && (forall name | name in s.required :: name in j.fields)
          && (forall p | p in s.properties :: p.name in j.fields ==> Conforms(j.fields[p.name], p.schema)))
    && (j.JArray? && s.items.Some? ==>
          forall i | 0 <= i < |j.items| :: Conforms(j.items[i], s.items.value))
  }

  // ---------------------------------------------------------------------
  // The fixed schema

  const IntegerSchema: Schema := Schema(IntegerType, [], None, [])
  const StringSchema: Schema := Schema(StringType, [], None, [])

  function ObjectSchema(properties: seq<Property>, required: seq<string>): Schema {
    Schema(ObjectType, properties, None, required)
  }

  function ArraySchema(items: Schema): Schema {
    Schema(ArrayType, [], Some(items), [])
  }

  const PenSchema: Schema := ObjectSchema([Property("iAttr", IntegerSchema)], [])

  const WinStyleSchema: Schema :=
    ObjectSchema([Property("mhModeHint", IntegerSchema),
                  Property("juJustifCode", IntegerSchema),
                  Property("sdScrollDir", IntegerSchema)], [])

  const WinPositionSchema: Schema :=
    ObjectSchema([Property("apPoint", IntegerSchema),
                  Property("ahHorPos", IntegerSchema),
                  Property("avVerPos", IntegerSchema),
                  Property("rcRows", IntegerSchema),
                  Property("ccCols", IntegerSchema)], [])

  const SegmentSchema: Schema :=
    ObjectSchema([Property("utf8", StringSchema),
                  Property("acAsrConf", IntegerSchema),
                  Property("tOffsetMs", IntegerSchema),
                  Property("pPenId", IntegerSchema)], ["utf8"])

  const EventSchema: Schema :=
    ObjectSchema([Property("tStartMs", IntegerSchema),
                  Property("dDurationMs", IntegerSchema),
                  Property("id", IntegerSchema),
                  Property("wpWinPosId", IntegerSchema),
                  Property("wsWinStyleId", IntegerSchema),
                  Property("wWinId", IntegerSchema),
                  Property("segs", ArraySchema(SegmentSchema)),
                  Property("aAppend", IntegerSchema)], ["tStartMs"])

  /** The whole-document schema. */
  const DocumentSchema: Schema :=
    ObjectSchema([Property("wireMagic", StringSchema),
                  Property("pens", ArraySchema(PenSchema)),
                  Property("wsWinStyles", ArraySchema(WinStyleSchema)),
                  Property("wpWinPositions", ArraySchema(WinPositionSchema)),
                  Property("events", ArraySchema(EventSchema))],
                 ["events", "pens", "wireMagic", "wpWinPositions", "wsWinStyles"])

  /** The validator entry point: the document either conforms (`true`) or
      the violation is reported as `false`; no failure escapes. */
  function ValidateYoutubeCcJson3(doc: Json): (ok: bool)
    ensures ok <==> ValidDocument(doc)
  {
    DocumentMeaning(doc);
    Conforms(doc, DocumentSchema)
  }

  // ---------------------------------------------------------------------
  // The same rules, read by hand

  /** `key`, when present, holds an integer. */
  predicate IntOrAbsent(m: map<string, Json>, key: string) {
    key in m ==> m[key].JInt?
  }

  /** `key` is present and holds a string. */
  predicate HasString(m: map<string, Json>, key: string) {
    key in m && m[key].JString?
  }

  predicate ValidPen(j: Json) {
    j.JObject? && IntOrAbsent(j.fields, "iAttr")
  }

  predicate ValidWinStyle(j: Json) {
    && j.JObject?
    && IntOrAbsent(j.fields, "mhModeHint")
    && IntOrAbsent(j.fields, "juJustifCode")
    && IntOrAbsent(j.fields, "sdScrollDir")
  }

  predicate ValidWinPosition(j: Json) {
    && j.JObject?
    && IntOrAbsent(j.fields, "apPoint")
    && IntOrAbsent(j.fields, "ahHorPos")
    && IntOrAbsent(j.fields, "avVerPos")
    && IntOrAbsent(j.fields, "rcRows")
    && IntOrAbsent(j.fields, "ccCols")
  }

  /** A segment: required string `utf8`, optional integer metadata. */
  predicate ValidSegment(j: Json) {
    && j.JObject?
    && HasString(j.fields, "utf8")
    && IntOrAbsent(j.fields, "acAsrConf")
    && IntOrAbsent(j.fields, "tOffsetMs")
    && IntOrAbsent(j.fields, "pPenId")
  }

  /** An event: required integer `tStartMs`, optional integer fields, and
      an optional `segs` array of valid segments. */
  predicate ValidEvent(j: Json) {
    && j.JObject?
    && "tStartMs" in j.fields && j.fields["tStartMs"].JInt?
    && IntOrAbsent(j.fields, "dDurationMs")
    && IntOrAbsent(j.fields, "id")
    && IntOrAbsent(j.fields, "wpWinPosId")
    && IntOrAbsent(j.fields, "wsWinStyleId")
    && IntOrAbsent(j.fields, "wWinId")
    && IntOrAbsent(j.fields, "aAppend")
    && ("segs" in j.fields ==> ValidSegs(j.fields["segs"]))
  }

  predicate ValidSegs(j: Json) {
    j.JArray? && forall i | 0 <= i < |j.items| :: ValidSegment(j.items[i])
  }

  predicate ValidEvents(events: seq<Json>) {
    forall i | 0 <= i < |events| :: ValidEvent(events[i])
  }

  predicate ValidPens(j: Json) {
    j.JArray? && forall i | 0 <= i < |j.items| :: ValidPen(j.items[i])
  }

  predicate ValidWinStyles(j: Json) {
    j.JArray? && forall i | 0 <= i < |j.items| :: ValidWinStyle(j.items[i])
  }

  predicate ValidWinPositions(j: Json) {
    j.JArray? && forall i | 0 <= i < |j.items| :: ValidWinPosition(j.items[i])
  }

  /** A whole document: an object holding the five top-level members, each
      of its declared type, with valid elements. */
  predicate ValidDocument(doc: Json) {
    && doc.JObject?
    && HasString(doc.fields, "wireMagic")
    && "pens" in doc.fields && ValidPens(doc.fields["pens"])
    && "wsWinStyles" in doc.fields && ValidWinStyles(doc.fields["wsWinStyles"])
    && "wpWinPositions" in doc.fields && ValidWinPositions(doc.fields["wpWinPositions"])
    && "events" in doc.fields && doc.fields["events"].JArray?
    && ValidEvents(doc.fields["events"].items)
  }

  // ---------------------------------------------------------------------
  // The keywords mean what the hand-written reading says

  lemma IntegerMeaning(j: Json)
    ensures Conforms(j, IntegerSchema) <==> j.JInt?
  {
  }

  lemma StringMeaning(j: Json)
    ensures Conforms(j, StringSchema) <==> j.JString?
  {
  }

  /** `items` applies its schema to every element of an array. */
  lemma {:induction false} ArrayMeaning(j: Json, items: Schema)
    ensures Conforms(j, ArraySchema(items)) <==>
              j.JArray? && forall i | 0 <= i < |j.items| :: Conforms(j.items[i], items)
  {
  }

  lemma PenMeaning(j: Json)
    ensures Conforms(j, PenSchema) <==> ValidPen(j)
  {
    if j.JObject? && "iAttr" in j.fields {
      IntegerMeaning(j.fields["iAttr"]);
    }
  }

  lemma WinStyleMeaning(j: Json)
    ensures Conforms(j, WinStyleSchema) <==> ValidWinStyle(j)
  {
    if j.JObject? {
      forall k | k in j.fields { IntegerMeaning(j.fields[k]); }
    }
  }

  lemma WinPositionMeaning(j: Json)
    ensures Conforms(j, WinPositionSchema) <==> ValidWinPosition(j)
  {
    if j.JObject? {
      forall k | k in j.fields { IntegerMeaning(j.fields[k]); }
    }
  }

  /** `properties`: a member named by a property entry conforms to that
      entry's subschema. */
  lemma PropertyOf(m: map<string, Json>, s: Schema, p: Property)
    requires Conforms(JObject(m), s) && p in s.properties && p.name in m
    ensures Conforms(m[p.name], p.schema)
  {
  }

  lemma SegmentMeaning(j: Json)
    ensures Conforms(j, SegmentSchema) <==> ValidSegment(j)
  {
    if j.JObject? {
      var m := j.fields;
      forall k | k in m ensures Conforms(m[k], IntegerSchema) <==> m[k].JInt?
        ensures Conforms(m[k], StringSchema) <==> m[k].JString?
      {
        IntegerMeaning(m[k]);
        StringMeaning(m[k]);
      }
      if Conforms(j, SegmentSchema) {
        assert SegmentSchema.properties[0] == Property("utf8", StringSchema);
        assert SegmentSchema.properties[1] == Property("acAsrConf", IntegerSchema);
        assert SegmentSchema.properties[2] == Property("tOffsetMs", IntegerSchema);
        assert SegmentSchema.properties[3] == Property("pPenId", IntegerSchema);
        assert SegmentSchema.required[0] == "utf8";
      }
    }
  }

  lemma SegsMeaning(j: Json)
    ensures Conforms(j, ArraySchema(SegmentSchema)) <==> ValidSegs(j)
  {
    ArrayMeaning(j, SegmentSchema);
    if j.JArray? {
      forall i | 0 <= i < |j.items| ensures Conforms(j.items[i], SegmentSchema) <==> ValidSegment(j.items[i]) {
        SegmentMeaning(j.items[i]);
      }
    }
  }

  lemma EventMeaning(j: Json)
    ensures Conforms(j, EventSchema) <==> ValidEvent(j)
  {
    if j.JObject? {
      var m := j.fields;
      forall k | k in m ensures Conforms(m[k], IntegerSchema) <==> m[k].JInt? {
        IntegerMeaning(m[k]);
      }
      if "segs" in m {
        SegsMeaning(m["segs"]);
      }
      if Conforms(j, EventSchema) {
        EventSound(m);
      } else if ValidEvent(j) {
        EventComplete(m);
      }
    }
  }

  /** An object meeting `required` and every `properties` entry conforms. */
  lemma ObjectComplete(m: map<string, Json>, s: Schema)
    requires s.ty == ObjectType
    requires forall name | name in s.required :: name in m
    requires forall p | p in s.properties && p.name in m :: Conforms(m[p.name], p.schema)
    ensures Conforms(JObject(m), s)
  {
  }

  lemma EventComplete(m: map<string, Json>)
    requires ValidEvent(JObject(m))
    ensures Conforms(JObject(m), EventSchema)
  {
    forall p | p in EventSchema.properties && p.name in m
      ensures Conforms(m[p.name], p.schema)
    {
      if p.name == "segs" {
        SegsMeaning(m["segs"]);
      } else {
        IntegerMeaning(m[p.name]);
      }
    }
    ObjectComplete(m, EventSchema);
  }

  lemma EventSound(m: map<string, Json>)
    requires Conforms(JObject(m), EventSchema)
    requires forall k | k in m :: Conforms(m[k], IntegerSchema) <==> m[k].JInt?
    requires "segs" in m ==> (Conforms(m["segs"], ArraySchema(SegmentSchema)) <==> ValidSegs(m["segs"]))
    ensures ValidEvent(JObject(m))
  {
    RequiredOf(m, EventSchema, 0);
    if "tStartMs" in m { PropertyOf(m, EventSchema, Property("tStartMs", IntegerSchema)); }
    if "dDurationMs" in m { PropertyOf(m, EventSchema, Property("dDurationMs", IntegerSchema)); }
    if "id" in m { PropertyOf(m, EventSchema, Property("id", IntegerSchema)); }
    if "wpWinPosId" in m { PropertyOf(m, EventSchema, Property("wpWinPosId", IntegerSchema)); }
    if "wsWinStyleId" in m { PropertyOf(m, EventSchema, Property("wsWinStyleId", IntegerSchema)); }
    if "wWinId" in m { PropertyOf(m, EventSchema, Property("wWinId", IntegerSchema)); }
    if "segs" in m { PropertyOf(m, EventSchema, Property("segs", ArraySchema(SegmentSchema))); }
    if "aAppend" in m { PropertyOf(m, EventSchema, Property("aAppend", IntegerSchema)); }
  }

  lemma PensMeaning(j: Json)
    ensures Conforms(j, ArraySchema(PenSchema)) <==> ValidPens(j)
  {
    ArrayMeaning(j, PenSchema);
    if j.JArray? {
      forall i | 0 <= i < |j.items| ensures Conforms(j.items[i], PenSchema) <==> ValidPen(j.items[i]) {
        PenMeaning(j.items[i]);
      }
    }
  }

  lemma WinStylesMeaning(j: Json)
    ensures Conforms(j, ArraySchema(WinStyleSchema)) <==> ValidWinStyles(j)
  {
    ArrayMeaning(j, WinStyleSchema);
    if j.JArray? {
      forall i | 0 <= i < |j.items| ensures Conforms(j.items[i], WinStyleSchema) <==> ValidWinStyle(j.items[i]) {
        WinStyleMeaning(j.items[i]);
      }
    }
  }

  lemma WinPositionsMeaning(j: Json)
    ensures Conforms(j, ArraySchema(WinPositionSchema)) <==> ValidWinPositions(j)
  {
    ArrayMeaning(j, WinPositionSchema);
    if j.JArray? {
      forall i | 0 <= i < |j.items| ensures Conforms(j.items[i], WinPositionSchema) <==> ValidWinPosition(j.items[i]) {
        WinPositionMeaning(j.items[i]);
      }
    }
  }

  lemma EventsMeaning(j: Json)
    ensures Conforms(j, ArraySchema(EventSchema)) <==> j.JArray? && ValidEvents(j.items)
  {
    ArrayMeaning(j, EventSchema);
    if j.JArray? {
      forall i | 0 <= i < |j.items| ensures Conforms(j.items[i], EventSchema) <==> ValidEvent(j.items[i]) {
        EventMeaning(j.items[i]);
      }
    }
  }

  /** Every top-level member the schema names, when present, conforms to
      its subschema exactly when the hand-written reading accepts it. */
  lemma MembersMeaning(m: map<string, Json>)
    ensures "wireMagic" in m ==> (Conforms(m["wireMagic"], StringSchema) <==> m["wireMagic"].JString?)
    ensures "pens" in m ==> (Conforms(m["pens"], ArraySchema(PenSchema)) <==> ValidPens(m["pens"]))
    ensures "wsWinStyles" in m ==> (Conforms(m["wsWinStyles"], ArraySchema(WinStyleSchema)) <==> ValidWinStyles(m["wsWinStyles"]))
    ensures "wpWinPositions" in m ==> (Conforms(m["wpWinPositions"], ArraySchema(WinPositionSchema)) <==> ValidWinPositions(m["wpWinPositions"]))
    ensures "events" in m ==> (Conforms(m["events"], ArraySchema(EventSchema)) <==> m["events"].JArray? && ValidEvents(m["events"].items))
  {
    if "wireMagic" in m { StringMeaning(m["wireMagic"]); }
    if "pens" in m { PensMeaning(m["pens"]); }
    if "wsWinStyles" in m { WinStylesMeaning(m["wsWinStyles"]); }
    if "wpWinPositions" in m { WinPositionsMeaning(m["wpWinPositions"]); }
    if "events" in m { EventsMeaning(m["events"]); }
  }

  /** The fixed schema accepts exactly the documents `ValidDocument` describes. */
  lemma DocumentMeaning(doc: Json)
    ensures Conforms(doc, DocumentSchema) <==> ValidDocument(doc)
  {
    if doc.JObject? {
      if Conforms(doc, DocumentSchema) {
        DocumentSound(doc);
      }
      if ValidDocument(doc) {
        DocumentComplete(doc.fields);
      }
    }
  }

  /** `required`: every name it lists is a member of a conforming object. */
  lemma RequiredOf(m: map<string, Json>, s: Schema, k: nat)
    requires Conforms(JObject(m), s) && k < |s.required|
    ensures s.required[k] in m
  {
  }

  lemma DocumentComplete(m: map<string, Json>)
    requires ValidDocument(JObject(m))
    ensures Conforms(JObject(m), DocumentSchema)
  {
    TopLevelPropertiesComplete(m);
    TopLevelRequiredPresent(m);
    ObjectComplete(m, DocumentSchema);
  }

  lemma TopLevelRequiredPresent(m: map<string, Json>)
    requires ValidDocument(JObject(m))
    ensures forall name | name in DocumentSchema.required :: name in m
  {
  }

  lemma TopLevelPropertiesComplete(m: map<string, Json>)
    requires ValidDocument(JObject(m))
    ensures forall p | p in DocumentSchema.properties && p.name in m :: Conforms(m[p.name], p.schema)
  {
    forall p | p in DocumentSchema.properties && p.name in m
      ensures Conforms(m[p.name], p.schema)
    {
      TopLevelPropertyComplete(m, p);
    }
  }

  lemma TopLevelPropertyComplete(m: map<string, Json>, p: Property)
    requires ValidDocument(JObject(m))
    requires p in DocumentSchema.properties && p.name in m
    ensures Conforms(m[p.name], p.schema)
  {
    if p.name == "wireMagic" {
      assert p == Property("wireMagic", StringSchema);
      StringMeaning(m["wireMagic"]);
    } else if p.name == "pens" {
      assert p == Property("pens", ArraySchema(PenSchema));
      PensMeaning(m["pens"]);
    } else if p.name == "wsWinStyles" {
      assert p == Property("wsWinStyles", ArraySchema(WinStyleSchema));
      WinStylesMeaning(m["wsWinStyles"]);
    } else if p.name == "wpWinPositions" {
      assert p == Property("wpWinPositions", ArraySchema(WinPositionSchema));
      WinPositionsMeaning(m["wpWinPositions"]);
    } else {
      assert p == Property("events", ArraySchema(EventSchema));
      EventsMeaning(m["events"]);
    }
  }

  lemma DocumentSound(doc: Json)
    requires doc.JObject? && Conforms(doc, DocumentSchema)
    ensures ValidDocument(doc)
  {
    var m := doc.fields;
    MembersMeaning(m);
    RequiredOf(m, DocumentSchema, 0);
    RequiredOf(m, DocumentSchema, 1);
    RequiredOf(m, DocumentSchema, 2);
    RequiredOf(m, DocumentSchema, 3);
    RequiredOf(m, DocumentSchema, 4);
    PropertyOf(m, DocumentSchema, Property("wireMagic", StringSchema));
    PropertyOf(m, DocumentSchema, Property("pens", ArraySchema(PenSchema)));
    PropertyOf(m, DocumentSchema, Property("wsWinStyles", ArraySchema(WinStyleSchema)));
    PropertyOf(m, DocumentSchema, Property("wpWinPositions", ArraySchema(WinPositionSchema)));
    PropertyOf(m, DocumentSchema, Property("events", ArraySchema(EventSchema)));
  }

  // ---------------------------------------------------------------------
  // What validity demands

  /** A valid document is an object holding all five top-level members. */
  lemma TopLevelMembersRequired(doc: Json)
    ensures ValidateYoutubeCcJson3(doc) ==>
              && doc.JObject?
              && "events" in doc.fields && "pens" in doc.fields && "wireMagic" in doc.fields
              && "wpWinPositions" in doc.fields && "wsWinStyles" in doc.fields
  {
  }

  /** `wireMagic` is a string; the four tables are arrays of objects. */
  lemma TopLevelMemberTypes(doc: Json)
    requires ValidateYoutubeCcJson3(doc)
    ensures doc.fields["wireMagic"].JString?
    ensures doc.fields["pens"].JArray? && doc.fields["wsWinStyles"].JArray?
    ensures doc.fields["wpWinPositions"].JArray? && doc.fields["events"].JArray?
    ensures forall i | 0 <= i < |doc.fields["pens"].items| :: doc.fields["pens"].items[i].JObject?
    ensures forall i | 0 <= i < |doc.fields["wsWinStyles"].items| :: doc.fields["wsWinStyles"].items[i].JObject?
    ensures forall i | 0 <= i < |doc.fields["wpWinPositions"].items| :: doc.fields["wpWinPositions"].items[i].JObject?
    ensures forall i | 0 <= i < |doc.fields["events"].items| :: doc.fields["events"].items[i].JObject?
  {
  }

  /** An event without `tStartMs`, or with a `null` one, makes the whole
      document invalid: `integer` does not admit `null`. */
  lemma MissingOrNullStartRejected(doc: Json, i: nat)
    requires doc.JObject? && "events" in doc.fields && doc.fields["events"].JArray?
    requires i < |doc.fields["events"].items|
    requires var ev := doc.fields["events"].items[i];
             ev.JObject? && ("tStartMs" !in ev.fields || ev.fields["tStartMs"] == JNull)
    ensures !ValidateYoutubeCcJson3(doc)
  {
    assert !ValidEvent(doc.fields["events"].items[i]);
  }

  /** The optional event members, when present, are integers; `segs`, when
      present, is an array of objects. */
  lemma EventMembers(doc: Json, i: nat)
    requires ValidateYoutubeCcJson3(doc) && i < |doc.fields["events"].items|
    ensures var ev := doc.fields["events"].items[i].fields;
            && ev["tStartMs"].JInt?
            && IntOrAbsent(ev, "dDurationMs") && IntOrAbsent(ev, "id") && IntOrAbsent(ev, "wpWinPosId")
            && IntOrAbsent(ev, "wsWinStyleId") && IntOrAbsent(ev, "wWinId") && IntOrAbsent(ev, "aAppend")
            && ("segs" in ev ==> ev["segs"].JArray? && forall j | 0 <= j < |ev["segs"].items| :: ev["segs"].items[j].JObject?)
  {
    assert ValidEvent(doc.fields["events"].items[i]);
  }

  /** Every segment carries a string `utf8`; its other members, when
      present, are integers. */
  lemma SegmentMembers(doc: Json, i: nat, j: nat)
    requires ValidateYoutubeCcJson3(doc) && i < |doc.fields["events"].items|
    requires var ev := doc.fields["events"].items[i].fields;
             "segs" in ev && j < |ev["segs"].items|
    ensures var seg := doc.fields["events"].items[i].fields["segs"].items[j].fields;
            && "utf8" in seg && seg["utf8"].JString?
            && IntOrAbsent(seg, "acAsrConf") && IntOrAbsent(seg, "tOffsetMs") && IntOrAbsent(seg, "pPenId")
  {
    var ev := doc.fields["events"].items[i];
    assert ValidEvent(ev);
    assert ValidSegment(ev.fields["segs"].items[j]);
  }

  /** One bad segment, two levels down, invalidates the whole document. */
  lemma NestedViolationRejected(doc: Json, i: nat, j: nat)
    requires doc.JObject? && "events" in doc.fields && doc.fields["events"].JArray?
    requires i < |doc.fields["events"].items|
    requires var ev := doc.fields["events"].items[i];
             ev.JObject? && "segs" in ev.fields && ev.fields["segs"].JArray? && j < |ev.fields["segs"].items|
    requires !ValidSegment(doc.fields["events"].items[i].fields["segs"].items[j])
    ensures !ValidateYoutubeCcJson3(doc)
  {
    assert !ValidEvent(doc.fields["events"].items[i]);
  }

  /** A member that no `properties` entry names is never checked: adding or
      replacing it keeps an object conforming, whatever its value. This holds
      for every subschema, so at every level of the document. */
  lemma UndeclaredMemberAccepted(m: map<string, Json>, s: Schema, key: string, v: Json)
    requires Conforms(JObject(m), s)
    requires forall p | p in s.properties :: p.name != key
    ensures Conforms(JObject(m[key := v]), s)
  {
    var m' := m[key := v];
    forall p | p in s.properties && p.name in m'
      ensures Conforms(m'[p.name], p.schema)
    {
      assert m'[p.name] == m[p.name];
    }
  }

  /** At the top level: an extra member leaves a valid document valid. */
  lemma UndeclaredTopLevelMemberAccepted(m: map<string, Json>, key: string, v: Json)
    requires ValidateYoutubeCcJson3(JObject(m))
    requires key !in {"wireMagic", "pens", "wsWinStyles", "wpWinPositions", "events"}
    ensures ValidateYoutubeCcJson3(JObject(m[key := v]))
  {
    var m' := m[key := v];
    assert m'["pens"] == m["pens"] && m'["wsWinStyles"] == m["wsWinStyles"];
    assert m'["wpWinPositions"] == m["wpWinPositions"] && m'["events"] == m["events"];
    assert m'["wireMagic"] == m["wireMagic"];
  }
}
