/** The `info` resource: the in-memory `state` object, GET and PUT on
    `/api/info`, and the write to store.json that follows a merge. */
module Info {
  import opened Js
  import opened Text
  import opened Http

  const NoFieldsMessage := "Provide a file_url or title to update."
  const InvalidJsonMessage := "Invalid JSON payload."

  type Doc = map<string, Json>

  /** `body ? JSON.parse(body) : {}`; None when `JSON.parse` throws. */
  function ParseBody(body: string, parse: string -> Option<Json>): Option<Json> {
    if body == "" then Some(Obj(map[])) else parse(body)
  }

  /** The value kept for a payload member, or None when it is ignored: only a
      string that is not all white space is kept, and it is kept trimmed. */
  function Accept(v: Option<Json>): (r: Option<string>)
    ensures r.Some? <==> v.Some? && v.value.Str? && !AllSpace(v.value.s)
    ensures r.Some? ==> r.value == Trim(v.value.s) && r.value != []
    ensures r.Some? ==> !IsSpace(r.value[0]) && !IsSpace(r.value[|r.value| - 1])
  {
    if v.Some? && v.value.Str? && Trim(v.value.s) != "" then Some(Trim(v.value.s)) else None
  }

  /** Adds `key` to `updates` when the member is accepted. */
  function With(updates: Doc, key: string, v: Option<Json>): Doc {
    match Accept(v)
    case Some(t) => updates[key := Str(t)]
    case None => updates
  }

  /** The `updates` object built from the payload, or None when reading a
      member throws (a `null` payload). */
  function Updates(payload: Json): (r: Option<Doc>)
    ensures r.None? <==> payload == Null
    ensures r.Some? ==> r.value.Keys <= {"file_url", "title"}
    ensures r.Some? ==> forall k :: k in r.value ==> r.value[k].Str? && r.value[k].s != []
  {
    match (GetProperty(payload, "file_url"), GetProperty(payload, "title"))
    case (Got(url), Got(title)) => Some(With(With(map[], "file_url", url), "title", title))
    case _ => None
  }

  /** `Object.assign(state, { ...state, ...updates, updated_date: now })`. */
  function Merge(doc: Doc, updates: Doc, now: string): (r: Doc)
    ensures r.Keys == doc.Keys + updates.Keys + {"updated_date"}
    ensures r["updated_date"] == Str(now)
  {
    doc + updates + map["updated_date" := Str(now)]
  }

  /** What a PUT leaves behind: the in-memory document, whether store.json
      was rewritten with it, and the response. */
  datatype Outcome = Outcome(doc: Doc, written: bool, response: Response)

  /** The PUT handler once the body has been read as `parsed` (see
      `ParseBody`). `writeOk` says whether `persistData` succeeds; it runs
      inside the same `try` after the merge, so its failure is answered as a
      JSON error with the merge already done. */
  function Put(doc: Doc, parsed: Option<Json>, now: string, writeOk: bool): (r: Outcome)
    ensures r.response.status in {200, 400}
    ensures r.written ==> writeOk && r.response == SendJson(200, Obj(r.doc))
    ensures !r.written ==> r.response == SendError(400, NoFieldsMessage) || r.response == SendError(400, InvalidJsonMessage)
    ensures !r.written && r.response != SendError(400, InvalidJsonMessage) ==> r.doc == doc
    ensures r.doc != doc ==> doc.Keys <= r.doc.Keys && "updated_date" in r.doc && r.doc["updated_date"] == Str(now)
  {
    match parsed
    case None => Outcome(doc, false, SendError(400, InvalidJsonMessage))
    case Some(payload) =>
      match Updates(payload)
      case None => Outcome(doc, false, SendError(400, InvalidJsonMessage))
      case Some(updates) =>
        if "file_url" !in updates && "title" !in updates then
          Outcome(doc, false, SendError(400, NoFieldsMessage))
        else
          var merged := Merge(doc, updates, now);
          if writeOk then Outcome(merged, true, SendJson(200, Obj(merged)))
          else Outcome(merged, false, SendError(400, InvalidJsonMessage))
  }

  /** The PUT handler reaches `persistData`: the body parsed, the payload is
      not `null`, and at least one member was accepted. */
  predicate Attempted(parsed: Option<Json>) {
    parsed.Some? && Updates(parsed.value).Some?
    && ("file_url" in Updates(parsed.value).value || "title" in Updates(parsed.value).value)
  }

  /** The payload member `key`, when the payload is an object that has it. */
  function Member(payload: Json, key: string): Option<Json> {
    if payload.Obj? && key in payload.members then Some(payload.members[key]) else None
  }

  /** A payload is acted on when it is not `null` and one of its two members
      is accepted. */
  predicate Acts(payload: Json) {
    payload != Null && (Accept(Member(payload, "file_url")).Some? || Accept(Member(payload, "title")).Some?)
  }

  /** The member `key` of `updates` is there exactly when the payload's
      member is accepted, and holds its trimmed value. */
  lemma UpdatesFields(payload: Json, key: string)
    requires payload != Null
    requires key == "file_url" || key == "title"
    ensures Updates(payload).Some?
    ensures key in Updates(payload).value <==> Accept(Member(payload, key)).Some?
    ensures key in Updates(payload).value ==> Updates(payload).value[key] == Str(Trim(Member(payload, key).value.s))
    ensures Updates(payload).value.Keys <= {"file_url", "title"}
  {
    assert GetProperty(payload, "file_url") == Got(Member(payload, "file_url"));
    assert GetProperty(payload, "title") == Got(Member(payload, "title"));
  }

  /** An empty body is read as `{}` and asks for a field, whatever
      `JSON.parse` would say; nothing changes. */
  lemma EmptyBodyAsksForFields(doc: Doc, parse: string -> Option<Json>, now: string, writeOk: bool)
    ensures Put(doc, ParseBody("", parse), now, writeOk) == Outcome(doc, false, SendError(400, NoFieldsMessage))
  {
    UpdatesFields(Obj(map[]), "file_url");
    UpdatesFields(Obj(map[]), "title");
  }

  /** A body that does not parse, or parses to `null`, is an invalid payload;
      nothing changes. */
  lemma InvalidPayloadRejected(doc: Doc, parsed: Option<Json>, now: string, writeOk: bool)
    requires parsed == None || parsed == Some(Null)
    ensures Put(doc, parsed, now, writeOk) == Outcome(doc, false, SendError(400, InvalidJsonMessage))
  {
  }

  /** A parsed payload with no accepted member asks for a field; nothing
      changes. */
  lemma NoAcceptedFieldRejected(doc: Doc, payload: Json, now: string, writeOk: bool)
    requires payload != Null && !Acts(payload)
    ensures Put(doc, Some(payload), now, writeOk) == Outcome(doc, false, SendError(400, NoFieldsMessage))
  {
    UpdatesFields(payload, "file_url");
    UpdatesFields(payload, "title");
  }

  /** The payload member `key` is one of the two the handler reads and is
      accepted. */
  predicate Kept(payload: Json, key: string) {
    (key == "file_url" || key == "title") && Accept(Member(payload, key)).Some?
  }

  /** `persistData` is reached exactly for an acting payload. */
  lemma AttemptedIff(parsed: Option<Json>)
    ensures Attempted(parsed) <==> parsed.Some? && Acts(parsed.value)
  {
    if parsed.Some? && parsed.value != Null {
      UpdatesFields(parsed.value, "file_url");
      UpdatesFields(parsed.value, "title");
    }
  }

  /** An acting payload is merged, then written. */
  lemma PutActing(doc: Doc, payload: Json, now: string, writeOk: bool)
    requires Acts(payload)
    ensures Updates(payload).Some?
    ensures var m := Merge(doc, Updates(payload).value, now);
      Put(doc, Some(payload), now, writeOk)
      == Outcome(m, writeOk, if writeOk then SendJson(200, Obj(m)) else SendError(400, InvalidJsonMessage))
  {
    UpdatesFields(payload, "file_url");
    UpdatesFields(payload, "title");
  }

  /** The merged document at one member name: `updated_date` is `now`, a
      member of `updates` takes its new value, and any other member of the
      document keeps its value. */
  lemma MergeAt(doc: Doc, updates: Doc, now: string, key: string)
    ensures var m := Merge(doc, updates, now);
      && (key in m <==> key in doc || key in updates || key == "updated_date")
      && (key == "updated_date" ==> m[key] == Str(now))
      && (key != "updated_date" && key in updates ==> m[key] == updates[key])
      && (key != "updated_date" && key !in updates && key in doc ==> m[key] == doc[key])
  {
  }

  /** Merging the updates of a non-null payload, member by member. */
  lemma MergedPayload(doc: Doc, payload: Json, now: string)
    requires payload != Null
    ensures Updates(payload).Some?
    ensures var m := Merge(doc, Updates(payload).value, now);
      && (forall k :: k in m <==> k in doc || k == "updated_date" || Kept(payload, k))
      && (forall k :: Kept(payload, k) ==> k in m && m[k] == Str(Trim(Member(payload, k).value.s)))
      && (forall k :: k in doc && k != "updated_date" && !Kept(payload, k) ==> k in m && m[k] == doc[k])
      && "updated_date" in m && m["updated_date"] == Str(now)
  {
    UpdatesFields(payload, "file_url");
    var u := Updates(payload).value;
    forall k
      ensures k in Merge(doc, u, now) <==> k in doc || k == "updated_date" || Kept(payload, k)
      ensures Kept(payload, k) ==> k in Merge(doc, u, now) && Merge(doc, u, now)[k] == Str(Trim(Member(payload, k).value.s))
      ensures k in doc && k != "updated_date" && !Kept(payload, k) ==> k in Merge(doc, u, now) && Merge(doc, u, now)[k] == doc[k]
    {
      MergeAt(doc, u, now, k);
      if k == "file_url" || k == "title" {
        UpdatesFields(payload, k);
      } else {
        assert k !in u && !Kept(payload, k);
      }
    }
    MergeAt(doc, u, now, "updated_date");
  }

  /** A payload that acts: each accepted member is stored trimmed, every
      other member keeps its value, `updated_date` is `now`, and the
      response is 200 with the whole document when the write succeeds. When
      the write fails the document has changed all the same, store.json has
      not, and the answer is the invalid-payload error. */
  lemma AcceptedUpdate(doc: Doc, payload: Json, now: string, writeOk: bool)
    requires Acts(payload)
    ensures var o := Put(doc, Some(payload), now, writeOk);
      && (forall k :: k in o.doc <==> k in doc || k == "updated_date" || Kept(payload, k))
      && (forall k :: Kept(payload, k) ==> k in o.doc && o.doc[k] == Str(Trim(Member(payload, k).value.s)))
      && (forall k :: k in doc && k != "updated_date" && !Kept(payload, k) ==> k in o.doc && o.doc[k] == doc[k])
      && "updated_date" in o.doc && o.doc["updated_date"] == Str(now)
      && o.written == writeOk
      && o.response == if writeOk then SendJson(200, Obj(o.doc)) else SendError(400, InvalidJsonMessage)
  {
    PutActing(doc, payload, now, writeOk);
    MergedPayload(doc, payload, now);
  }

  /** Only an acting payload changes the document or store.json, and store.json
      is rewritten exactly when the answer is 200. */
  lemma PutChangesOnlyWhenActing(doc: Doc, parsed: Option<Json>, now: string, writeOk: bool)
    ensures var o := Put(doc, parsed, now, writeOk);
      && (o.doc != doc || o.written ==> parsed.Some? && Acts(parsed.value))
      && (o.written <==> o.response.status == 200)
      && (o.response.status == 200 ==> o.response == SendJson(200, Obj(o.doc)))
  {
    if parsed.Some? && parsed.value != Null {
      UpdatesFields(parsed.value, "file_url");
      UpdatesFields(parsed.value, "title");
    }
  }

  /** Merging the same updates twice is merging them once at the later time. */
  lemma MergeTwice(doc: Doc, updates: Doc, now1: string, now2: string)
    ensures Merge(Merge(doc, updates, now1), updates, now2) == Merge(doc, updates, now2)
  {
  }

  /** Sending the same acting body twice gives the document one send would
      give at the second time: `title` and `file_url` are those of the first
      send, and only `updated_date` moves. */
  lemma PutTwice(doc: Doc, payload: Json, now1: string, now2: string, w1: bool, w2: bool)
    requires Acts(payload)
    ensures var once := Put(doc, Some(payload), now1, w1);
      var twice := Put(once.doc, Some(payload), now2, w2);
      && twice.doc == Put(doc, Some(payload), now2, w2).doc
      && (forall k :: k in once.doc && k != "updated_date" ==> k in twice.doc && twice.doc[k] == once.doc[k])
      && "updated_date" in twice.doc && twice.doc["updated_date"] == Str(now2)
  {
    var once := Put(doc, Some(payload), now1, w1);
    PutActing(doc, payload, now1, w1);
    PutActing(once.doc, payload, now2, w2);
    PutActing(doc, payload, now2, w2);
    var u := Updates(payload).value;
    MergeTwice(doc, u, now1, now2);
    forall k | k in once.doc && k != "updated_date"
      ensures k in Merge(once.doc, u, now2) && Merge(once.doc, u, now2)[k] == once.doc[k]
    {
      MergeAt(once.doc, u, now2, k);
      MergeAt(doc, u, now1, k);
    }
    MergeAt(once.doc, u, now2, "updated_date");
  }

  /** `Object.assign(target, source)` when `source` already has every
      member of `target`: the result is `source`. */
  lemma AssignCovering(target: Doc, source: Doc)
    requires target.Keys <= source.Keys
    ensures target + source == source
  {
  }

  /** Builds `updates` from the payload one field at a time; None when
      reading a member throws. */
  method CollectUpdates(payload: Json) returns (r: Option<Doc>)
    ensures r == Updates(payload)
  {
    var url := GetProperty(payload, "file_url");
    if url.Throws? {
      return None;
    }
    var title := GetProperty(payload, "title");
    var updates: Doc := map[];
    var u := Accept(url.value);
    if u.Some? {
      updates := updates["file_url" := Str(u.value)];
    }
    var t := Accept(title.value);
    if t.Some? {
      updates := updates["title" := Str(t.value)];
    }
    UpdatesFields(payload, "file_url");
    UpdatesFields(payload, "title");
    ghost var expected := Updates(payload).value;
    assert expected.Keys == updates.Keys;
    return Some(updates);
  }

  /** How a `persistData` call ends. `fs.writeFileSync` opens store.json
      with flag 'w', which empties it: a failure before that (in `mkdirSync`
      or in opening the file) leaves it as it was, a failure after that
      leaves it empty or cut short. */
  datatype WriteResult = Written | Untouched | Truncated

  /** What store.json holds after the PUT handler has run with `write` as
      the outcome of its `persistData`: the new document when written, text
      that no longer parses when a write it attempted was cut short, and
      otherwise what it held before. */
  function SavedAfter(saved: Option<Doc>, o: Outcome, parsed: Option<Json>, write: WriteResult): Option<Doc> {
    if o.written then Some(o.doc)
    else if Attempted(parsed) && write == Truncated then None
    else saved
  }

  /** The process-wide `state` object and the content of store.json. */
  class Store {
    var doc: Doc
    /** The document store.json holds, or None when it holds text that does
        not parse (an empty or partial file). */
    var saved: Option<Doc>

    /** `const state = loadData()` for a loaded object; `onDisk` is what
        store.json holds at that moment. */
    constructor(initial: Doc, onDisk: Option<Doc>)
      ensures doc == initial && saved == onDisk
    {
      doc := initial;
      saved := onDisk;
    }

    /** GET /api/info. */
    method Read() returns (resp: Response)
      ensures resp == SendJson(200, Obj(doc))
      ensures resp.status == 200 && resp.contentType == Some(JsonType)
    {
      resp := SendJson(200, Obj(doc));
    }

    /** PUT /api/info once the whole body has arrived. */
    method Update(body: string, parse: string -> Option<Json>, now: string, write: WriteResult) returns (resp: Response)
      modifies this
      ensures var parsed := ParseBody(body, parse);
        var o := Put(old(doc), parsed, now, write == Written);
        doc == o.doc && resp == o.response && saved == SavedAfter(old(saved), o, parsed, write)
    {
      var payload := if body == "" then Some(Obj(map[])) else parse(body);
      assert payload == ParseBody(body, parse);
      ghost var o := Put(doc, payload, now, write == Written);
      if payload.None? {
        return SendError(400, InvalidJsonMessage);
      }
      var collected := CollectUpdates(payload.value);
      if collected.None? {
        return SendError(400, InvalidJsonMessage);
      }
      var updates := collected.value;
      if "file_url" !in updates && "title" !in updates {
        return SendError(400, NoFieldsMessage);
      }
      assert Attempted(payload);
      var newState := doc + updates + map["updated_date" := Str(now)];
      assert o.doc == newState && o.written == (write == Written);
      AssignCovering(doc, newState);
      doc := doc + newState;
      if write != Written {
        if write == Truncated {
          saved := None;
        }
        return SendError(400, InvalidJsonMessage);
      }
      saved := Some(doc);
      resp := SendJson(200, Obj(doc));
    }
  }
}
