/** `loadData`: how the server obtains its `state` from store.json at
    start-up, falling back to a fixed document on any failure. */
module Persistence {
  import opened Js
  import Info

  const FallbackTitle := "QHH - 327"
  const FallbackUrl := "https://github.com/fedelagarmilla/qhh-revista/blob/main/QHH-327.pdf"

  /** What reading and parsing store.json gives. */
  datatype Stored =
    | Unreadable         // `readFileSync` throws
    | Malformed          // `JSON.parse` throws
    | Parsed(value: Json)

  /** The document `loadData` returns and what it wrote to store.json, or a
      crash when the fallback write itself throws (nothing catches it). */
  datatype Startup = Loaded(doc: Json, written: Option<Json>) | Crashed

  /** The fixed document used when store.json cannot be used. */
  function Fallback(now: string): (r: Json)
    ensures r.Obj? && r.members.Keys == {"updated_date", "file_url", "title"}
    ensures r.members["title"] == Str(FallbackTitle) && r.members["file_url"] == Str(FallbackUrl)
    ensures r.members["updated_date"] == Str(now)
  {
    Obj(map["updated_date" := Str(now), "file_url" := Str(FallbackUrl), "title" := Str(FallbackTitle)])
  }

  /** The `catch` branch: build the fallback and persist it. */
  function Recover(now: string, fallbackWriteOk: bool): Startup {
    if fallbackWriteOk then Loaded(Fallback(now), Some(Fallback(now))) else Crashed
  }

  /** `loadData()`, with the clock read as `now` and the outcome of each of
      its two possible `persistData` calls given: `fillWriteOk` for the one
      after filling `updated_date`, `fallbackWriteOk` for the one in `catch`. */
  function LoadData(stored: Stored, now: string, fillWriteOk: bool, fallbackWriteOk: bool): (r: Startup)
    ensures r.Loaded? && r.written.Some? ==> r.written.value == r.doc
    ensures r.Crashed? ==> !fallbackWriteOk
    ensures r.Loaded? && !stored.Parsed? ==> r == Loaded(Fallback(now), Some(Fallback(now)))
  {
    match stored
    case Parsed(v) =>
      (match GetProperty(v, "updated_date")
       case Throws => Recover(now, fallbackWriteOk)
       case Got(date) =>
         if !Falsy(date) then Loaded(v, None)
         else
           var filled := SetProperty(v, "updated_date", Str(now));
           if fillWriteOk then Loaded(filled, Some(filled)) else Recover(now, fallbackWriteOk))
    case _ => Recover(now, fallbackWriteOk)
  }

  /** After loading, memory and store.json agree: either the document was
      written, or it is exactly what store.json held. */
  lemma LoadedAgreesWithDisk(stored: Stored, now: string, fillWriteOk: bool, fallbackWriteOk: bool)
    ensures match LoadData(stored, now, fillWriteOk, fallbackWriteOk)
      case Loaded(doc, written) => written == Some(doc) || (written == None && stored == Parsed(doc))
      case Crashed => true
  {
  }

  /** A loaded object always carries a truthy `updated_date` (the clock never
      gives the empty string). */
  lemma LoadedObjectIsDated(stored: Stored, now: string, fillWriteOk: bool, fallbackWriteOk: bool)
    requires now != ""
    ensures var r := LoadData(stored, now, fillWriteOk, fallbackWriteOk);
      r.Loaded? && r.doc.Obj? ==> "updated_date" in r.doc.members && !Falsy(Some(r.doc.members["updated_date"]))
  {
  }

  /** Any read or parse failure, or a `null` document, gives the fallback. */
  lemma FailureGivesFallback(stored: Stored, now: string, fillWriteOk: bool, fallbackWriteOk: bool)
    requires stored == Unreadable || stored == Malformed || stored == Parsed(Null)
    ensures LoadData(stored, now, fillWriteOk, fallbackWriteOk)
      == if fallbackWriteOk then Loaded(Fallback(now), Some(Fallback(now))) else Crashed
  {
  }

  /** An object with a truthy `updated_date` is used as it is, without a write. */
  lemma DatedObjectKept(m: map<string, Json>, now: string, fillWriteOk: bool, fallbackWriteOk: bool)
    requires "updated_date" in m && !Falsy(Some(m["updated_date"]))
    ensures LoadData(Parsed(Obj(m)), now, fillWriteOk, fallbackWriteOk) == Loaded(Obj(m), None)
  {
  }

  /** An object whose `updated_date` is missing or falsy gets `now` there,
      every other member kept, and is written back; if that write fails the
      fallback is used instead. */
  lemma UndatedObjectFilled(m: map<string, Json>, now: string, fillWriteOk: bool, fallbackWriteOk: bool)
    requires "updated_date" !in m || Falsy(Some(m["updated_date"]))
    ensures var r := LoadData(Parsed(Obj(m)), now, fillWriteOk, fallbackWriteOk);
      if fillWriteOk then
        && r.Loaded? && r.written == Some(r.doc) && r.doc.Obj?
        && r.doc.members.Keys == m.Keys + {"updated_date"}
        && r.doc.members["updated_date"] == Str(now)
        && (forall k :: k in m && k != "updated_date" ==> r.doc.members[k] == m[k])
      else r == Recover(now, fallbackWriteOk)
  {
  }

  /** Start-up crashes exactly when the fallback write fails after store.json
      could not be used as it is. */
  lemma CrashIff(stored: Stored, now: string, fillWriteOk: bool, fallbackWriteOk: bool)
    ensures LoadData(stored, now, fillWriteOk, fallbackWriteOk).Crashed? <==>
      !fallbackWriteOk &&
      (!stored.Parsed? || stored.value == Null ||
       (Falsy(GetProperty(stored.value, "updated_date").value) && !fillWriteOk))
  {
  }

  /** The fallback document, once written, is loaded back unchanged. */
  lemma FallbackReloads(now: string, later: string, fillWriteOk: bool, fallbackWriteOk: bool)
    requires now != ""
    ensures LoadData(Parsed(Fallback(now)), later, fillWriteOk, fallbackWriteOk) == Loaded(Fallback(now), None)
  {
    DatedObjectKept(Fallback(now).members, later, fillWriteOk, fallbackWriteOk);
  }

  /** `const state = loadData()`: the store starts with the loaded object,
      and store.json holds that same object. None when start-up crashes, or
      when the loaded value is not an object. */
  method Start(stored: Stored, now: string, fillWriteOk: bool, fallbackWriteOk: bool) returns (store: Option<Info.Store>)
    ensures match LoadData(stored, now, fillWriteOk, fallbackWriteOk)
      case Loaded(Obj(m), _) => store.Some? && fresh(store.value) && store.value.doc == m && store.value.saved == Some(m)
      case _ => store == None
  {
    var startup := LoadData(stored, now, fillWriteOk, fallbackWriteOk);
    if startup.Crashed? || !startup.doc.Obj? {
      return None;
    }
    LoadedAgreesWithDisk(stored, now, fillWriteOk, fallbackWriteOk);
    var disk := if startup.written.Some? then startup.written.value else stored.value;
    var onDisk := if disk.Obj? then Some(disk.members) else None;
    var s := new Info.Store(startup.doc.members, onDisk);
    return Some(s);
  }

  /** A document the PUT handler wrote is loaded back unchanged at the next
      start-up. */
  lemma WrittenDocumentReloads(doc: Info.Doc, parsed: Option<Json>, now: string, later: string,
                               fillWriteOk: bool, fallbackWriteOk: bool)
    requires now != ""
    requires Info.Put(doc, parsed, now, true).written
    ensures var saved := Info.Put(doc, parsed, now, true).doc;
      LoadData(Parsed(Obj(saved)), later, fillWriteOk, fallbackWriteOk) == Loaded(Obj(saved), None)
  {
    Info.PutChangesOnlyWhenActing(doc, parsed, now, true);
    Info.PutActing(doc, parsed.value, now, true);
    var updates := Info.Updates(parsed.value).value;
    Info.MergeAt(doc, updates, now, "updated_date");
    DatedObjectKept(Info.Merge(doc, updates, now), later, fillWriteOk, fallbackWriteOk);
  }
}
