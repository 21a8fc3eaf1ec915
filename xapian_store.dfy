/**
 * The coordination between the IndexedDB object store `objects` and the
 * Xapian engine in data/xapian/connect.js: `add` writes the content record
 * first and the engine document second, `body` finds a record by guid,
 * `search.snippet` picks the text to snippet, and `remove` drops the engine
 * document only.
 *
 * The object store is a value (`ObjectStore`): a map from keys to records and
 * the store's key generator. The engine's documents are a map from database
 * index and guid text to the arguments `add` passed. What the engine does with
 * them (tokenising, ranking, snippet text) is not modelled: its answers are
 * parameters and its calls are results.
 */
module XapianStore {
  import opened Outcomes
  import opened JsValues
  import opened XapianText

  // ---------------------------------------------------------------------------
  // Object store

  /** A key of the `objects` store: a number (generated or given) or a string. */
  datatype Key = NumKey(n: int) | StrKey(s: string)

  /** A stored content record: property name to value. */
  type Record = map<string, JsValue>

  /** The key a property value denotes, if it is a valid key. */
  function KeyOf(v: JsValue): Option<Key>
  {
    match v
    case Num(n) => Some(NumKey(n))
    case Str(s) => Some(StrKey(s))
    case _ => None
  }

  /** The value a key is as a JavaScript value. */
  function KeyValue(k: Key): (v: JsValue)
    ensures KeyOf(v) == Some(k)
  {
    match k
    case NumKey(n) => Num(n)
    case StrKey(s) => Str(s)
  }

  /** `key + ''`: the text of a key, as `add` resolves it and hands it to the engine. */
  function KeyString(k: Key): string
  {
    ToJsString(KeyValue(k))
  }

  /** The `objects` store: its records by key, and the next number its key generator hands out. */
  datatype ObjectStore = ObjectStore(records: map<Key, Record>, nextKey: int)

  /** A freshly created store. */
  const EmptyStore: ObjectStore := ObjectStore(map[], 1)

  /**
   * The store's invariant: the generator is ahead of every numeric key, and
   * every record carries its own key in its `guid` property (the key path).
   */
  predicate StoreValid(st: ObjectStore)
  {
    && st.nextKey >= 1
    && (forall k :: k in st.records && k.NumKey? ==> k.n < st.nextKey)
    && (forall k :: k in st.records ==> "guid" in st.records[k] && KeyOf(st.records[k]["guid"]) == Some(k))
  }

  /** Whether a record names its own key: a `guid` property that is not `undefined`. */
  predicate HasInlineKey(rec: Record)
  {
    "guid" in rec && rec["guid"] != Undefined
  }

  /** A successful `put`: the key the store used, and the store afterwards. */
  datatype Stored = Stored(key: Key, store: ObjectStore)

  /** `put` fails with a DataError when the `guid` property is not a valid key. */
  datatype StoreError = DataError

  /**
   * `put(record)` on the store with key path `guid` and a key generator. A
   * record that names its key replaces whatever was stored under that key,
   * and a numeric key at or past the generator moves the generator beyond it.
   * A record without one gets the generator's next number, written into its
   * `guid` property; that key was never used before.
   */
  function Put(st: ObjectStore, rec: Record): (r: Result<Stored, StoreError>)
    ensures r.Err? <==> HasInlineKey(rec) && KeyOf(rec["guid"]).None?
    ensures r.Ok? ==> forall k :: k in r.value.store.records <==> k in st.records || k == r.value.key
    ensures r.Ok? ==> forall k :: k in st.records && k != r.value.key ==> r.value.store.records[k] == st.records[k]
    ensures r.Ok? && HasInlineKey(rec) ==> Some(r.value.key) == KeyOf(rec["guid"]) && r.value.store.records[r.value.key] == rec
    ensures r.Ok? && !HasInlineKey(rec) ==> r.value.store.records[r.value.key] == rec["guid" := KeyValue(r.value.key)]
    ensures StoreValid(st) && !HasInlineKey(rec) ==> r.Ok? && r.value.key.NumKey? && r.value.key !in st.records
    ensures StoreValid(st) && r.Ok? ==> StoreValid(r.value.store)
  {
    if HasInlineKey(rec) then
      match KeyOf(rec["guid"])
      case None => Err(DataError)
      case Some(k) =>
        var next := if k.NumKey? && k.n >= st.nextKey then k.n + 1 else st.nextKey;
        Ok(Stored(k, ObjectStore(st.records[k := rec], next)))
    else
      var k := NumKey(st.nextKey);
      Ok(Stored(k, ObjectStore(st.records[k := rec["guid" := KeyValue(k)]], st.nextKey + 1)))
  }

  // ---------------------------------------------------------------------------
  // body

  /** Why `body` rejects: the guid is not a valid key, or no record has it. */
  datatype LookupError = InvalidKey | NoResult

  /**
   * The key `body` looks up: a guid that `isNaN` does not reject becomes the
   * number `Number(guid)`; any other string stays the string itself, and
   * `undefined` is not a key at all.
   */
  function LookupKey(guid: JsValue): (k: Option<Key>)
    ensures ValueToNumber(guid).Finite? ==> k == Some(NumKey(ValueToNumber(guid).value))
    ensures guid.Str? && ValueToNumber(guid).NaN? ==> k == Some(StrKey(guid.s))
    ensures k.None? <==> guid.Undefined?
  {
    match ValueToNumber(guid)
    case Finite(n) => Some(NumKey(n))
    case NaN => KeyOf(guid)
  }

  /** `body(guid)`: the record stored under the guid's lookup key. */
  function Body(st: ObjectStore, guid: JsValue): (r: Result<Record, LookupError>)
    ensures r == Err(InvalidKey) <==> guid.Undefined?
    ensures r.Ok? <==> !guid.Undefined? && LookupKey(guid).value in st.records
    ensures r.Ok? ==> r.value == st.records[LookupKey(guid).value]
  {
    match LookupKey(guid)
    case None => Err(InvalidKey)
    case Some(k) => if k in st.records then Ok(st.records[k]) else Err(NoResult)
  }

  /**
   * A record stored under a generated key is found again from the text `add`
   * resolves with: the number comes back from its decimal text.
   */
  lemma GeneratedKeyFound(st: ObjectStore, rec: Record)
    requires StoreValid(st) && !HasInlineKey(rec)
    ensures var p := Put(st, rec).value;
            Body(p.store, Str(KeyString(p.key))) == Ok(rec["guid" := KeyValue(p.key)])
  {
    var p := Put(st, rec).value;
    NumberOfIntString(p.key.n);
  }

  /** A record stored under a non-numeric string guid is found again from that guid. */
  lemma StringGuidFound(st: ObjectStore, rec: Record, guid: string)
    requires "guid" in rec && rec["guid"] == Str(guid) && ToNumber(guid).NaN?
    ensures var p := Put(st, rec).value;
            p.key == StrKey(guid) && Body(p.store, Str(KeyString(p.key))) == Ok(rec)
  {
  }

  /**
   * A caller-chosen guid that reads as a number is stored under the string
   * but looked up as the number, so `body` never returns the record from it.
   */
  lemma NumericTextGuidMissed(st: ObjectStore, rec: Record, guid: string)
    requires StoreValid(st)
    requires "guid" in rec && rec["guid"] == Str(guid) && ToNumber(guid).Finite?
    ensures var p := Put(st, rec).value;
            p.key == StrKey(guid) && Body(p.store, Str(guid)) != Ok(rec)
  {
    var p := Put(st, rec).value;
    var k := NumKey(ToNumber(guid).value);
    if k in p.store.records {
      assert k in st.records;
      assert KeyOf(p.store.records[k]["guid"]) == Some(k);
    }
  }

  // ---------------------------------------------------------------------------
  // add

  /** The fields `add` destructures, after their defaults (`mime`, `keywords`, ... are `''`, `lang` is `english`). */
  datatype AddFields = AddFields(
    mime: string, keywords: string, date: string, description: string, lang: string,
    url: JsValue, title: JsValue, body: JsValue, timestamp: JsValue)

  /** The parts of `new URL(url)` that `add` uses. */
  datatype UrlParts = UrlParts(hostname: string, pathname: string)

  /** The record's own fields before the hidden fields are merged in. */
  function BaseRecord(f: AddFields, hostname: string): Record
  {
    map["mime" := Str(f.mime), "url" := f.url, "hostname" := Str(hostname), "title" := f.title, "body" := f.body]
  }

  /** `Date.now() || timestamp`: the caller's timestamp is used only when the clock reads 0. */
  function Timestamp(now: int, f: AddFields): JsValue
  {
    if now != 0 then Num(now) else f.timestamp
  }

  /**
   * The record `add` stores: its own fields, overridden by the hidden fields,
   * then the timestamp over both, then the guid when one was passed.
   */
  function BuildRecord(f: AddFields, hostname: string, hidden: Record, now: int, guid: JsValue): (r: Record)
    ensures forall k :: k in r <==> k in BaseRecord(f, hostname) || k in hidden || k == "timestamp" || (k == "guid" && Truthy(guid))
    ensures forall k :: k in hidden && k != "timestamp" && !(k == "guid" && Truthy(guid)) ==> r[k] == hidden[k]
    ensures forall k :: k in BaseRecord(f, hostname) && k !in hidden ==> r[k] == BaseRecord(f, hostname)[k]
    ensures r["timestamp"] == Timestamp(now, f)
    ensures Truthy(guid) ==> r["guid"] == guid
    ensures "guid" in r <==> Truthy(guid) || "guid" in hidden
  {
    var stamped := (BaseRecord(f, hostname) + hidden)["timestamp" := Timestamp(now, f)];
    if Truthy(guid) then stamped["guid" := guid] else stamped
  }

  /**
   * Without a guid and without hidden fields of the same names, the record
   * keeps the caller's title, url and body and names no key of its own.
   */
  lemma BuildRecordKeepsCallerFields(f: AddFields, hostname: string, hidden: Record, now: int, guid: JsValue)
    requires !Truthy(guid)
    requires "guid" !in hidden && "title" !in hidden && "url" !in hidden && "body" !in hidden
    ensures var rec := BuildRecord(f, hostname, hidden, now, guid);
            && !HasInlineKey(rec)
            && "title" in rec && "url" in rec && "body" in rec
            && rec["title"] == f.title && rec["url"] == f.url && rec["body"] == f.body
  {
    var base := BaseRecord(f, hostname);
    assert "title" in base && "url" in base && "body" in base;
  }

  /**
   * Without a guid and without hidden fields of the same names, `body` of
   * the key `add` resolves with returns the caller's title, url and body.
   */
  lemma AddThenBody(st: ObjectStore, f: AddFields, hostname: string, hidden: Record, now: int, guid: JsValue)
    requires StoreValid(st) && !Truthy(guid)
    requires "guid" !in hidden && "title" !in hidden && "url" !in hidden && "body" !in hidden
    ensures var rec := BuildRecord(f, hostname, hidden, now, guid);
            !HasInlineKey(rec) &&
            var p := Put(st, rec).value;
            var found := Body(p.store, Str(KeyString(p.key)));
            && found.Ok? && "title" in found.value && "url" in found.value && "body" in found.value
            && found.value["title"] == f.title && found.value["url"] == f.url && found.value["body"] == f.body
  {
    var rec := BuildRecord(f, hostname, hidden, now, guid);
    BuildRecordKeepsCallerFields(f, hostname, hidden, now, guid);
    GeneratedKeyFound(st, rec);
    var p := Put(st, rec).value;
    var stored := rec["guid" := KeyValue(p.key)];
    assert Body(p.store, Str(KeyString(p.key))) == Ok(stored);
    assert stored["title"] == rec["title"] && stored["url"] == rec["url"] && stored["body"] == rec["body"];
  }

  /** The text and options the engine is given when `add` indexes a record. */
  datatype SearchDoc = SearchDoc(
    lang: string, hostname: string, url: JsValue, date: string, filename: string,
    mime: string, title: JsValue, keywords: string, description: string, body: JsValue)

  /** The engine document `add` writes: the caller's fields, never the hidden ones. */
  function EngineDocument(f: AddFields, parts: UrlParts): SearchDoc
  {
    SearchDoc(f.lang, parts.hostname, f.url, f.date, parts.pathname, f.mime, f.title,
              NormalizeKeywords(f.keywords), f.description, f.body)
  }

  /** An engine document's place: the database index and the guid text. */
  datatype DocId = DocId(db: int, guid: string)

  /** Why `add` rejects. */
  datatype AddError = InvalidUrl | StoreFailed | EngineFailed

  // ---------------------------------------------------------------------------
  // snippet

  /** The options of `search.snippet`, after their defaults. */
  datatype SnippetOptions = SnippetOptions(index: int, lang: string, omit: string, content: JsValue, size: int)

  /** The arguments `search.snippet` passes to the engine's snippet call. */
  datatype SnippetCall = SnippetCall(lang: string, text: JsValue, size: int, omit: string)

  /** `record.body`: `undefined` when the record has no body. */
  function BodyText(rec: Record): JsValue
  {
    if "body" in rec then rec["body"] else Undefined
  }

  /**
   * `search.snippet`: supplied content is snippeted as it is, with no lookup;
   * otherwise the `index`-th result's guid (`keyOf`, the engine's answer) is
   * looked up with `body` and the record's body is snippeted.
   */
  function Snippet(st: ObjectStore, keyOf: int -> string, o: SnippetOptions): (r: Result<SnippetCall, LookupError>)
    ensures Truthy(o.content) ==> r == Ok(SnippetCall(o.lang, o.content, o.size, o.omit))
    ensures !Truthy(o.content) ==> (r.Ok? <==> Body(st, Str(keyOf(o.index))).Ok?)
    ensures !Truthy(o.content) && r.Err? ==> r.error == Body(st, Str(keyOf(o.index))).error
    ensures !Truthy(o.content) && r.Ok? ==>
              r.value == SnippetCall(o.lang, BodyText(Body(st, Str(keyOf(o.index))).value), o.size, o.omit)
  {
    if Truthy(o.content) then Ok(SnippetCall(o.lang, o.content, o.size, o.omit))
    else
      match Body(st, Str(keyOf(o.index)))
      case Err(e) => Err(e)
      case Ok(rec) => Ok(SnippetCall(o.lang, BodyText(rec), o.size, o.omit))
  }

  /**
   * Snippeting a result without content reaches the body that was stored for
   * it, when the engine reports the guid `add` resolved with.
   */
  lemma SnippetOfAddedRecord(st: ObjectStore, rec: Record, keyOf: int -> string, o: SnippetOptions)
    requires StoreValid(st) && !HasInlineKey(rec) && !Truthy(o.content)
    requires keyOf(o.index) == KeyString(Put(st, rec).value.key)
    ensures Snippet(Put(st, rec).value.store, keyOf, o) == Ok(SnippetCall(o.lang, BodyText(rec), o.size, o.omit))
  {
    GeneratedKeyFound(st, rec);
  }

  // ---------------------------------------------------------------------------
  // The coordinator's state: the object store and the engine's documents

  class Coordinator {
    var store: ObjectStore
    var documents: map<DocId, SearchDoc>
    /** The store key each engine document was written for. */
    ghost var sources: map<DocId, Key>

    /**
     * The store is consistent, and no engine document exists without the
     * content record it was written for.
     */
    ghost predicate Valid()
      reads this
    {
      && StoreValid(store)
      && documents.Keys <= sources.Keys
      && forall d :: d in documents ==> sources[d] in store.records && KeyString(sources[d]) == d.guid
    }

    constructor ()
      ensures Valid() && store == EmptyStore && documents == map[]
    {
      store := EmptyStore;
      documents := map[];
      sources := map[];
    }

    /**
     * `add(fields, hidden, guid, db)`. `url` is what `new URL(fields.url)`
     * yields (None when it throws), `now` is `Date.now()`, and `engineFails`
     * says whether the engine's add throws. The record is written before the
     * engine is called; an engine failure rejects but leaves the record.
     */
    method Add(fields: AddFields, hidden: Record, guid: JsValue, db: int, now: int,
               url: Option<UrlParts>, engineFails: bool) returns (r: Result<string, AddError>)
      requires Valid()
      modifies this
      ensures Valid()
      ensures Truthy(fields.url) && url.None? ==>
                r == Err(InvalidUrl) && store == old(store) && documents == old(documents)
      ensures !(Truthy(fields.url) && url.None?) ==>
                var parts := if Truthy(fields.url) then url.value else UrlParts("", "");
                var put := Put(old(store), BuildRecord(fields, parts.hostname, hidden, now, guid));
                && (put.Err? ==> r == Err(StoreFailed) && store == old(store) && documents == old(documents))
                && (put.Ok? && engineFails ==>
                      r == Err(EngineFailed) && store == put.value.store && documents == old(documents))
                && (put.Ok? && !engineFails ==>
                      && r == Ok(KeyString(put.value.key))
                      && store == put.value.store
                      && documents == old(documents)[DocId(db, KeyString(put.value.key)) := EngineDocument(fields, parts)])
    {
      var parts := UrlParts("", "");
      if Truthy(fields.url) {
        if url.None? {
          return Err(InvalidUrl);
        }
        parts := url.value;
      }
      var record := BaseRecord(fields, parts.hostname) + hidden;
      record := record["timestamp" := Timestamp(now, fields)];
      if Truthy(guid) {
        record := record["guid" := guid];
      }
      assert record == BuildRecord(fields, parts.hostname, hidden, now, guid);
      var put := Put(store, record);
      if put.Err? {
        return Err(StoreFailed);
      }
      store := put.value.store;
      var key := KeyString(put.value.key);
      if engineFails {
        return Err(EngineFailed);
      }
      documents := documents[DocId(db, key) := EngineDocument(fields, parts)];
      sources := sources[DocId(db, key) := put.value.key];
      r := Ok(key);
    }

    /** `remove(guid, db)`: the engine document goes, the content record stays. */
    method Remove(guid: JsValue, db: int)
      requires Valid()
      modifies this`documents
      ensures Valid()
      ensures documents == old(documents) - {DocId(db, ToJsString(guid))}
      ensures store == old(store)
    {
      documents := documents - {DocId(db, ToJsString(guid))};
    }
  }
}
