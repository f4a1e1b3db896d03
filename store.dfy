/** The collection of short links: its records, the single-document lookup the
    service makes by either field, and the insertion of a record. The database
    driver, its connections and its time-outs are replaced by this collection
    and by a flag saying whether a lookup reached the database at all. */
module Store {

  /** One persisted short link. */
  datatype Seus = Seus(code: string, url: string)

  /** The field a lookup filters on. */
  datatype Field = Code | Url

  function Key(d: Seus, f: Field): string {
    match f
    case Code => d.code
    case Url => d.url
  }

  /** What a single-document lookup reports: a document, the distinguished
      "no documents" error, or any other error of the driver. */
  datatype Outcome = Found(doc: Seus) | NoDocuments | Failed

  /** The first record, in insertion order, whose `field` equals `value`. */
  function FindOne(records: seq<Seus>, field: Field, value: string): (o: Outcome)
    ensures !o.Failed?
    ensures o.Found? ==> o.doc in records && Key(o.doc, field) == value
    ensures o.NoDocuments? <==> forall d :: d in records ==> Key(d, field) != value
    decreases |records|
  {
    if records == [] then NoDocuments
    else if Key(records[0], field) == value then Found(records[0])
    else FindOne(records[1..], field, value)
  }

  /** A lookup as the service issues it: when the database cannot be reached
      (or the driver fails in any other way) the outcome is an error other than
      "no documents". */
  function Lookup(records: seq<Seus>, field: Field, value: string, reachable: bool): Outcome {
    if reachable then FindOne(records, field, value) else Failed
  }

  /** The document a lookup decoded: the empty record unless one was found. */
  function Decoded(o: Outcome): Seus {
    if o.Found? then o.doc else Seus("", "")
  }

  /** The number of records whose `field` equals `value`. */
  function Count(records: seq<Seus>, field: Field, value: string): (n: nat)
    ensures n <= |records|
    ensures n == 0 <==> FindOne(records, field, value) == NoDocuments
    decreases |records|
  {
    if records == [] then 0
    else (if Key(records[0], field) == value then 1 else 0) + Count(records[1..], field, value)
  }

  /** Appending a record does not change what a lookup finds when an earlier
      record already matches; otherwise the new record is found exactly when it
      matches. */
  lemma {:induction false} FindOneAfterAppend(records: seq<Seus>, d: Seus, field: Field, value: string)
    ensures FindOne(records + [d], field, value) ==
              if FindOne(records, field, value).Found? then FindOne(records, field, value)
              else if Key(d, field) == value then Found(d)
              else NoDocuments
    decreases |records|
  {
    if records != [] {
      assert (records + [d])[1..] == records[1..] + [d];
      FindOneAfterAppend(records[1..], d, field, value);
    }
  }

  lemma {:induction false} CountAfterAppend(records: seq<Seus>, d: Seus, field: Field, value: string)
    ensures Count(records + [d], field, value) ==
              Count(records, field, value) + (if Key(d, field) == value then 1 else 0)
    decreases |records|
  {
    if records != [] {
      assert (records + [d])[1..] == records[1..] + [d];
      CountAfterAppend(records[1..], d, field, value);
    }
  }

  /** The first record whose field matches is the one a lookup finds. */
  lemma {:induction false} FindOneFirst(records: seq<Seus>, field: Field, value: string, i: nat)
    requires i < |records| && Key(records[i], field) == value
    requires forall j :: 0 <= j < i ==> Key(records[j], field) != value
    ensures FindOne(records, field, value) == Found(records[i])
    decreases i
  {
    if i > 0 {
      FindOneFirst(records[1..], field, value, i - 1);
    }
  }

  /** No two records share a URL: what the create flow keeps, since it inserts
      only after a lookup by URL reports no documents. */
  predicate UniqueUrls(records: seq<Seus>) {
    forall i, j :: 0 <= i < j < |records| ==> records[i].url != records[j].url
  }

  /** The collection the service writes to. */
  class Collection {
    var records: seq<Seus>

    constructor ()
      ensures records == []
    {
      records := [];
    }

    /** Inserts one document; nothing else in the collection changes. */
    method InsertOne(doc: Seus)
      modifies this
      ensures records == old(records) + [doc]
      ensures FindOne(records, Code, doc.code).Found?
      ensures Count(records, Url, doc.url) == Count(old(records), Url, doc.url) + 1
    {
      CountAfterAppend(records, doc, Url, doc.url);
      FindOneAfterAppend(records, doc, Code, doc.code);
      records := records + [doc];
    }
  }
}
