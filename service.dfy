/** The request handlers of the shortener: create a short link for a URL,
    resolve a short code to its URL, and send plain-HTTP clients to HTTPS.
    JSON encoding and the HTTP library are replaced by the `Reply` datatype. */
module Service {
  import opened Patterns
  import opened Store
  import opened Generator

  /** The host part of the configuration. */
  datatype ConfigHost = ConfigHost(domain: string, httpPort: string, httpsPort: string)

  /** The JSON body the handlers write; the empty string and 0 stand for an
      omitted field. */
  datatype SeusResponse = SeusResponse(status: int, message: string, url: string, code: string, encoded: string)

  /** What a handler sends back. */
  datatype Reply =
    | Json(response: SeusResponse)             // `response`, before it is marshalled and formatted into the body
    | NotFoundPage                             // the library's plain "404 page not found"
    | Redirect(location: string, status: int)  // a redirect to `location`
    | NoBody                                   // the handler returned without writing anything
    | Pending                                  // the handler has not returned (the generator is still retrying)

  /** A reply together with the collection's records after the request. */
  datatype Exchange = Exchange(reply: Reply, records: seq<Seus>)

  /** The query string, parameter name to the list of its values. */
  type Query = map<string, seq<string>>

  const StatusFound := 302
  const StatusTemporaryRedirect := 307

  const NoUrlMessage := "No URL Specified (or too many)"
  const BadUrlMessage := "Unexpected characters in URL, allowed are: [a-zA-Z0-9_.-]"
  const InsertedMessage := "Code inserted correctly"
  const ExistsMessage := "Code already exists"
  const NotFoundMessage := "Code not found"

  const Blank := SeusResponse(0, "", "", "", "")

  /** The short link as shown to users: the domain, a slash and the code. */
  function Encoded(domain: string, code: string): (e: string)
    ensures |e| == |domain| + 1 + |code|
    ensures e[..|domain|] == domain && e[|domain|] == '/' && e[|domain| + 1..] == code
  {
    domain + "/" + code
  }

  /** The query has exactly one `url` parameter. */
  predicate SingleUrl(query: Query) {
    "url" in query && |query["url"]| == 1
  }

  /** The query has exactly one `url` parameter, and its value is `u`. */
  predicate AsksFor(query: Query, u: string) {
    "url" in query && query["url"] == [u]
  }

  // ---------------------------------------------------------------------------
  // /api/create
  // ---------------------------------------------------------------------------

  /** The create handler on the records of the collection. `reachable` says
      whether the lookup by URL reached the database; `probe`, `rand` and
      `rounds` are the generator's lookup result, random source and observed
      retries. */
  function Create(records: seq<Seus>, host: ConfigHost, query: Query, reachable: bool,
                  probe: Outcome, rand: nat -> LetterIndex, rounds: nat): (x: Exchange)
    ensures x.records != records <==> x.reply.Json? && x.reply.response.status == 200
    ensures x.records != records ==>
              var r := x.reply.response;
              && x.records == records + [Seus(r.code, r.url)]
              && SingleUrl(query) && r.url == query["url"][0] && ValidUrl(r.url)
              && FindOne(records, Url, r.url) == NoDocuments
              && |r.code| == CodeLength
              && (forall i :: 0 <= i < CodeLength ==> r.code[i] in Letters)
  {
    if !SingleUrl(query) then
      Exchange(Json(Blank.(status := 400, message := NoUrlMessage)), records)
    else
      var url := query["url"][0];
      if !ValidUrl(url) then
        Exchange(Json(Blank.(status := 400, message := BadUrlMessage)), records)
      else
        var res := Lookup(records, Url, url, reachable);
        if res == NoDocuments then
          match Generate(CodeLength, rand, probe, rounds)
          case Retrying(_) => Exchange(Pending, records)
          case Returned(code) =>
            GeneratedCodeShape(CodeLength, rand, probe, rounds);
            var data := Seus(code, url);
            Exchange(Json(SeusResponse(200, InsertedMessage, data.url, data.code, Encoded(host.domain, data.code))),
                     records + [data])
        else
          var doc := Decoded(res);
          Exchange(Json(SeusResponse(400, ExistsMessage, doc.url, doc.code, Encoded(host.domain, doc.code))),
                   records)
  }

  /** The create handler as written: it builds the response field by field,
      calls the generator and inserts into the collection. */
  method HandleCreate(store: Collection, host: ConfigHost, query: Query, reachable: bool,
                      probe: Outcome, rand: nat -> LetterIndex, rounds: nat) returns (reply: Reply)
    modifies store
    ensures Exchange(reply, store.records) == Create(old(store.records), host, query, reachable, probe, rand, rounds)
  {
    var out := Blank;
    if !("url" in query) || |query["url"]| != 1 {
      out := out.(status := 400);
      out := out.(message := NoUrlMessage);
      return Json(out);
    }
    var url := query["url"][0];
    if !ValidUrl(url) {
      out := out.(status := 400);
      out := out.(message := BadUrlMessage);
      return Json(out);
    }
    var res := Lookup(store.records, Url, url, reachable);
    if res == NoDocuments {
      var generated := GenerateCode(CodeLength, rand, probe, rounds);
      if generated.Retrying? {
        return Pending;
      }
      var data := Seus(generated.code, url);
      store.InsertOne(data);
      out := out.(status := 200);
      out := out.(code := data.code);
      out := out.(url := data.url);
      out := out.(message := InsertedMessage);
      out := out.(encoded := Encoded(host.domain, data.code));
      return Json(out);
    }
    var doc := Decoded(res);
    out := out.(status := 400);
    out := out.(code := doc.code);
    out := out.(url := doc.url);
    out := out.(message := ExistsMessage);
    out := out.(encoded := Encoded(host.domain, doc.code));
    reply := Json(out);
  }

  /** A request without exactly one `url` parameter is answered 400, whatever
      the store holds, and changes nothing. */
  lemma CreateRejectsMissingUrl(records: seq<Seus>, host: ConfigHost, query: Query, reachable: bool,
                                probe: Outcome, rand: nat -> LetterIndex, rounds: nat)
    requires !SingleUrl(query)
    ensures Create(records, host, query, reachable, probe, rand, rounds) ==
              Exchange(Json(SeusResponse(400, NoUrlMessage, "", "", "")), records)
  {
  }

  /** A URL that fails the pattern is answered 400, whatever the store holds,
      and changes nothing. */
  lemma CreateRejectsInvalidUrl(records: seq<Seus>, host: ConfigHost, u: string, query: Query, reachable: bool,
                                probe: Outcome, rand: nat -> LetterIndex, rounds: nat)
    requires AsksFor(query, u)
    requires !ValidUrl(u)
    ensures Create(records, host, query, reachable, probe, rand, rounds) ==
              Exchange(Json(SeusResponse(400, BadUrlMessage, "", "", "")), records)
  {
  }

  /** Creating a short link for a URL no record holds appends exactly the record
      (code, url) and answers 200 with it; the code is the generator's, of length
      CodeLength over the alphabet. */
  lemma CreateInsertsOneRecord(records: seq<Seus>, host: ConfigHost, u: string, query: Query,
                               rand: nat -> LetterIndex, rounds: nat)
    requires AsksFor(query, u)
    requires ValidUrl(u)
    requires forall d :: d in records ==> d.url != u
    ensures var c := Draw(rand, 0, CodeLength);
            && |c| == CodeLength && (forall i :: 0 <= i < CodeLength ==> c[i] in Letters)
            && Create(records, host, query, true, NoDocuments, rand, rounds) ==
                 Exchange(Json(SeusResponse(200, InsertedMessage, u, c, host.domain + "/" + c)),
                          records + [Seus(c, u)])
  {
  }

  /** Creating a short link for a URL a record already holds changes nothing
      and answers 400 "Code already exists" with the first such record. */
  lemma CreateReturnsExisting(records: seq<Seus>, host: ConfigHost, u: string, query: Query, i: nat,
                              probe: Outcome, rand: nat -> LetterIndex, rounds: nat)
    requires AsksFor(query, u)
    requires ValidUrl(u)
    requires i < |records| && records[i].url == u
    requires forall j :: 0 <= j < i ==> records[j].url != u
    ensures Create(records, host, query, true, probe, rand, rounds) ==
              Exchange(Json(SeusResponse(400, ExistsMessage, u, records[i].code,
                                         host.domain + "/" + records[i].code)),
                       records)
  {
    FindOneFirst(records, Url, u, i);
  }

  /** When the lookup by URL fails for any reason other than "no documents",
      the handler still answers "Code already exists", with an empty code and
      URL, and changes nothing. */
  lemma CreateOnStoreError(records: seq<Seus>, host: ConfigHost, u: string, query: Query,
                           probe: Outcome, rand: nat -> LetterIndex, rounds: nat)
    requires AsksFor(query, u)
    requires ValidUrl(u)
    ensures Create(records, host, query, false, probe, rand, rounds) ==
              Exchange(Json(SeusResponse(400, ExistsMessage, "", "", host.domain + "/")), records)
  {
    assert Encoded(host.domain, "") == host.domain + "/";
  }

  /** When the generator's own lookup does not report "no documents", the
      request for a new URL is never answered and nothing is inserted, however
      many retries are observed. */
  lemma CreateHangsWhenProbeFinds(records: seq<Seus>, host: ConfigHost, u: string, query: Query,
                                  probe: Outcome, rand: nat -> LetterIndex, rounds: nat)
    requires AsksFor(query, u)
    requires ValidUrl(u)
    requires forall d :: d in records ==> d.url != u
    requires probe != NoDocuments
    ensures Create(records, host, query, true, probe, rand, rounds) == Exchange(Pending, records)
  {
  }

  /** Creating twice for the same URL gives the same code, the second time with
      "Code already exists", and leaves exactly one record for that URL. */
  lemma CreateTwiceSameCode(records: seq<Seus>, host: ConfigHost, u: string, query: Query,
                            rand1: nat -> LetterIndex, rounds1: nat,
                            probe2: Outcome, rand2: nat -> LetterIndex, rounds2: nat)
    requires AsksFor(query, u)
    requires ValidUrl(u)
    requires forall d :: d in records ==> d.url != u
    ensures var first := Create(records, host, query, true, NoDocuments, rand1, rounds1);
            var second := Create(first.records, host, query, true, probe2, rand2, rounds2);
            && first.reply.Json? && second.reply.Json?
            && first.reply.response.status == 200
            && second.reply.response == first.reply.response.(status := 400, message := ExistsMessage)
            && second.records == first.records
            && Count(second.records, Url, u) == 1
  {
    CreateInsertsOneRecord(records, host, u, query, rand1, rounds1);
    var c := Draw(rand1, 0, CodeLength);
    var after := records + [Seus(c, u)];
    CreateReturnsExisting(after, host, u, query, |records|, probe2, rand2, rounds2);
    CountAfterAppend(records, Seus(c, u), Url, u);
  }

  /** The create handler keeps URLs unique in the collection. */
  lemma CreateKeepsUrlsUnique(records: seq<Seus>, host: ConfigHost, query: Query, reachable: bool,
                              probe: Outcome, rand: nat -> LetterIndex, rounds: nat)
    requires UniqueUrls(records)
    ensures UniqueUrls(Create(records, host, query, reachable, probe, rand, rounds).records)
  {
    var x := Create(records, host, query, reachable, probe, rand, rounds);
    if x.records != records {
      var d := x.records[|records|];
      assert forall i :: 0 <= i < |records| ==> records[i] in records;
      forall i, j | 0 <= i < j < |x.records| ensures x.records[i].url != x.records[j].url {
        if j == |records| {
          assert x.records[i] == records[i];
        }
      }
    }
  }

  // ---------------------------------------------------------------------------
  // / (resolve a code)
  // ---------------------------------------------------------------------------

  /** The resolve handler on the records of the collection, for a request path
      (which always begins with a slash). */
  function Resolve(records: seq<Seus>, path: string, reachable: bool): (r: Reply)
    requires |path| >= 1
    ensures r == NotFoundPage <==> RejectedPath(path[1..])
    ensures r.Redirect? <==> !RejectedPath(path[1..]) && reachable && exists d :: d in records && d.code == path[1..]
    ensures r.Redirect? ==> r.status == StatusFound && Seus(path[1..], r.location) in records
    ensures r.Json? <==> !RejectedPath(path[1..]) && reachable && forall d :: d in records ==> d.code != path[1..]
    ensures r.Json? ==> r.response == SeusResponse(404, NotFoundMessage, "", path[1..], "")
    ensures r == NoBody <==> !RejectedPath(path[1..]) && !reachable
  {
    var rest := path[1..];
    if StartsWithLongCode(rest) || '/' in rest then
      NotFoundPage
    else
      var code := rest;
      match Lookup(records, Code, code, reachable)
      case Found(res) => Redirect(res.url, StatusFound)
      case NoDocuments => Json(Blank.(status := 404, code := code, message := NotFoundMessage))
      case Failed => NoBody
  }

  /** The resolve handler as written. It reads the collection and never
      changes it. */
  method HandleResolve(store: Collection, path: string, reachable: bool) returns (reply: Reply)
    requires |path| >= 1
    ensures reply == Resolve(store.records, path, reachable)
  {
    var rest := path[1..];
    if StartsWithLongCode(rest) || '/' in rest {
      return NotFoundPage;
    }
    var code := rest;
    var res := Lookup(store.records, Code, code, reachable);
    if !res.Found? {
      if res == NoDocuments {
        var out := Blank;
        out := out.(status := 404);
        out := out.(code := code);
        out := out.(message := NotFoundMessage);
        return Json(out);
      }
      return NoBody;
    }
    reply := Redirect(res.doc.url, StatusFound);
  }

  /** A code the generator produced passes the fast reject of paths. */
  lemma GeneratedCodePassesPathFilter(c: string)
    requires |c| == CodeLength && forall i :: 0 <= i < |c| ==> c[i] in Letters
    ensures !RejectedPath(c)
  {
  }

  /** After a successful create of `u` whose code no record held before,
      resolving that code redirects to `u`. */
  lemma ResolveAfterCreate(records: seq<Seus>, host: ConfigHost, u: string, query: Query,
                           rand: nat -> LetterIndex, rounds: nat)
    requires AsksFor(query, u)
    requires ValidUrl(u)
    requires forall d :: d in records ==> d.url != u
    requires forall d :: d in records ==> d.code != Draw(rand, 0, CodeLength)
    ensures var x := Create(records, host, query, true, NoDocuments, rand, rounds);
            x.reply.Json? &&
            Resolve(x.records, "/" + x.reply.response.code, true) == Redirect(u, StatusFound)
  {
  }

  /** The generator's code is never compared with the stored codes, so it can
      equal the code of an earlier record. Create still answers 200 with it and
      inserts a second record with that code, and resolving the code then
      redirects to the earlier record's URL, not to `u`. */
  lemma ResolveAfterCreateWithTakenCode(records: seq<Seus>, host: ConfigHost, u: string, query: Query,
                                        rand: nat -> LetterIndex, rounds: nat, i: nat)
    requires AsksFor(query, u)
    requires ValidUrl(u)
    requires forall d :: d in records ==> d.url != u
    requires i < |records| && records[i].code == Draw(rand, 0, CodeLength)
    requires forall j :: 0 <= j < i ==> records[j].code != Draw(rand, 0, CodeLength)
    ensures var x := Create(records, host, query, true, NoDocuments, rand, rounds);
            && x.reply.Json? && x.reply.response.status == 200
            && x.reply.response.code == records[i].code
            && Count(x.records, Code, records[i].code) >= 2
            && Resolve(x.records, "/" + x.reply.response.code, true) == Redirect(records[i].url, StatusFound)
            && records[i].url != u
  {
    var c := Draw(rand, 0, CodeLength);
    var after := records + [Seus(c, u)];
    CreateInsertsOneRecord(records, host, u, query, rand, rounds);
    assert records[i] in records;
    FindOneFirst(records, Code, c, i);
    FindOneAfterAppend(records, Seus(c, u), Code, c);
    assert FindOne(after, Code, c) == Found(records[i]);
    CountAfterAppend(records, Seus(c, u), Code, c);
    GeneratedCodePassesPathFilter(c);
    assert ("/" + c)[1..] == c;
    assert Resolve(after, "/" + c, true) == Redirect(records[i].url, StatusFound);
  }

  // ---------------------------------------------------------------------------
  // The plain-HTTP server: redirect to the HTTPS port
  // ---------------------------------------------------------------------------

  /** The HTTPS address a plain-HTTP request is sent to, keeping its query. */
  function RedirectTarget(host: ConfigHost, rawQuery: string): (t: string)
    ensures var base := "https://" + host.domain + ":" + host.httpsPort;
            && |t| >= |base| && t[..|base|] == base
            && (rawQuery == [] ==> t == base)
            && (rawQuery != [] ==>
                  |t| == |base| + 1 + |rawQuery| && t[|base|] == '?' && t[|base| + 1..] == rawQuery)
  {
    var target := "https://" + host.domain + ":" + host.httpsPort;
    if |rawQuery| > 0 then target + "?" + rawQuery else target
  }

  /** The reply of the plain-HTTP server. */
  function RedirectToHttps(host: ConfigHost, rawQuery: string): (r: Reply)
    ensures r.Redirect? && r.status == StatusTemporaryRedirect
    ensures r.location == RedirectTarget(host, rawQuery)
  {
    Redirect(RedirectTarget(host, rawQuery), StatusTemporaryRedirect)
  }

  /** The query part of an address: what follows its first `?`, if any. */
  function QueryOf(t: string): (q: string)
    ensures |q| <= |t|
    decreases |t|
  {
    if t == [] then []
    else if t[0] == '?' then t[1..]
    else QueryOf(t[1..])
  }

  lemma {:induction false} QueryOfAfterPlain(a: string, b: string)
    requires '?' !in a
    ensures QueryOf(a + b) == QueryOf(b)
    decreases |a|
  {
    if a != [] {
      assert (a + b)[1..] == a[1..] + b;
      QueryOfAfterPlain(a[1..], b);
    } else {
      assert a + b == b;
    }
  }

  /** When neither the domain nor the port contains `?`, the redirect carries
      exactly the original query, and a `?` only when that query is non-empty. */
  lemma RedirectKeepsQuery(host: ConfigHost, rawQuery: string)
    requires '?' !in host.domain && '?' !in host.httpsPort
    ensures QueryOf(RedirectTarget(host, rawQuery)) == rawQuery
    ensures '?' in RedirectTarget(host, rawQuery) <==> |rawQuery| > 0
  {
    var base := "https://" + host.domain + ":" + host.httpsPort;
    assert '?' !in base;
    QueryOfAfterPlain(base, []);
    assert base + [] == base;
    assert QueryOf([]) == [];
    if |rawQuery| > 0 {
      assert base + "?" + rawQuery == base + ("?" + rawQuery);
      QueryOfAfterPlain(base, "?" + rawQuery);
      assert ('?' in base + "?" + rawQuery) by {
        assert (base + "?" + rawQuery)[|base|] == '?';
      }
    }
  }
}
