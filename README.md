# seus — a verified model of the URL shortener's request logic

seus is a URL shortener. A client asks `/api/create?url=<url>` for a short link.
The service checks the URL against a pattern and looks it up in a MongoDB
collection of `(code, url)` records. If the URL is new, it generates a random
six-character code, inserts the record and answers with the code and the short
address `domain/code`. If the URL is already stored, it answers with the stored
record. A `GET /<code>` first rejects paths that cannot be a code, then looks up
the code and redirects to its URL. A second, plain-HTTP server sends every
request to the HTTPS address and keeps the query string.

The model has four modules:

- `Patterns` (patterns.dfy): the character classes, the URL pattern
  `^http(s){0,1}://[a-zA-Z0-9_.-]+$` written as a predicate, and the path fast
  reject (`^[a-zA-Z_0-9]{7,}` or any `/`). The URL predicate is checked against
  an independent reference: the automaton the pattern compiles to.
- `Store` (store.dfy): the `Seus` record, the lookup by code or URL (a
  matching record, or "no documents"), and a `Collection`
  class whose `InsertOne` appends to its `records`. A database that cannot be
  reached is a `reachable` flag; a lookup made without it reports an error other
  than "no documents". The database returns the first match in its natural
  order, which it does not guarantee; the model fixes that order as insertion
  order.
- `Generator` (generator.dfy): the 63-symbol alphabet, the in-place filling of
  the code buffer and the generator with its retry loop. The random source is an
  oracle `rand`, where `rand(i)` is the result of the i-th `Intn(63)` call.
- `Service` (service.dfy): the create and resolve handlers, each as a
  specification function on the records (`Create`, `Resolve`) and as the
  imperative handler proved against it (`HandleCreate`, `HandleResolve`), and
  the HTTP→HTTPS redirect target.

Behaviour kept exactly as the code has it:

- The generator's lookup filters on the rune buffer, not on the string made
  from it, so the model does not assume it compares codes. Its result is an
  input, `probe`. If that result is anything but "no documents", the retry loop
  refills the buffer forever and never repeats the lookup. `rounds` is the
  number of iterations observed. The model proves that after any number of
  them the loop is still running. The create request then never gets an
  answer (`Pending`), and nothing is inserted.
- When the lookup by URL fails with an error other than "no documents", the
  create handler falls through to "Code already exists". It answers status 400
  with an empty code and URL and the encoded link `domain/`.
- When the lookup by code fails in that way, the resolve handler writes nothing.
- The code alphabet has 63 symbols (26 + 26 + 10 + `_`), not 64.
- The plain-HTTP server answers with status 307, a temporary redirect.
- The generator never compares its code with the stored codes, so a create
  can draw a code an earlier record already holds. It still answers 200 and
  inserts a second record with that code. Resolving the code then redirects to
  the earlier record's URL, not to the URL just created.
- The path reject is anchored only at the start: `abcdefgh.x` is rejected
  (seven word characters first), while `abc.defghij` gets to the store lookup.

## Model

| member | source | states |
|---|---|---|
| Patterns.UrlAutomatonAgrees | main.go:242-243 | the hand-written URL predicate accepts exactly the strings the pattern's automaton accepts: `http://` or `https://`, one or more of `[a-zA-Z0-9_.-]`, end of text |
| Patterns.ValidUrlHostPart | main.go:242-243 | everything after the scheme of an accepted URL is a host character, so a `/`, `?`, `:` or space there is rejected |
| Patterns.AcceptedHasScheme | main.go:242 | every string the pattern accepts starts with `http://` or `https://` |
| Patterns.AfterScheme | main.go:242 | after the scheme, the pattern accepts exactly a non-empty run of host characters |
| Patterns.WordPrefixLength | main.go:199 | the leading run of `[a-zA-Z_0-9]`: every character in it is a word character, and the next one is not |
| Patterns.LongCodeIffWordPrefix | main.go:199-201 | the code-shaped path pattern matches exactly when the path starts with more than CodeLength word characters, whatever follows them |
| Patterns.AcceptedPathShape | main.go:199-204 | a path that passes the fast reject has no `/` and at most CodeLength leading word characters |
| Store.FindOne | main.go:96-123 | a lookup finds a record whose field equals the value, or reports "no documents" exactly when no record matches; it never fails on its own |
| Store.FindOneFirst | main.go:118 | the record found is the first matching one, in the order the model fixes (insertion order) |
| Store.FindOneAfterAppend | main.go:118 | after an insert, a lookup still finds the earlier match if there was one, otherwise the new record exactly when it matches |
| Store.Count | main.go:118 | the number of matching records is zero exactly when the lookup reports "no documents" |
| Store.CountAfterAppend | main.go:146 | an insert adds one to the count of records matching it and leaves every other count unchanged |
| Store.Collection.InsertOne | main.go:125-151 | appends exactly one document; the new code can then be found, and one more record holds the URL |
| Generator.LettersSpelled | main.go:154 | the alphabet is `a`–`z`, `A`–`Z`, `0`–`9`, `_`, in that order |
| Generator.LettersAreWordChars | main.go:154 | the alphabet has 63 symbols, and they are exactly the characters of the path pattern's class `[a-zA-Z_0-9]` |
| Generator.GeneratedCodeShape | main.go:153-168 | the generator returns a code exactly when its lookup reports "no documents", for any number of observed retries; the code has length `n` and uses only the alphabet |
| Generator.Fill | main.go:156-159 | every position of the buffer receives the letter chosen by the next random draw |
| Generator.GenerateCode | main.go:153-168 | the in-place generator with its retry loop: it returns a code of length `n` over the alphabet if and only if its lookup reported "no documents"; otherwise the loop is still running after `rounds` iterations |
| Service.Encoded | main.go:265 | the short address is the domain, a `/` and the code, and the code can be read back from it |
| Service.Create | main.go:229-281 | the store changes only on a 200 answer; the change appends exactly the record of the answer's code and URL, for a single valid URL that no record held, with a code of length 6 over the alphabet |
| Service.HandleCreate | main.go:229-281 | the imperative handler's reply and new records are those of `Create` |
| Service.CreateRejectsMissingUrl | main.go:232-240 | without exactly one `url` parameter the answer is 400 "No URL Specified (or too many)" whatever the store holds, and the store is unchanged |
| Service.CreateRejectsInvalidUrl | main.go:241-250 | a URL failing the pattern gets 400 with the allowed characters, whatever the store holds, and the store is unchanged |
| Service.CreateInsertsOneRecord | main.go:251-269 | for a URL no record holds, exactly one record `(code, url)` is appended and the answer is 200 with that code, URL and `domain/code` |
| Service.CreateReturnsExisting | main.go:253-280 | for a URL already stored, the store is unchanged and the answer is 400 "Code already exists" with the first such record's code and URL |
| Service.CreateOnStoreError | main.go:253-280 | a failed lookup by URL also answers "Code already exists", with an empty code and URL, and inserts nothing |
| Service.CreateHangsWhenProbeFinds | main.go:255-259 | if the generator's lookup does not report "no documents", the request is never answered and nothing is inserted |
| Service.CreateTwiceSameCode | main.go:251-280 | creating twice for the same URL returns the same code, the second time as "Code already exists", and leaves exactly one record for the URL |
| Service.CreateKeepsUrlsUnique | main.go:251-259 | if no two records share a URL before a create, none do after it |
| Service.Resolve | main.go:198-226 | a path is answered "not found" without lookup exactly when the fast reject fires; otherwise it redirects with 302 to the URL of a stored record with that code, or answers 404 "Code not found" with the code when none has it, or writes nothing when the lookup fails; it never changes the store |
| Service.HandleResolve | main.go:198-226 | the imperative handler's reply is that of `Resolve` |
| Service.GeneratedCodePassesPathFilter | main.go:199-204 | every generated code passes the path fast reject |
| Service.ResolveAfterCreate | main.go:206-225 | after creating `u` with a code no record held, resolving `/code` redirects to `u` |
| Service.ResolveAfterCreateWithTakenCode | main.go:161-162 | if the drawn code is already held by an earlier record, the create still answers 200 with that code, two records then hold it, and resolving it redirects to the earlier record's URL, which is not `u` |
| Service.RedirectTarget | main.go:76-79 | the target is `https://domain:httpsport` when the query is empty, and otherwise that address, a `?` and the raw query, with nothing else |
| Service.RedirectToHttps | main.go:75-82 | the plain-HTTP server answers with a 307 redirect to that target |
| Service.RedirectKeepsQuery | main.go:76-79 | if the domain and port contain no `?`, the target's query part is exactly the original raw query, and the target has a `?` exactly when that query is non-empty |

## Left out

- Startup: opening the log file, reading and parsing the configuration file. This is file I/O. The host configuration is a parameter.
- The database driver: client creation, connect and disconnect, the ten-second contexts, BSON filters and decoding. A lookup is a search of the collection's records. The `reachable` flag stands for every driver error other than "no documents".
- `log.Fatal` exits: a failed insert, or a failed connect, ends the process. The model's insert always succeeds.
- Logging calls, JSON marshalling and `omitempty`. The reply is a datatype whose empty strings and zero status stand for omitted fields.
- `http.Redirect`'s rewriting of relative locations, and the HTTP serving itself (`ListenAndServe`, TLS, routing). A resolve request is given as its path, which the server guarantees is non-empty.
- The distribution of `math/rand`. The random source is an oracle sequence of indices into the alphabet.
- Store.FindOne: the database returns the first match in its natural order, which is unspecified. The model takes insertion order, so `FindOneFirst` and the lemmas that name "the first such record" hold for that order only.
- The written response body: each handler writes the marshalled JSON with `fmt.Fprintf(rw, string(mar))`, so the JSON text is used as a format string. A `%` in it (a code `%s` from the path `/%25s`, say) is expanded by the formatter, for example to `%!s(MISSING)`. A `Json` reply is the response before that formatting.
- Concurrent requests and the goroutine that runs the plain-HTTP server. The model handles one request at a time.
- What BSON makes of the generator's filter on a rune slice. Its outcome is the input `probe`.
- `/api/search`: it only writes a fixed acknowledgement.
- Generator.GenerateCode: the retry loop never ends. It is modelled by its first `rounds` iterations, because a proof cannot run an unbounded loop.
