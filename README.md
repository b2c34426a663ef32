# CouchDB Qt client — a Dafny model of the request tracker and the change listener

This project models the live core of a Qt client library for the CouchDB
HTTP API and proves properties of it:

- **CouchDB** (`couchdb.cpp`): the request tracker. It issues each query
  with the HTTP verb its operation needs, adds the Basic `Authorization`
  header when the server holds a credential, files the reply under its
  query, re-issues a query whose timer runs out, and turns a finished reply
  into exactly one signal carrying a response.
- **CouchDBResponse** (`couchdbresponse.cpp`): status, raw bytes, parsed
  document and a revision picked out of it.
- **CouchDBQuery** (`couchdbquery.cpp`): URL, operation, body and a 20 s
  single-shot timer.
- **CouchDBServer** (`couchdbserver.cpp`): host, port, base URL and the
  credential, which is Base64 (section 4 of RFC 4648) of the Latin-1 bytes of
  `user:password`.
- **CouchDBListener** (`couchdblistener.cpp`): the `_changes` feed. It sends
  its parameters in key order, announces each new revision once per document,
  and restarts 500 ms after every end of the feed.

The classes keep the source's form. Each is a Dafny `class` whose setters
state the new value of every field. The decisions the code makes are pure
functions next to the class (`MethodFor`, `SignalFor`, `ResponseFor`,
`DocumentAfter`, `RevisionAfter`, `ChangeOf`, `Record`).

- `SignalFor` is paired with its inverse `OperationFor`, Base64 encoding with
  `Base64.Decode`, and the decimal rendering with `Text.ParseDecimal`.
- The deduplicating stream is compared with the reference definition
  `Collapse`.
- The key-ordered parameter listing is proved unique (`InKeyOrderUnique`).
- `MethodFor`, `ResponseFor`, `DocumentAfter`, `RevisionAfter`, `ChangeOf`
  and `Record` have no partner function. Their `ensures` clauses state the
  result case by case, for every input.

The environment is modelled as follows:

- **Transport.** It is a log of exchanges. A reply handle is the index of its
  exchange, so every request gets a fresh handle.
- **Completion and timer expiry.** These are methods the environment calls:
  `QueryFinished`, `TimerExpired`, `ReadChanges`, `ListenFinished` and
  `RetryTimerElapsed`.
- **Signals.** Emitted signals are appended to a log.
- **JSON parser.** `QJsonDocument::fromJson` is a function parameter `parse`.
  Its result `NullDocument` stands for a failed parse.
- **Form encoding.** `QUrlQuery::toString(FullyEncoded)` in `startSession` is
  also a function parameter.

Qt connects a signal to a slot once per `connect` call. `executeQuery` calls
`connect(query, timeout(), queryTimeout())` on every execution, including the
retries. The model therefore counts these connections in
`CouchDBQuery.timeoutSlots`. `TimerExpired` runs the slot once per
connection, so the number of re-sent copies doubles on every expiry.
`Scenarios.SecondTimeout` shows this.

What the live code does not do:

- **The old reply stays tracked after a timeout.** A retry does not remove
  the previous reply. `currentQueries` can therefore hold several replies for
  one query, so no "one reply in flight per query" invariant is claimed.
- **No ok-field classification.** A response's status says only whether the
  transport failed. The `ok`-field checks live in a commented-out block.
- **No ETag stripping.** This also lives in the commented-out block.
- **Replication is not exempt from the timeout.** Replication queries are
  armed and retried like every other query.
- **No listener error notification.** The listener has no separate
  notification for error fragments. A fragment without `"changes"` is
  ignored.

## Model

| member | source | states |
|---|---|---|
| Text.Latin1Char | couchdbserver.cpp:63 | QString::toLatin1 of one character: one byte equal to the code point exactly when the character is Latin-1; otherwise one '?' per UTF-16 code unit (two above U+FFFF) |
| Text.Latin1 | couchdbserver.cpp:63 | toLatin1 of a string yields between one and two bytes per character |
| Text.Latin1OfLatin1Text | couchdbserver.cpp:63 | on Latin-1 text the conversion is byte-for-character, each byte the code point |
| Text.Latin1Append | couchdbserver.cpp:63 | conversion distributes over concatenation, so "user:password" converts as user, 0x3A, password |
| Text.DigitChar | couchdbserver.cpp:51 | a digit value becomes the digit character of that value |
| Text.NatDecimal | couchdbserver.cpp:51 | QString::number of a non-negative int is a non-empty digit string without leading zero (except "0") |
| Text.Decimal | couchdbserver.cpp:51 | QString::number of an int is digits, with a leading '-' only for negatives |
| Text.ParseNatDecimal | couchdbserver.cpp:51 | reading the digits back gives the number |
| Text.DecimalRoundTrip | couchdbserver.cpp:51 | the decimal rendering of every int reads back to the same int |
| Text.DecimalInjective | couchdbserver.cpp:51 | distinct ports render differently |
| Text.LessIrreflexive | couchdblistener.cpp:137-142 | QString key order: no key precedes itself |
| Text.LessTransitive | couchdblistener.cpp:137-142 | QString key order is transitive |
| Text.LessTotal | couchdblistener.cpp:137-142 | any two distinct keys are ordered one way |
| Text.LessAsymmetric | couchdblistener.cpp:137-142 | never both a < b and b < a |
| Text.LeastExists | couchdblistener.cpp:137-142 | every non-empty key set has a least key, which QMapIterator visits next |
| Base64.SextetChar | couchdbserver.cpp:63 | every 6-bit value maps into the RFC 4648 alphabet |
| Base64.CharSextet | couchdbserver.cpp:63 | every alphabet character maps to a 6-bit value |
| Base64.SextetRoundTrip | couchdbserver.cpp:63 | the alphabet mapping is inverted by CharSextet |
| Base64.EncodeGroup | couchdbserver.cpp:63 | three bytes encode to four characters |
| Base64.Encode | couchdbserver.cpp:63 | QByteArray::toBase64 output has length 4*ceil(n/3) and uses only the alphabet and '=' |
| Base64.DecodeGroup | couchdbserver.cpp:63 | a full quantum decodes to three bytes |
| Base64.DecodeFinal | couchdbserver.cpp:63 | a final, possibly padded quantum decodes to one to three bytes |
| Base64.GroupRoundTrip | couchdbserver.cpp:63 | a full quantum decodes back to its three bytes |
| Base64.OneByteRoundTrip | couchdbserver.cpp:63 | a one-byte tail with "==" padding decodes back |
| Base64.TwoBytesRoundTrip | couchdbserver.cpp:63 | a two-byte tail with "=" padding decodes back |
| Base64.ThreeBytesRoundTrip | couchdbserver.cpp:63 | a single unpadded group decodes back to its three bytes |
| Base64.DecodeLeadingGroup | couchdbserver.cpp:63 | a whole group in front of more text decodes independently of it |
| Base64.LeadingGroupRoundTrip | couchdbserver.cpp:63 | once the rest decodes back, so does the input with three more bytes in front |
| Base64.DecodeEncode | couchdbserver.cpp:63 | decoding the encoding of any byte string gives the string back |
| Base64.StandardTestVectors | couchdbserver.cpp:63 | the encoder gives the section 10 test vectors of RFC 4648, "f" to "Zg==" through "foobar" to "Zm9vYmFy" |
| Base64.EncodeInjective | couchdbserver.cpp:63 | distinct credentials encode differently |
| Http.WithCredential | couchdb.cpp:84 | with a credential the request gains exactly the header Authorization: Basic credential, URL, query and other headers untouched; without one it is unchanged |
| Http.WithCredentialIdempotent | couchdb.cpp:84 | setting the header again on a retry leaves the request as it was |
| CouchServer.BaseUrl | couchdbserver.cpp:48-52 | "http://" then the host, ':' and the decimal port, at those exact positions |
| CouchServer.NoColonInPort | couchdbserver.cpp:48-52 | no ':' follows the one that ends the host |
| CouchServer.BaseUrlInjective | couchdbserver.cpp:48-52 | the base URL determines host and port |
| CouchServer.CredentialForDecodes | couchdbserver.cpp:60-64 | the stored credential Base64-decodes to Latin-1 user, ':' and Latin-1 password |
| CouchServer.CredentialForNonEmpty | couchdbserver.cpp:63-70 | a credential is at least four characters, so hasCredential holds after setCredential |
| CouchServer.CouchDBServer.constructor | couchdbserver.cpp:6-9 | a new server is localhost, 5984, without a credential |
| CouchServer.CouchDBServer.SetUrl | couchdbserver.cpp:28-33 | url() returns the new host; port and credential untouched |
| CouchServer.CouchDBServer.SetPort | couchdbserver.cpp:41-46 | port() returns the new port; host and credential untouched |
| CouchServer.CouchDBServer.BaseURL | couchdbserver.cpp:48-52 | "http://", the host and ':' at fixed positions, then the port's decimal text, which reads back to the port |
| CouchServer.CouchDBServer.HasCredential | couchdbserver.cpp:66-70 | a credential is held exactly when executeQuery's header step adds an Authorization header |
| CouchServer.CouchDBServer.SetCredential | couchdbserver.cpp:60-64 | credential() is the Base64 of Latin-1 "user:password", hasCredential holds, host and port untouched |
| CouchQuery.CouchDBQuery.constructor | couchdbquery.cpp:26-36 | a new query has an empty request and body, no timer running, a 20000 ms single-shot timer, no timeout connection |
| CouchQuery.CouchDBQuery.SetUrl | couchdbquery.cpp:55-59 | url() returns the new URL; only the request URL changes |
| CouchQuery.CouchDBQuery.SetOperation | couchdbquery.cpp:67-71 | operation() returns the new operation; nothing else changes |
| CouchQuery.CouchDBQuery.SetBody | couchdbquery.cpp:79-83 | body() returns the new bytes; nothing else changes |
| CouchQuery.CouchDBQuery.SetRawHeader | couchdb.cpp:259-260 | request()->setRawHeader replaces that one header only |
| CouchQuery.CouchDBQuery.StartTimeoutTimer | couchdbquery.cpp:85-89 | the one timer is running afterwards; nothing else changes |
| CouchQuery.CouchDBQuery.TimerElapsed | couchdbquery.cpp:31-35 | a single-shot timer stops when it raises timeout() |
| CouchResponse.DocumentAfter | couchdbresponse.cpp:78-83 | the kept document is null exactly when the parse failed or was empty (isEmpty is the same test as isNull), so the parsed document is always kept, an empty object or array included |
| CouchResponse.RevisionAfter | couchdbresponse.cpp:86-89 | revisionData becomes the "revision" member's text when present, otherwise stays |
| CouchResponse.CouchDBResponse.constructor | couchdbresponse.cpp:9-12 | a new response has no query, status Error, empty revision and data, null document |
| CouchResponse.CouchDBResponse.SetQuery | couchdbresponse.cpp:38-42 | query() returns the new query; nothing else changes |
| CouchResponse.CouchDBResponse.SetStatus | couchdbresponse.cpp:50-54 | status() returns the new status; nothing else changes |
| CouchResponse.CouchDBResponse.SetRevisionData | couchdbresponse.cpp:62-66 | revisionData() returns the new text; nothing else changes |
| CouchResponse.CouchDBResponse.SetData | couchdbresponse.cpp:74-91 | data() is the bytes verbatim, document and revision follow DocumentAfter and RevisionAfter, status and query unchanged |
| CouchResponse.CouchDBResponse.DocumentObj | couchdbresponse.cpp:99-103 | the object view: the members of an object document, otherwise empty |
| CouchClient.MethodFor | couchdb.cpp:89-133 | PUT exactly for create-database, update-document and upload-attachment; DELETE exactly for the four removals; GET for all others, the default case included |
| CouchClient.ExchangeFor | couchdb.cpp:89-133 | only a PUT carries the query body |
| CouchClient.SignalFor | couchdb.cpp:169-222 | installationChecked exactly for check-installation and values outside the enumeration |
| CouchClient.OperationFor | couchdb.cpp:169-222 | every signal comes from one enumerated operation, so distinct enumerated operations raise distinct signals |
| CouchClient.SignalDeterminesOperation | couchdb.cpp:169-222 | the signal identifies the enumerated operation that finished |
| CouchClient.ResponseFor | couchdb.cpp:149-167 | status Error exactly on transport failure; data empty then, else the whole body; the document is the parse of that data and the revision is read from it, so neither is present after a failure |
| CouchClient.CouchDB.constructor | couchdb.cpp:37-45 | a new client owns a fresh default server and tracks nothing |
| CouchClient.CouchDB.SetServer | couchdb.cpp:63-70 | the server is replaced and owned; nothing else changes |
| CouchClient.CouchDB.SetServerConfiguration | couchdb.cpp:72-78 | host and port always set; credential set only when both user and password are non-empty |
| CouchClient.CouchDB.ExecuteQuery | couchdb.cpp:80-140 | one exchange with the operation's verb and the credential header; a fresh reply filed under the query, earlier entries unchanged; timer armed, one more timeout connection |
| CouchClient.CouchDB.QueryFinished | couchdb.cpp:142-225 | exactly that reply's entry removed; one signal chosen by the operation, carrying ResponseFor; the query destroyed |
| CouchClient.CouchDB.QueryTimeout | couchdb.cpp:227-235 | the same query is executed again; the earlier reply stays tracked and nothing is emitted |
| CouchClient.CouchDB.TimerExpired | couchdb.cpp:227-235 | the timer stops; timeout() runs queryTimeout once per connection made by executeQuery, each run sending one identical exchange, each reply filed under the query, no entry dropped, nothing emitted; the query's request afterwards is the one re-sent, so later expiries send it again; the connection count doubles; the rest of the client is unchanged |
| CouchClient.CouchDB.CheckInstallation | couchdb.cpp:237-246 | a fresh check-installation query GETs the base URL; the query holds that request and one timeout connection; the rest of the client is unchanged |
| CouchClient.CouchDB.StartSession | couchdb.cpp:248-264 | a fresh start-session query GETs base URL + "/_session" with the Accept and Content-Type headers; the form body is stored but not sent; the query holds that request and one timeout connection; the rest of the client is unchanged |
| CouchListener.ListedStep | couchdblistener.cpp:137-142 | visiting the least remaining key extends the ordered listing by one entry |
| CouchListener.SortedItems | couchdblistener.cpp:136-142 | the query items are all parameters, each once, in ascending key order |
| CouchListener.ListedStepCovers | couchdblistener.cpp:137-142 | after a step every visited key has its query item |
| CouchListener.InKeyOrderTail | couchdblistener.cpp:137-142 | after the first item the rest lists the remaining parameters in order |
| CouchListener.InKeyOrderEmpty | couchdblistener.cpp:137-142 | no items exactly when there are no parameters |
| CouchListener.InKeyOrderHead | couchdblistener.cpp:137-142 | the first item carries the least key |
| CouchListener.InKeyOrderSameHead | couchdblistener.cpp:137-142 | two ordered listings of one map start with the same item |
| CouchListener.InKeyOrderUnique | couchdblistener.cpp:137-142 | the ordered listing of a parameter map is unique |
| CouchListener.ChangesRequestDetermined | couchdblistener.cpp:132-156 | two starts with the same settings send the same request |
| CouchListener.ChangeOf | couchdblistener.cpp:165-168 | no change without "changes"; else the first change's "rev" ("" when the array is empty), filed under the listener's document ID or else the fragment's "id" |
| Json.First | couchdblistener.cpp:167 | QJsonArray::first: the first element, and for an empty array a value that reads as the empty object and "" |
| CouchListener.Record | couchdblistener.cpp:171-173 | afterwards the key holds the revision, no key is lost or added besides it, other keys keep their values; the map changes exactly when the revision differs |
| CouchListener.RunOneDocument | couchdblistener.cpp:158-175 | over a stream for one document, the announcements are exactly the revisions that differ from the one before |
| CouchListener.RunKeepsKeys | couchdblistener.cpp:171-173 | the revision map never loses a key and ends with the last revision seen |
| CouchListener.CollapseNoRepeats | couchdblistener.cpp:171-174 | no revision is announced twice in a row, nor one equal to the stored one |
| CouchListener.CouchDBListener.constructor | couchdblistener.cpp:48-66 | parameters are exactly filter, feed, heartbeat and timeout with their defaults; a 500 ms single-shot retry timer, idle |
| CouchListener.CouchDBListener.SetDatabase | couchdblistener.cpp:85-89 | database() returns the new name; nothing else changes |
| CouchListener.CouchDBListener.SetDocumentID | couchdblistener.cpp:97-102 | documentID() returns the id and parameter "name" is overwritten with it |
| CouchListener.CouchDBListener.SetParam | couchdblistener.cpp:120-124 | one parameter inserted or overwritten; the others stay |
| CouchListener.CouchDBListener.Revision | couchdblistener.cpp:104-112 | the stored revision of the id, or of the own document when the id is empty; "" when none |
| CouchListener.CouchDBListener.Launch | couchdblistener.cpp:126-130 | only the retry timer starts |
| CouchListener.CouchDBListener.Start | couchdblistener.cpp:132-156 | one request on base URL + "/" + database + "/_changes" with the parameters in key order, the four defaults always among them, and the credential header exactly when one is held; it becomes the current reply |
| CouchListener.CouchDBListener.RetryTimerElapsed | couchdblistener.cpp:57-60 | the single-shot retry timer stops and start() runs |
| CouchListener.CouchDBListener.ReadChanges | couchdblistener.cpp:158-175 | a fragment without "changes" changes nothing; a differing revision is stored and announced once; an equal one is dropped |
| CouchListener.CouchDBListener.ListenFinished | couchdblistener.cpp:177-204 | after any end of a feed the listener sent, error or not (an error is only logged), the retry timer starts; nothing else changes |
| Scenarios.TimeoutThenRetry | couchdb.cpp:227-235 | a query timing out before its reply is re-sent byte-for-byte, and both replies stay filed under it |
| Scenarios.SecondTimeout | couchdb.cpp:135 | each execution adds one more timeout connection, so the second expiry sends two more copies; all four exchanges are identical and all four replies are filed under the query |
| Scenarios.FeedRestart | couchdblistener.cpp:177-204 | after the feed ends and the retry timer fires, the same request is sent again and the revisions are kept |
| Scenarios.RepeatedFragment | couchdblistener.cpp:158-175 | a listener reading the same fragment with "1-a" twice stores it and announces it once |
| Scenarios.DeduplicationExamples | couchdblistener.cpp:171-174 | "1-a" twice announces once; "1-a" then "2-b" announces both |

## Left out

- Network I/O, real-time timers and signal/slot dispatch are not modelled as
  such. Replies, timer expiry and fragments are events the environment calls
  as methods, and signals are appended to a log.
- JSON parsing is not modelled: `QJsonDocument::fromJson` is a function
  parameter. `JNumber` holds a real number, not a double.
- QUrl parsing, normalisation and percent-encoding are not modelled. URLs are
  the strings the code builds.
- The form encoding of the session body (`QUrlQuery::toString`) is a function
  parameter.
- CouchQuery.CouchDBQuery.constructor: a new query's operation is left
  uninitialised by the source, so its value is indeterminate. The model
  starts it at OtherOperation, the value outside the enumeration that the
  `default:` branches of executeQuery and queryFinished catch (GET, then
  installationChecked).
- CouchClient.CouchDB.SetServer: the argument is never null, although the
  source accepts a null server. The source also deletes the old server first,
  even when it is the argument itself, which leaves a dangling server. The
  model simply replaces the reference and does not model that deletion.
- CouchResponse.DocumentAfter: relies on QJsonDocument::isEmpty being true
  only for a document that holds no data (the same test as isNull), which is
  how Qt 5 defines it. Qt itself is not part of this model.
- Text.Latin1Char: Qt documents characters outside Latin-1 as giving an
  undefined result from toLatin1 (suppressed or replaced by '?'). The model
  follows Qt 5's implementation, one '?' per UTF-16 code unit, not a
  documented guarantee.
- CouchListener.CouchDBListener.Start: the listener's request log records
  the request only, not the verb. The source always sends it with get.
- Text.Less: QString compares UTF-16 code units. The model compares
  characters, which differs only for characters above U+FFFF.
- The listener's `reply` is a handle into its request log. The aborted and
  deleted replies of the listener's destructor are not modelled.
- An empty or non-array `"changes"` member: `QJsonArray::first()` is
  `at(0)`, which Qt 5 documents as returning an Undefined value out of range.
  The model (`Json.First`) reads that value as `JNull`, which converts to the
  same empty object, so the revision is "". Qt itself is not part of this
  model.
- CouchClient.CouchDB.QueryFinished requires that the reply is tracked and
  that its query was not yet destroyed. An untracked reply would read a null
  query. When both the original and the retried reply of one query finish,
  the second would use a destroyed query. Neither behaviour is defined.
- CouchClient.ResponseFor requires that the parser rejects empty input. An
  error reply carries no bytes, so its document is null.
- `setCookieJar` (couchdblistener.cpp:114-118), `declareQML`, logging and
  memory management (`d_ptr`, `deleteLater`, destructors) are not modelled.
- The commented-out part of couchdb.cpp (from line 265 on) and all of
  couchdbchanges.cpp are dead code and are not modelled.
- Header files are not modelled. They only declare signatures, and some
  declarations (`secureConnection`, `endSession`, replication, listener
  creation) have no live definition.
