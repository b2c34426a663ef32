/** Short runs that show, end to end, how the client and the listener
    behave: a timed-out query is re-sent unchanged,
    a restarted feed asks for exactly what it asked for before, and a
    repeated revision is announced once. */
module Scenarios {
  import opened Wrappers
  import opened Text
  import opened Json
  import opened Http
  import opened CouchQuery
  import opened CouchClient
  import opened CouchListener

  /** A new query is issued, its timer runs out before any reply: the retry
      is byte-for-byte the first exchange, and both replies stay tracked. */
  method TimeoutThenRetry(c: CouchDB, q: CouchDBQuery)
    requires c.Valid() && q !in c.deleted && q.timeoutSlots == 0
    modifies c, q
    ensures |c.exchanges| == old(|c.exchanges|) + 2
    ensures c.exchanges[old(|c.exchanges|)] == c.exchanges[old(|c.exchanges|) + 1]
    ensures old(|c.exchanges|) in c.currentQueries && old(|c.exchanges|) + 1 in c.currentQueries
    ensures c.currentQueries[old(|c.exchanges|)] == q && c.currentQueries[old(|c.exchanges|) + 1] == q
    ensures c.emitted == old(c.emitted)
  {
    var first := c.ExecuteQuery(q);
    WithCredentialIdempotent(old(q.request), c.server.credential);
    c.TimerExpired(q);
  }

  /** The second expiry of the same query issues two more copies, because
      every execution adds one more connection to the timeout signal. All
      four exchanges are the first one again, and all four replies stay
      filed under the query. */
  method SecondTimeout(c: CouchDB, q: CouchDBQuery)
    requires c.Valid() && q !in c.deleted && q.timeoutSlots == 0
    modifies c, q
    ensures |c.exchanges| == old(|c.exchanges|) + 4
    ensures forall r | old(|c.exchanges|) <= r < |c.exchanges| ::
      c.exchanges[r] == c.exchanges[old(|c.exchanges|)]
    ensures forall r | old(|c.exchanges|) <= r < |c.exchanges| ::
      r in c.currentQueries && c.currentQueries[r] == q
    ensures q.timeoutSlots == 4
    ensures c.emitted == old(c.emitted)
  {
    var first := c.ExecuteQuery(q);
    WithCredentialIdempotent(old(q.request), c.server.credential);
    c.TimerExpired(q);
    c.TimerExpired(q);
  }

  /** The feed is opened, ends (with or without an error), and the retry
      timer brings it back: the new request equals the old one. */
  method FeedRestart(l: CouchDBListener)
    requires l.Valid()
    modifies l
    ensures |l.requests| == old(|l.requests|) + 2
    ensures l.requests[old(|l.requests|)] == l.requests[old(|l.requests|) + 1]
    ensures l.reply == Some(old(|l.requests|) + 1)
    ensures l.revisionsMap == old(l.revisionsMap) && !l.retryTimerActive
  {
    l.Start();
    var r := l.reply.value;
    l.ListenFinished(r);
    l.RetryTimerElapsed();
    ChangesRequestDetermined(l.requests[old(|l.requests|)], l.requests[old(|l.requests|) + 1],
                             l.server.BaseURL(), l.database, l.parameters, l.server.credential);
  }

  /** The same fragment, carrying revision "1-a" of the followed document,
      is read twice by a listener that has seen nothing yet: "1-a" is stored
      and announced exactly once. */
  method RepeatedFragment(l: CouchDBListener, fragment: Bytes, parse: Parser)
    requires l.Valid() && l.reply.Some? && l.documentID == "doc1" && l.revisionsMap == map[]
    requires parse(fragment) ==
      ObjectDocument(map["changes" := JArray([JObject(map["rev" := JString("1-a")])])])
    modifies l
    ensures l.revisionsMap == map["doc1" := "1-a"]
    ensures l.changesMade == old(l.changesMade) + ["1-a"]
  {
    l.ReadChanges(fragment, parse);
    l.ReadChanges(fragment, parse);
  }

  /** "1-a" twice for one document gives one announcement; "1-a" then
      "2-b" gives two. */
  lemma DeduplicationExamples()
    ensures Run(map[], [Change("doc1", "1-a"), Change("doc1", "1-a")]).1 == ["1-a"]
    ensures Run(map[], [Change("doc1", "1-a"), Change("doc1", "2-b")]).1 == ["1-a", "2-b"]
  {
    RunOneDocument(map[], "doc1", [Change("doc1", "1-a"), Change("doc1", "1-a")]);
    RunOneDocument(map[], "doc1", [Change("doc1", "1-a"), Change("doc1", "2-b")]);
  }
}
