/** CouchDBListener: a continuous _changes feed for one database (and
    optionally one document). Each readable fragment may announce a new
    revision; a revision already seen for the same document is not announced
    again. Whenever the feed ends, with or without an error, the listener
    starts it again after a short single-shot delay. */
module CouchListener {
  import opened Text
  import opened Wrappers
  import opened Json
  import opened Http
  import opened CouchServer

  /** Milliseconds between the end of a feed and its restart. */
  const RetryInterval: nat := 500

  /** The parameters every new listener starts with. */
  const DefaultParameters: map<string, string> :=
    map["filter" := "app/docFilter", "feed" := "continuous",
        "heartbeat" := "10000", "timeout" := "60000"]

  // ---------------------------------------------------------------------------
  // The query of the _changes request: the parameter map in key order
  // ---------------------------------------------------------------------------

  /** The items list every entry of the map once, in ascending key order. */
  predicate InKeyOrder(items: seq<QueryItem>, m: map<string, string>) {
    && (forall i, j | 0 <= i < j < |items| :: Less(items[i].key, items[j].key))
    && (forall i | 0 <= i < |items| :: items[i].key in m && m[items[i].key] == items[i].value)
    && (forall k | k in m :: exists i :: 0 <= i < |items| && items[i].key == k)
  }

  /** Part way through the walk: the items list, in key order, exactly the
      entries whose keys are no longer in rest, and all of those keys are
      less than every key still in rest. */
  predicate Listed(items: seq<QueryItem>, rest: set<string>, m: map<string, string>) {
    && rest <= m.Keys
    && (forall i, j | 0 <= i < j < |items| :: Less(items[i].key, items[j].key))
    && (forall i | 0 <= i < |items| ::
          items[i].key in m && m[items[i].key] == items[i].value && items[i].key !in rest)
    && (forall i, k | 0 <= i < |items| && k in rest :: Less(items[i].key, k))
    && (forall k | k in m && k !in rest :: exists i :: 0 <= i < |items| && items[i].key == k)
  }

  /** Taking the least remaining key extends the listing by one entry. */
  lemma ListedStep(items: seq<QueryItem>, rest: set<string>, m: map<string, string>, k: string)
    requires Listed(items, rest, m) && IsLeast(k, rest)
    ensures Listed(items + [QueryItem(k, m[k])], rest - {k}, m)
  {
    var items' := items + [QueryItem(k, m[k])];
    var rest' := rest - {k};
    ListedStepCovers(items, rest, m, k);
    assert forall i | 0 <= i < |items| :: items'[i] == items[i];
  }

  /** After the step every key outside the remaining set has its item. */
  lemma ListedStepCovers(items: seq<QueryItem>, rest: set<string>, m: map<string, string>, k: string)
    requires Listed(items, rest, m) && k in rest
    ensures forall k' | k' in m && k' !in rest - {k} ::
      exists i :: 0 <= i < |items| + 1 && (items + [QueryItem(k, m[k])])[i].key == k'
  {
    var items' := items + [QueryItem(k, m[k])];
    forall k' | k' in m && k' !in rest - {k}
      ensures exists i :: 0 <= i < |items'| && items'[i].key == k'
    {
      if k' == k {
        assert items'[|items|].key == k';
      } else {
        var i :| 0 <= i < |items| && items[i].key == k';
        assert items'[i].key == k';
      }
    }
  }

  /** Walks the parameter map as a QMapIterator does, least key first,
      adding one query item per entry. */
  method SortedItems(m: map<string, string>) returns (items: seq<QueryItem>)
    ensures InKeyOrder(items, m)
  {
    items := [];
    var rest := m.Keys;
    while rest != {}
      invariant Listed(items, rest, m)
      decreases |rest|
    {
      LeastExists(rest);
      var k :| IsLeast(k, rest);
      ListedStep(items, rest, m, k);
      items := items + [QueryItem(k, m[k])];
      rest := rest - {k};
    }
  }

  /** Dropping the first item leaves the rest of the map in key order. */
  lemma InKeyOrderTail(items: seq<QueryItem>, m: map<string, string>)
    requires InKeyOrder(items, m) && |items| > 0
    ensures InKeyOrder(items[1..], m - {items[0].key})
  {
    var k0 := items[0].key;
    var tail := items[1..];
    forall i | 0 <= i < |tail|
      ensures tail[i].key != k0
    {
      LessIrreflexive(k0);
      assert Less(k0, items[i + 1].key);
    }
    forall k | k in m - {k0}
      ensures exists i :: 0 <= i < |tail| && tail[i].key == k
    {
      var i :| 0 <= i < |items| && items[i].key == k;
      assert tail[i - 1].key == k;
    }
  }

  /** Only the empty map is listed by no items. */
  lemma InKeyOrderEmpty(items: seq<QueryItem>, m: map<string, string>)
    requires InKeyOrder(items, m)
    ensures |items| == 0 <==> m.Keys == {}
  {
    if |items| > 0 {
      assert items[0].key in m.Keys;
    }
  }

  /** The first item holds the least key of the map. */
  lemma InKeyOrderHead(items: seq<QueryItem>, m: map<string, string>)
    requires InKeyOrder(items, m) && |items| > 0
    ensures IsLeast(items[0].key, m.Keys)
  {
    forall k | k in m
      ensures k == items[0].key || Less(items[0].key, k)
    {
      var i :| 0 <= i < |items| && items[i].key == k;
      if i > 0 {
        assert Less(items[0].key, items[i].key);
      }
    }
  }

  /** Two listings of one map in key order start with the same item. */
  lemma InKeyOrderSameHead(a: seq<QueryItem>, b: seq<QueryItem>, m: map<string, string>)
    requires InKeyOrder(a, m) && InKeyOrder(b, m) && |a| > 0 && |b| > 0
    ensures a[0] == b[0]
  {
    InKeyOrderHead(a, m);
    InKeyOrderHead(b, m);
    var ka, kb := a[0].key, b[0].key;
    LessTotal(ka, kb);
    if Less(ka, kb) {
      LessAsymmetric(ka, kb);
    }
    assert ka == kb;
  }

  /** A map has exactly one listing in key order, so the query is a function
      of the parameters alone. */
  lemma {:induction false} InKeyOrderUnique(a: seq<QueryItem>, b: seq<QueryItem>, m: map<string, string>)
    requires InKeyOrder(a, m) && InKeyOrder(b, m)
    ensures a == b
    decreases |a|
  {
    InKeyOrderEmpty(a, m);
    InKeyOrderEmpty(b, m);
    if |a| > 0 && |b| > 0 {
      InKeyOrderSameHead(a, b, m);
      var rest := m - {a[0].key};
      InKeyOrderTail(a, m);
      InKeyOrderTail(b, m);
      InKeyOrderUnique(a[1..], b[1..], rest);
      SameHeadSameTail(a, b);
    }
  }

  lemma SameHeadSameTail(a: seq<QueryItem>, b: seq<QueryItem>)
    requires |a| > 0 && |b| > 0 && a[0] == b[0] && a[1..] == b[1..]
    ensures a == b
  {
    assert a == [a[0]] + a[1..] && b == [b[0]] + b[1..];
  }

  /** The request start() sends: base URL, database and "/_changes", the
      parameters as query items in key order, and a Basic Authorization
      header exactly when the server has a credential. */
  predicate IsChangesRequest(r: Request, baseUrl: string, database: string,
                             parameters: map<string, string>, credential: string)
  {
    && r.url == baseUrl + "/" + database + "/_changes"
    && InKeyOrder(r.query, parameters)
    && r.headers == (if credential != "" then map["Authorization" := "Basic " + credential] else map[])
  }

  /** A restart with unchanged settings sends exactly the same request. */
  lemma ChangesRequestDetermined(r: Request, r': Request, baseUrl: string, database: string,
                                 parameters: map<string, string>, credential: string)
    requires IsChangesRequest(r, baseUrl, database, parameters, credential)
    requires IsChangesRequest(r', baseUrl, database, parameters, credential)
    ensures r == r'
  {
    InKeyOrderUnique(r.query, r'.query, parameters);
  }

  // ---------------------------------------------------------------------------
  // Reading changes: which revision a fragment announces, and deduplication
  // ---------------------------------------------------------------------------

  /** A document revision announced by the feed. */
  datatype Change = Change(key: string, revision: string)

  /** The change a parsed fragment announces: none without a "changes"
      member; otherwise the "rev" of the first change, filed under the
      listener's document ID when it has one, else under the fragment's
      "id". An empty "changes" array has no first change, so its revision
      reads as "". */
  function ChangeOf(doc: JsonDocument, documentID: string): (c: Option<Change>)
    ensures c.None? <==> "changes" !in ObjectView(doc)
    ensures c.Some? && documentID != "" ==> c.value.key == documentID
    ensures c.Some? && documentID == "" ==> c.value.key == StringMember(ObjectView(doc), "id")
    ensures c.Some? && |ArrayOf(ObjectView(doc)["changes"])| > 0 ==>
      c.value.revision == StringMember(ObjectOf(ArrayOf(ObjectView(doc)["changes"])[0]), "rev")
    ensures c.Some? && |ArrayOf(ObjectView(doc)["changes"])| == 0 ==> c.value.revision == ""
  {
    var obj := ObjectView(doc);
    if "changes" !in obj then None
    else
      var revision := StringMember(ObjectOf(First(ArrayOf(obj["changes"]))), "rev");
      var docID := if documentID == "" then StringMember(obj, "id") else documentID;
      Some(Change(docID, revision))
  }

  /** QMap::value: the stored revision, "" for an unknown key. */
  function Stored(revisions: map<string, string>, key: string): string {
    if key in revisions then revisions[key] else ""
  }

  /** A change is announced exactly when it differs from what is stored. */
  predicate Announces(revisions: map<string, string>, c: Change) {
    Stored(revisions, c.key) != c.revision
  }

  /** The revisions after a change has been read. */
  function Record(revisions: map<string, string>, c: Change): (r: map<string, string>)
    ensures Stored(r, c.key) == c.revision
    ensures revisions.Keys <= r.Keys && r.Keys <= revisions.Keys + {c.key}
    ensures forall k | k in revisions && k != c.key :: r[k] == revisions[k]
    ensures r == revisions <==> !Announces(revisions, c)
  {
    if Announces(revisions, c) then revisions[c.key := c.revision] else revisions
  }

  /** The readChanges state machine run over a stream of changes: the final
      revisions and the revisions announced, in order. */
  function Run(revisions: map<string, string>, cs: seq<Change>): (map<string, string>, seq<string>)
    decreases |cs|
  {
    if cs == [] then (revisions, [])
    else
      var next := Record(revisions, cs[0]);
      var (final, notes) := Run(next, cs[1..]);
      (final, (if Announces(revisions, cs[0]) then [cs[0].revision] else []) + notes)
  }

  /** Reference for one document: the revisions that differ from the one
      before them (the first compared with what was stored). */
  function Collapse(last: string, cs: seq<Change>): (notes: seq<string>)
    decreases |cs|
  {
    if cs == [] then []
    else (if cs[0].revision == last then [] else [cs[0].revision]) + Collapse(cs[0].revision, cs[1..])
  }

  /** For a stream about one document, the listener announces exactly the
      revisions that differ from the one before. */
  lemma {:induction false} RunOneDocument(revisions: map<string, string>, key: string, cs: seq<Change>)
    requires forall i | 0 <= i < |cs| :: cs[i].key == key
    ensures Run(revisions, cs).1 == Collapse(Stored(revisions, key), cs)
    decreases |cs|
  {
    if cs != [] {
      RunOneDocument(Record(revisions, cs[0]), key, cs[1..]);
    }
  }

  /** Reading never forgets a document, and what is stored afterwards for a
      document is the last revision the stream gave it. */
  lemma {:induction false} RunKeepsKeys(revisions: map<string, string>, cs: seq<Change>)
    ensures revisions.Keys <= Run(revisions, cs).0.Keys
    ensures |cs| > 0 ==> Stored(Run(revisions, cs).0, cs[|cs| - 1].key) == cs[|cs| - 1].revision
    decreases |cs|
  {
    if cs != [] {
      RunKeepsKeys(Record(revisions, cs[0]), cs[1..]);
      if |cs| > 1 {
        assert cs[1..][|cs[1..]| - 1] == cs[|cs| - 1];
      }
    }
  }

  /** No revision is announced twice in a row, and the first one differs from
      what was stored. */
  lemma {:induction false} CollapseNoRepeats(last: string, cs: seq<Change>)
    ensures var notes := Collapse(last, cs);
      && (|notes| > 0 ==> notes[0] != last)
      && forall i | 0 <= i < |notes| - 1 :: notes[i] != notes[i + 1]
    decreases |cs|
  {
    if cs != [] {
      CollapseNoRepeats(cs[0].revision, cs[1..]);
    }
  }

  // ---------------------------------------------------------------------------
  // The listener
  // ---------------------------------------------------------------------------

  class CouchDBListener {
    const server: CouchDBServer
    var database: string
    var documentID: string
    /** The reply of the latest _changes request, if any. */
    var reply: Option<Reply>
    /** Whether the single-shot retry timer is running. */
    var retryTimerActive: bool
    const retryInterval: nat
    const retrySingleShot: bool
    var parameters: map<string, string>
    /** The last revision announced per document. */
    var revisionsMap: map<string, string>
    /** Every request sent by the listener (all of them with get); a reply
        handle is its index. */
    var requests: seq<Request>
    /** Every changesMade(revision) emitted, in order. */
    var changesMade: seq<string>

    /** Parameters are only ever inserted or overwritten, so the defaults
        are always among them. */
    ghost predicate Valid()
      reads this
    {
      DefaultParameters.Keys <= parameters.Keys
    }

    constructor (s: CouchDBServer)
      ensures Valid() && server == s
      ensures parameters == DefaultParameters && revisionsMap == map[]
      ensures database == "" && documentID == "" && reply == None
      ensures !retryTimerActive && retryInterval == RetryInterval && retrySingleShot
      ensures requests == [] && changesMade == []
    {
      server := s;
      database := "";
      documentID := "";
      reply := None;
      retryTimerActive := false;
      retryInterval := RetryInterval;
      retrySingleShot := true;
      parameters := DefaultParameters;
      revisionsMap := map[];
      requests := [];
      changesMade := [];
    }

    function Database(): string
      reads this
    {
      database
    }

    method SetDatabase(db: string)
      requires Valid()
      modifies this
      ensures Valid() && Database() == db
      ensures documentID == old(documentID) && parameters == old(parameters)
      ensures revisionsMap == old(revisionsMap) && reply == old(reply)
      ensures retryTimerActive == old(retryTimerActive)
      ensures requests == old(requests) && changesMade == old(changesMade)
    {
      database := db;
    }

    function DocumentID(): string
      reads this
    {
      documentID
    }

    /** Sets the document and the "name" parameter to it. */
    method SetDocumentID(id: string)
      requires Valid()
      modifies this
      ensures Valid() && DocumentID() == id
      ensures parameters == old(parameters)["name" := id]
      ensures database == old(database) && revisionsMap == old(revisionsMap) && reply == old(reply)
      ensures retryTimerActive == old(retryTimerActive)
      ensures requests == old(requests) && changesMade == old(changesMade)
    {
      documentID := id;
      parameters := parameters["name" := documentID];
    }

    /** Inserts or overwrites one parameter; no parameter is ever removed. */
    method SetParam(name: string, value: string)
      requires Valid()
      modifies this
      ensures Valid()
      ensures parameters == old(parameters)[name := value]
      ensures old(parameters).Keys <= parameters.Keys
      ensures database == old(database) && documentID == old(documentID)
      ensures revisionsMap == old(revisionsMap) && reply == old(reply)
      ensures retryTimerActive == old(retryTimerActive)
      ensures requests == old(requests) && changesMade == old(changesMade)
    {
      parameters := parameters[name := value];
    }

    /** The last revision seen for a document, the listener's own document
        when the argument is empty; "" when none was seen. */
    function Revision(id: string): (r: string)
      reads this
      ensures id != "" ==> r == Stored(revisionsMap, id)
      ensures id == "" ==> r == Stored(revisionsMap, documentID)
    {
      var docID := if id != "" then id else documentID;
      if docID in revisionsMap then revisionsMap[docID] else ""
    }

    /** launch() only starts the retry timer. */
    method Launch()
      requires Valid()
      modifies this
      ensures Valid() && retryTimerActive
      ensures database == old(database) && documentID == old(documentID)
      ensures parameters == old(parameters) && revisionsMap == old(revisionsMap)
      ensures reply == old(reply) && requests == old(requests) && changesMade == old(changesMade)
    {
      retryTimerActive := true;
    }

    /** Opens the feed: a request on the _changes URL of the database, which
        the source issues with get. */
    method Start()
      requires Valid()
      modifies this
      ensures Valid()
      ensures |requests| == old(|requests|) + 1 && requests[..old(|requests|)] == old(requests)
      ensures IsChangesRequest(requests[old(|requests|)], server.BaseURL(), database,
                               parameters, server.credential)
      ensures forall k | k in DefaultParameters ::
        exists i :: 0 <= i < |requests[old(|requests|)].query| && requests[old(|requests|)].query[i].key == k
      ensures reply == Some(old(|requests|))
      ensures database == old(database) && documentID == old(documentID)
      ensures parameters == old(parameters) && revisionsMap == old(revisionsMap)
      ensures retryTimerActive == old(retryTimerActive) && changesMade == old(changesMade)
    {
      var items := SortedItems(parameters);
      var url := server.BaseURL() + "/" + database + "/_changes";
      var request := Request(url, items, map[]);
      if server.HasCredential() {
        request := request.(headers := request.headers["Authorization" := "Basic " + server.Credential()]);
      }
      reply := Some(|requests|);
      requests := requests + [request];
    }

    /** The retry timer runs out: being single-shot it stops, and start()
        runs. */
    method RetryTimerElapsed()
      requires Valid() && retryTimerActive
      modifies this
      ensures Valid() && !retryTimerActive
      ensures |requests| == old(|requests|) + 1 && requests[..old(|requests|)] == old(requests)
      ensures IsChangesRequest(requests[old(|requests|)], server.BaseURL(), database,
                               parameters, server.credential)
      ensures reply == Some(old(|requests|))
      ensures database == old(database) && documentID == old(documentID)
      ensures parameters == old(parameters) && revisionsMap == old(revisionsMap)
      ensures changesMade == old(changesMade)
    {
      retryTimerActive := false;
      Start();
    }

    /** A fragment arrived on the feed. Without "changes" nothing happens;
        otherwise a revision differing from the stored one (absent counts
        as "") is stored and announced once, and an equal one is dropped.
        An empty "changes" array yields the revision "". */
    method ReadChanges(fragment: Bytes, parse: Parser)
      requires Valid() && reply.Some?
      modifies this
      ensures Valid()
      ensures var c := ChangeOf(parse(fragment), documentID);
        && (c.None? ==> revisionsMap == old(revisionsMap) && changesMade == old(changesMade))
        && (c.Some? ==> revisionsMap == Record(old(revisionsMap), c.value))
        && (c.Some? && Announces(old(revisionsMap), c.value) ==>
              changesMade == old(changesMade) + [c.value.revision])
        && (c.Some? && !Announces(old(revisionsMap), c.value) ==> changesMade == old(changesMade))
      ensures old(revisionsMap).Keys <= revisionsMap.Keys
      ensures database == old(database) && documentID == old(documentID)
      ensures parameters == old(parameters) && reply == old(reply)
      ensures retryTimerActive == old(retryTimerActive) && requests == old(requests)
    {
      var document := parse(fragment);
      var obj := ObjectView(document);
      if "changes" !in obj {
        return;
      }
      var revision := StringMember(ObjectOf(First(ArrayOf(obj["changes"]))), "rev");
      var docID := if documentID == "" then StringMember(obj, "id") else documentID;
      if Stored(revisionsMap, docID) == revision {
        return;
      }
      revisionsMap := revisionsMap[docID := revision];
      changesMade := changesMade + [revision];
    }

    /** A feed this listener sent ended. A transport error is only logged, so
        with or without one the retry timer starts and nothing else changes. */
    method ListenFinished(finished: Reply)
      requires Valid() && finished < |requests|
      modifies this
      ensures Valid() && retryTimerActive
      ensures database == old(database) && documentID == old(documentID)
      ensures parameters == old(parameters) && revisionsMap == old(revisionsMap)
      ensures reply == old(reply) && requests == old(requests) && changesMade == old(changesMade)
    {
      retryTimerActive := true;
    }
  }
}
