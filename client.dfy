/** CouchDB: issues each query over the network, remembers which reply
    belongs to which query, re-issues a query whose timer runs out, and turns
    each finished reply into exactly one signal carrying a CouchDBResponse. */
module CouchClient {
  import opened Text
  import opened Json
  import opened Http
  import opened CouchServer
  import opened CouchQuery
  import opened CouchResponse

  /** The signals of CouchDB, one per operation. */
  datatype Signal =
    | InstallationChecked
    | SessionStarted
    | SessionEnded
    | DatabasesListed
    | DatabaseCreated
    | DatabaseDeleted
    | DocumentsListed
    | RevisionRetrieved
    | DocumentRetrieved
    | DocumentUpdated
    | DocumentDeleted
    | AttachmentUploaded
    | AttachmentDeleted
    | DatabaseReplicated

  /** One emitted signal with the response it carried. */
  datatype Emission = Emission(signal: Signal, response: ResponseValue)

  /** The verb executeQuery uses: PUT for the three operations that upload a
      body, DELETE for the four removals, GET for everything else. */
  function MethodFor(op: Operation): (m: Method)
    ensures m == Put <==> op in {CreateDatabase, UpdateDocument, UploadAttachment}
    ensures m == Delete <==> op in {EndSession, DeleteDatabase, DeleteDocument, DeleteAttachment}
    ensures m == Get <==> op in {CheckInstallation, StartSession, ListDatabases, ListDocuments,
                                 RetrieveRevision, RetrieveDocument, ReplicateDatabase, OtherOperation}
  {
    match op
    case CheckInstallation => Get
    case StartSession => Get
    case EndSession => Delete
    case ListDatabases => Get
    case CreateDatabase => Put
    case DeleteDatabase => Delete
    case ListDocuments => Get
    case RetrieveRevision => Get
    case RetrieveDocument => Get
    case UpdateDocument => Put
    case DeleteDocument => Delete
    case UploadAttachment => Put
    case DeleteAttachment => Delete
    case ReplicateDatabase => Get
    case OtherOperation => Get
  }

  /** What the network manager is handed for a query: only a PUT carries the
      query's body. */
  function ExchangeFor(op: Operation, request: Request, body: Bytes): (x: Exchange)
    ensures x.verb == MethodFor(op) && x.request == request
    ensures x.payload == (if op in {CreateDatabase, UpdateDocument, UploadAttachment} then body else [])
  {
    var m := MethodFor(op);
    Exchange(m, request, if m == Put then body else [])
  }

  /** The signal queryFinished emits; values outside the enumeration reach
      installationChecked through the `default:` branch. */
  function SignalFor(op: Operation): (s: Signal)
    ensures s == InstallationChecked <==> op == CheckInstallation || op == OtherOperation
  {
    match op
    case CheckInstallation => InstallationChecked
    case StartSession => SessionStarted
    case EndSession => SessionEnded
    case ListDatabases => DatabasesListed
    case CreateDatabase => DatabaseCreated
    case DeleteDatabase => DatabaseDeleted
    case ListDocuments => DocumentsListed
    case RetrieveRevision => RevisionRetrieved
    case RetrieveDocument => DocumentRetrieved
    case UpdateDocument => DocumentUpdated
    case DeleteDocument => DocumentDeleted
    case UploadAttachment => AttachmentUploaded
    case DeleteAttachment => AttachmentDeleted
    case ReplicateDatabase => DatabaseReplicated
    case OtherOperation => InstallationChecked
  }

  /** The operation each signal reports on: the inverse of SignalFor on the
      enumerated operations, so a receiver can tell which call finished. */
  function OperationFor(s: Signal): (op: Operation)
    ensures SignalFor(op) == s && op != OtherOperation
  {
    match s
    case InstallationChecked => CheckInstallation
    case SessionStarted => StartSession
    case SessionEnded => EndSession
    case DatabasesListed => ListDatabases
    case DatabaseCreated => CreateDatabase
    case DatabaseDeleted => DeleteDatabase
    case DocumentsListed => ListDocuments
    case RevisionRetrieved => RetrieveRevision
    case DocumentRetrieved => RetrieveDocument
    case DocumentUpdated => UpdateDocument
    case DocumentDeleted => DeleteDocument
    case AttachmentUploaded => UploadAttachment
    case AttachmentDeleted => DeleteAttachment
    case DatabaseReplicated => ReplicateDatabase
  }

  /** Distinct enumerated operations raise distinct signals. */
  lemma SignalDeterminesOperation(op: Operation)
    requires op != OtherOperation
    ensures OperationFor(SignalFor(op)) == op
  {
  }

  /** The response queryFinished emits: a fresh response given the reply's
      bytes (none after a transport error), then its status. */
  function ResponseFor(result: ReplyResult, parse: Parser): (r: ResponseValue)
    requires RejectsEmptyInput(parse)
    ensures r.query == null
    ensures r.status == Error <==> result.Failed?
    ensures r.data == (if result.Failed? then [] else result.body)
    ensures result.Failed? ==> r.document == NullDocument && r.revisionData == ""
    ensures r.revisionData != "" ==> "revision" in ObjectView(parse(r.data))
    ensures r.document != NullDocument ==> r.document == parse(r.data)
    ensures r.document == parse(r.data)
    ensures r.revisionData == RevisionAfter(parse(r.data), "")
  {
    var data := if result.Failed? then [] else result.body;
    var parsed := parse(data);
    ResponseValue(null, if result.Failed? then Error else Success,
                  RevisionAfter(parsed, ""), data, DocumentAfter(parsed))
  }

  class CouchDB {
    var server: CouchDBServer
    var cleanServerOnQuit: bool
    /** currentQueries: the query each outstanding reply belongs to. */
    var currentQueries: map<Reply, CouchDBQuery>
    /** Every call made on the network manager; a reply handle is the index
        of its exchange. */
    var exchanges: seq<Exchange>
    /** Every signal emitted, in order. */
    var emitted: seq<Emission>
    /** Queries already destroyed by queryFinished. */
    ghost var deleted: set<CouchDBQuery>

    ghost predicate Valid()
      reads this
    {
      forall r | r in currentQueries :: r < |exchanges|
    }

    constructor ()
      ensures Valid() && fresh(server)
      ensures server.url == DefaultUrl && server.port == DefaultPort && server.credential == ""
      ensures cleanServerOnQuit && currentQueries == map[]
      ensures exchanges == [] && emitted == [] && deleted == {}
    {
      server := new CouchDBServer();
      cleanServerOnQuit := true;
      currentQueries := map[];
      exchanges := [];
      emitted := [];
      deleted := {};
    }

    /** Replaces the server (the previous one is destroyed). */
    method SetServer(s: CouchDBServer)
      modifies this
      ensures server == s && cleanServerOnQuit
      ensures currentQueries == old(currentQueries) && exchanges == old(exchanges)
      ensures emitted == old(emitted) && deleted == old(deleted)
    {
      server := s;
      cleanServerOnQuit := true;
    }

    /** Always sets host and port; sets the credential only when both user
        name and password are non-empty. */
    method SetServerConfiguration(url: string, port: Int32, username: string, password: string)
      modifies server
      ensures server.url == url && server.port == port
      ensures server.credential ==
        if username != "" && password != "" then CredentialFor(username, password)
        else old(server.credential)
    {
      server.SetUrl(url);
      server.SetPort(port);
      if username != "" && password != "" {
        server.SetCredential(username, password);
      }
    }

    /** Adds the Authorization header when the server has a credential,
        issues the request with the operation's verb, connects the query's
        timeout once more, arms its timer and files the new reply under the
        query. Earlier entries stay as they were. */
    method ExecuteQuery(q: CouchDBQuery) returns (reply: Reply)
      requires Valid() && q !in deleted
      modifies this, q
      ensures Valid()
      ensures reply == old(|exchanges|)
      ensures q.request == WithCredential(old(q.request), server.credential)
      ensures exchanges == old(exchanges) + [ExchangeFor(q.operation, q.request, q.body)]
      ensures currentQueries == old(currentQueries)[reply := q]
      ensures reply !in old(currentQueries)
      ensures q.timerActive && q.timeoutSlots == old(q.timeoutSlots) + 1
      ensures q.operation == old(q.operation) && q.body == old(q.body)
      ensures server == old(server) && cleanServerOnQuit == old(cleanServerOnQuit)
      ensures emitted == old(emitted) && deleted == old(deleted)
    {
      if server.HasCredential() {
        q.SetRawHeader("Authorization", "Basic " + server.Credential());
      }
      var verb := MethodFor(q.Operation());
      reply := |exchanges|;
      exchanges := exchanges + [Exchange(verb, q.request, if verb == Put then q.Body() else [])];
      q.timeoutSlots := q.timeoutSlots + 1;
      q.StartTimeoutTimer();
      currentQueries := currentQueries[reply := q];
    }

    /** A tracked reply finished: its entry is removed (and no other), and
        one signal, chosen by the query's operation alone, carries a response
        whose status says only whether the transport failed. The query is
        destroyed. */
    method QueryFinished(reply: Reply, result: ReplyResult, parse: Parser)
      requires Valid() && reply in currentQueries && currentQueries[reply] !in deleted
      requires RejectsEmptyInput(parse)
      modifies this
      ensures Valid()
      ensures currentQueries == old(currentQueries) - {reply}
      ensures emitted == old(emitted)
        + [Emission(SignalFor(old(currentQueries[reply].operation)), ResponseFor(result, parse))]
      ensures deleted == old(deleted) + {old(currentQueries[reply])}
      ensures exchanges == old(exchanges) && server == old(server)
      ensures cleanServerOnQuit == old(cleanServerOnQuit)
    {
      var q := currentQueries[reply];
      var data: Bytes := [];
      var hasError := false;
      if result.Received? {
        data := result.body;
      } else {
        hasError := true;
      }
      currentQueries := currentQueries - {reply};

      var response := new CouchDBResponse();
      response.SetData(data, parse);
      response.SetStatus(if hasError then Error else Success);
      emitted := emitted + [Emission(SignalFor(q.Operation()), response.Value())];
      deleted := deleted + {q};
    }

    /** The queryTimeout slot: issues the very same query again. The earlier
        reply stays tracked and nothing is reported. */
    method QueryTimeout(q: CouchDBQuery)
      requires Valid() && q !in deleted
      modifies this, q
      ensures Valid()
      ensures q.request == WithCredential(old(q.request), server.credential)
      ensures exchanges == old(exchanges) + [ExchangeFor(q.operation, q.request, q.body)]
      ensures currentQueries == old(currentQueries)[old(|exchanges|) := q]
      ensures q.timerActive && q.timeoutSlots == old(q.timeoutSlots) + 1
      ensures q.operation == old(q.operation) && q.body == old(q.body)
      ensures server == old(server) && cleanServerOnQuit == old(cleanServerOnQuit)
      ensures emitted == old(emitted) && deleted == old(deleted)
    {
      var _ := ExecuteQuery(q);
    }

    /** The query's timer runs out: the timer stops, then timeout() runs the
        queryTimeout slot once per connection. Every run issues the same
        exchange again; no earlier reply is dropped and no retry limit
        applies. Each run also adds a connection, so the count doubles. */
    method TimerExpired(q: CouchDBQuery)
      requires Valid() && q !in deleted && q.timerActive
      modifies this, q
      ensures Valid()
      ensures var x := ExchangeFor(q.operation, WithCredential(old(q.request), server.credential), q.body);
        && |exchanges| == old(|exchanges|) + old(q.timeoutSlots)
        && exchanges[..old(|exchanges|)] == old(exchanges)
        && forall r | old(|exchanges|) <= r < |exchanges| :: exchanges[r] == x
      ensures forall r :: r in currentQueries <==> r in old(currentQueries) || old(|exchanges|) <= r < |exchanges|
      ensures forall r | r in currentQueries ::
        currentQueries[r] == if r < old(|exchanges|) then old(currentQueries[r]) else q
      ensures q.request ==
        if old(q.timeoutSlots) > 0 then WithCredential(old(q.request), server.credential) else old(q.request)
      ensures q.timeoutSlots == 2 * old(q.timeoutSlots)
      ensures q.timerActive <==> old(q.timeoutSlots) > 0
      ensures q.operation == old(q.operation) && q.body == old(q.body)
      ensures server == old(server) && cleanServerOnQuit == old(cleanServerOnQuit)
      ensures emitted == old(emitted) && deleted == old(deleted)
    {
      q.TimerElapsed();
      var slots := q.timeoutSlots;
      ghost var start := |exchanges|;
      ghost var x := ExchangeFor(q.operation, WithCredential(q.request, server.credential), q.body);
      WithCredentialIdempotent(q.request, server.credential);
      var i := 0;
      while i < slots
        invariant 0 <= i <= slots
        invariant Valid() && q !in deleted
        invariant server == old(server) && emitted == old(emitted) && deleted == old(deleted)
        invariant cleanServerOnQuit == old(cleanServerOnQuit)
        invariant q.operation == old(q.operation) && q.body == old(q.body)
        invariant q.request == if i > 0 then x.request else old(q.request)
        invariant q.timeoutSlots == slots + i
        invariant q.timerActive <==> i > 0
        invariant WithCredential(q.request, server.credential) == x.request
        invariant |exchanges| == start + i && exchanges[..start] == old(exchanges)
        invariant forall r | start <= r < |exchanges| :: exchanges[r] == x
        invariant forall r :: r in currentQueries <==> r in old(currentQueries) || start <= r < |exchanges|
        invariant forall r | r in currentQueries ::
          currentQueries[r] == if r < start then old(currentQueries[r]) else q
      {
        QueryTimeout(q);
        WithCredentialIdempotent(q.request, server.credential);
        i := i + 1;
      }
    }

    /** Asks the server root, with a fresh query, whether CouchDB is there. */
    method CheckInstallation()
      requires Valid()
      modifies this
      ensures Valid()
      ensures |exchanges| == old(|exchanges|) + 1 && exchanges[..old(|exchanges|)] == old(exchanges)
      ensures exchanges[old(|exchanges|)] ==
        Exchange(Get, WithCredential(Request(server.BaseURL(), [], map[]), server.credential), [])
      ensures currentQueries.Keys == old(currentQueries.Keys) + {old(|exchanges|)}
      ensures forall r | r in old(currentQueries) :: currentQueries[r] == old(currentQueries[r])
      ensures var q := currentQueries[old(|exchanges|)];
        && fresh(q) && q.operation == Operation.CheckInstallation && q.body == []
        && q.request == exchanges[old(|exchanges|)].request && q.timerActive && q.timeoutSlots == 1
      ensures server == old(server) && cleanServerOnQuit == old(cleanServerOnQuit)
      ensures emitted == old(emitted) && deleted == old(deleted)
    {
      var q := new CouchDBQuery();
      q.SetUrl(server.BaseURL());
      q.SetOperation(Operation.CheckInstallation);
      var _ := ExecuteQuery(q);
    }

    /** Opens a session: the form body "name=…&password=…" is stored in the
        query, but the query is issued with GET, which uploads no body. */
    method StartSession(username: string, password: string, formEncode: seq<QueryItem> -> Bytes)
      requires Valid()
      modifies this
      ensures Valid()
      ensures |exchanges| == old(|exchanges|) + 1 && exchanges[..old(|exchanges|)] == old(exchanges)
      ensures exchanges[old(|exchanges|)] ==
        Exchange(Get,
                 WithCredential(
                   Request(server.BaseURL() + "/_session", [],
                           map["Accept" := "application/json",
                               "Content-Type" := "application/x-www-form-urlencoded"]),
                   server.credential),
                 [])
      ensures currentQueries.Keys == old(currentQueries.Keys) + {old(|exchanges|)}
      ensures forall r | r in old(currentQueries) :: currentQueries[r] == old(currentQueries[r])
      ensures var q := currentQueries[old(|exchanges|)];
        && fresh(q) && q.operation == Operation.StartSession
        && q.body == formEncode([QueryItem("name", username), QueryItem("password", password)])
        && q.request == exchanges[old(|exchanges|)].request && q.timerActive && q.timeoutSlots == 1
      ensures server == old(server) && cleanServerOnQuit == old(cleanServerOnQuit)
      ensures emitted == old(emitted) && deleted == old(deleted)
    {
      var postData := [QueryItem("name", username), QueryItem("password", password)];
      var q := new CouchDBQuery();
      q.SetUrl(server.BaseURL() + "/_session");
      q.SetOperation(Operation.StartSession);
      q.SetRawHeader("Accept", "application/json");
      q.SetRawHeader("Content-Type", "application/x-www-form-urlencoded");
      q.SetBody(formEncode(postData));
      var _ := ExecuteQuery(q);
    }
  }
}
