/** The values the client hands to QNetworkAccessManager. The network itself
    is not modelled: every call to get/put/deleteResource is recorded as an
    Exchange, and a reply handle is the position of its exchange in that
    record, so each call yields a fresh handle. */
module Http {
  import opened Text

  datatype Method = Get | Put | Delete

  /** One key=value pair of a QUrlQuery, in the order it was added. */
  datatype QueryItem = QueryItem(key: string, value: string)

  /** A QNetworkRequest: its URL (without query), the URL's query items and
      its raw headers. Setting a raw header replaces any earlier value. */
  datatype Request = Request(url: string, query: seq<QueryItem>, headers: map<string, string>)

  /** A fresh QNetworkRequest. */
  const EmptyRequest := Request("", [], map[])

  /** What one QNetworkAccessManager call sends: the verb, the request and the
      bytes uploaded with it (put only; get and deleteResource send none). */
  datatype Exchange = Exchange(verb: Method, request: Request, payload: Bytes)

  /** How an exchange ended: the body read from a reply without error, or a
      transport error (QNetworkReply::error() != NoError). */
  datatype ReplyResult = Received(body: Bytes) | Failed

  /** A reply handle. */
  type Reply = nat

  /** The header added before issuing a request when the server holds a
      credential (an empty credential means none). */
  function WithCredential(r: Request, credential: string): (r': Request)
    ensures r'.url == r.url && r'.query == r.query
    ensures credential == "" ==> r' == r
    ensures credential != "" ==> r'.headers.Keys == r.headers.Keys + {"Authorization"}
    ensures credential != "" ==> r'.headers["Authorization"] == "Basic " + credential
    ensures forall h | h in r.headers && h != "Authorization" :: r'.headers[h] == r.headers[h]
  {
    if credential != "" then r.(headers := r.headers["Authorization" := "Basic " + credential])
    else r
  }

  /** Adding the credential a second time changes nothing, so a request that
      is issued again carries the same headers. */
  lemma WithCredentialIdempotent(r: Request, credential: string)
    ensures WithCredential(WithCredential(r, credential), credential) == WithCredential(r, credential)
  {
  }
}
