/** CouchDBResponse: what a finished request reports to the caller — a
    status, the raw bytes, the parsed document and a revision picked out of
    it. */
module CouchResponse {
  import opened Text
  import opened Json
  import opened CouchQuery

  /** CouchDBReplyStatus */
  datatype ReplyStatus = Success | Error

  /** Everything a receiver of a response can observe. */
  datatype ResponseValue = ResponseValue(
    query: CouchDBQuery?,
    status: ReplyStatus,
    revisionData: string,
    data: Bytes,
    document: JsonDocument)

  /** The document kept by setData: the parsed one, or the null document when
      parsing failed or gave an empty document. Since an empty document is a
      null one, the parsed document is always kept, "{}" and "[]" included. */
  function DocumentAfter(parsed: JsonDocument): (d: JsonDocument)
    ensures d == NullDocument <==> IsNull(parsed) || IsEmpty(parsed)
    ensures d == parsed
    ensures ObjectView(d) == ObjectView(parsed)
  {
    if IsNull(parsed) || IsEmpty(parsed) then NullDocument else parsed
  }

  /** The revision after setData: the text of a "revision" member of the
      parsed object when there is one, otherwise the previous revision. */
  function RevisionAfter(parsed: JsonDocument, previous: string): (r: string)
    ensures "revision" in ObjectView(parsed) ==> r == StringOf(ObjectView(parsed)["revision"])
    ensures "revision" !in ObjectView(parsed) ==> r == previous
  {
    if IsNull(parsed) || IsEmpty(parsed) then previous
    else if "revision" in ObjectView(parsed) then StringOf(ObjectView(parsed)["revision"])
    else previous
  }

  class CouchDBResponse {
    /** Not owned: the response only points at the query. */
    var query: CouchDBQuery?
    var status: ReplyStatus
    var revisionData: string
    var data: Bytes
    var document: JsonDocument

    constructor ()
      ensures query == null && status == Error && revisionData == ""
      ensures data == [] && document == NullDocument
    {
      query := null;
      status := Error;
      revisionData := "";
      data := [];
      document := NullDocument;
    }

    function Query(): CouchDBQuery?
      reads this
    {
      query
    }

    method SetQuery(q: CouchDBQuery?)
      modifies this
      ensures Query() == q
      ensures status == old(status) && revisionData == old(revisionData)
      ensures data == old(data) && document == old(document)
    {
      query := q;
    }

    function Status(): ReplyStatus
      reads this
    {
      status
    }

    method SetStatus(s: ReplyStatus)
      modifies this
      ensures Status() == s
      ensures query == old(query) && revisionData == old(revisionData)
      ensures data == old(data) && document == old(document)
    {
      status := s;
    }

    function RevisionData(): string
      reads this
    {
      revisionData
    }

    method SetRevisionData(revision: string)
      modifies this
      ensures RevisionData() == revision
      ensures query == old(query) && status == old(status)
      ensures data == old(data) && document == old(document)
    {
      revisionData := revision;
    }

    function Data(): Bytes
      reads this
    {
      data
    }

    /** Stores the bytes verbatim, keeps the parsed document and picks up a
      "revision" member; the status and the query are left alone. */
    method SetData(bytes: Bytes, parse: Parser)
      modifies this
      ensures Data() == bytes
      ensures document == DocumentAfter(parse(bytes))
      ensures revisionData == RevisionAfter(parse(bytes), old(revisionData))
      ensures status == old(status) && query == old(query)
    {
      data := bytes;
      document := parse(bytes);
      if IsNull(document) || IsEmpty(document) {
        document := NullDocument;
      } else {
        if "revision" in ObjectView(document) {
          revisionData := StringOf(ObjectView(document)["revision"]);
        }
      }
    }

    function Document(): JsonDocument
      reads this
    {
      document
    }

    /** The object view of the document: its members when it is an object,
        otherwise none. */
    function DocumentObj(): (obj: map<string, JsonValue>)
      reads this
      ensures document.ObjectDocument? ==> obj == document.members
      ensures !document.ObjectDocument? ==> obj == map[]
    {
      ObjectView(document)
    }

    /** The response as its receivers see it. */
    function Value(): ResponseValue
      reads this
    {
      ResponseValue(query, status, revisionData, data, document)
    }
  }
}
