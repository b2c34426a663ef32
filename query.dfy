/** CouchDBQuery: one outgoing call (its request, operation and body) and
    the single-shot timer that bounds how long a reply may take. */
module CouchQuery {
  import opened Text
  import opened Http

  /** CouchDBOperation. OtherOperation stands for any value outside the
      enumeration, the case the `default:` branches catch. A new query's
      operation is never initialised, so its value is indeterminate; the
      model starts it at OtherOperation. */
  datatype Operation =
    | CheckInstallation
    | StartSession
    | EndSession
    | ListDatabases
    | CreateDatabase
    | DeleteDatabase
    | ListDocuments
    | RetrieveRevision
    | RetrieveDocument
    | UpdateDocument
    | DeleteDocument
    | UploadAttachment
    | DeleteAttachment
    | ReplicateDatabase
    | OtherOperation

  /** Milliseconds a reply may take before the query times out. */
  const TimeoutInterval: nat := 20000

  class CouchDBQuery {
    var request: Request
    var operation: Operation
    var body: Bytes
    /** Whether the one timeout timer is running. */
    var timerActive: bool
    const timerInterval: nat
    const timerSingleShot: bool
    /** How many connections lead from this query's timeout() signal to the
        client's queryTimeout() slot; a signal runs once per connection. */
    var timeoutSlots: nat

    constructor ()
      ensures request == EmptyRequest && body == [] && operation == OtherOperation
      ensures !timerActive && timerInterval == TimeoutInterval && timerSingleShot
      ensures timeoutSlots == 0
    {
      request := EmptyRequest;
      operation := OtherOperation;
      body := [];
      timerActive := false;
      timerInterval := TimeoutInterval;
      timerSingleShot := true;
      timeoutSlots := 0;
    }

    function Url(): string
      reads this
    {
      request.url
    }

    method SetUrl(url: string)
      modifies this
      ensures Url() == url
      ensures request == old(request).(url := url)
      ensures operation == old(operation) && body == old(body)
      ensures timerActive == old(timerActive) && timeoutSlots == old(timeoutSlots)
    {
      request := request.(url := url);
    }

    function Operation(): Operation
      reads this
    {
      operation
    }

    method SetOperation(op: Operation)
      modifies this
      ensures Operation() == op
      ensures request == old(request) && body == old(body)
      ensures timerActive == old(timerActive) && timeoutSlots == old(timeoutSlots)
    {
      operation := op;
    }

    function Body(): Bytes
      reads this
    {
      body
    }

    method SetBody(bytes: Bytes)
      modifies this
      ensures Body() == bytes
      ensures request == old(request) && operation == old(operation)
      ensures timerActive == old(timerActive) && timeoutSlots == old(timeoutSlots)
    {
      body := bytes;
    }

    /** request()->setRawHeader(name, value): replaces that header only. */
    method SetRawHeader(name: string, value: string)
      modifies this
      ensures request == old(request).(headers := old(request).headers[name := value])
      ensures operation == old(operation) && body == old(body)
      ensures timerActive == old(timerActive) && timeoutSlots == old(timeoutSlots)
    {
      request := request.(headers := request.headers[name := value]);
    }

    /** (Re)starts the one timer; there is never a second one. */
    method StartTimeoutTimer()
      modifies this
      ensures timerActive
      ensures request == old(request) && operation == old(operation) && body == old(body)
      ensures timeoutSlots == old(timeoutSlots)
    {
      timerActive := true;
    }

    /** The single-shot timer runs out: it stops before timeout() is raised. */
    method TimerElapsed()
      requires timerActive
      modifies this
      ensures !timerActive
      ensures request == old(request) && operation == old(operation) && body == old(body)
      ensures timeoutSlots == old(timeoutSlots)
    {
      timerActive := false;
    }
  }
}
