/** YaDiskUploader: the storage client. The GET/PUT/POST calls themselves are
    replies given as inputs; what is modelled is what the client decides from them. */
module YaDisk {
  import opened Http
  import opened Retrying

  const DefaultMaxRetries: nat := 3
  const NotFound := 404
  const OkStatus := 200
  const InvalidFormatMessage := "Invalid API response format"

  /** What create_folder did: whether it issued the creating PUT, and whether it
      returned normally or raised. */
  datatype FolderOutcome = FolderOutcome(created: bool, result: Result<()>)

  /** create_folder: `check` is the reply to the existence GET (its status code or a
      RequestException); `create` is the reply to the PUT, read only after a 404. */
  function CreateFolder(check: Reply<int>, create: Reply<int>): (r: FolderOutcome)
    ensures r.created <==> check == Answered(NotFound)
    ensures check == Answered(OkStatus) ==> r.result.Ok?
    ensures check.Transient? ==> r.result == Err(RequestException(check.cause))
    ensures check.Answered? && check.payload != NotFound && IsErrorStatus(check.payload) ==>
      r.result == Err(RequestException(Status(check.payload)))
    ensures check.Answered? && check.payload != NotFound && !IsErrorStatus(check.payload) ==>
      r.result == Ok(())
    ensures r.created ==> (r.result.Ok? <==> create.Answered? && !IsErrorStatus(create.payload))
    ensures r.created && r.result.Err? ==>
      r.result.error == RequestException(if create.Transient? then create.cause else Status(create.payload))
    ensures r.result.Err? ==> r.result.error.RequestException?
  {
    match check
    case Transient(cause) => FolderOutcome(false, Err(RequestException(cause)))
    case Answered(code) =>
      if code == NotFound then
        match create
        case Transient(cause) => FolderOutcome(true, Err(RequestException(cause)))
        case Answered(putCode) => FolderOutcome(true, RaiseForStatus(putCode))
      else if code == OkStatus then
        FolderOutcome(false, Ok(()))
      else
        FolderOutcome(false, RaiseForStatus(code))
  }

  /** The existence check as a healthy storage service answers it. */
  function ExistenceReply(present: bool): Reply<int>
  {
    Answered(if present then OkStatus else NotFound)
  }

  /** create_folder is idempotent: once a call has succeeded the folder is present (it
      was already, or the call's PUT created it), so a second call sees 200, issues no
      PUT and returns normally, whatever the PUT would answer. */
  lemma CreateFolderIdempotent(present: bool, create1: Reply<int>, create2: Reply<int>)
    requires CreateFolder(ExistenceReply(present), create1).result.Ok?
    ensures var first := CreateFolder(ExistenceReply(present), create1);
      CreateFolder(ExistenceReply(present || (first.created && first.result.Ok?)), create2) ==
        FolderOutcome(false, Ok(()))
  {
  }

  /** get_upload_link: `reply` is the GET's reply, whose payload is the JSON's
      `href` field when present. */
  function GetUploadLink(reply: Reply<Option<string>>): (r: Result<string>)
    ensures r.Ok? <==> reply.Answered? && reply.payload.Some?
    ensures r.Ok? ==> r.value == reply.payload.value
    ensures reply.Transient? ==> r == Err(RequestException(reply.cause))
    ensures reply == Answered(None) ==> r == Err(ValueError(InvalidFormatMessage))
  {
    match reply
    case Transient(cause) => Err(RequestException(cause))
    case Answered(None) => Err(ValueError(InvalidFormatMessage))
    case Answered(Some(href)) => Ok(href)
  }

  /** What upload_from_url returns: the POST's JSON, or {} when its body is empty. */
  datatype Json = EmptyObject | Document(text: string)

  /** The replies one upload attempt can see: the upload-link GET, then (only when
      that gave an href) the POST asking the service to fetch the source URL,
      whose payload is the response body. Answered means the JSON body parsed;
      a body that does not parse is given as Transient, the RequestException
      that current versions of `requests` raise for it. */
  datatype UploadReplies = UploadReplies(link: Reply<Option<string>>, post: Reply<string>)

  /** One pass of the try block in upload_from_url. */
  function UploadAttempt(replies: UploadReplies): (a: Attempt<Json>)
    ensures a.Succeeded? <==> GetUploadLink(replies.link).Ok? && replies.post.Answered?
    ensures GetUploadLink(replies.link).Err? ==> a == Failed(GetUploadLink(replies.link).error)
    ensures GetUploadLink(replies.link).Ok? && replies.post.Transient? ==>
      a == Failed(RequestException(replies.post.cause))
    ensures a.Succeeded? ==>
      a.value == if replies.post.payload == [] then EmptyObject else Document(replies.post.payload)
  {
    match GetUploadLink(replies.link)
    case Err(e) => Failed(e)
    case Ok(_) =>
      match replies.post
      case Transient(cause) => Failed(RequestException(cause))
      case Answered(body) => Succeeded(if body == [] then EmptyObject else Document(body))
  }

  function UploadAttempts(replies: seq<UploadReplies>): (s: seq<Attempt<Json>>)
    ensures |s| == |replies|
    ensures forall i :: 0 <= i < |replies| ==> s[i] == UploadAttempt(replies[i])
  {
    if replies == [] then [] else [UploadAttempt(replies[0])] + UploadAttempts(replies[1..])
  }

  /** upload_from_url: `replies[i]` is what attempt i sees. */
  function UploadRun(maxRetries: nat, replies: seq<UploadReplies>): Run<Json>
    requires maxRetries < |replies|
  {
    Retry(maxRetries, UploadAttempts(replies))
  }

  method UploadFromUrl(maxRetries: nat, replies: seq<UploadReplies>) returns (run: Run<Json>)
    requires maxRetries < |replies|
    ensures run == UploadRun(maxRetries, replies)
  {
    run := RetryLoop(maxRetries, UploadAttempts(replies));
  }

  /** A missing href raises ValueError, which is not a RequestException: the upload
      stops at that attempt and re-raises it without a further wait or attempt. */
  lemma MissingHrefNotRetried(maxRetries: nat, replies: seq<UploadReplies>, n: nat)
    requires n <= maxRetries < |replies|
    requires forall i :: 0 <= i < n ==> Retryable(UploadAttempt(replies[i]))
    requires replies[n].link == Answered(None)
    ensures UploadRun(maxRetries, replies) == Run(Err(ValueError(InvalidFormatMessage)), Backoff(n), n + 1)
  {
    var outcomes := UploadAttempts(replies);
    assert forall i :: 0 <= i < n ==> outcomes[i] == UploadAttempt(replies[i]);
    RetryStopsAt(maxRetries, outcomes, n);
  }

  /** When the link GET or the POST raised a RequestException on every attempt,
      upload_from_url makes max_retries + 1 attempts, sleeps 2^max_retries - 1
      seconds in all, and re-raises the last attempt's exception. */
  lemma UploadGivesUp(maxRetries: nat, replies: seq<UploadReplies>)
    requires maxRetries < |replies|
    requires forall i :: 0 <= i <= maxRetries ==>
      replies[i].link.Transient? || (replies[i].link.payload.Some? && replies[i].post.Transient?)
    ensures UploadRun(maxRetries, replies).attempts == maxRetries + 1
    ensures UploadRun(maxRetries, replies).waits == Backoff(maxRetries)
    ensures Total(UploadRun(maxRetries, replies).waits) == Pow2(maxRetries) - 1
    ensures replies[maxRetries].link.Transient? ==>
      UploadRun(maxRetries, replies).result == Err(RequestException(replies[maxRetries].link.cause))
    ensures replies[maxRetries].post.Transient? && !replies[maxRetries].link.Transient? ==>
      UploadRun(maxRetries, replies).result == Err(RequestException(replies[maxRetries].post.cause))
  {
    var outcomes := UploadAttempts(replies);
    assert forall i :: 0 <= i <= maxRetries ==> outcomes[i] == UploadAttempt(replies[i]);
    RetryExhausted(maxRetries, outcomes);
  }

  /** Every upload that returns made a successful POST on its last attempt, after
      attempts that all raised a RequestException. */
  lemma UploadReturnsOnlyAfterPost(maxRetries: nat, replies: seq<UploadReplies>)
    requires maxRetries < |replies|
    ensures var run := UploadRun(maxRetries, replies);
      && 1 <= run.attempts <= maxRetries + 1
      && (run.result.Ok? ==>
            && replies[run.attempts - 1].post.Answered?
            && GetUploadLink(replies[run.attempts - 1].link).Ok?
            && forall i :: 0 <= i < run.attempts - 1 ==> UploadAttempt(replies[i]).Failed?)
  {
    var outcomes := UploadAttempts(replies);
    RetryCharacterized(maxRetries, outcomes);
    assert forall i :: 0 <= i < |replies| ==> outcomes[i] == UploadAttempt(replies[i]);
  }

  /** get_file_size: `reply` is the metadata GET, whose payload is the JSON's
      `size` field when present. Soft failure: never raises, 0 stands for unknown. */
  function FileSize(reply: Reply<Option<int>>): (size: int)
    ensures reply.Answered? && reply.payload.Some? ==> size == reply.payload.value
    ensures size != 0 ==> reply == Answered(Some(size))
    ensures reply.Transient? || reply == Answered(None) ==> size == 0
  {
    match reply
    case Transient(_) => 0
    case Answered(None) => 0
    case Answered(Some(n)) => n
  }
}
