/** CatImageFetcher: turns a caption into the address of a captioned cat image. */
module CatImages {
  import opened Http
  import opened Retrying

  const Origin := "https://cataas.com"
  const EmptyTextMessage := "Text cannot be empty"

  /** The address used when the service's JSON has no `url` field. */
  function FallbackUrl(text: string): string
  {
    Origin + "/cat/says/" + text
  }

  /** One pass of the try block in get_cat_image_url: `reply` is the GET's reply,
      whose payload is the JSON's `url` field when present. */
  function FetchAttempt(text: string, reply: Reply<Option<string>>): (a: Attempt<string>)
    ensures a.Failed? <==> reply.Transient?
    ensures a.Failed? ==> a.error == RequestException(reply.cause)
    ensures a.Succeeded? ==> Origin <= a.value
  {
    match reply
    case Transient(cause) => Failed(RequestException(cause))
    case Answered(None) => Succeeded(FallbackUrl(text))
    case Answered(Some(path)) => Succeeded(Origin + path)
  }

  function FetchAttempts(text: string, replies: seq<Reply<Option<string>>>): (s: seq<Attempt<string>>)
    ensures |s| == |replies|
    ensures forall i :: 0 <= i < |replies| ==> s[i] == FetchAttempt(text, replies[i])
  {
    if replies == [] then [] else [FetchAttempt(text, replies[0])] + FetchAttempts(text, replies[1..])
  }

  /** get_cat_image_url: `replies[i]` is what attempt i sees. An empty caption is
      rejected before any request: zero attempts. */
  function FetchRun(text: string, maxRetries: nat, replies: seq<Reply<Option<string>>>): (run: Run<string>)
    requires maxRetries < |replies|
    ensures run.attempts == 0 <==> text == []
    ensures text == [] ==> run.result == Err(ValueError(EmptyTextMessage)) && run.waits == []
  {
    if text == [] then
      Run(Err(ValueError(EmptyTextMessage)), [], 0)
    else
      RetryCharacterized(maxRetries, FetchAttempts(text, replies));
      Retry(maxRetries, FetchAttempts(text, replies))
  }

  method GetCatImageUrl(text: string, maxRetries: nat, replies: seq<Reply<Option<string>>>) returns (run: Run<string>)
    requires maxRetries < |replies|
    ensures run == FetchRun(text, maxRetries, replies)
  {
    if text == [] {
      return Run(Err(ValueError(EmptyTextMessage)), [], 0);
    }
    run := RetryLoop(maxRetries, FetchAttempts(text, replies));
  }

  /** A non-empty caption gets an address on the image service's origin, unless every
      attempt raised a RequestException: then maxRetries + 1 attempts were made and
      the last exception is re-raised. A malformed reply is never an error. */
  lemma FetchOutcome(text: string, maxRetries: nat, replies: seq<Reply<Option<string>>>)
    requires maxRetries < |replies|
    requires text != []
    ensures var run := FetchRun(text, maxRetries, replies);
      && (run.result.Ok? ==> Origin <= run.result.value)
      && (run.result.Err? ==>
            && run.attempts == maxRetries + 1
            && (forall i :: 0 <= i <= maxRetries ==> replies[i].Transient?)
            && run.result.error == RequestException(replies[maxRetries].cause))
  {
    var outcomes := FetchAttempts(text, replies);
    RetryCharacterized(maxRetries, outcomes);
    assert forall i :: 0 <= i < |replies| ==> outcomes[i] == FetchAttempt(text, replies[i]);
  }

  /** After n transient failures, an answered reply ends the call at once: its `url`
      joined to the origin, or the fallback address when `url` is missing. */
  lemma FetchAnswered(text: string, maxRetries: nat, replies: seq<Reply<Option<string>>>, n: nat)
    requires n <= maxRetries < |replies|
    requires text != []
    requires forall i :: 0 <= i < n ==> replies[i].Transient?
    requires replies[n].Answered?
    ensures FetchRun(text, maxRetries, replies) ==
      Run(Ok(match replies[n].payload
             case Some(path) => Origin + path
             case None => FallbackUrl(text)),
          Backoff(n), n + 1)
  {
    var outcomes := FetchAttempts(text, replies);
    assert forall i :: 0 <= i < n ==> outcomes[i] == FetchAttempt(text, replies[i]);
    RetryStopsAt(maxRetries, outcomes, n);
  }
}
