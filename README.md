# Cat image uploader — a Dafny model of its decision logic

The program asks the cataas.com image service for a cat picture with a caption
rendered on it, and asks Yandex Disk to fetch that picture into a folder. It
records one entry per caption in `files_info.json` and exits with 0 or 1.
Almost all of it is HTTP plumbing. This project models the decisions it takes
on what the network gives back:

- the bounded retry with exponential backoff shared by `upload_from_url` and
  `get_cat_image_url` (module `Retrying`, `retry.dfy`);
- the storage client `YaDiskUploader` (module `YaDisk`, `yadisk.dfy`): the
  status-code decision of `create_folder`, the error mapping of
  `get_upload_link`, one upload attempt, and the soft fallback of `get_file_size`;
- the image client `CatImageFetcher` (module `CatImages`, `cat_images.dfy`):
  the empty-caption check, the `url` join and the fallback address;
- the driver (module `Driver`, `driver.dfy`): `validate_config`, filename and
  path derivation, the per-caption loop with its two counters, and the exit code;
- two end-to-end runs worked out on the model (module `Scenarios`, `scenarios.dfy`).

Every request is replaced by an input `Reply<T>`: `Answered(payload)` when a
response came back and was read, or `Transient(cause)` when `requests` raised a
`RequestException` (a network failure, or an HTTP error status raised by
`raise_for_status`). A missing JSON field is a payload of `None`. A retried
call receives one reply per attempt, as a sequence, and the model records the
waits it would sleep instead of sleeping. The retry scripts must cover
`max_retries + 1` attempts; this is a requirement on the model's inputs, not on
the program's callers. The two client classes hold no state that changes after
construction, so they are modules of functions rather than classes. The two
retry loops are the same loop in the source; it is modelled once, as a state
machine over the attempt number (`RetryFrom`) and the method that runs it
(`RetryLoop`).

Notes on what the code does:

- `create_folder` raises for a status other than 404 and 200 only when that
  status is an error status. Its `else` branch calls `raise_for_status`, which
  raises for 4xx and 5xx only, so a 204 or a 301 answer returns normally
  without creating anything.
- A missing `href` raises `ValueError`, not a dedicated format error. The image
  service's failures are `RequestException`s, not a separate error class.
- `get_file_size` returns 0 both for "unknown" and for a reported size of 0.
  The model keeps that conflation (`FileSize`).
- Two captions that differ only by space versus underscore map to the same path
  (`BigCatPath`). The upload asks for overwrite, so the later one replaces the earlier.

## Model

| member | source | states |
|---|---|---|
| `Retrying.RetryLoop` | main1.py:57-72 | the retry loop returns exactly the run of the retry state machine: result, waits and attempt count |
| `Retrying.RetryFromShape` | main1.py:96-112 | from attempt k, the loop stops after attempt k at the latest when retries are exhausted, keeps 2^i waits, and continues only past RequestExceptions |
| `Retrying.RetryCharacterized` | main1.py:57-72 | between 1 and max_retries + 1 attempts; every attempt but the last raised a RequestException; an early stop is on an attempt that did not; the call returns or raises what its last attempt came to; the waits are 2^0 .. 2^(n-2) with no wait after the last attempt |
| `Retrying.RetryStopsAt` | main1.py:96-112 | n transient failures followed by anything else end the call at attempt n with that outcome, after waits 1, 2, ..., 2^(n-1) |
| `Retrying.RetryExhausted` | main1.py:66-72 | when every attempt raises a RequestException, max_retries + 1 attempts are made, the last exception is re-raised, and 2^max_retries - 1 seconds are slept |
| `Retrying.BackoffAt` | main1.py:66-69 | the wait after failed attempt i is 2^i seconds |
| `Retrying.BackoffTotal` | main1.py:106-109 | n successive backoff waits add up to 2^n - 1 seconds |
| `YaDisk.CreateFolder` | main1.py:26-41 | the PUT is issued exactly on a 404; a 200 returns without a PUT; any other status raises a RequestException exactly when it is an error status and otherwise returns normally; a request failure is re-raised; after a PUT the call succeeds exactly when the PUT's status is not an error, and otherwise raises the PUT's failure or status |
| `YaDisk.CreateFolderIdempotent` | main1.py:30-36 | against a healthy service, a second call after a successful one issues no PUT and returns normally |
| `YaDisk.GetUploadLink` | main1.py:43-54 | returns the href exactly when the response has one; a request failure is re-raised; a missing href raises ValueError("Invalid API response format") |
| `YaDisk.UploadAttempt` | main1.py:58-64 | an attempt succeeds exactly when the link was obtained and the POST was answered, returning the POST's JSON or {} for an empty body; a link error ends the attempt with that error; a failed POST raises its RequestException, which the loop retries |
| `YaDisk.UploadFromUrl` | main1.py:56-72 | upload_from_url is the retry loop over the per-attempt outcomes of the link GET and the POST |
| `YaDisk.MissingHrefNotRetried` | main1.py:52-65 | a missing href, after n transient failures, raises ValueError at attempt n with no further wait or attempt |
| `YaDisk.UploadGivesUp` | main1.py:56-72 | when the link GET or the POST raises a RequestException on every attempt, max_retries + 1 attempts are made, 2^max_retries - 1 seconds are slept and the last attempt's exception is re-raised |
| `YaDisk.UploadReturnsOnlyAfterPost` | main1.py:59-64 | an upload that returns got an href and an answered POST on its last attempt, and every earlier attempt failed |
| `YaDisk.FileSize` | main1.py:74-83 | a reported size is returned as is; a non-zero result is a reported size; a request failure or a missing size gives 0 |
| `CatImages.FetchAttempt` | main1.py:97-104 | an attempt fails exactly on a request failure, with that exception; any answer yields an address on https://cataas.com |
| `CatImages.FetchRun` | main1.py:91-112 | no request is made exactly when the caption is empty, and then ValueError("Text cannot be empty") is raised without a wait |
| `CatImages.GetCatImageUrl` | main1.py:91-112 | get_cat_image_url is the empty-caption check followed by the retry loop over the GET attempts |
| `CatImages.FetchOutcome` | main1.py:96-115 | for a non-empty caption the result is an address on https://cataas.com, or, only when all max_retries + 1 attempts raised a RequestException, the last of them |
| `CatImages.FetchAnswered` | main1.py:100-104 | after n transient failures an answer ends the call at once: origin + url, or the fallback https://cataas.com/cat/says/<text> when url is missing |
| `Driver.ValidateConfig` | main1.py:118-124 | passes exactly when token and folder are non-empty and CAT_TEXTS is a non-empty list; otherwise raises the ValueError of the first check that fails |
| `Driver.ReplaceSpaces` | main1.py:152 | same length; every space becomes `_`; every other character is kept |
| `Driver.FilenameShape` | main1.py:152-153 | the filename is the caption with each space turned to `_` and every other character kept, followed by `.jpg` |
| `Driver.SpacelessCaption` | main1.py:152 | a caption without spaces is its own file stem |
| `Driver.BigCatPath` | main1.py:152-153 | "big cat" is stored at /<folder>/big_cat.jpg, the same path as "big_cat" |
| `Driver.RecordShape` | main1.py:149-185 | a record keeps the caption, its filename and path; it is failed exactly when fetching or uploading raised, then with size 0 and the fetch's error, or else the upload's; otherwise its size is the looked-up size and its status is success exactly when that size is positive |
| `Driver.EmptyCaptionFails` | main1.py:175-185 | an empty caption yields a failed record `.jpg` with size 0 and the empty-text ValueError |
| `Driver.CountsPartition` | main1.py:145-185 | successful + failed equals the number of records |
| `Driver.NoFailureCounted` | main1.py:205-209 | the failed counter is 0 exactly when no record failed |
| `Driver.FilesAt` | main1.py:148-185 | files_info has exactly one record per caption, the k-th record for the k-th caption |
| `Driver.ProcessOne` | main1.py:149-185 | one pass of the loop body (the try block or its except branch) produces the caption's record |
| `Driver.ProcessCaptions` | main1.py:144-185 | the loop builds files_info caption by caption, in input order, and keeps both counters equal to the tallies of the records, which add up to the number of captions |
| `Driver.MainExitCode` | main1.py:203-213 | main returns 0 exactly when the configuration is valid, the folder exists and no caption failed, and 1 otherwise |
| `Driver.MainReport` | main1.py:187-198 | a report is built exactly when the loop is reached; it holds one record per caption, in order, total is the number of captions and successful + failed = total |
| `Driver.RunMain` | main1.py:130-213 | main's exit code and report are those of the model of main; a failed JSON save writes nothing and leaves the exit code unchanged |
| `Scenarios.HelloWorld` | main1.py:148-173 | captions hello and world with sizes 1234 and 0 give two successes, the second of unknown size, files hello.jpg and world.jpg, exit code 0 |
| `Scenarios.UploadExhausted` | main1.py:175-209 | one caption whose upload raises on every attempt gives one failed record carrying that error, summary 1/0/1 and exit code 1 |

## Left out

- The HTTP requests themselves (URLs, query strings, headers, the OAuth token, timeouts): replaced by replies given as inputs.
- The request parameters do not reach the model: which path is uploaded and which source URL the POST carries are not tracked.
- `time.sleep`, including the fixed 2-second wait after the POST: backoff waits are recorded as a sequence, the fixed wait is not modelled.
- Which exception `response.json()` raises on a body that is not JSON depends on the `requests` version (a `RequestException` in current versions, a plain `ValueError` in old ones). The model gives every reply whose body parsed as `Answered` and leaves unparseable bodies out, for all four calls:
  - get_cat_image_url: the `ValueError`/`KeyError` fallback address for such a body is not modelled, only the missing-`url` fallback;
  - get_upload_link and upload_from_url: such a body can be supplied as `Transient`, the retried `RequestException` of current versions; the immediate `ValueError` of old versions is not modelled;
  - get_file_size: `Transient` gives 0 as in current versions; the `ValueError` that old versions let escape to main's except branch is not modelled.
- Exception messages (`str(e)`): a failed record keeps the exception value instead of its text.
- The `isalnum` check on the folder name only logs a warning; it is not modelled.
- Logging, the tqdm progress bar and the `Config` class: plumbing and foreign code. A `None` token, folder or CAT_TEXTS is modelled as the empty string, which fails the same check.
- Captions are modelled as strings. A `None` caption makes get_cat_image_url raise `ValueError`, and then the except branch's `text.replace` raises `AttributeError`, which ends main with exit code 1, skipping the remaining captions and files_info.json; the model has no such caption.
- Writing `files_info.json`: only whether it succeeds is an input (`saveSucceeds`); a partial write is not modelled.
