/** The driver: configuration check, the per-caption loop of `main` with its
    tally, and the exit code. */
module Driver {
  import opened Http
  import YaDisk
  import CatImages

  /** The configuration fields main reads. A missing value is the empty string;
      `catTextsIsList` records whether CAT_TEXTS is a list at all. */
  datatype Config = Config(token: string, folder: string, catTexts: seq<string>, catTextsIsList: bool)

  const TokenMissing := "YANDEX_DISK_TOKEN is missing in config"
  const FolderMissing := "YANDEX_DISK_FOLDER is missing in config"
  const TextsInvalid := "CAT_TEXTS should be a non-empty list"

  /** validate_config: the three checks in order; the first one that fails names the error. */
  function ValidateConfig(config: Config): (r: Result<()>)
    ensures r.Ok? <==> config.token != [] && config.folder != [] && config.catTexts != [] && config.catTextsIsList
    ensures config.token == [] ==> r == Err(ValueError(TokenMissing))
    ensures config.token != [] && config.folder == [] ==> r == Err(ValueError(FolderMissing))
    ensures config.token != [] && config.folder != [] && r.Err? ==> r == Err(ValueError(TextsInvalid))
  {
    if config.token == [] then Err(ValueError(TokenMissing))
    else if config.folder == [] then Err(ValueError(FolderMissing))
    else if config.catTexts == [] || !config.catTextsIsList then Err(ValueError(TextsInvalid))
    else Ok(())
  }

  /** `text.replace(' ', '_')` */
  function ReplaceSpaces(text: string): (r: string)
    ensures |r| == |text|
    ensures forall i :: 0 <= i < |text| ==> r[i] == if text[i] == ' ' then '_' else text[i]
  {
    if text == [] then [] else ReplaceSpaces(text[..|text| - 1]) + [if text[|text| - 1] == ' ' then '_' else text[|text| - 1]]
  }

  function Filename(text: string): string
  {
    ReplaceSpaces(text) + ".jpg"
  }

  function DestinationPath(folder: string, text: string): string
  {
    "/" + folder + "/" + Filename(text)
  }

  /** The file name is the caption with every space turned into `_`, then `.jpg`:
      same length plus four, no space before the suffix, every other character kept. */
  lemma FilenameShape(text: string)
    ensures var f := Filename(text);
      && |f| == |text| + 4
      && f[|text|..] == ".jpg"
      && ' ' !in f[..|text|]
      && (forall i :: 0 <= i < |text| && text[i] == ' ' ==> f[i] == '_')
      && (forall i :: 0 <= i < |text| && text[i] != ' ' ==> f[i] == text[i])
  {
    var f := Filename(text);
    assert f[..|text|] == ReplaceSpaces(text);
  }

  /** A caption with no space names its file directly. */
  lemma {:induction false} SpacelessCaption(text: string)
    requires ' ' !in text
    ensures Filename(text) == text + ".jpg"
  {
    assert ReplaceSpaces(text) == text;
  }

  /** `big cat` is stored at /<folder>/big_cat.jpg; so is `big_cat`, which the
      overwrite=true upload then replaces. */
  lemma BigCatPath(folder: string)
    ensures DestinationPath(folder, "big cat") == "/" + folder + "/big_cat.jpg"
    ensures DestinationPath(folder, "big cat") == DestinationPath(folder, "big_cat")
  {
    var spaced, joined := ReplaceSpaces("big cat"), ReplaceSpaces("big_cat");
    assert forall i :: 0 <= i < 7 ==> spaced[i] == "big_cat"[i] && joined[i] == "big_cat"[i];
    assert spaced == "big_cat" && joined == "big_cat";
  }

  datatype Status = Success | UploadedButSizeUnknown | Failed

  /** One entry of files_info; `error` is the exception a failed caption raised. */
  datatype UploadRecord = UploadRecord(
    filename: string, text: string, size: int, path: string, status: Status, error: Option<Error>)

  /** The record for a caption whose processing raised `e`. */
  function FailureRecord(folder: string, text: string, e: Error): UploadRecord
  {
    UploadRecord(Filename(text), text, 0, DestinationPath(folder, text), Failed, Some(e))
  }

  /** Every reply one caption's processing can see: the image-service attempts,
      the upload attempts and the size lookup. */
  datatype CaptionReplies = CaptionReplies(
    fetch: seq<Reply<Option<string>>>, upload: seq<YaDisk.UploadReplies>, size: Reply<Option<int>>)

  /** The replies cover every attempt the default retry bound allows. */
  predicate Scripted(net: CaptionReplies)
  {
    YaDisk.DefaultMaxRetries < |net.fetch| && YaDisk.DefaultMaxRetries < |net.upload|
  }

  /** The body of the loop in main, for one caption. */
  function ProcessCaption(folder: string, text: string, net: CaptionReplies): UploadRecord
    requires Scripted(net)
  {
    var fetch := CatImages.FetchRun(text, YaDisk.DefaultMaxRetries, net.fetch);
    if fetch.result.Err? then
      FailureRecord(folder, text, fetch.result.error)
    else
      var upload := YaDisk.UploadRun(YaDisk.DefaultMaxRetries, net.upload);
      if upload.result.Err? then
        FailureRecord(folder, text, upload.result.error)
      else
        var size := YaDisk.FileSize(net.size);
        UploadRecord(Filename(text), text, size, DestinationPath(folder, text),
                     if size > 0 then Success else UploadedButSizeUnknown, None)
  }

  /** What a caption's record says: its caption, filename and path always; failed
      exactly when fetching or uploading raised, then with size 0 and the error the
      fetch raised, or else the one the upload raised;
      otherwise the looked-up size, and success exactly when that size is positive. */
  lemma RecordShape(folder: string, text: string, net: CaptionReplies)
    requires Scripted(net)
    ensures var r := ProcessCaption(folder, text, net);
      && r.text == text && r.filename == Filename(text) && r.path == DestinationPath(folder, text)
      && (r.status == Failed <==> r.error.Some?)
      && (r.status == Failed ==> r.size == 0)
      && (r.status == Success <==> r.size > 0)
      && (r.status != Failed <==>
            CatImages.FetchRun(text, YaDisk.DefaultMaxRetries, net.fetch).result.Ok? &&
            YaDisk.UploadRun(YaDisk.DefaultMaxRetries, net.upload).result.Ok?)
      && (r.status != Failed ==> r.size == YaDisk.FileSize(net.size))
      && (r.status == Failed ==>
            var fetch := CatImages.FetchRun(text, YaDisk.DefaultMaxRetries, net.fetch);
            var upload := YaDisk.UploadRun(YaDisk.DefaultMaxRetries, net.upload);
            r.error == Some(if fetch.result.Err? then fetch.result.error else upload.result.error))
  {
  }

  /** An empty caption fails before any request and yields the record `.jpg` with size 0. */
  lemma EmptyCaptionFails(folder: string, net: CaptionReplies)
    requires Scripted(net)
    ensures ProcessCaption(folder, [], net) ==
      UploadRecord(".jpg", [], 0, "/" + folder + "/.jpg", Failed, Some(ValueError(CatImages.EmptyTextMessage)))
  {
  }

  function CountFailed(files: seq<UploadRecord>): (n: nat)
    ensures n <= |files|
  {
    if files == [] then 0
    else CountFailed(files[..|files| - 1]) + (if files[|files| - 1].status == Failed then 1 else 0)
  }

  function CountSuccessful(files: seq<UploadRecord>): (n: nat)
    ensures n <= |files|
  {
    if files == [] then 0
    else CountSuccessful(files[..|files| - 1]) + (if files[|files| - 1].status != Failed then 1 else 0)
  }

  /** Every record is counted once: successful + failed == len(files_info). */
  lemma {:induction false} CountsPartition(files: seq<UploadRecord>)
    ensures CountSuccessful(files) + CountFailed(files) == |files|
  {
    if files != [] {
      CountsPartition(files[..|files| - 1]);
    }
  }

  /** No failure is counted exactly when no record failed. */
  lemma {:induction false} NoFailureCounted(files: seq<UploadRecord>)
    ensures CountFailed(files) == 0 <==> forall i :: 0 <= i < |files| ==> files[i].status != Failed
  {
    if files != [] {
      var init := files[..|files| - 1];
      NoFailureCounted(init);
      assert forall i :: 0 <= i < |init| ==> init[i] == files[i];
    }
  }

  lemma CountAppend(files: seq<UploadRecord>, r: UploadRecord)
    ensures CountFailed(files + [r]) == CountFailed(files) + if r.status == Failed then 1 else 0
    ensures CountSuccessful(files + [r]) == CountSuccessful(files) + if r.status != Failed then 1 else 0
  {
    assert (files + [r])[..|files|] == files;
  }

  /** The records of the loop of main, in caption order. */
  function Files(folder: string, texts: seq<string>, nets: seq<CaptionReplies>): seq<UploadRecord>
    requires |nets| == |texts|
    requires forall k :: 0 <= k < |nets| ==> Scripted(nets[k])
  {
    if texts == [] then []
    else Files(folder, texts[..|texts| - 1], nets[..|nets| - 1]) + [ProcessCaption(folder, texts[|texts| - 1], nets[|nets| - 1])]
  }

  /** files_info holds exactly one record per caption, the k-th for the k-th caption. */
  lemma {:induction false} FilesAt(folder: string, texts: seq<string>, nets: seq<CaptionReplies>)
    requires |nets| == |texts|
    requires forall k :: 0 <= k < |nets| ==> Scripted(nets[k])
    ensures |Files(folder, texts, nets)| == |texts|
    ensures forall k :: 0 <= k < |texts| ==> Files(folder, texts, nets)[k] == ProcessCaption(folder, texts[k], nets[k])
  {
    if texts != [] {
      var n := |texts| - 1;
      FilesAt(folder, texts[..n], nets[..n]);
    }
  }

  /** One pass of the loop body of main: the try block, or the except branch when
      fetching or uploading raised. */
  method ProcessOne(folder: string, text: string, net: CaptionReplies) returns (record: UploadRecord)
    requires Scripted(net)
    ensures record == ProcessCaption(folder, text, net)
  {
    var fetch := CatImages.GetCatImageUrl(text, YaDisk.DefaultMaxRetries, net.fetch);
    if fetch.result.Err? {
      return FailureRecord(folder, text, fetch.result.error);
    }
    var filename := Filename(text);
    var path := DestinationPath(folder, text);
    var upload := YaDisk.UploadFromUrl(YaDisk.DefaultMaxRetries, net.upload);
    if upload.result.Err? {
      return FailureRecord(folder, text, upload.result.error);
    }
    var size := YaDisk.FileSize(net.size);
    var status := if size > 0 then Success else UploadedButSizeUnknown;
    record := UploadRecord(filename, text, size, path, status, None);
  }

  /** The loop of main: one record per caption, in order, and the two counters. */
  method ProcessCaptions(folder: string, texts: seq<string>, nets: seq<CaptionReplies>)
    returns (files: seq<UploadRecord>, successful: nat, failed: nat)
    requires |nets| == |texts|
    requires forall k :: 0 <= k < |nets| ==> Scripted(nets[k])
    ensures files == Files(folder, texts, nets)
    ensures successful == CountSuccessful(files) && failed == CountFailed(files)
    ensures successful + failed == |texts|
  {
    files, successful, failed := [], 0, 0;
    for k := 0 to |texts|
      invariant files == Files(folder, texts[..k], nets[..k])
      invariant successful == CountSuccessful(files) && failed == CountFailed(files)
    {
      var record := ProcessOne(folder, texts[k], nets[k]);
      if record.status == Failed {
        failed := failed + 1;
      } else {
        successful := successful + 1;
      }
      CountAppend(files, record);
      files := files + [record];
      assert texts[..k + 1][..k] == texts[..k] && nets[..k + 1][..k] == nets[..k];
    }
    assert texts[..|texts|] == texts && nets[..|nets|] == nets;
    FilesAt(folder, texts, nets);
    CountsPartition(files);
  }

  datatype Summary = Summary(total: nat, successful: nat, failed: nat, folder: string)

  /** The document main writes to files_info.json. */
  datatype Report = Report(summary: Summary, files: seq<UploadRecord>)

  /** What main decides: its exit code, and the report it builds (None when a
      critical error stops it before the loop). */
  datatype MainOutcome = MainOutcome(exitCode: int, report: Option<Report>)

  /** True when main reaches the loop: the configuration is valid and the folder exists. */
  predicate ReachesLoop(config: Config, check: Reply<int>, create: Reply<int>)
  {
    ValidateConfig(config).Ok? && YaDisk.CreateFolder(check, create).result.Ok?
  }

  /** main: `check` and `create` are the replies to create_folder's GET and PUT,
      `nets[k]` the replies seen while processing caption k. */
  function MainRun(config: Config, check: Reply<int>, create: Reply<int>, nets: seq<CaptionReplies>): MainOutcome
    requires |nets| == |config.catTexts|
    requires forall k :: 0 <= k < |nets| ==> Scripted(nets[k])
  {
    if !ReachesLoop(config, check, create) then
      MainOutcome(1, None)
    else
      var files := Files(config.folder, config.catTexts, nets);
      var failed := CountFailed(files);
      MainOutcome(if failed > 0 then 1 else 0,
                  Some(Report(Summary(|config.catTexts|, CountSuccessful(files), failed, config.folder), files)))
  }

  /** main returns 0 exactly when the configuration is valid, the folder exists and
      every caption was processed without an exception, and 1 otherwise. */
  lemma MainExitCode(config: Config, check: Reply<int>, create: Reply<int>, nets: seq<CaptionReplies>)
    requires |nets| == |config.catTexts|
    requires forall k :: 0 <= k < |nets| ==> Scripted(nets[k])
    ensures var code := MainRun(config, check, create, nets).exitCode;
      && (code == 0 || code == 1)
      && (code == 0 <==>
            ReachesLoop(config, check, create) &&
            forall k :: 0 <= k < |nets| ==> ProcessCaption(config.folder, config.catTexts[k], nets[k]).status != Failed)
  {
    if ReachesLoop(config, check, create) {
      var files := Files(config.folder, config.catTexts, nets);
      FilesAt(config.folder, config.catTexts, nets);
      NoFailureCounted(files);
    }
  }

  /** A report is built exactly when the loop is reached; it holds one record per
      caption, in order, and its counts add up to the total. */
  lemma MainReport(config: Config, check: Reply<int>, create: Reply<int>, nets: seq<CaptionReplies>)
    requires |nets| == |config.catTexts|
    requires forall k :: 0 <= k < |nets| ==> Scripted(nets[k])
    ensures var report := MainRun(config, check, create, nets).report;
      && (report.Some? <==> ReachesLoop(config, check, create))
      && (report.Some? ==>
            && |report.value.files| == report.value.summary.total == |config.catTexts|
            && report.value.summary.successful + report.value.summary.failed == |config.catTexts|
            && forall k :: 0 <= k < |nets| ==> report.value.files[k].text == config.catTexts[k])
  {
    if ReachesLoop(config, check, create) {
      var files := Files(config.folder, config.catTexts, nets);
      FilesAt(config.folder, config.catTexts, nets);
      CountsPartition(files);
      forall k | 0 <= k < |nets|
        ensures files[k].text == config.catTexts[k]
      {
        RecordShape(config.folder, config.catTexts[k], nets[k]);
      }
    }
  }

  /** main itself. `saveSucceeds` says whether writing files_info.json works; the
      report written is returned, and the exit code does not depend on the save. */
  method RunMain(config: Config, check: Reply<int>, create: Reply<int>, nets: seq<CaptionReplies>, saveSucceeds: bool)
    returns (code: int, written: Option<Report>)
    requires |nets| == |config.catTexts|
    requires forall k :: 0 <= k < |nets| ==> Scripted(nets[k])
    ensures code == MainRun(config, check, create, nets).exitCode
    ensures written == if saveSucceeds then MainRun(config, check, create, nets).report else None
  {
    if ValidateConfig(config).Err? {
      return 1, None;
    }
    var folder := YaDisk.CreateFolder(check, create);
    if folder.result.Err? {
      return 1, None;
    }
    var files, successful, failed := ProcessCaptions(config.folder, config.catTexts, nets);
    var report := Report(Summary(|config.catTexts|, successful, failed, config.folder), files);
    written := if saveSucceeds then Some(report) else None;
    code := if failed > 0 then 1 else 0;
  }
}
