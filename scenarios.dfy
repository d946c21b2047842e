/** Two end-to-end runs of main, worked out on the model. */
module Scenarios {
  import opened Http
  import opened Driver
  import YaDisk
  import CatImages
  import Retrying

  function Repeat<T>(x: T): seq<T>
  {
    [x, x, x, x]
  }

  /** The image service answers at once with a `url`. */
  function FetchOk(): seq<Reply<Option<string>>>
  {
    Repeat(Answered(Some("/cat/abc")))
  }

  /** The storage service issues an upload link and accepts every POST. */
  function UploadOk(): seq<YaDisk.UploadReplies>
  {
    Repeat(YaDisk.UploadReplies(Answered(Some("https://uploader/target")), Answered("")))
  }

  /** A caption whose image and upload calls succeed at once is
      stored under its own name, with the looked-up size deciding its status. */
  lemma StraightThrough(folder: string, text: string, net: CaptionReplies)
    requires text != []
    requires net.fetch == FetchOk() && net.upload == UploadOk()
    ensures var size := YaDisk.FileSize(net.size);
      ProcessCaption(folder, text, net) ==
        UploadRecord(Filename(text), text, size, DestinationPath(folder, text),
                     if size > 0 then Success else UploadedButSizeUnknown, None)
  {
    assert net.fetch[0] == Answered(Some("/cat/abc"));
    CatImages.FetchAnswered(text, YaDisk.DefaultMaxRetries, net.fetch, 0);
    var outcomes := YaDisk.UploadAttempts(net.upload);
    Retrying.RetryStopsAt(YaDisk.DefaultMaxRetries, outcomes, 0);
    RecordShape(folder, text, net);
  }

  /** A caption whose image call succeeds and whose upload raises a
      RequestException on all four attempts is recorded as failed with that error. */
  lemma UploadTimesOut(folder: string, text: string, net: CaptionReplies, timeout: YaDisk.UploadReplies)
    requires text != []
    requires timeout.link == Transient(Network("timeout"))
    requires net.fetch == FetchOk() && net.upload == Repeat(timeout)
    ensures ProcessCaption(folder, text, net) ==
      UploadRecord(Filename(text), text, 0, DestinationPath(folder, text), Failed,
                   Some(RequestException(Network("timeout"))))
  {
    assert net.fetch[0] == Answered(Some("/cat/abc"));
    CatImages.FetchAnswered(text, YaDisk.DefaultMaxRetries, net.fetch, 0);
    var outcomes := YaDisk.UploadAttempts(net.upload);
    Retrying.RetryExhausted(YaDisk.DefaultMaxRetries, outcomes);
    RecordShape(folder, text, net);
  }

  function HelloWorldReplies(): seq<CaptionReplies>
  {
    [CaptionReplies(FetchOk(), UploadOk(), Answered(Some(1234))),
     CaptionReplies(FetchOk(), UploadOk(), Answered(Some(0)))]
  }

  /** The path of a caption without spaces, spelled out. */
  lemma SpelledPath(folder: string, text: string, spelled: string)
    requires ' ' !in text && spelled == text + ".jpg"
    ensures Filename(text) == spelled
    ensures DestinationPath(folder, text) == "/" + folder + "/" + spelled
  {
    SpacelessCaption(text);
  }

  lemma HelloRecord(folder: string)
    ensures ProcessCaption(folder, "hello", HelloWorldReplies()[0]) ==
      UploadRecord("hello.jpg", "hello", 1234, "/" + folder + "/" + "hello.jpg", Success, None)
  {
    StraightThrough(folder, "hello", HelloWorldReplies()[0]);
    RecordShape(folder, "hello", HelloWorldReplies()[0]);
    SpelledPath(folder, "hello", "hello.jpg");
  }

  lemma WorldRecord(folder: string)
    ensures ProcessCaption(folder, "world", HelloWorldReplies()[1]) ==
      UploadRecord("world.jpg", "world", 0, "/" + folder + "/" + "world.jpg", UploadedButSizeUnknown, None)
  {
    StraightThrough(folder, "world", HelloWorldReplies()[1]);
    RecordShape(folder, "world", HelloWorldReplies()[1]);
    SpelledPath(folder, "world", "world.jpg");
  }

  lemma HelloWorldFiles(folder: string)
    ensures Files(folder, ["hello", "world"], HelloWorldReplies()) == [
      UploadRecord("hello.jpg", "hello", 1234, "/" + folder + "/" + "hello.jpg", Success, None),
      UploadRecord("world.jpg", "world", 0, "/" + folder + "/" + "world.jpg", UploadedButSizeUnknown, None)]
  {
    var nets := HelloWorldReplies();
    HelloRecord(folder);
    WorldRecord(folder);
    var files := Files(folder, ["hello", "world"], nets);
    FilesAt(folder, ["hello", "world"], nets);
    assert files == [files[0], files[1]];
  }

  /** Captions "hello" and "world", everything succeeds, sizes 1234 and 0: two
      successes, the second with unknown size, exit code 0. */
  lemma HelloWorld(folder: string)
    requires folder != []
    ensures
      MainRun(Config("token", folder, ["hello", "world"], true), Answered(200), Transient(Network("unused")), HelloWorldReplies())
      == MainOutcome(0, Some(Report(Summary(2, 2, 0, folder), [
           UploadRecord("hello.jpg", "hello", 1234, "/" + folder + "/" + "hello.jpg", Success, None),
           UploadRecord("world.jpg", "world", 0, "/" + folder + "/" + "world.jpg", UploadedButSizeUnknown, None)])))
  {
    HelloWorldFiles(folder);
    var files := Files(folder, ["hello", "world"], HelloWorldReplies());
    assert files[..1] == [files[0]] && files[..1][..0] == [];
    assert CountFailed(files) == 0 && CountSuccessful(files) == 2;
    assert ReachesLoop(Config("token", folder, ["hello", "world"], true), Answered(200), Transient(Network("unused")));
  }

  function TimeoutReplies(): seq<CaptionReplies>
  {
    [CaptionReplies(FetchOk(), Repeat(YaDisk.UploadReplies(Transient(Network("timeout")), Answered(""))), Answered(Some(1234)))]
  }

  lemma TimeoutFiles(folder: string)
    ensures Files(folder, ["hello"], TimeoutReplies()) == [
      UploadRecord("hello.jpg", "hello", 0, "/" + folder + "/" + "hello.jpg", Failed, Some(RequestException(Network("timeout"))))]
  {
    var nets := TimeoutReplies();
    UploadTimesOut(folder, "hello", nets[0], YaDisk.UploadReplies(Transient(Network("timeout")), Answered("")));
    SpelledPath(folder, "hello", "hello.jpg");
    FilesAt(folder, ["hello"], nets);
    var files := Files(folder, ["hello"], nets);
    assert files[0] == ProcessCaption(folder, "hello", nets[0]);
    assert files == [files[0]];
  }

  /** One caption whose upload raises a RequestException on all four attempts:
      one failure recorded with that error, exit code 1. */
  lemma UploadExhausted(folder: string)
    requires folder != []
    ensures
      MainRun(Config("token", folder, ["hello"], true), Answered(200), Transient(Network("unused")), TimeoutReplies())
      == MainOutcome(1, Some(Report(Summary(1, 0, 1, folder), [
           UploadRecord("hello.jpg", "hello", 0, "/" + folder + "/" + "hello.jpg", Failed,
                        Some(RequestException(Network("timeout"))))])))
  {
    TimeoutFiles(folder);
    var files := Files(folder, ["hello"], TimeoutReplies());
    assert files[..0] == [];
    assert CountFailed(files) == 1 && CountSuccessful(files) == 0;
    var config := Config("token", folder, ["hello"], true);
    assert ReachesLoop(config, Answered(200), Transient(Network("unused")));
    assert MainRun(config, Answered(200), Transient(Network("unused")), TimeoutReplies()) ==
      MainOutcome(1, Some(Report(Summary(1, 0, 1, folder), files)));
  }
}
