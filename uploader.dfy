/**
 * The image intake panel: an image is staged, its text extracted by the model, checked
 * and edited by the user, then handed to the page for translation. The panel reports
 * its busy state to the page and keeps its own abort flag for the extraction call.
 */
module ImageUploader {
  import opened Types
  import opened JsStrings
  import opened GeminiService
  import opened App

  /** Which half of the panel is shown. */
  datatype Step = Upload | Verify

  /** A picked, dropped or pasted file: its MIME type and the data URL a file reader yields for it. */
  datatype File = File(mimeType: string, dataUrl: string)

  /** Only files whose type starts with `image/` are accepted. */
  predicate IsImage(f: File)
    ensures IsImage(f) <==> |f.mimeType| >= 6 && f.mimeType == "image/" + f.mimeType[6..]
  {
    StartsWith(f.mimeType, "image/")
  }

  /** `url.split(',')[1]`: the second comma-separated field, or undefined when there is no comma. */
  function DataPayload(url: string): (r: Option<string>)
    ensures r.Some? <==> ',' in url
    ensures r.Some? ==> ',' !in r.value
  {
    var fields := Split(url, ',');
    if |fields| > 1 then
      assert url[|fields[0]|] == ',' by {
        JoinSplit(url, ',');
        assert url == fields[0] + [','] + Join(fields[1..], [',']);
      }
      Some(fields[1])
    else
      assert Join(fields, [',']) == url by { JoinSplit(url, ','); }
      None
  }

  /** For a data URL `header,data` the payload is exactly the base64 data. */
  lemma DataPayloadOfDataUrl(header: string, data: string)
    requires ',' !in header && ',' !in data
    ensures DataPayload(header + "," + data) == Some(data)
  {
    SplitAfterField(header, ',', data);
    SplitWithoutSeparator(data, ',');
    assert header + "," + data == header + [','] + data;
  }

  /** The panel's state, as a value. */
  datatype Panel = Panel(previewUrl: Option<string>, isExtracting: bool, extractedText: string, step: Step,
                         abortFlag: bool, inFlight: seq<Option<string>>)

  /** `processFile` once the file has been read: anything but an image is ignored; an image is staged afresh. */
  function Staged(p: Panel, f: File): (r: Panel)
    ensures !IsImage(f) ==> r == p
    ensures IsImage(f) ==> r == p.(previewUrl := Some(f.dataUrl), step := Upload, extractedText := [])
  {
    if !IsImage(f) then p else p.(previewUrl := Some(f.dataUrl), step := Upload, extractedText := [])
  }

  /** The first file of a file list, when there is one, is processed; the rest are ignored. */
  function Received(p: Panel, files: seq<File>): (r: Panel)
    ensures files == [] ==> r == p
    ensures files != [] ==> r == Staged(p, files[0])
    ensures r.previewUrl != p.previewUrl ==> files != [] && IsImage(files[0]) && r.previewUrl == Some(files[0].dataUrl)
  {
    if files == [] then p else Staged(p, files[0])
  }

  /**
   * The `i`-th extraction call settles. With the flag raised nothing is applied; otherwise a
   * text (empty when the model gave none) moves the panel to the verify step, a failure
   * leaves text and step alone, and in both cases extraction ends.
   */
  function OcrSettled(p: Panel, i: nat, reply: Reply): (r: Panel)
    requires i < |p.inFlight|
    ensures r.inFlight == RemoveAt(p.inFlight, i)
    ensures p.abortFlag ==> r == p.(inFlight := r.inFlight)
    ensures !p.abortFlag ==> !r.isExtracting
    ensures !p.abortFlag && reply != Failed ==> r.step == Verify && Ok(r.extractedText) == ExtractionOutcome(reply)
    ensures reply == Failed ==> r.step == p.step && r.extractedText == p.extractedText
    ensures r.previewUrl == p.previewUrl && r.abortFlag == p.abortFlag
  {
    var p' := p.(inFlight := RemoveAt(p.inFlight, i));
    if p.abortFlag then p'
    else match ExtractionOutcome(reply)
      case Ok(text) => p'.(extractedText := text, step := Verify, isExtracting := false)
      case ProviderError => p'.(isExtracting := false)
  }

  /** A model that answers with no text moves the panel to the verify step with an empty text. */
  lemma EmptyAnswerVerifiesEmpty(p: Panel, i: nat)
    requires i < |p.inFlight| && !p.abortFlag
    ensures OcrSettled(p, i, Answered(None)).extractedText == []
    ensures OcrSettled(p, i, Answered(None)).step == Verify
  {
  }

  class Uploader {
    /** The page the panel reports to. */
    const host: Translator
    var previewUrl: Option<string>
    var isExtracting: bool
    var extractedText: string
    var step: Step
    var abortFlag: bool
    /** The payloads of the extraction calls started and not yet settled. */
    var inFlight: seq<Option<string>>

    function State(): Panel
      reads this
    {
      Panel(previewUrl, isExtracting, extractedText, step, abortFlag, inFlight)
    }

    constructor (host: Translator)
      ensures this.host == host
      ensures State() == Panel(None, false, [], Upload, false, [])
    {
      this.host := host;
      previewUrl, isExtracting, extractedText, step := None, false, [], Upload;
      abortFlag, inFlight := false, [];
    }

    /** `processFile`, with the file reader's load treated as immediate. */
    method ProcessFile(f: File)
      modifies this
      ensures State() == Staged(old(State()), f)
    {
      if !StartsWith(f.mimeType, "image/") {
        return;
      }
      previewUrl := Some(f.dataUrl);
      step := Upload;
      extractedText := [];
    }

    /** The file input's change and the drop target: the first file, if any, is processed. */
    method ReceiveFiles(files: seq<File>)
      modifies this
      ensures State() == Received(old(State()), files)
    {
      if files != [] {
        ProcessFile(files[0]);
      }
    }

    /** A paste: the first pasted file is processed only when it is an image. */
    method HandlePaste(files: seq<File>)
      modifies this
      ensures State() == Received(old(State()), files)
    {
      if |files| > 0 {
        var file := files[0];
        if StartsWith(file.mimeType, "image/") {
          ProcessFile(file);
        }
      }
    }

    /** `handleOCR`: with nothing (or an empty URL) staged, nothing happens; else extraction starts on the data-URL payload. */
    method HandleOCR()
      requires host.Valid()
      modifies this, host
      ensures host.Valid()
      ensures old(previewUrl).None? || old(previewUrl).value == [] ==>
                State() == old(State()) && host.Snapshot() == old(host.Snapshot())
      ensures old(previewUrl).Some? && old(previewUrl).value != [] ==>
                && State() == old(State()).(isExtracting := true, abortFlag := false,
                                            inFlight := old(inFlight) + [DataPayload(old(previewUrl).value)])
                && host.Snapshot() == old(host.Snapshot()).(loadingState := ExtractingText)
    {
      if previewUrl.None? || previewUrl.value == [] {
        return;
      }
      isExtracting := true;
      host.SetLoading(true);
      abortFlag := false;
      inFlight := inFlight + [DataPayload(previewUrl.value)];
    }

    /** The `i`-th extraction call settles; the page goes idle unless the flag is raised. */
    method OcrSettles(i: nat, reply: Reply)
      requires host.Valid() && i < |inFlight|
      modifies this, host
      ensures host.Valid()
      ensures State() == OcrSettled(old(State()), i, reply)
      ensures host.Snapshot() == if old(abortFlag) then old(host.Snapshot())
                                 else old(host.Snapshot()).(loadingState := Idle)
    {
      inFlight := RemoveAt(inFlight, i);
      if !abortFlag {
        match ExtractionOutcome(reply)
        case Ok(text) =>
          extractedText := text;
          step := Verify;
        case ProviderError =>
      }
      if !abortFlag {
        isExtracting := false;
        host.SetLoading(false);
      }
    }

    /** `handleStopOCR`: raises the flag so the pending result is dropped, and ends the busy state. */
    method HandleStopOCR()
      requires host.Valid()
      modifies this, host
      ensures host.Valid()
      ensures State() == old(State()).(abortFlag := true, isExtracting := false)
      ensures host.Snapshot() == old(host.Snapshot()).(loadingState := Idle)
    {
      abortFlag := true;
      isExtracting := false;
      host.SetLoading(false);
    }

    /** `handleConfirmText`: the page receives the current text, and the panel goes back to an empty upload step. */
    method HandleConfirmText()
      requires host.Valid()
      modifies this, host
      ensures host.Valid()
      ensures host.Snapshot() == Rerun(DepsOf(old(host.Snapshot())),
                                      Begin(old(host.Snapshot()).(inputText := old(extractedText), mode := TextMode),
                                            OcrChain, old(extractedText)))
      ensures State() == old(State()).(extractedText := [], previewUrl := None, step := Upload)
    {
      host.ImageTextExtracted(extractedText);
      extractedText := [];
      previewUrl := None;
      step := Upload;
    }

    /** `clearImage`: no preview, no text, back to the upload step. */
    method ClearImage()
      modifies this
      ensures State() == old(State()).(previewUrl := None, extractedText := [], step := Upload)
    {
      previewUrl := None;
      extractedText := [];
      step := Upload;
    }

    /** The verify step's text area. */
    method EditExtractedText(text: string)
      modifies this
      ensures State() == old(State()).(extractedText := text)
    {
      extractedText := text;
    }
  }
}
