/**
 * The image-generation service: how a file becomes an inline-data request part,
 * how the request parts are assembled, and how the first candidate of the
 * response is scanned for an image.
 *
 * The SDK call itself is not modelled: its reply is an input (`Reply`), and so
 * are the API key (`process.env.API_KEY`) and the data URL the browser's
 * `FileReader` produces for a file.
 */
module GeminiService {
  import opened Optional
  import opened Strings

  /** A part of a request or of a response candidate. `Other` stands for a part
      that carries neither inline data nor text. */
  datatype Part =
    | InlineData(mimeType: string, data: string)
    | Text(text: string)
    | Other

  datatype Candidate = Candidate(parts: seq<Part>)

  /** What the SDK call gives back: a response, or a thrown value. */
  datatype Reply =
    | Response(candidates: seq<Candidate>)
    | Failure(thrown: Thrown)

  /** A value thrown in JavaScript: an `Error` object with its message, or anything else. */
  datatype Thrown = ErrorObject(message: string) | NonError

  /** How the service's promise settles. */
  datatype Outcome = Resolved(uri: string) | Rejected(thrown: Thrown)

  /** An uploaded file as the service sees it: its MIME type and the data URL
      `FileReader.readAsDataURL` produces for its bytes. */
  datatype Upload = Upload(mimeType: string, dataUrl: string)

  /** A data URL always holds the comma that ends its header. */
  type File = f: Upload | ',' in f.dataUrl witness Upload("", ",")

  const MissingKeyMessage := "API_KEY environment variable not set"
  const TextOnlyPrefix := "API returned text instead of an image: "
  const NoImageMessage := "No image data found in the API response."
  const StyleInstruction :=
    "Use this second image as a style " + "reference for the output image's " + "aesthetic, color palette, and mood:"

  /** `process.env.API_KEY` is truthy: present and non-empty. */
  predicate HasKey(apiKey: Option<string>) {
    apiKey.Some? && apiKey.value != ""
  }

  // ---------------------------------------------------------------- data URLs

  /** The data URL the service returns for an inline image. */
  function DataUri(mimeType: string, data: string): string {
    "data:" + mimeType + ";base64" + [','] + data
  }

  /** `dataUrl.split(',')[1]`: the text between the first comma and the next one (or the end). */
  function Base64Payload(dataUrl: string): (payload: string)
    requires ',' in dataUrl
    ensures ',' !in payload
  {
    Split(dataUrl, ',')[1]
  }

  predicate IsBase64Char(c: char) {
    'A' <= c <= 'Z' || 'a' <= c <= 'z' || '0' <= c <= '9' || c == '+' || c == '/' || c == '='
  }

  predicate IsBase64(s: string) {
    forall i :: 0 <= i < |s| ==> IsBase64Char(s[i])
  }

  /** `fileToGenerativePart`: an inline-data part with the file's own MIME type
      and the payload of its data URL. */
  function FileToPart(file: File): (part: Part)
    ensures part.InlineData? && part.mimeType == file.mimeType
    ensures ',' !in part.data
  {
    InlineData(file.mimeType, Base64Payload(file.dataUrl))
  }

  /** The payload is what follows the first comma, up to the next comma. */
  lemma PayloadFollowsFirstComma(header: string, rest: string)
    requires ',' !in header
    ensures Base64Payload(header + [','] + rest) == Split(rest, ',')[0]
    ensures ',' !in rest ==> Base64Payload(header + [','] + rest) == rest
  {
    SplitAtFirst(header, ',', rest);
    if ',' !in rest {
      SplitWithoutSeparator(rest, ',');
    }
  }

  lemma Base64HasNoComma(s: string)
    requires IsBase64(s)
    ensures ',' !in s
  {
  }

  /** Splitting a data URL built as the service builds it recovers the base64 data. */
  lemma PayloadOfDataUri(mimeType: string, data: string)
    requires ',' !in mimeType && IsBase64(data)
    ensures ',' in DataUri(mimeType, data)
    ensures Base64Payload(DataUri(mimeType, data)) == data
  {
    var header := "data:" + mimeType + ";base64";
    assert ',' !in "data:" && ',' !in ";base64";
    assert ',' !in header;
    Base64HasNoComma(data);
    assert DataUri(mimeType, data) == header + [','] + data;
    PayloadFollowsFirstComma(header, data);
  }

  /** A file whose data URL has the standard form becomes exactly the inline part
      the data URL was made from. */
  lemma FileToPartOfDataUri(mimeType: string, data: string)
    requires ',' !in mimeType && IsBase64(data)
    ensures ',' in DataUri(mimeType, data)
    ensures FileToPart(Upload(mimeType, DataUri(mimeType, data))) == InlineData(mimeType, data)
  {
    PayloadOfDataUri(mimeType, data);
  }

  /** The data URI the service resolves with determines the MIME type and the
      data it was built from. */
  lemma DataUriDeterminesPart(mimeType1: string, data1: string, mimeType2: string, data2: string)
    requires ',' !in mimeType1 && IsBase64(data1)
    requires ',' !in mimeType2 && IsBase64(data2)
    requires DataUri(mimeType1, data1) == DataUri(mimeType2, data2)
    ensures mimeType1 == mimeType2 && data1 == data2
  {
    PayloadOfDataUri(mimeType1, data1);
    PayloadOfDataUri(mimeType2, data2);
    var u := DataUri(mimeType1, data1);
    assert |mimeType1| == |mimeType2|;
    assert mimeType1 == u[5..5 + |mimeType1|];
    assert mimeType2 == u[5..5 + |mimeType2|];
  }

  // ---------------------------------------------------------------- request

  /** The request parts: the product image first, then the fixed style
      instruction and the style image when there is one, and the prompt last. */
  function RequestParts(prompt: string, product: File, style: Option<File>): (parts: seq<Part>)
    ensures |parts| == if style.Some? then 4 else 2
    ensures forall k :: 0 <= k < |parts| ==> (parts[k].InlineData? <==> k == 0 || (style.Some? && k == 2))
  {
    [FileToPart(product)]
    + (if style.Some? then [Text(StyleInstruction), FileToPart(style.value)] else [])
    + [Text(prompt)]
  }

  /** The two shapes of a request, and nothing else. */
  lemma RequestShape(prompt: string, product: File, style: Option<File>)
    ensures style.None? ==> RequestParts(prompt, product, style) == [FileToPart(product), Text(prompt)]
    ensures style.Some? ==> RequestParts(prompt, product, style)
                            == [FileToPart(product), Text(StyleInstruction), FileToPart(style.value), Text(prompt)]
  {
  }

  /** The product part is always first, the prompt always last, and the style
      instruction is sent exactly when a style image is. */
  lemma ProductFirstPromptLast(prompt: string, product: File, style: Option<File>)
    ensures var parts := RequestParts(prompt, product, style);
      && parts[0] == FileToPart(product)
      && parts[|parts| - 1] == Text(prompt)
      && (Text(StyleInstruction) in parts[..|parts| - 1] <==> style.Some?)
  {
    var parts := RequestParts(prompt, product, style);
    if style.None? {
      assert parts[..|parts| - 1] == [FileToPart(product)];
    } else {
      assert parts[..|parts| - 1][1] == Text(StyleInstruction);
    }
  }

  // ---------------------------------------------------------------- response

  /** The index of the first inline-data part, or `|parts|` when there is none. */
  function FirstInlineData(parts: seq<Part>): (i: nat)
    ensures i <= |parts|
    ensures i < |parts| ==> parts[i].InlineData?
    ensures forall j :: 0 <= j < i ==> !parts[j].InlineData?
    decreases |parts|
  {
    if |parts| == 0 then 0
    else if parts[0].InlineData? then 0
    else 1 + FirstInlineData(parts[1..])
  }

  /** A part whose `text` is truthy: a text part with non-empty text. */
  predicate HasText(part: Part) {
    part.Text? && part.text != ""
  }

  /** The index of the first part with non-empty text, or `|parts|` when there is none. */
  function FirstText(parts: seq<Part>): (i: nat)
    ensures i <= |parts|
    ensures i < |parts| ==> HasText(parts[i])
    ensures forall j :: 0 <= j < i ==> !HasText(parts[j])
    decreases |parts|
  {
    if |parts| == 0 then 0
    else if HasText(parts[0]) then 0
    else 1 + FirstText(parts[1..])
  }

  /** How the scan of a response settles the service's promise. */
  function ScanOutcome(candidates: seq<Candidate>): (outcome: Outcome)
    ensures outcome.Resolved? ==>
              |candidates| > 0
              && exists p :: p in candidates[0].parts && p.InlineData? && outcome.uri == DataUri(p.mimeType, p.data)
    ensures outcome.Rejected? ==> outcome.thrown.ErrorObject?
    ensures outcome.Rejected? ==>
              || outcome.thrown.message == NoImageMessage
              || (|candidates| > 0
                  && exists p :: p in candidates[0].parts && HasText(p) && outcome.thrown.message == TextOnlyPrefix + p.text)
  {
    if |candidates| == 0 then Rejected(ErrorObject(NoImageMessage))
    else
      var parts := candidates[0].parts;
      var i := FirstInlineData(parts);
      if i < |parts| then
        assert parts[i] in parts;
        Resolved(DataUri(parts[i].mimeType, parts[i].data))
      else
        var k := FirstText(parts);
        if k < |parts| then
          assert parts[k] in parts;
          Rejected(ErrorObject(TextOnlyPrefix + parts[k].text))
        else Rejected(ErrorObject(NoImageMessage))
  }

  /** The first inline-data part of the first candidate wins; whatever follows it,
      and every later candidate, is ignored. */
  lemma FirstImageWins(before: seq<Part>, mimeType: string, data: string, after: seq<Part>, others: seq<Candidate>)
    requires forall j :: 0 <= j < |before| ==> !before[j].InlineData?
    ensures ScanOutcome([Candidate(before + [InlineData(mimeType, data)] + after)] + others)
            == Resolved(DataUri(mimeType, data))
  {
    var parts := before + [InlineData(mimeType, data)] + after;
    var i := FirstInlineData(parts);
    assert parts[|before|].InlineData?;
    assert i == |before|;
  }

  /** Without inline data, the first non-empty text is reported as an error;
      text that comes before an image is never reported. */
  lemma FirstTextReported(before: seq<Part>, t: string, after: seq<Part>, others: seq<Candidate>)
    requires t != ""
    requires forall j :: 0 <= j < |before| ==> !before[j].InlineData? && !HasText(before[j])
    requires forall j :: 0 <= j < |after| ==> !after[j].InlineData?
    ensures ScanOutcome([Candidate(before + [Text(t)] + after)] + others)
            == Rejected(ErrorObject(TextOnlyPrefix + t))
  {
    var parts := before + [Text(t)] + after;
    assert forall j :: 0 <= j < |parts| ==> !parts[j].InlineData?  by {
      forall j | 0 <= j < |parts| ensures !parts[j].InlineData? {
        if j > |before| {
          assert parts[j] == after[j - |before| - 1];
        }
      }
    }
    assert FirstInlineData(parts) == |parts|;
    assert HasText(parts[|before|]);
    assert FirstText(parts) == |before|;
  }

  /** The promise resolves exactly when the first candidate has an inline-data
      part, and then with a data URL whose payload is that part's data. */
  lemma ResolvedIffImage(candidates: seq<Candidate>)
    ensures ScanOutcome(candidates).Resolved?
            <==> |candidates| > 0 && exists p :: p in candidates[0].parts && p.InlineData?
    ensures ScanOutcome(candidates).Resolved? ==>
            var p := candidates[0].parts[FirstInlineData(candidates[0].parts)];
            ScanOutcome(candidates).uri == DataUri(p.mimeType, p.data)
  {
    if |candidates| > 0 {
      var parts := candidates[0].parts;
      var i := FirstInlineData(parts);
      if i < |parts| {
        assert parts[i] in parts;
      }
    }
  }

  /** The "no image data" error: no candidates, or a first candidate with
      neither inline data nor non-empty text. */
  lemma NoImageIffNothingUsable(candidates: seq<Candidate>)
    ensures ScanOutcome(candidates) == Rejected(ErrorObject(NoImageMessage))
            <==> |candidates| == 0 || forall p :: p in candidates[0].parts ==> !p.InlineData? && !HasText(p)
  {
    if |candidates| > 0 {
      var parts := candidates[0].parts;
      var i := FirstInlineData(parts);
      var k := FirstText(parts);
      if i < |parts| {
        assert parts[i] in parts;
      } else if k < |parts| {
        assert parts[k] in parts;
        assert TextOnlyPrefix + parts[k].text != NoImageMessage by {
          assert |TextOnlyPrefix + parts[k].text| > |TextOnlyPrefix|;
          if |TextOnlyPrefix + parts[k].text| == |NoImageMessage| {
            assert (TextOnlyPrefix + parts[k].text)[0] == 'A' != NoImageMessage[0];
          }
        }
      } else {
        forall p | p in parts ensures !p.InlineData? && !HasText(p) {
          var j :| 0 <= j < |parts| && parts[j] == p;
        }
      }
    }
  }

  /** The two passes over `candidates[0].parts`: inline data first, then text. */
  method ScanResponse(candidates: seq<Candidate>) returns (outcome: Outcome)
    ensures outcome == ScanOutcome(candidates)
  {
    if |candidates| > 0 {
      var parts := candidates[0].parts;
      var i := 0;
      while i < |parts|
        invariant 0 <= i <= |parts|
        invariant forall j :: 0 <= j < i ==> !parts[j].InlineData?
      {
        if parts[i].InlineData? {
          assert FirstInlineData(parts) == i;
          return Resolved(DataUri(parts[i].mimeType, parts[i].data));
        }
        i := i + 1;
      }
      assert FirstInlineData(parts) == |parts|;
      i := 0;
      while i < |parts|
        invariant 0 <= i <= |parts|
        invariant forall j :: 0 <= j < i ==> !HasText(parts[j])
      {
        if parts[i].Text? && parts[i].text != "" {
          assert FirstText(parts) == i;
          return Rejected(ErrorObject(TextOnlyPrefix + parts[i].text));
        }
        i := i + 1;
      }
      assert FirstText(parts) == |parts|;
    }
    return Rejected(ErrorObject(NoImageMessage));
  }

  // ---------------------------------------------------------------- the service

  /** How `generateImageWithNanoBanana` settles, given the key and the SDK's reply. */
  function ServiceOutcome(apiKey: Option<string>, reply: Reply): (outcome: Outcome)
    ensures outcome.Resolved? ==> HasKey(apiKey) && reply.Response?
    ensures outcome.Rejected? && outcome.thrown.NonError? ==> HasKey(apiKey) && reply == Failure(NonError)
  {
    if !HasKey(apiKey) then Rejected(ErrorObject(MissingKeyMessage))
    else match reply
      case Response(candidates) => ScanOutcome(candidates)
      case Failure(thrown) => Rejected(thrown)
  }

  /** `generateImageWithNanoBanana`. `request` is the list of parts sent to the
      SDK, or `None` when no request is issued. */
  method GenerateImage(prompt: string, product: File, style: Option<File>, apiKey: Option<string>, reply: Reply)
    returns (outcome: Outcome, request: Option<seq<Part>>)
    ensures request.None? <==> !HasKey(apiKey)
    ensures request.Some? ==> request.value == RequestParts(prompt, product, style)
    ensures outcome == ServiceOutcome(apiKey, reply)
  {
    if apiKey.None? || apiKey.value == "" {
      return Rejected(ErrorObject(MissingKeyMessage)), None;
    }
    var parts: seq<Part> := [];
    var productPart := FileToPart(product);
    parts := parts + [productPart];
    if style.Some? {
      var stylePart := FileToPart(style.value);
      parts := parts + [Text(StyleInstruction)];
      parts := parts + [stylePart];
    }
    parts := parts + [Text(prompt)];
    request := Some(parts);
    match reply
    case Response(candidates) =>
      outcome := ScanResponse(candidates);
    case Failure(thrown) =>
      outcome := Rejected(thrown);
  }

  /** Only whether the key is truthy matters: an empty key behaves like a missing
      one, and the value of a non-empty key never changes the outcome. */
  lemma OnlyKeyPresenceMatters(apiKey1: Option<string>, apiKey2: Option<string>, reply: Reply)
    ensures !HasKey(Some("")) && !HasKey(None)
    ensures HasKey(apiKey1) == HasKey(apiKey2) ==> ServiceOutcome(apiKey1, reply) == ServiceOutcome(apiKey2, reply)
  {
  }

  /** A missing or empty key rejects with its own message whatever the SDK would
      have replied, and only then. */
  lemma MissingKeyFirst(apiKey: Option<string>, reply: Reply)
    ensures !HasKey(apiKey) ==> ServiceOutcome(apiKey, reply) == Rejected(ErrorObject(MissingKeyMessage))
    ensures HasKey(apiKey) && reply.Response? ==> ServiceOutcome(apiKey, reply) != Rejected(ErrorObject(MissingKeyMessage))
  {
    if HasKey(apiKey) && reply.Response? {
      var o := ServiceOutcome(apiKey, reply);
      if o.Rejected? && o.thrown.ErrorObject? {
        var m := o.thrown.message;
        assert m == NoImageMessage || (|m| >= |TextOnlyPrefix| && m[..|TextOnlyPrefix|] == TextOnlyPrefix);
        assert MissingKeyMessage[0] == 'A' && MissingKeyMessage[1] == 'P' && MissingKeyMessage[3] == '_';
        assert TextOnlyPrefix[3] == ' ';
        if m != NoImageMessage {
          assert m[3] == ' ';
        }
      }
    }
  }
}
