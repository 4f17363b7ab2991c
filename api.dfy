/**
 * The OpenRouter chat client of src/lib/api.ts: the Server-Sent Events decoder inside
 * `callOpenRouter`, its error and non-streaming paths, and the file-name helpers
 * `getFileExtension` and `getLanguageFromFilename`.
 *
 * The network and `TextDecoder` are outside the model: a response arrives as the values the
 * client would have read from it, the body as its already-decoded chunks. `JSON.parse` with the
 * property accesses after it is an oracle passed in by the caller.
 */
module Api {
  import opened Wrappers
  import opened Text
  import opened Types
  import Records

  // ===========================================================================
  // Server-Sent Events decoding
  // ===========================================================================

  const DataPrefix := "data: "
  const DoneSentinel := "[DONE]"

  /**
   * `JSON.parse(payload).choices[0]?.delta?.content` for one event payload: `None` when the
   * parse or the access to `choices` throws (the error is swallowed), otherwise the delta
   * content, which is itself `None` when absent.
   */
  type DeltaParser = string -> Option<Option<string>>

  /** `lines.filter(line => line.trim() !== '')`, keeping the order of the lines kept. */
  function NonBlank(lines: seq<string>): (kept: seq<string>)
    ensures forall k :: 0 <= k < |kept| ==> !IsBlank(kept[k]) && kept[k] in lines
    ensures forall k :: 0 <= k < |lines| && !IsBlank(lines[k]) ==> lines[k] in kept
    ensures |kept| <= |lines|
  {
    if lines == [] then []
    else (if IsBlank(lines[0]) then [] else [lines[0]]) + NonBlank(lines[1..])
  }

  /** The lines the decoder looks at in one read: split on '\n', blank ones dropped. */
  function EventLines(chunk: string): (lines: seq<string>)
    ensures forall k :: 0 <= k < |lines| ==> !IsBlank(lines[k]) && '\n' !in lines[k]
    ensures forall k :: 0 <= k < |Split(chunk, '\n')| && !IsBlank(Split(chunk, '\n')[k]) ==>
              Split(chunk, '\n')[k] in lines
    ensures |lines| <= |Split(chunk, '\n')|
  {
    NonBlank(Split(chunk, '\n'))
  }

  /**
   * The delta one line delivers: the non-empty content of a `data: ` line whose payload is not
   * the sentinel and parses. Every other line delivers nothing.
   */
  function LineDelta(line: string, parse: DeltaParser): (delta: Option<string>)
    ensures delta.Some? <==>
              && StartsWith(line, DataPrefix) && line[|DataPrefix|..] != DoneSentinel
              && parse(line[|DataPrefix|..]).Some? && parse(line[|DataPrefix|..]).value.Some?
              && parse(line[|DataPrefix|..]).value.value != ""
    ensures delta.Some? ==> delta == parse(line[|DataPrefix|..]).value
  {
    if !StartsWith(line, DataPrefix) then None
    else
      var payload := line[|DataPrefix|..];
      if payload == DoneSentinel then None
      else
        match parse(payload)
        case Some(Some(content)) => if content != "" then Some(content) else None
        case _ => None
  }

  function OptionToSeq(d: Option<string>): seq<string> {
    if d.Some? then [d.value] else []
  }

  /** The deltas a sequence of lines delivers, in line order; none of them is empty. */
  function LinesDeltas(lines: seq<string>, parse: DeltaParser): (deltas: seq<string>)
    ensures forall k :: 0 <= k < |deltas| ==> deltas[k] != ""
    ensures |deltas| <= |lines|
  {
    if lines == [] then [] else OptionToSeq(LineDelta(lines[0], parse)) + LinesDeltas(lines[1..], parse)
  }

  /** The deltas one read delivers. */
  function ChunkDeltas(chunk: string, parse: DeltaParser): (deltas: seq<string>)
    ensures forall k :: 0 <= k < |deltas| ==> deltas[k] != ""
    ensures |deltas| <= |Split(chunk, '\n')|
  {
    LinesDeltas(EventLines(chunk), parse)
  }

  /** The deltas a whole body delivers: each read on its own, in read order. */
  function StreamDeltas(chunks: seq<string>, parse: DeltaParser): (deltas: seq<string>)
    ensures forall k :: 0 <= k < |deltas| ==> deltas[k] != ""
    ensures chunks == [] ==> deltas == []
  {
    if chunks == [] then [] else ChunkDeltas(chunks[0], parse) + StreamDeltas(chunks[1..], parse)
  }

  // ---------------------------------------------------------------------------
  // Compositionality of the decoder
  // ---------------------------------------------------------------------------

  lemma {:induction false} NonBlankAppend(a: seq<string>, b: seq<string>)
    ensures NonBlank(a + b) == NonBlank(a) + NonBlank(b)
    decreases |a|
  {
    if a == [] {
      assert a + b == b;
    } else {
      assert (a + b)[1..] == a[1..] + b;
      NonBlankAppend(a[1..], b);
    }
  }

  lemma {:induction false} LinesDeltasAppend(a: seq<string>, b: seq<string>, parse: DeltaParser)
    ensures LinesDeltas(a + b, parse) == LinesDeltas(a, parse) + LinesDeltas(b, parse)
    decreases |a|
  {
    if a == [] {
      assert a + b == b;
    } else {
      assert (a + b)[1..] == a[1..] + b;
      LinesDeltasAppend(a[1..], b, parse);
    }
  }

  lemma LinesDeltasSnoc(lines: seq<string>, line: string, parse: DeltaParser)
    ensures LinesDeltas(lines + [line], parse) == LinesDeltas(lines, parse) + OptionToSeq(LineDelta(line, parse))
  {
    LinesDeltasAppend(lines, [line], parse);
  }

  /** Reads are decoded independently: the deltas of a body are those of its parts, in order. */
  lemma {:induction false} StreamDeltasAppend(a: seq<string>, b: seq<string>, parse: DeltaParser)
    ensures StreamDeltas(a + b, parse) == StreamDeltas(a, parse) + StreamDeltas(b, parse)
    decreases |a|
  {
    if a == [] {
      assert a + b == b;
    } else {
      assert (a + b)[1..] == a[1..] + b;
      StreamDeltasAppend(a[1..], b, parse);
    }
  }

  lemma StreamDeltasSnoc(chunks: seq<string>, chunk: string, parse: DeltaParser)
    ensures StreamDeltas(chunks + [chunk], parse) == StreamDeltas(chunks, parse) + ChunkDeltas(chunk, parse)
  {
    StreamDeltasAppend(chunks, [chunk], parse);
    StreamDeltasOfOne(chunk, parse);
  }

  lemma StreamDeltasOfOne(chunk: string, parse: DeltaParser)
    ensures StreamDeltas([chunk], parse) == ChunkDeltas(chunk, parse)
  {
    assert [chunk][1..] == [];
    assert StreamDeltas([chunk], parse) == ChunkDeltas(chunk, parse) + StreamDeltas([], parse);
  }

  /** Within one read, a newline separates what comes before from what comes after. */
  lemma ChunkDeltasAtNewline(a: string, b: string, parse: DeltaParser)
    ensures ChunkDeltas(a + "\n" + b, parse) == ChunkDeltas(a, parse) + ChunkDeltas(b, parse)
  {
    SplitAppend(a, b, '\n');
    NonBlankAppend(Split(a, '\n'), Split(b, '\n'));
    LinesDeltasAppend(EventLines(a), EventLines(b), parse);
  }

  lemma LinesDeltasOfOne(line: string, parse: DeltaParser)
    ensures LinesDeltas([line], parse) == OptionToSeq(LineDelta(line, parse))
  {
    assert [line][1..] == [];
  }

  /** A single line (no newline in it) delivers what LineDelta says, or nothing when blank. */
  lemma ChunkDeltasOfLine(line: string, parse: DeltaParser)
    requires '\n' !in line
    ensures ChunkDeltas(line, parse) == if IsBlank(line) then [] else OptionToSeq(LineDelta(line, parse))
  {
    SplitLast(line, '\n');
    assert [line][1..] == [];
    assert NonBlank([line]) == (if IsBlank(line) then [] else [line]) + NonBlank([]);
    LinesDeltasOfOne(line, parse);
  }

  /** `data: <payload>` is a non-blank data line whose payload is `payload`. */
  lemma DataLine(payload: string)
    ensures StartsWith(DataPrefix + payload, DataPrefix)
    ensures (DataPrefix + payload)[|DataPrefix|..] == payload
    ensures !IsBlank(DataPrefix + payload)
    ensures '\n' !in payload ==> '\n' !in DataPrefix + payload
  {
    var line := DataPrefix + payload;
    assert line[..|DataPrefix|] == DataPrefix;
    assert line[0] == 'd' && !IsJsWhitespace(line[0]);
  }

  // ---------------------------------------------------------------------------
  // What the decoder promises
  // ---------------------------------------------------------------------------

  /**
   * The lines that deliver nothing: blank lines, lines without the `data: ` prefix, the
   * `[DONE]` sentinel, payloads that fail to parse or lack `choices`, and events whose delta
   * content is absent or empty.
   */
  predicate DeliversNothing(line: string, parse: DeltaParser) {
    || IsBlank(line)
    || !StartsWith(line, DataPrefix)
    || line[|DataPrefix|..] == DoneSentinel
    || parse(line[|DataPrefix|..]).None?
    || parse(line[|DataPrefix|..]) == Some(None)
    || parse(line[|DataPrefix|..]) == Some(Some(""))
  }

  lemma SilentLineIsSilent(line: string, parse: DeltaParser)
    requires '\n' !in line
    requires DeliversNothing(line, parse)
    ensures ChunkDeltas(line, parse) == []
  {
    ChunkDeltasOfLine(line, parse);
  }

  /**
   * A line that delivers nothing can be taken out of a read without changing what the read
   * delivers: one malformed event does not abort or disturb the stream around it.
   */
  lemma SilentLineSkipped(before: string, line: string, after: string, parse: DeltaParser)
    requires '\n' !in line
    requires DeliversNothing(line, parse)
    ensures ChunkDeltas(before + "\n" + line + "\n" + after, parse) == ChunkDeltas(before + "\n" + after, parse)
  {
    var rest := line + "\n" + after;
    assert before + "\n" + line + "\n" + after == before + "\n" + rest;
    ChunkDeltasAtNewline(before, rest, parse);
    ChunkDeltasAtNewline(line, after, parse);
    SilentLineIsSilent(line, parse);
    assert ChunkDeltas(rest, parse) == ChunkDeltas(after, parse);
    ChunkDeltasAtNewline(before, after, parse);
  }

  /** Only a non-blank `data: ` line can deliver a delta, and what it delivers is its parsed, non-empty content. */
  lemma DeltaComesFromDataLine(line: string, parse: DeltaParser)
    requires !DeliversNothing(line, parse)
    ensures !IsBlank(line) && StartsWith(line, DataPrefix)
    ensures parse(line[|DataPrefix|..]).Some? && parse(line[|DataPrefix|..]).value.Some?
    ensures LineDelta(line, parse) == parse(line[|DataPrefix|..]).value
    ensures LineDelta(line, parse).Some? && LineDelta(line, parse).value != ""
  {
  }

  /** The sentinel is skipped, not a stop: the lines after it in the same read still deliver. */
  lemma DoneSentinelContinues(before: string, after: string, parse: DeltaParser)
    ensures ChunkDeltas(before + "\n" + (DataPrefix + DoneSentinel) + "\n" + after, parse)
         == ChunkDeltas(before, parse) + ChunkDeltas(after, parse)
  {
    DataLine(DoneSentinel);
    SilentLineSkipped(before, DataPrefix + DoneSentinel, after, parse);
    ChunkDeltasAtNewline(before, after, parse);
  }

  /** A read holding only the sentinel does not end the stream: later chunks still deliver. */
  lemma DoneReadContinues(earlier: seq<string>, later: seq<string>, parse: DeltaParser)
    ensures StreamDeltas(earlier + [DataPrefix + DoneSentinel] + later, parse)
         == StreamDeltas(earlier, parse) + StreamDeltas(later, parse)
  {
    var line := DataPrefix + DoneSentinel;
    DataLine(DoneSentinel);
    SilentLineIsSilent(line, parse);
    StreamDeltasAppend(earlier + [line], later, parse);
    StreamDeltasSnoc(earlier, line, parse);
  }

  /** `data: <payload>` for each payload, one per read. */
  function EventReads(payloads: seq<string>): (chunks: seq<string>)
    ensures |chunks| == |payloads|
    ensures forall k :: 0 <= k < |payloads| ==> chunks[k] == DataPrefix + payloads[k]
  {
    seq(|payloads|, k requires 0 <= k < |payloads| => DataPrefix + payloads[k])
  }

  /**
   * A stream of content events, one per read, each parsing to non-empty content, delivers
   * exactly those contents, in order.
   */
  lemma {:induction false} ContentEventsAllDelivered(payloads: seq<string>, contents: seq<string>, parse: DeltaParser)
    requires |contents| == |payloads|
    requires forall k :: 0 <= k < |payloads| ==>
               '\n' !in payloads[k] && payloads[k] != DoneSentinel
               && parse(payloads[k]) == Some(Some(contents[k])) && contents[k] != ""
    ensures StreamDeltas(EventReads(payloads), parse) == contents
    decreases |payloads|
  {
    if payloads != [] {
      var chunks := EventReads(payloads);
      ContentEventDelivered(payloads[0], contents[0], parse);
      assert chunks[1..] == EventReads(payloads[1..]);
      ContentEventsAllDelivered(payloads[1..], contents[1..], parse);
      assert StreamDeltas(chunks, parse) == ChunkDeltas(chunks[0], parse) + StreamDeltas(chunks[1..], parse);
      assert contents == [contents[0]] + contents[1..];
    }
  }

  /** One read holding one content event delivers its content. */
  lemma ContentEventDelivered(payload: string, content: string, parse: DeltaParser)
    requires '\n' !in payload && payload != DoneSentinel
    requires parse(payload) == Some(Some(content)) && content != ""
    ensures ChunkDeltas(DataPrefix + payload, parse) == [content]
  {
    DataLine(payload);
    ChunkDeltasOfLine(DataPrefix + payload, parse);
  }

  /**
   * Lines are not reassembled across chunks: the same bytes delivered in one read or split in
   * two between `{` and `}` decode differently, because each read is split on its own.
   */
  lemma SplitEventIsLost()
    ensures StreamDeltas(["data: {}"], BracesParser) == ["hi"]
    ensures StreamDeltas(["data: {", "}"], BracesParser) == []
  {
    WholeBracesEvent();
    SplitBracesEvent();
  }

  lemma WholeBracesEvent()
    ensures StreamDeltas(["data: {}"], BracesParser) == ["hi"]
  {
    var line := DataPrefix + "{}";
    DataLine("{}");
    ChunkDeltasOfLine(line, BracesParser);
    assert ChunkDeltas(line, BracesParser) == ["hi"];
    assert StreamDeltas([line], BracesParser) == ChunkDeltas(line, BracesParser) + StreamDeltas([], BracesParser);
    assert line == "data: {}";
  }

  lemma SplitBracesEvent()
    ensures StreamDeltas(["data: {", "}"], BracesParser) == []
  {
    SplitBracesHead();
    SplitBracesTail();
    assert ["data: {", "}"][1..] == ["}"];
  }

  lemma SplitBracesHead()
    ensures ChunkDeltas("data: {", BracesParser) == []
  {
    var first := DataPrefix + "{";
    DataLine("{");
    ChunkDeltasOfLine(first, BracesParser);
    assert first == "data: {";
  }

  lemma SplitBracesTail()
    ensures StreamDeltas(["}"], BracesParser) == []
  {
    assert !StartsWith("}", DataPrefix);
    ChunkDeltasOfLine("}", BracesParser);
    StreamDeltasOfOne("}", BracesParser);
  }

  /** A parser that knows one event, `{}`, carrying the content "hi". */
  function BracesParser(payload: string): Option<Option<string>> {
    if payload == "{}" then Some(Some("hi")) else None
  }

  // ---------------------------------------------------------------------------
  // The decoding loop
  // ---------------------------------------------------------------------------

  /**
   * The body of the `for (const line of lines)` loop, over the lines of one read: each line is
   * classified and every delivered delta is appended to `fullContent` and passed to `onChunk`
   * (the calls are recorded in `emitted`, in call order).
   */
  method DecodeLines(lines: seq<string>, parse: DeltaParser) returns (fullContent: string, emitted: seq<string>)
    ensures emitted == LinesDeltas(lines, parse)
    ensures fullContent == Concat(emitted)
  {
    fullContent, emitted := "", [];
    ghost var done: seq<string> := [];
    for j := 0 to |lines|
      invariant done == lines[..j]
      invariant emitted == LinesDeltas(done, parse)
      invariant fullContent == Concat(emitted)
    {
      var line := lines[j];
      LinesDeltasSnoc(done, line, parse);
      done := done + [line];
      if StartsWith(line, DataPrefix) {
        var data := line[|DataPrefix|..];
        if data == DoneSentinel {
          continue;
        }
        match parse(data)
        case Some(Some(content)) =>
          if content != "" {
            ConcatSnoc(emitted, content);
            fullContent := fullContent + content;
            emitted := emitted + [content];
          }
        case _ =>
      }
    }
    assert done == lines;
  }

  /**
   * The read loop of the streaming path: every read is split into lines, blank ones dropped,
   * and its lines decoded in order. The returned text is the concatenation of exactly the
   * values passed to `onChunk`, and those are the deltas of the whole body.
   */
  method ReadStream(chunks: seq<string>, parse: DeltaParser) returns (fullContent: string, emitted: seq<string>)
    ensures emitted == StreamDeltas(chunks, parse)
    ensures fullContent == Concat(emitted)
  {
    fullContent, emitted := "", [];
    ghost var done: seq<string> := [];
    for i := 0 to |chunks|
      invariant done == chunks[..i]
      invariant emitted == StreamDeltas(done, parse)
      invariant fullContent == Concat(emitted)
    {
      var content, deltas := DecodeLines(EventLines(chunks[i]), parse);
      assert deltas == ChunkDeltas(chunks[i], parse);
      StreamDeltasSnoc(done, chunks[i], parse);
      ConcatAppend(emitted, deltas);
      fullContent := fullContent + content;
      emitted := emitted + deltas;
      done := done + [chunks[i]];
    }
    assert done == chunks;
  }

  // ===========================================================================
  // The whole call
  // ===========================================================================

  /** The body of an ok response: the decoded chunks, and whether the read after them rejects. */
  datatype Body = Body(chunks: seq<string>, readRejects: bool)

  /** An HTTP response, as the values the client reads from it. */
  datatype Response = Response(
    ok: bool,
    /** `(await response.json()).error?.message`, read when the response is not ok */
    errorMessage: Option<string>,
    /** `data.choices[0]?.message?.content` of an ok, non-streamed response; `None` when that throws */
    completion: Option<Option<string>>,
    /** `response.body?.getReader()`, as the chunks it yields */
    body: Option<Body>)

  datatype CallError =
    | Failed(message: string)     // an Error thrown by the client itself
    | NetworkFailure              // `fetch` or a read rejected
    | MalformedResponse           // reading the non-streamed response threw

  /** What the client sends: endpoint, credentials, title, and the `{ model, messages, stream }` body. */
  datatype Request = Request(url: string, authorization: string, title: string,
                             model: string, messages: seq<WireMessage>, stream: bool)

  const CompletionsSuffix := "/chat/completions"
  const AppTitle := "Nuzantara Studio PRO"
  const GenericFailure := "API request failed"
  const UnreadableBody := "Response body is not readable"

  function BuildRequest(config: OpenRouterConfig, messages: seq<WireMessage>, streaming: bool): (req: Request)
    ensures StartsWith(req.url, config.baseUrl) && req.url[|config.baseUrl|..] == CompletionsSuffix
    ensures req.authorization == "Bearer " + config.apiKey
    ensures req.model == config.model && req.messages == messages && req.stream == streaming
  {
    var url := config.baseUrl + CompletionsSuffix;
    assert url[..|config.baseUrl|] == config.baseUrl;
    Request(url, "Bearer " + config.apiKey, AppTitle, config.model, messages, streaming)
  }

  /**
   * The message of the error a non-ok response raises: the provider's own message when it is
   * present and non-empty, the generic one otherwise; never empty.
   */
  function ErrorMessage(providerMessage: Option<string>): (message: string)
    ensures message != ""
    ensures message != GenericFailure ==> providerMessage == Some(message)
    ensures providerMessage.Some? && providerMessage.value != "" ==> message == providerMessage.value
  {
    match providerMessage
    case Some(m) => if m != "" then m else GenericFailure
    case None => GenericFailure
  }

  /** The non-streamed result: the message content, `''` when absent or empty, an error when reading it threw. */
  function CompletionText(completion: Option<Option<string>>): (r: Result<string, CallError>)
    ensures r.Err? <==> completion.None?
    ensures r.Err? ==> r.error == MalformedResponse
    ensures r.Ok? && r.value != "" ==> completion == Some(Some(r.value))
    ensures completion.Some? ==> r == Ok(completion.value.GetOr(""))
  {
    match completion
    case None => Err(MalformedResponse)
    case Some(None) => Ok("")
    case Some(Some(c)) => Ok(c)
  }

  /**
   * `callOpenRouter(config, messages, onChunk?)`. `streaming` says whether `onChunk` was given;
   * `response` is `None` when `fetch` rejects. The values passed to `onChunk` are returned in
   * `emitted`, in call order.
   */
  method CallOpenRouter(config: OpenRouterConfig, messages: seq<WireMessage>, streaming: bool,
                        response: Option<Response>, parse: DeltaParser)
    returns (request: Request, result: Result<string, CallError>, emitted: seq<string>)
    ensures request == BuildRequest(config, messages, streaming)
    ensures request.stream == streaming
    // failures before any chunk
    ensures response.None? ==> result == Err(NetworkFailure) && emitted == []
    ensures response.Some? && !response.value.ok ==>
              result == Err(Failed(ErrorMessage(response.value.errorMessage))) && emitted == []
    ensures response.Some? && response.value.ok && streaming && response.value.body.None? ==>
              result == Err(Failed(UnreadableBody)) && emitted == []
    // the non-streaming path
    ensures response.Some? && response.value.ok && !streaming ==>
              result == CompletionText(response.value.completion) && emitted == []
    // the streaming path
    ensures response.Some? && response.value.ok && streaming && response.value.body.Some? ==>
              && emitted == StreamDeltas(response.value.body.value.chunks, parse)
              && result == if response.value.body.value.readRejects then Err(NetworkFailure) else Ok(Concat(emitted))
    // the concatenation law
    ensures streaming && result.Ok? ==> result.value == Concat(emitted)
    ensures !streaming ==> emitted == []
  {
    request := BuildRequest(config, messages, streaming);
    emitted := [];
    if response.None? {
      return request, Err(NetworkFailure), [];
    }
    var resp := response.value;
    if !resp.ok {
      return request, Err(Failed(ErrorMessage(resp.errorMessage))), [];
    }
    if streaming {
      if resp.body.None? {
        return request, Err(Failed(UnreadableBody)), [];
      }
      var fullContent;
      fullContent, emitted := ReadStream(resp.body.value.chunks, parse);
      if resp.body.value.readRejects {
        result := Err(NetworkFailure);
      } else {
        result := Ok(fullContent);
      }
    } else {
      result := CompletionText(resp.completion);
    }
  }

  // ===========================================================================
  // File names
  // ===========================================================================

  /**
   * `getFileExtension`: the text after the last `.` when the name has one (possibly empty,
   * as for "notes."), and `''` for a name without a dot.
   */
  function GetFileExtension(filename: string): (ext: string)
    ensures '.' !in ext
    ensures '.' !in filename ==> ext == ""
    ensures '.' in filename ==> exists k :: 0 <= k < |filename| && filename[k] == '.' && ext == filename[k + 1..]
  {
    var parts := Split(filename, '.');
    SplitLast(filename, '.');
    if |parts| > 1 then Last(parts) else ""
  }

  /** The extension-to-language table of `getLanguageFromFilename`. */
  const LanguageMap: map<string, string> := map[
    "js" := "javascript", "jsx" := "javascript", "ts" := "typescript", "tsx" := "typescript",
    "json" := "json", "html" := "html", "css" := "css", "scss" := "scss", "md" := "markdown",
    "py" := "python", "rb" := "ruby", "go" := "go", "rs" := "rust", "java" := "java",
    "cpp" := "cpp", "c" := "c", "sh" := "shell", "yml" := "yaml", "yaml" := "yaml",
    "xml" := "xml", "sql" := "sql", "txt" := "plaintext"]

  const PlainText := "plaintext"

  /**
   * `getLanguageFromFilename`, as intended: the table's language for the lower-cased extension,
   * `'plaintext'` for an extension the table does not list (see LanguageLookupAsWritten for
   * what the code does with names `Object.prototype` defines).
   */
  function GetLanguageFromFilename(filename: string): (language: string)
    ensures language in LanguageMap.Values
    ensures language != PlainText ==> ToLower(GetFileExtension(filename)) in LanguageMap
    ensures language != PlainText ==> LanguageMap[ToLower(GetFileExtension(filename))] == language
    ensures '.' !in filename ==> language == PlainText
    ensures ToLower(GetFileExtension(filename)) in LanguageMap ==>
              language == LanguageMap[ToLower(GetFileExtension(filename))]
    ensures ToLower(GetFileExtension(filename)) !in LanguageMap ==> language == PlainText
  {
    var ext := ToLower(GetFileExtension(filename));
    assert LanguageMap["txt"] == PlainText;
    if ext in LanguageMap then LanguageMap[ext] else PlainText
  }

  /** What `languageMap[ext]` evaluates to in JavaScript: a table entry, or a member every object inherits. */
  datatype LookupValue = Language(name: string) | InheritedMember(member: string)

  /**
   * `getLanguageFromFilename` as written: `languageMap[ext] || 'plaintext'` also finds the
   * members of `Object.prototype`, so an extension like `constructor` yields a function
   * instead of a language name.
   */
  function LanguageLookupAsWritten(filename: string): (value: LookupValue)
    ensures value.InheritedMember? ==>
              var ext := ToLower(GetFileExtension(filename));
              ext !in LanguageMap && ext in Records.ObjectPrototypeMembers && value.member == ext
    ensures value.Language? ==> value.name in LanguageMap.Values
  {
    var ext := ToLower(GetFileExtension(filename));
    assert LanguageMap["txt"] == PlainText;
    if ext in LanguageMap then Language(LanguageMap[ext])
    else if ext in Records.ObjectPrototypeMembers then InheritedMember(ext)
    else Language(PlainText)
  }

  /** Outside the inherited names, the code as written and the intended lookup agree. */
  lemma LookupAgreesOffPrototype(filename: string)
    requires ToLower(GetFileExtension(filename)) !in Records.ObjectPrototypeMembers
    ensures LanguageLookupAsWritten(filename) == Language(GetLanguageFromFilename(filename))
  {
  }

  /** `main.constructor` gets `Object.prototype.constructor` from the code as written, `plaintext` as intended. */
  lemma ConstructorExtensionFound()
    ensures LanguageLookupAsWritten("main.constructor") == InheritedMember("constructor")
    ensures GetLanguageFromFilename("main.constructor") == PlainText
  {
    ConstructorExtension();
    ConstructorIsInherited();
  }

  lemma ConstructorExtension()
    ensures ToLower(GetFileExtension("main.constructor")) == "constructor"
  {
    ConstructorExtensionName();
    ConstructorLower();
  }

  lemma ConstructorLower()
    ensures ToLower("constructor") == "constructor"
  {
    LowerUnchanged("constructor");
  }

  lemma ConstructorExtensionName()
    ensures GetFileExtension("main.constructor") == "constructor"
  {
    ExtensionOfDotted("main", "constructor");
    assert "main.constructor" == "main" + "." + "constructor";
  }

  lemma ConstructorIsInherited()
    ensures "constructor" !in LanguageMap && "constructor" in Records.ObjectPrototypeMembers
  {
  }

  /** A string without upper-case letters is its own lower case. */
  lemma LowerUnchanged(s: string)
    requires forall i :: 0 <= i < |s| ==> !IsAsciiUpper(s[i])
    ensures ToLower(s) == s
  {
  }

  /** The extension of `base.ext`, for an `ext` without a dot, is `ext`. */
  lemma ExtensionOfDotted(base: string, ext: string)
    requires '.' !in ext
    ensures GetFileExtension(base + "." + ext) == ext
  {
    SplitAppend(base, ext, '.');
    SplitLast(ext, '.');
    assert base + "." + ext == base + ['.'] + ext;
  }

  /** Upper-case extensions are looked up in lower case. */
  lemma UpperCaseExtension()
    ensures GetLanguageFromFilename("App.TSX") == "typescript"
  {
    TsxExtension();
    TsxEntry();
  }

  lemma TsxEntry()
    ensures "tsx" in LanguageMap && LanguageMap["tsx"] == "typescript"
  {
  }

  lemma TsxExtension()
    ensures ToLower(GetFileExtension("App.TSX")) == "tsx"
  {
    ExtensionOfDotted("App", "TSX");
    assert "App.TSX" == "App" + "." + "TSX";
    assert ToLower("TSX") == "tsx";
  }

  lemma JsExtension()
    ensures GetLanguageFromFilename("index.js") == "javascript"
  {
    JsExtensionName();
    JsEntry();
  }

  lemma JsEntry()
    ensures "js" in LanguageMap && LanguageMap["js"] == "javascript"
  {
  }

  lemma JsExtensionName()
    ensures ToLower(GetFileExtension("index.js")) == "js"
  {
    ExtensionOfDotted("index", "js");
    assert "index.js" == "index" + "." + "js";
    LowerUnchanged("js");
  }

  /** A name without a dot has no extension and is plain text. */
  lemma NoExtension()
    ensures GetFileExtension("Makefile") == ""
    ensures GetLanguageFromFilename("Makefile") == PlainText
  {
    assert '.' !in "Makefile";
  }
}
