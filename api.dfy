/**
 * The REST layer's own logic: the upload checks, the question checks and
 * defaults of `/query` (JSON body) and `/answer` (query string), and the
 * shaping of the pipeline's result into the response record.
 */
module Api {
  import opened Wrappers
  import opened Strings
  import opened Retrieval
  import opened Synthesis
  import opened Pipeline

  /** `ALLOWED_EXTENSIONS` */
  const AllowedExtensions: set<string> := {"pdf", "wav", "mp3", "mp4", "m4a", "flac", "ogg"}

  /** The same extensions, in the order they are declared. */
  const AllowedListing: seq<string> := ["pdf", "wav", "mp3", "mp4", "m4a", "flac", "ogg"]

  const DefaultTopK: int := 5
  const DefaultScoreThreshold: real := 0.3

  /** The longest chunk text a response shows in full. */
  const PreviewLength: nat := 200

  /** An error response: its HTTP status and its `{error, message}` body. */
  datatype ApiError = ApiError(status: nat, error: string, message: string)

  const NoFilePart := ApiError(400, "No file part in the request", "Please provide a file in the \"file\" field")
  const NoFileSelected := ApiError(400, "No file selected", "Please select a file to upload")
  const NotPdf := ApiError(400, "Invalid file type", "Only PDF files are allowed")
  const NotMedia := ApiError(400, "Invalid file type", "Allowed formats: " + Join(AllowedListing, ", "))
  const NotJson := ApiError(400, "Invalid content type", "Content-Type must be application/json")
  const MissingBodyQuestion := ApiError(400, "Missing question", "Please provide a \"question\" field in the request body")
  const MissingParamQuestion := ApiError(400, "Missing question", "Please provide a \"question\" query parameter")
  const EmptyQuestion := ApiError(400, "Empty question", "Question cannot be empty")

  // ----- file names -----

  /** `allowed_file`: the name has a dot and its last extension, lower-cased, is allowed. */
  predicate AllowedFile(filename: string) {
    '.' in filename && Lower(AfterLast(filename, '.')) in AllowedExtensions
  }

  /** Position `i` holds the last dot of `f`. */
  predicate LastDotAt(f: string, i: int) {
    0 <= i < |f| && f[i] == '.' && '.' !in f[i + 1..]
  }

  lemma LastDotSuffix(f: string, i: int)
    requires LastDotAt(f, i)
    ensures AfterLast(f, '.') == f[i + 1..]
  {
  }

  /**
   * `allowed_file` as the source states it: there is a dot, and the text
   * after the last dot, lower-cased, is one of the allowed extensions.
   */
  lemma AllowedFileIff(f: string)
    ensures AllowedFile(f) <==> exists i :: LastDotAt(f, i) && Lower(f[i + 1..]) in AllowedExtensions
  {
    if '.' in f {
      var r := AfterLast(f, '.');
      var i := |f| - |r| - 1;
      assert LastDotAt(f, i);
      LastDotSuffix(f, i);
    }
  }

  lemma LowerCharDot(c: char)
    ensures LowerChar(c) == '.' <==> c == '.'
  {
  }

  lemma LowerSnoc(s: string, c: char)
    ensures Lower(s + [c]) == Lower(s) + [LowerChar(c)]
  {
  }

  lemma LowerKeepsDots(s: string)
    ensures '.' in Lower(s) <==> '.' in s
  {
    if '.' in Lower(s) {
      var k :| 0 <= k < |s| && Lower(s)[k] == '.';
      LowerCharDot(s[k]);
    }
    if '.' in s {
      var k :| 0 <= k < |s| && s[k] == '.';
      assert Lower(s)[k] == '.';
    }
  }

  /** Lower-casing touches no dot, so it commutes with taking the last extension. */
  lemma {:induction false} LowerAfterLastDot(s: string)
    ensures AfterLast(Lower(s), '.') == Lower(AfterLast(s, '.'))
    decreases |s|
  {
    if s != [] {
      var front, c := s[..|s| - 1], s[|s| - 1];
      assert s == front + [c];
      LowerSnoc(front, c);
      AfterLastSnoc(front, c, '.');
      AfterLastSnoc(Lower(front), LowerChar(c), '.');
      LowerCharDot(c);
      if c == '.' {
        assert Lower([]) == [];
      } else {
        LowerAfterLastDot(front);
        LowerSnoc(AfterLast(front, '.'), c);
      }
    }
  }

  lemma LowerIdempotent(s: string)
    ensures Lower(Lower(s)) == Lower(s)
  {
  }

  /** The extension check ignores case: a name is allowed exactly when its lower-cased form is. */
  lemma AllowedFileIgnoresCase(f: string)
    ensures AllowedFile(f) <==> AllowedFile(Lower(f))
  {
    LowerAfterLastDot(f);
    LowerKeepsDots(f);
    LowerIdempotent(AfterLast(f, '.'));
  }

  /** Case does not matter: `a.MP3` is accepted. */
  lemma UpperCaseExtensionAllowed()
    ensures AllowedFile("a.MP3")
  {
    assert LastDotAt("a.MP3", 1);
    LastDotSuffix("a.MP3", 1);
    assert Lower("MP3") == "mp3";
  }

  /** Only the last extension counts: `a.exe.mp3` is accepted, `a.mp3.exe` is not. */
  lemma OnlyLastExtensionCounts()
    ensures AllowedFile("a.exe.mp3")
    ensures !AllowedFile("a.mp3.exe")
  {
    assert LastDotAt("a.exe.mp3", 5);
    LastDotSuffix("a.exe.mp3", 5);
    assert Lower("mp3") == "mp3";
    assert LastDotAt("a.mp3.exe", 5);
    LastDotSuffix("a.mp3.exe", 5);
    assert Lower("exe") == "exe";
  }

  /** A name without a dot is refused, whatever it spells. */
  lemma NoDotRefused(f: string)
    requires '.' !in f
    ensures !AllowedFile(f)
  {
  }

  /** The check `upload_pdf` makes: `filename.lower().endswith('.pdf')`. */
  predicate IsPdfName(filename: string) {
    EndsWith(Lower(filename), ".pdf")
  }

  /** A name the PDF endpoint accepts would pass the media allow-list too. */
  lemma PdfNameIsAllowed(f: string)
    requires IsPdfName(f)
    ensures AllowedFile(f)
  {
    var i := |f| - 4;
    var low := Lower(f);
    assert low[i..] == ".pdf";
    assert low[i] == '.';
    LowerCharDot(f[i]);
    assert Lower(f[i + 1..]) == low[i + 1..] == "pdf";
    forall k | i + 1 <= k < |f| ensures f[k] != '.' {
      assert low[k] == LowerChar(f[k]);
      assert low[k] == "pdf"[k - i - 1];
      LowerCharDot(f[k]);
    }
    assert LastDotAt(f, i);
    LastDotSuffix(f, i);
  }

  /**
   * The checks of `upload_pdf` before any processing: a file part must be
   * present, its name non-empty, and the name must end in `.pdf` in any case.
   */
  function ValidatePdfUpload(file: Option<string>): (r: Result<string, ApiError>)
    ensures r.Success? <==> file.Some? && IsPdfName(file.value)
    ensures r.Success? ==> r.value == file.value
    ensures file.None? ==> r == Failure(NoFilePart)
    ensures file == Some("") ==> r == Failure(NoFileSelected)
    ensures file.Some? && file.value != "" && !IsPdfName(file.value) ==> r == Failure(NotPdf)
  {
    match file
    case None => Failure(NoFilePart)
    case Some(name) =>
      if name == "" then Failure(NoFileSelected)
      else if !IsPdfName(name) then Failure(NotPdf)
      else Success(name)
  }

  /** The checks of `upload_media`: as for PDFs, with the extension allow-list. */
  function ValidateMediaUpload(file: Option<string>): (r: Result<string, ApiError>)
    ensures r.Success? <==> file.Some? && AllowedFile(file.value)
    ensures r.Success? ==> r.value == file.value
    ensures file.None? ==> r == Failure(NoFilePart)
    ensures file == Some("") ==> r == Failure(NoFileSelected)
    ensures file.Some? && file.value != "" && !AllowedFile(file.value) ==> r == Failure(NotMedia)
  {
    match file
    case None => Failure(NoFilePart)
    case Some(name) =>
      if name == "" then Failure(NoFileSelected)
      else if !AllowedFile(name) then Failure(NotMedia)
      else Success(name)
  }

  // ----- questions -----

  /** The JSON object posted to `/query`; an absent key is `None`. */
  datatype JsonBody = JsonBody(question: Option<string>, topK: Option<int>, scoreThreshold: Option<real>)

  /** A `/query` request: whether it is JSON, and its parsed body (`None` for any falsy body: `null`, `[]`, `0`, `false`, `""`). */
  datatype PostQueryRequest = PostQueryRequest(isJson: bool, data: Option<JsonBody>)

  /**
   * The query string of `/answer`. `topK` and `scoreThreshold` are `None`
   * when the parameter is absent or does not convert to the number type,
   * the two cases in which `request.args.get(..., type=...)` gives the default.
   */
  datatype AnswerRequest = AnswerRequest(question: Option<string>, topK: Option<int>, scoreThreshold: Option<real>)

  /** What reaches `pipeline.query`. */
  datatype QueryParams = QueryParams(question: string, topK: int, scoreThreshold: real)

  function BodyQuestion(req: PostQueryRequest): Option<string> {
    if req.data.Some? then req.data.value.question else None
  }

  /**
   * The checks of `/query`: JSON content type, a `question` key, a question
   * that is not blank; the question is stripped and the defaults applied.
   */
  function ValidatePostQuery(req: PostQueryRequest): (r: Result<QueryParams, ApiError>)
    ensures r.Success? <==> req.isJson && BodyQuestion(req).Some? && !AllSpace(BodyQuestion(req).value)
    ensures !req.isJson ==> r == Failure(NotJson)
    ensures req.isJson && BodyQuestion(req).None? ==> r == Failure(MissingBodyQuestion)
    ensures req.isJson && BodyQuestion(req).Some? && AllSpace(BodyQuestion(req).value) ==> r == Failure(EmptyQuestion)
    ensures r.Success? ==>
      && r.value.question == Strip(BodyQuestion(req).value)
      && r.value.topK == req.data.value.topK.GetOr(DefaultTopK)
      && r.value.scoreThreshold == req.data.value.scoreThreshold.GetOr(DefaultScoreThreshold)
  {
    if !req.isJson then Failure(NotJson)
    else if req.data.None? || req.data.value.question.None? then Failure(MissingBodyQuestion)
    else
      var question := Strip(req.data.value.question.value);
      if question == [] then Failure(EmptyQuestion)
      else Success(QueryParams(question, req.data.value.topK.GetOr(DefaultTopK),
                               req.data.value.scoreThreshold.GetOr(DefaultScoreThreshold)))
  }

  /**
   * The checks of `/answer`: the parameter must be present and non-empty
   * (`not question`), then not blank once stripped.
   */
  function ValidateAnswerRequest(req: AnswerRequest): (r: Result<QueryParams, ApiError>)
    ensures r.Success? <==> req.question.Some? && !AllSpace(req.question.value)
    ensures req.question.None? || req.question == Some("") ==> r == Failure(MissingParamQuestion)
    ensures req.question.Some? && req.question.value != "" && AllSpace(req.question.value) ==> r == Failure(EmptyQuestion)
    ensures r.Success? ==>
      && r.value.question == Strip(req.question.value)
      && r.value.topK == req.topK.GetOr(DefaultTopK)
      && r.value.scoreThreshold == req.scoreThreshold.GetOr(DefaultScoreThreshold)
  {
    if req.question.None? || req.question.value == "" then Failure(MissingParamQuestion)
    else
      var question := Strip(req.question.value);
      if question == [] then Failure(EmptyQuestion)
      else Success(QueryParams(question, req.topK.GetOr(DefaultTopK), req.scoreThreshold.GetOr(DefaultScoreThreshold)))
  }

  /** An accepted question is non-empty and has no surrounding whitespace. */
  lemma AcceptedQuestionIsTrimmed(req: PostQueryRequest)
    ensures ValidatePostQuery(req).Success? ==>
      var q := ValidatePostQuery(req).value.question;
      q != [] && !IsSpace(q[0]) && !IsSpace(q[|q| - 1])
  {
  }

  /**
   * The two endpoints treat a non-empty question alike, with the same
   * parameters; they differ on the empty string, which `/query` calls empty
   * and `/answer` calls missing.
   */
  lemma EndpointsAgree(q: string, topK: Option<int>, threshold: Option<real>)
    ensures q != "" ==>
      ValidatePostQuery(PostQueryRequest(true, Some(JsonBody(Some(q), topK, threshold))))
      == ValidateAnswerRequest(AnswerRequest(Some(q), topK, threshold))
    ensures ValidatePostQuery(PostQueryRequest(true, Some(JsonBody(Some(""), topK, threshold)))) == Failure(EmptyQuestion)
    ensures ValidateAnswerRequest(AnswerRequest(Some(""), topK, threshold)) == Failure(MissingParamQuestion)
  {
    var params := QueryParams(Strip(q), topK.GetOr(DefaultTopK), threshold.GetOr(DefaultScoreThreshold));
    var verdict := if Strip(q) == [] then Failure(EmptyQuestion) else Success(params);
    if q != "" {
      assert ValidatePostQuery(PostQueryRequest(true, Some(JsonBody(Some(q), topK, threshold)))) == verdict;
      assert ValidateAnswerRequest(AnswerRequest(Some(q), topK, threshold)) == verdict;
    }
    assert Strip("") == [];
  }

  // ----- responses -----

  /** One entry of the response's `chunks`. */
  datatype ResponseChunk = ResponseChunk(text: string, source: string, score: real)

  /** The success body of `/query` and `/answer`. */
  datatype QueryResponse = QueryResponse(success: bool, question: string, answer: string,
                                         numChunksRetrieved: nat, chunks: seq<ResponseChunk>)

  /** `text[:200] + '...' if len(text) > 200 else text` */
  function Preview(text: string): (r: string)
    ensures |r| <= PreviewLength + 3
    ensures |text| <= PreviewLength ==> r == text
    ensures |text| > PreviewLength ==> |r| == PreviewLength + 3 && r[..PreviewLength] == text[..PreviewLength] && r[PreviewLength..] == "..."
  {
    if |text| > PreviewLength then text[..PreviewLength] + "..." else text
  }

  function ShapeChunk(c: RetrievedChunk): ResponseChunk {
    ResponseChunk(Preview(c.text), c.source, c.score)
  }

  /**
   * The response built from `pipeline.query`'s result: the count is passed
   * through and every chunk keeps its place, source and score, with its text
   * shortened to a preview.
   */
  function ShapeResponse(question: string, result: QueryResult): (resp: QueryResponse)
    ensures resp.success && resp.question == question && resp.answer == result.answer
    ensures resp.numChunksRetrieved == result.numChunks
    ensures |resp.chunks| == |result.chunks|
    ensures forall k :: 0 <= k < |resp.chunks| ==>
      && resp.chunks[k].source == result.chunks[k].source
      && resp.chunks[k].score == result.chunks[k].score
      && resp.chunks[k].text == Preview(result.chunks[k].text)
  {
    QueryResponse(true, question, result.answer, result.numChunks,
                  seq(|result.chunks|, k requires 0 <= k < |result.chunks| => ShapeChunk(result.chunks[k])))
  }

  // ----- handlers -----

  /** The chunks `pipeline.query` retrieves for `params` from the current collection. */
  ghost function Retrieved(pipeline: RAGPipeline, params: QueryParams): seq<RetrievedChunk>
    reads pipeline`store
  {
    Relevant(pipeline.ranker(pipeline.store, pipeline.encoder(params.question), params.topK), params.scoreThreshold)
  }

  /** The prompts `pipeline.query` sends for `params`: none when nothing was retrieved, one otherwise. */
  ghost function Asked(pipeline: RAGPipeline, params: QueryParams): seq<string>
    reads pipeline`store
  {
    var chunks := Retrieved(pipeline, params);
    if chunks == [] then [] else [Prompt(params.question, chunks)]
  }

  /** The success body both question endpoints send for `params`. */
  ghost function Respond(pipeline: RAGPipeline, params: QueryParams): QueryResponse
    reads pipeline`store
  {
    var chunks := Retrieved(pipeline, params);
    var result := if chunks == [] then Fallback()
                  else QueryResult(AnswerText(pipeline.llm(Prompt(params.question, chunks))), chunks, |chunks|);
    ShapeResponse(params.question, result)
  }

  /** The `try` block of both question endpoints: query the pipeline and shape its result. */
  method Answer(pipeline: RAGPipeline, params: QueryParams) returns (resp: QueryResponse)
    modifies pipeline`prompts
    ensures var chunks := Retrieved(pipeline, params);
      && resp.success && resp.question == params.question
      && resp.numChunksRetrieved == |chunks| == |resp.chunks|
      && (forall k :: 0 <= k < |chunks| ==> resp.chunks[k] == ShapeChunk(chunks[k]))
      && (chunks == [] ==> resp.answer == FallbackAnswer && pipeline.prompts == old(pipeline.prompts))
      && (chunks != [] ==>
            && resp.answer == AnswerText(pipeline.llm(Prompt(params.question, chunks)))
            && pipeline.prompts == old(pipeline.prompts) + [Prompt(params.question, chunks)])
    ensures resp == Respond(pipeline, params)
    ensures pipeline.prompts == old(pipeline.prompts) + Asked(pipeline, params)
  {
    var result := pipeline.Query(params.question, params.topK, params.scoreThreshold);
    resp := ShapeResponse(params.question, result);
  }

  /** `POST /query`: a rejected request never reaches the pipeline; an accepted one is answered with its checked parameters. */
  method PostQuery(pipeline: RAGPipeline, req: PostQueryRequest) returns (resp: Result<QueryResponse, ApiError>)
    modifies pipeline`prompts
    ensures ValidatePostQuery(req).Failure? ==>
      resp == Failure(ValidatePostQuery(req).error) && pipeline.prompts == old(pipeline.prompts)
    ensures ValidatePostQuery(req).Success? ==>
      var p := ValidatePostQuery(req).value;
      && p.topK == req.data.value.topK.GetOr(DefaultTopK)
      && p.scoreThreshold == req.data.value.scoreThreshold.GetOr(DefaultScoreThreshold)
      && resp == Success(Respond(pipeline, p))
      && pipeline.prompts == old(pipeline.prompts) + Asked(pipeline, p)
  {
    var checked := ValidatePostQuery(req);
    if checked.Failure? {
      return Failure(checked.error);
    }
    var body := Answer(pipeline, checked.value);
    resp := Success(body);
  }

  /** `GET /answer`: the same, with the question and numbers taken from the query string. */
  method GetAnswer(pipeline: RAGPipeline, req: AnswerRequest) returns (resp: Result<QueryResponse, ApiError>)
    modifies pipeline`prompts
    ensures ValidateAnswerRequest(req).Failure? ==>
      resp == Failure(ValidateAnswerRequest(req).error) && pipeline.prompts == old(pipeline.prompts)
    ensures ValidateAnswerRequest(req).Success? ==>
      var p := ValidateAnswerRequest(req).value;
      && p.topK == req.topK.GetOr(DefaultTopK)
      && p.scoreThreshold == req.scoreThreshold.GetOr(DefaultScoreThreshold)
      && resp == Success(Respond(pipeline, p))
      && pipeline.prompts == old(pipeline.prompts) + Asked(pipeline, p)
  {
    var checked := ValidateAnswerRequest(req);
    if checked.Failure? {
      return Failure(checked.error);
    }
    var body := Answer(pipeline, checked.value);
    resp := Success(body);
  }
}
