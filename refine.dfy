/** The refine endpoint: take pasted text or an uploaded pdf/docx/txt file,
    build the refinement prompt from three style selectors, make one call to
    the language model, strip a leading `# Refined Text:` header from its
    answer, log the result and return it. The parsers, the model and the
    database are oracles passed in as functions. */
module Refine {

  import opened Js
  import opened Utf8
  import opened Http
  import VerifyToken

  // ----- Document extraction -----

  /** What a library parser (pdf-parse, mammoth) gives for a buffer. */
  datatype Parsed = ParsedText(text: string) | Threw

  /** The two library parsers, as oracles that may throw. */
  datatype Parsers = Parsers(pdf: seq<byte> -> Parsed, docx: seq<byte> -> Parsed)

  /** The extensions the endpoint accepts. */
  const Accepted: seq<string> := ["pdf", "docx", "txt"]

  /** `file.originalFilename.split('.').pop().toLowerCase()` */
  function Extension(filename: string): string {
    ToLower(Last(Split(filename, '.')))
  }

  /** The extension is the lower-cased text after the last dot. */
  lemma ExtensionAfterLastDot(stem: string, ext: string)
    requires '.' !in ext
    ensures Extension(stem + "." + ext) == ToLower(ext)
  {
    SplitLast(stem, '.', ext);
  }

  /** A name without a dot is its own extension, lower-cased. */
  lemma ExtensionWithoutDot(name: string)
    requires '.' !in name
    ensures Extension(name) == ToLower(name)
  {
    SplitAlone(name, '.');
  }

  /** `extractTextFromBuffer(buffer, ext)`: never throws; a parser exception
      and an unknown extension both give the empty string. */
  function ExtractText(buffer: seq<byte>, ext: string, parsers: Parsers): (text: string)
    ensures ext == "txt" ==> text == Decode(buffer)
    ensures ext !in Accepted ==> text == ""
    ensures ext == "pdf" ==> text == (if parsers.pdf(buffer).Threw? then "" else parsers.pdf(buffer).text)
    ensures ext == "docx" ==> text == (if parsers.docx(buffer).Threw? then "" else parsers.docx(buffer).text)
  {
    if ext == "pdf" then
      match parsers.pdf(buffer)
      case ParsedText(t) => t
      case Threw => ""
    else if ext == "docx" then
      match parsers.docx(buffer)
      case ParsedText(t) => t
      case Threw => ""
    else if ext == "txt" then Decode(buffer)
    else ""
  }

  /** A text file comes back exactly as the text whose UTF-8 form was uploaded. */
  lemma TxtExtractionRoundTrip(s: string, parsers: Parsers)
    ensures ExtractText(Encode(s), "txt", parsers) == s
  {
    DecodeEncode(s);
  }

  // ----- Selectors and lookup tables -----

  /** `fields[name] || fallback`: an absent or empty field takes the fallback. */
  function FieldOr(fields: map<string, string>, name: string, fallback: string): string {
    if name in fields && fields[name] != "" then fields[name] else fallback
  }

  const ToneSentences: map<string, string> := map[
    "professional" := "Enhance the text to sound more professional, precise, and formal.",
    "friendly" := "Make the text warmer and more conversational.",
    "formal" := "Make it more structured and academically oriented.",
    "casual" := "Relax the tone and make it more personal."
  ]

  const LengthSentences: map<string, string> := map[
    "short" := "Make it shorter and concise.",
    "medium" := "Keep it moderately long.",
    "long" := "Expand and elaborate as needed."
  ]

  const LanguageSentences: map<string, string> := map[
    "English" := "Ensure the text is in standard American English.",
    "Spanish" := "Translate or rephrase into proper Spanish.",
    "German" := "Translate or rephrase into proper German.",
    "French" := "Translate or rephrase into proper French."
  ]

  /** `${ { ...table }[key] }`: the table's own sentence, else an inherited
      member, else `undefined`. */
  function Lookup(table: map<string, string>, key: string): string {
    match ObjectLookup(table, key)
    case Some(printed) => printed
    case None => "undefined"
  }

  /** A selector value the table knows yields its sentence; one it does not
      know, and that no plain object inherits, prints as `undefined`: there
      is no fallback to a default sentence. */
  lemma LookupOutcomes(table: map<string, string>, key: string)
    requires table in {ToneSentences, LengthSentences, LanguageSentences}
    ensures key in table ==> Lookup(table, key) == table[key]
    ensures key !in table && InheritedMember(key).None? ==> Lookup(table, key) == "undefined"
    ensures key !in table && InheritedMember(key).Some? ==> Lookup(table, key) != "undefined"
    ensures Lookup(table, key) in table.Values
      || Lookup(table, key) == "undefined" || InheritedMember(key).Some?
  {
  }

  // ----- Prompt -----

  const PromptHead: string :=
    "\nTask: Refine the following text with specific guidelines:\n\nOriginal Text:\n"
  const ToneHead: string := "\n\nRefinement Guidelines:\n1. Tone: "
  const LengthHead: string := "\n\n2. Length: "
  const LanguageHead: string := "\n\n3. Language: "
  const Instructions: string :=
    "\n\nImportant Instructions:\n- ONLY return the refined email text\n- Do NOT include explanations or metadata\n"

  /** The refinement prompt (a template literal), with the three guideline
      sentences already chosen. */
  function Template(content: string, toneSentence: string, lengthSentence: string,
                    languageSentence: string): string {
    PromptHead + content
    + ToneHead + toneSentence
    + LengthHead + lengthSentence
    + LanguageHead + languageSentence
    + Instructions
  }

  /** The prompt for the chosen tone, length and language. */
  function RefinePrompt(content: string, tone: string, length: string, language: string): string {
    Template(content, Lookup(ToneSentences, tone), Lookup(LengthSentences, length),
             Lookup(LanguageSentences, language))
  }

  /** Where each part sits in the prompt: the text verbatim right after
      `Original Text:`, then the tone, length and language sentences in that
      order, and the output instructions at the very end. */
  lemma PromptLayout(content: string, tt: string, ll: string, gg: string)
    ensures var p := Template(content, tt, ll, gg);
      var c := |PromptHead|;
      var t := c + |content| + |ToneHead|;
      var l := t + |tt| + |LengthHead|;
      var g := l + |ll| + |LanguageHead|;
      && c + |content| <= t <= l <= g
      && |p| == g + |gg| + |Instructions|
      && p[..c] == PromptHead
      && p[c..c + |content|] == content
      && p[t..t + |tt|] == tt
      && p[l..l + |ll|] == ll
      && p[g..g + |gg|] == gg
      && p[g + |gg|..] == Instructions
  {
    Layout(PromptHead, content, ToneHead, tt, LengthHead, ll, LanguageHead, gg, Instructions);
  }

  // ----- Output normalisation -----

  /** The header text the normaliser removes, compared in lower case. */
  const HeaderText: string := "refined text:"

  /** Length of the run of `c` at the front of `s`. */
  function RunOf(s: string, c: char): (n: nat)
    ensures n <= |s|
    ensures forall i :: 0 <= i < n ==> s[i] == c
    ensures n == |s| || s[n] != c
  {
    if s != [] && s[0] == c then 1 + RunOf(s[1..], c) else 0
  }

  /** Length of the run of white space at the front of `s`. */
  function SpaceRun(s: string): (n: nat)
    ensures n <= |s|
    ensures AllSpace(s[..n])
    ensures n == |s| || !IsSpace(s[n])
  {
    if s != [] && IsSpace(s[0]) then
      var n := SpaceRun(s[1..]);
      assert s[..n + 1] == [s[0]] + s[1..][..n];
      n + 1
    else 0
  }

  /** The header words, in any ASCII case, start at position `k` of `s`. */
  predicate WordsAt(s: string, k: nat) {
    k + |HeaderText| <= |s| && ToLower(s[k..k + |HeaderText|]) == HeaderText
  }

  /** Length of the text matched by `/^#+\s*Refined Text:/i`, or 0. */
  function HeaderLength(s: string): nat {
    var h := RunOf(s, '#');
    if h == 0 then 0
    else
      var w := SpaceRun(s[h..]);
      if WordsAt(s, h + w) then h + w + |HeaderText| else 0
  }

  /** `s` starts with `h` hashes, `w` white-space characters and the header
      words in any ASCII case: one way the pattern can match. */
  ghost predicate HeaderAt(s: string, h: nat, w: nat) {
    && h >= 1
    && h + w + |HeaderText| <= |s|
    && (forall i :: 0 <= i < h ==> s[i] == '#')
    && AllSpace(s[h..h + w])
    && WordsAt(s, h + w)
  }

  /** The matcher finds the header exactly when the pattern matches, and the
      match is the only one possible. */
  lemma HeaderLengthMatchesPattern(s: string)
    ensures HeaderLength(s) > 0 ==>
      exists h: nat, w: nat :: HeaderAt(s, h, w) && HeaderLength(s) == h + w + |HeaderText|
    ensures forall h: nat, w: nat :: HeaderAt(s, h, w) ==> HeaderLength(s) == h + w + |HeaderText|
  {
    if HeaderLength(s) > 0 {
      HeaderFound(s);
    }
    forall h: nat, w: nat | HeaderAt(s, h, w) ensures HeaderLength(s) == h + w + |HeaderText| {
      HeaderUnique(s, h, w);
    }
  }

  /** What the matcher finds is a match of the pattern. */
  lemma HeaderFound(s: string)
    requires HeaderLength(s) > 0
    ensures var h := RunOf(s, '#'); var w := SpaceRun(s[h..]);
      HeaderAt(s, h, w) && HeaderLength(s) == h + w + |HeaderText|
  {
    var h0 := RunOf(s, '#');
    var w0 := SpaceRun(s[h0..]);
    assert h0 != 0 && WordsAt(s, h0 + w0);
    HashesThenSpace(s, h0, w0);
  }

  /** The front run of hashes and the white-space run after it, followed
      by the header words, make a match of the pattern. */
  lemma HashesThenSpace(s: string, h: nat, w: nat)
    requires 1 <= h == RunOf(s, '#') && w == SpaceRun(s[h..]) && WordsAt(s, h + w)
    ensures HeaderAt(s, h, w)
  {
    assert s[h..][..w] == s[h..h + w];
  }

  lemma HeaderUnique(s: string, h: nat, w: nat)
    requires HeaderAt(s, h, w)
    ensures HeaderLength(s) == h + w + |HeaderText|
  {
    HeaderWordsStart(s, h, w);
    RunOfIs(s, '#', h);
    SpaceRunIs(s[h..], w);
    HeaderLengthOf(s, h, w);
  }

  /** With the runs the matcher measures followed by the header words, the
      match ends after those words. */
  lemma HeaderLengthOf(s: string, h: nat, w: nat)
    requires 1 <= h == RunOf(s, '#') && w == SpaceRun(s[h..]) && WordsAt(s, h + w)
    ensures HeaderLength(s) == h + w + |HeaderText|
  {
  }

  /** The header words start with a letter: neither a `#` nor white space. */
  lemma HeaderWordsStart(s: string, h: nat, w: nat)
    requires HeaderAt(s, h, w)
    ensures s[h + w] != '#' && !IsSpace(s[h + w])
    ensures forall i :: 0 <= i < w ==> IsSpace(s[h..][i])
  {
    var lower := ToLower(s[h + w..h + w + |HeaderText|]);
    assert lower[0] == 'r';
    assert s[h + w..h + w + |HeaderText|][0] == s[h + w];
    assert forall i :: 0 <= i < w ==> s[h..][i] == s[h..h + w][i];
  }

  /** A run of `c` that stops before a different character is the run found. */
  lemma RunOfIs(s: string, c: char, n: nat)
    requires n < |s| && s[n] != c
    requires forall i :: 0 <= i < n ==> s[i] == c
    ensures RunOf(s, c) == n
  {
  }

  /** A run of white space that stops before a non-space is the run found. */
  lemma SpaceRunIs(t: string, n: nat)
    requires n < |t| && !IsSpace(t[n])
    requires forall i :: 0 <= i < n ==> IsSpace(t[i])
    ensures SpaceRun(t) == n
  {
    var m := SpaceRun(t);
    forall i | 0 <= i < m ensures IsSpace(t[i]) {
      assert t[..m][i] == t[i];
    }
  }

  /** `output?.replace(/^#+\s*Refined Text:/i, '').trim()` */
  function Normalise(output: string): string {
    Trim(output[HeaderLength(output)..])
  }

  /** An answer that does not start with `#` is only trimmed. */
  lemma NormaliseWithoutHash(output: string)
    requires output == [] || output[0] != '#'
    ensures Normalise(output) == Trim(output)
  {
    assert RunOf(output, '#') == 0;
    assert output[0..] == output;
  }

  /** A leading header is removed once, then the rest is trimmed; a second
      header further on is kept. */
  lemma NormaliseStripsHeaderOnce(output: string, h: nat, w: nat)
    requires HeaderAt(output, h, w)
    ensures Normalise(output) == Trim(output[h + w + |HeaderText|..])
  {
    HeaderUnique(output, h, w);
    var k := HeaderLength(output);
    assert Normalise(output) == Trim(output[k..]);
  }

  // ----- Handler -----

  /** Parsed multipart form: text fields and the `file` uploads. */
  datatype Form = Form(fields: map<string, string>, files: seq<Upload>)

  /** A POST to the endpoint; `form` is None when multipart parsing fails. */
  datatype RefineRequest = RefineRequest(httpMethod: string, authorization: Option<string>, form: Option<Form>)

  /** What `result.response.text()` gives, or the message of the exception. */
  datatype ModelReply = Generated(text: string) | ModelError(message: string)


  datatype Settings = Settings(tone: string, length: string, language: string)

  /** The success body `{ refined_email, settings }`. */
  datatype Refined = Refined(refinedEmail: string, settings: Settings)

  /** The calls the handler makes to its collaborators, in order. */
  datatype Effect = CallModel(prompt: string) | InsertLog(row: LogRow)

  /** Selectors with their defaults (lines 63-65). */
  function SettingsOf(fields: map<string, string>): Settings {
    Settings(FieldOr(fields, "tone", "professional"), FieldOr(fields, "length", "medium"),
             FieldOr(fields, "language", "English"))
  }

  /** Where the text to refine comes from: the upload could not be read, its
      extension is outside the whitelist, or the text itself. */
  datatype Source = Unreadable | Unsupported | Content(text: string)

  /** The text to refine. A present file is read first (an uncaught
      rejection), then its extension is checked, then its text extracted;
      without a file, the `text` field or ''. */
  function SourceText(form: Form, parsers: Parsers, read: Reader): Source {
    if |form.files| > 0 then
      var file := form.files[0];
      match read(file)
      case None => Unreadable
      case Some(buffer) =>
        var ext := Extension(file.originalFilename);
        if ext in Accepted then Content(ExtractText(buffer, ext, parsers)) else Unsupported
    else Content(FieldOr(form.fields, "text", ""))
  }

  /** A present file replaces the `text` field, whatever the field says. */
  lemma FileReplacesText(form: Form, parsers: Parsers, read: Reader, text: string)
    requires |form.files| > 0
    ensures SourceText(form, parsers, read) == SourceText(form.(fields := form.fields["text" := text]), parsers, read)
  {
  }

  /** The extension is checked only once the upload has been read: an
      unreadable file ends the request whatever its name. */
  lemma ReadBeforeWhitelist(form: Form, parsers: Parsers, read: Reader)
    requires |form.files| > 0
    ensures read(form.files[0]).None? <==> SourceText(form, parsers, read).Unreadable?
    ensures read(form.files[0]).Some? ==>
      (SourceText(form, parsers, read).Unsupported? <==> Extension(form.files[0].originalFilename) !in Accepted)
  {
  }

  /** The user id the request is served for, when it gets past the method
      check, the token gate, the user-id check and form parsing. */
  function Admitted(req: RefineRequest, verify: VerifyToken.Verifier): Option<int> {
    if req.httpMethod != "POST" || req.form.None? then None
    else VerifyToken.AdmittedUser(req.authorization, verify)
  }

  /** The handler, with `jwt.verify`, the parsers, the model and the log
      insert as oracles. */
  method Handle(req: RefineRequest, verify: VerifyToken.Verifier, parsers: Parsers, read: Reader,
                model: string -> ModelReply, insert: LogRow -> Insert)
    returns (reply: Reply<Refined>, effects: seq<Effect>)
    ensures req.httpMethod != "POST" ==> reply == Error(405, "Method not allowed") && effects == []
    ensures req.httpMethod == "POST" && VerifyToken.Gate(req.authorization, verify).Rejected? ==>
      reply == Error(401, VerifyToken.Gate(req.authorization, verify).error) && effects == []
    ensures (&& req.httpMethod == "POST" && VerifyToken.Gate(req.authorization, verify).Passed?
             && VerifyToken.AdmittedUser(req.authorization, verify).None?) ==>
      reply == Error(401, "No user ID") && effects == []
    ensures req.httpMethod == "POST" && VerifyToken.AdmittedUser(req.authorization, verify).Some? && req.form.None? ==>
      reply == Unhandled && effects == []
    ensures Admitted(req, verify).Some? && SourceText(req.form.value, parsers, read).Unreadable? ==>
      reply == Unhandled && effects == []
    ensures Admitted(req, verify).Some? && SourceText(req.form.value, parsers, read).Unsupported? ==>
      reply == Error(400, "Unsupported file type") && effects == []
    ensures (&& Admitted(req, verify).Some? && SourceText(req.form.value, parsers, read).Content?
             && Trim(SourceText(req.form.value, parsers, read).text) == "") ==>
      reply == Error(400, "No content to refine") && effects == []
    ensures effects != [] <==>
      (&& Admitted(req, verify).Some? && SourceText(req.form.value, parsers, read).Content?
       && Trim(SourceText(req.form.value, parsers, read).text) != "")
    ensures effects != [] ==>
      var s := SettingsOf(req.form.value.fields);
      effects[0] == CallModel(RefinePrompt(SourceText(req.form.value, parsers, read).text, s.tone, s.length, s.language))
    ensures effects != [] && model(effects[0].prompt).ModelError? ==>
      reply == ErrorDetail(500, "Gemini API error", model(effects[0].prompt).message) && |effects| == 1
    ensures effects != [] && model(effects[0].prompt).Generated? ==>
      var refined := Normalise(model(effects[0].prompt).text);
      var row := LogRow(Admitted(req, verify).value, "refined", refined);
      && effects == [effects[0], InsertLog(row)]
      && reply == (if insert(row).InsertFailed? then ErrorDetail(500, "Gemini API error", insert(row).message)
                   else Ok(Refined(refined, SettingsOf(req.form.value.fields))))
  {
    if req.httpMethod != "POST" {
      return Error(405, "Method not allowed"), [];
    }
    var gate := VerifyToken.Gate(req.authorization, verify);
    if gate.Rejected? {
      return Error(401, gate.error), [];
    }
    var userId := gate.user.id;
    if userId.None? || userId.value == 0 {
      return Error(401, "No user ID"), [];
    }
    if req.form.None? {
      return Unhandled, [];
    }
    var form := req.form.value;
    var content := SourceText(form, parsers, read);
    if content.Unreadable? {
      return Unhandled, [];
    }
    if content.Unsupported? {
      return Error(400, "Unsupported file type"), [];
    }
    if Trim(content.text) == "" {
      return Error(400, "No content to refine"), [];
    }
    var settings := SettingsOf(form.fields);
    var prompt := RefinePrompt(content.text, settings.tone, settings.length, settings.language);
    reply, effects := RefineText(userId.value, prompt, settings, model, insert);
  }

  /** The second half of the handler, once the prompt is built: ask the
      model, normalise its answer, log it, and reply. */
  method RefineText(userId: int, prompt: string, settings: Settings,
                    model: string -> ModelReply, insert: LogRow -> Insert)
    returns (reply: Reply<Refined>, effects: seq<Effect>)
    ensures effects != [] && effects[0] == CallModel(prompt)
    ensures model(effects[0].prompt).ModelError? ==>
      reply == ErrorDetail(500, "Gemini API error", model(effects[0].prompt).message) && |effects| == 1
    ensures model(effects[0].prompt).Generated? ==>
      var refined := Normalise(model(effects[0].prompt).text);
      var row := LogRow(userId, "refined", refined);
      && effects == [effects[0], InsertLog(row)]
      && reply == (if insert(row).InsertFailed? then ErrorDetail(500, "Gemini API error", insert(row).message)
                   else Ok(Refined(refined, settings)))
  {
    effects := [CallModel(prompt)];
    var output := model(prompt);
    if output.ModelError? {
      return ErrorDetail(500, "Gemini API error", output.message), effects;
    }
    var refined := Normalise(output.text);
    var row := LogRow(userId, "refined", refined);
    effects := effects + [InsertLog(row)];
    var logged := insert(row);
    if logged.InsertFailed? {
      return ErrorDetail(500, "Gemini API error", logged.message), effects;
    }
    reply := Ok(Refined(refined, settings));
  }
}
