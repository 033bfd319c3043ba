/** The email assistant page: the statistics shown under the current
    draft, the file-size labels, the attachment list, and the guards and
    state changes of the generate, refine and send actions. */
module EmailGeneration {

  import opened Js
  import opened Http
  import Generate

  // ---------------------------------------------------------------------
  // Word statistics

  /** Index of the first white-space character, or `|t|`. */
  function SpaceIndex(t: string): (i: nat)
    ensures i <= |t|
    ensures i < |t| ==> IsSpace(t[i])
    ensures forall k :: 0 <= k < i ==> !IsSpace(t[k])
  {
    if t == [] || IsSpace(t[0]) then 0 else 1 + SpaceIndex(t[1..])
  }

  /** End of the white-space run that starts at `i`. */
  function SpaceRunEnd(t: string, i: nat): (j: nat)
    requires i <= |t|
    ensures i <= j <= |t|
    ensures forall k :: i <= k < j ==> IsSpace(t[k])
    ensures j < |t| ==> !IsSpace(t[j])
    ensures i < |t| && IsSpace(t[i]) ==> j > i
    decreases |t| - i
  {
    if i < |t| && IsSpace(t[i]) then SpaceRunEnd(t, i + 1) else i
  }

  /** `t.split(/\s+/)`: the pieces between maximal white-space runs (an
      empty piece stands before a leading run and after a trailing one). */
  function SplitWhitespace(t: string): (parts: seq<string>)
    ensures |parts| >= 1
    decreases |t|
  {
    var i := SpaceIndex(t);
    if i == |t| then [t] else [t[..i]] + SplitWhitespace(t[SpaceRunEnd(t, i)..])
  }

  /** `.filter(Boolean)` on strings: the non-empty ones, in order. */
  function NonEmpty(parts: seq<string>): (r: seq<string>)
    ensures |r| <= |parts|
    ensures forall k :: 0 <= k < |r| ==> r[k] != ""
  {
    if parts == [] then []
    else (if parts[0] == "" then [] else [parts[0]]) + NonEmpty(parts[1..])
  }

  /** The filter keeps exactly the non-empty pieces. */
  lemma {:induction false} NonEmptyMembers(parts: seq<string>)
    ensures forall x :: x in NonEmpty(parts) <==> x in parts && x != ""
    decreases |parts|
  {
    if parts != [] {
      NonEmptyMembers(parts[1..]);
      assert parts == [parts[0]] + parts[1..];
    }
  }

  /** Filtering a list split in two filters each half, keeping their order;
      with a one-piece list this says the filter keeps exactly the
      non-empty pieces, in order. */
  lemma {:induction false} NonEmptyAppend(a: seq<string>, b: seq<string>)
    ensures NonEmpty(a + b) == NonEmpty(a) + NonEmpty(b)
    decreases |a|
  {
    if a == [] {
      assert a + b == b;
    } else {
      assert (a + b)[1..] == a[1..] + b;
      NonEmptyAppend(a[1..], b);
    }
  }

  /** `text.trim().split(/\s+/).filter(Boolean).length`. */
  function WordCount(text: string): nat {
    |NonEmpty(SplitWhitespace(Trim(text)))|
  }

  /** A word starts at `i`: a non-space character at the front or after a space. */
  predicate RunStart(t: string, i: nat)
    requires i < |t|
  {
    !IsSpace(t[i]) && (i == 0 || IsSpace(t[i - 1]))
  }

  /** The number of word starts among the first `n` positions. */
  function CountStarts(t: string, n: nat): nat
    requires n <= |t|
  {
    if n == 0 then 0 else CountStarts(t, n - 1) + (if RunStart(t, n - 1) then 1 else 0)
  }

  /** Positions past a prefix do not affect the count within it. */
  lemma {:induction false} CountStartsPrefix(t: string, m: nat, n: nat)
    requires n <= m <= |t|
    ensures CountStarts(t[..m], n) == CountStarts(t, n)
  {
    if n > 0 {
      CountStartsPrefix(t, m, n - 1);
      assert t[..m][n - 1] == t[n - 1];
      if n >= 2 {
        assert t[..m][n - 2] == t[n - 2];
      }
    }
  }

  /** White space adds no word start. */
  lemma {:induction false} CountStartsOverSpace(t: string, n: nat, m: nat)
    requires n <= m <= |t|
    requires forall k :: n <= k < m ==> IsSpace(t[k])
    ensures CountStarts(t, m) == CountStarts(t, n)
  {
    if m > n {
      CountStartsOverSpace(t, n, m - 1);
    }
  }

  /** A stretch without white space holds one word start when it is not empty. */
  lemma {:induction false} CountStartsWord(t: string, i: nat)
    requires i <= |t|
    requires forall k :: 0 <= k < i ==> !IsSpace(t[k])
    ensures CountStarts(t, i) == if i > 0 then 1 else 0
  {
    if i > 1 {
      CountStartsWord(t, i - 1);
    }
  }

  /** Counting splits at a position that follows white space (or the front). */
  lemma {:induction false} CountStartsShift(t: string, j: nat, k: nat)
    requires j + k <= |t|
    requires j == 0 || IsSpace(t[j - 1])
    ensures CountStarts(t, j + k) == CountStarts(t, j) + CountStarts(t[j..], k)
  {
    if k > 0 {
      CountStartsShift(t, j, k - 1);
      assert t[j..][k - 1] == t[j + k - 1];
      if k >= 2 {
        assert t[j..][k - 2] == t[j + k - 2];
      }
    }
  }

  /** Splitting on white-space runs and dropping empty pieces yields one
      piece per word start. */
  lemma {:induction false} WordsAreRunStarts(t: string)
    ensures |NonEmpty(SplitWhitespace(t))| == CountStarts(t, |t|)
    decreases |t|
  {
    var i := SpaceIndex(t);
    if i == |t| {
      CountStartsWord(t, i);
    } else {
      var j := SpaceRunEnd(t, i);
      var rest := t[j..];
      NonEmptyCons(t[..i], SplitWhitespace(rest));
      WordsAreRunStarts(rest);
      CountStartsFirstWord(t, i, j);
    }
  }

  /** The filter counts the first piece once when it is not empty. */
  lemma NonEmptyCons(h: string, tail: seq<string>)
    ensures |NonEmpty([h] + tail)| == (if h == "" then 0 else 1) + |NonEmpty(tail)|
  {
    assert ([h] + tail)[1..] == tail;
  }

  /** The word starts of `t` are the one before its first white-space run
      (when that word is not empty) and those after the run. */
  lemma CountStartsFirstWord(t: string, i: nat, j: nat)
    requires i < |t| && i == SpaceIndex(t) && j == SpaceRunEnd(t, i)
    ensures CountStarts(t, |t|) == (if i > 0 then 1 else 0) + CountStarts(t[j..], |t| - j)
  {
    CountStartsShift(t, j, |t| - j);
    CountStartsOverSpace(t, i, j);
    CountStartsWord(t, i);
  }

  /** Dropping leading white space removes no word start. */
  lemma LeadingSpaceKeepsRunStarts(text: string, a: nat)
    requires a <= |text| && AllSpace(text[..a])
    ensures CountStarts(text[a..], |text| - a) == CountStarts(text, |text|)
  {
    forall k | 0 <= k < a ensures IsSpace(text[k]) {
      assert text[..a][k] == text[k];
    }
    CountStartsOverSpace(text, 0, a);
    CountStartsShift(text, a, |text| - a);
  }

  /** Dropping trailing white space removes no word start. */
  lemma TrailingSpaceKeepsRunStarts(t: string, n: nat)
    requires n <= |t| && AllSpace(t[n..])
    ensures CountStarts(t[..n], n) == CountStarts(t, |t|)
  {
    forall k | n <= k < |t| ensures IsSpace(t[k]) {
      assert t[n..][k - n] == t[k];
    }
    CountStartsOverSpace(t, n, |t|);
    CountStartsPrefix(t, n, n);
  }

  /** Trimming removes no word. */
  lemma TrimKeepsRunStarts(text: string)
    ensures CountStarts(Trim(text), |Trim(text)|) == CountStarts(text, |text|)
  {
    var t := TrimStart(text);
    LeadingSpaceKeepsRunStarts(text, |text| - |t|);
    var r := TrimEnd(t);
    TrailingSpaceKeepsRunStarts(t, |r|);
    assert Trim(text) == r;
  }

  /** The word count is the number of maximal runs of non-white-space
      characters in the text. */
  lemma WordCountIsRuns(text: string)
    ensures WordCount(text) == CountStarts(text, |text|)
  {
    WordsAreRunStarts(Trim(text));
    TrimKeepsRunStarts(text);
  }

  /** `Math.ceil(words / 200)`. */
  function ReadTime(words: nat): (minutes: nat)
    ensures minutes * 200 >= words
    ensures minutes > 0 ==> (minutes - 1) * 200 < words
  {
    (words + 199) / 200
  }

  /** The statistics shown for the current draft. */
  datatype EmailStats = EmailStats(characters: nat, words: nat, readTime: nat)

  /** The draft shown: the generated one on tab 0, the refined one otherwise. */
  function CurrentEmail(tab: int, generatedEmail: string, refinedEmail: string): string {
    if tab == 0 then generatedEmail else refinedEmail
  }

  /** `emailStats`. */
  function Stats(tab: int, generatedEmail: string, refinedEmail: string): (s: EmailStats)
    ensures s.characters == |CurrentEmail(tab, generatedEmail, refinedEmail)|
    ensures s.words == CountStarts(CurrentEmail(tab, generatedEmail, refinedEmail),
                                   |CurrentEmail(tab, generatedEmail, refinedEmail)|)
    ensures s.readTime == 0 <==> s.words == 0
    ensures s.readTime * 200 >= s.words && (s.readTime > 0 ==> (s.readTime - 1) * 200 < s.words)
  {
    var current := CurrentEmail(tab, generatedEmail, refinedEmail);
    var words := WordCount(current);
    WordCountIsRuns(current);
    EmailStats(|current|, words, ReadTime(words))
  }

  // ---------------------------------------------------------------------
  // File sizes

  /** A number of tenths written with one decimal, as `toFixed(1)` does. */
  function OneDecimal(tenths: nat): string {
    DecimalString(tenths / 10) + "." + DecimalString(tenths % 10)
  }

  /** `x.toFixed(1)` for `x = bytes / unit`, a quotient a double holds
      exactly: the nearest tenth, halves rounded up. */
  function Tenths(bytes: nat, unit: nat): (n: nat)
    requires unit > 0
    ensures 2 * unit * n <= 20 * bytes + unit < 2 * unit * (n + 1)
  {
    (20 * bytes + unit) / (2 * unit)
  }

  /** `formatFileSize`. */
  function FormatFileSize(bytes: nat): string {
    if bytes < 1024 then DecimalString(bytes) + " B"
    else if bytes < 1048576 then OneDecimal(Tenths(bytes, 1024)) + " KB"
    else OneDecimal(Tenths(bytes, 1048576)) + " MB"
  }

  /** The unit follows the thresholds, and the figure is the size in that
      unit rounded to the nearest tenth. */
  lemma FormatFileSizeUnits(bytes: nat)
    ensures bytes < 1024 ==> FormatFileSize(bytes) == DecimalString(bytes) + " B"
    ensures 1024 <= bytes < 1048576 ==>
      var n := Tenths(bytes, 1024);
      && FormatFileSize(bytes) == OneDecimal(n) + " KB"
      && -512 < 1024 * n - 10 * bytes <= 512
    ensures 1048576 <= bytes ==>
      var n := Tenths(bytes, 1048576);
      && FormatFileSize(bytes) == OneDecimal(n) + " MB"
      && -524288 < 1048576 * n - 10 * bytes <= 524288
  {
    if 1024 <= bytes < 1048576 {
      var n := Tenths(bytes, 1024);
      assert 2048 * n <= 20 * bytes + 1024 < 2048 * n + 2048;
    } else if 1048576 <= bytes {
      var n := Tenths(bytes, 1048576);
      assert 2097152 * n <= 20 * bytes + 1048576 < 2097152 * n + 2097152;
    }
  }

  /** Just under the MB threshold the KB figure rounds up to 1024.0. */
  lemma FormatFileSizeBelowMegabyte()
    ensures Tenths(1048575, 1024) == 10240
  {
  }

  // ---------------------------------------------------------------------
  // Attachment list

  /** `list.filter((_, i) => i !== index)`. */
  function WithoutIndex<T>(list: seq<T>, index: int): (r: seq<T>)
    ensures |r| <= |list|
    decreases |list|
  {
    if list == [] then []
    else (if index == 0 then [] else [list[0]]) + WithoutIndex(list[1..], index - 1)
  }

  /** Filtering drops exactly the element at `index` and keeps the rest in
      order; an index outside the list changes nothing. */
  lemma {:induction false} WithoutIndexDropsOne<T>(list: seq<T>, index: int)
    ensures 0 <= index < |list| ==> WithoutIndex(list, index) == list[..index] + list[index + 1..]
    ensures !(0 <= index < |list|) ==> WithoutIndex(list, index) == list
    decreases |list|
  {
    if list == [] {
    } else if index == 0 {
      WithoutIndexDropsOne(list[1..], -1);
      assert list[..0] + list[1..] == list[1..];
    } else {
      var tail := list[1..];
      WithoutIndexDropsOne(tail, index - 1);
      assert WithoutIndex(list, index) == [list[0]] + WithoutIndex(tail, index - 1);
      if 0 < index < |list| {
        assert tail[..index - 1] == list[1..index];
        assert tail[index - 1 + 1..] == list[index + 1..];
        calc {
          WithoutIndex(list, index);
          [list[0]] + (list[1..index] + list[index + 1..]);
          ([list[0]] + list[1..index]) + list[index + 1..];
          { assert list[..index] == [list[0]] + list[1..index]; }
          list[..index] + list[index + 1..];
        }
      } else {
        assert [list[0]] + tail == list;
      }
    }
  }

  // ---------------------------------------------------------------------
  // Requests

  /** A value appended to a request's form data or JSON body. */
  datatype FormValue = Text(s: string) | File(file: Upload)

  /** A request the page posts: the path and the entries, in order. */
  datatype Request = Request(path: string, entries: seq<(string, FormValue)>)

  /** What `api.post` does: resolve with `response.data` (its string
      fields), or reject with `error.response?.data?.error` and `error.message`. */
  datatype ApiReply = Resolved(data: map<string, string>) | Failed(dataError: Option<string>, message: string)

  /** The snackbar. */
  datatype Snackbar = Snackbar(open: bool, message: string, severity: string)

  /** The text a reply puts on the page under `key`, when it is a non-empty
      string; otherwise the page throws `Empty response from backend`. */
  function Shown(data: map<string, string>, key: string): Option<string> {
    if key in data && data[key] != "" then Some(data[key]) else None
  }

  /** `error.response?.data?.error || error.message`. */
  function FailureText(reply: ApiReply): string {
    match reply
    case Resolved(_) => "Empty response from backend"
    case Failed(dataError, message) =>
      if dataError.Some? && dataError.value != "" then dataError.value else message
  }

  /** The JSON body the generate endpoint answers with. */
  function GenerateBody(r: Generate.GenerateResponse): map<string, string> {
    map["generated_email" := r.generatedEmail]
  }

  /** The page looks for `email_content`, which the generate endpoint never
      sends: every successful generation is reported as an empty response. */
  lemma GeneratedEmailNeverShown(r: Generate.GenerateResponse)
    ensures Shown(GenerateBody(r), "email_content") == None
    ensures FailureText(Resolved(GenerateBody(r))) == "Empty response from backend"
  {
  }

  /** The refine settings the page starts with. */
  datatype Settings = Settings(tone: string, length: string, language: string)

  const DefaultSettings: Settings := Settings("professional", "medium", "English")

  /** The page state. */
  class EmailAssistant {
    var tab: int
    var prompt: string
    var generatedEmail: string
    var emailText: string
    var refinedEmail: string
    var loading: bool
    var sending: bool
    var file: Option<Upload>
    var recipient: string
    var subject: string
    var attachments: seq<Upload>
    var snackbar: Snackbar
    var settings: Settings
    var requests: seq<Request>

    constructor ()
      ensures tab == 0 && prompt == "" && generatedEmail == "" && emailText == "" && refinedEmail == ""
      ensures !loading && !sending && file == None && recipient == "" && subject == ""
      ensures attachments == [] && snackbar == Snackbar(false, "", "success")
      ensures settings == DefaultSettings && requests == []
    {
      tab, prompt, generatedEmail, emailText, refinedEmail := 0, "", "", "", "";
      loading, sending, file, recipient, subject := false, false, None, "", "";
      attachments, snackbar, settings, requests := [], Snackbar(false, "", "success"), DefaultSettings, [];
    }

    /** `resetForm`: clear the prompt, the text to refine and the chosen file. */
    method ResetForm()
      modifies this`prompt, this`emailText, this`file
      ensures prompt == "" && emailText == "" && file == None
    {
      prompt, emailText, file := "", "", None;
    }

    /** `handleTabChange`: switch tab and reset the form; the drafts stay. */
    method HandleTabChange(newValue: int)
      modifies this`tab, this`prompt, this`emailText, this`file
      ensures tab == newValue && prompt == "" && emailText == "" && file == None
    {
      tab := newValue;
      ResetForm();
    }

    /** `handleAttachmentChange`: the new files go after the existing ones. */
    method HandleAttachmentChange(files: seq<Upload>)
      modifies this`attachments
      ensures attachments == old(attachments) + files
      ensures attachments[..|old(attachments)|] == old(attachments)
    {
      attachments := attachments + files;
    }

    /** `removeAttachment`: drop the attachment at `index`. */
    method RemoveAttachment(index: int)
      modifies this`attachments
      ensures 0 <= index < |old(attachments)| ==>
        attachments == old(attachments)[..index] + old(attachments)[index + 1..]
      ensures !(0 <= index < |old(attachments)|) ==> attachments == old(attachments)
    {
      WithoutIndexDropsOne(attachments, index);
      attachments := WithoutIndex(attachments, index);
    }

    /** `generateEmail`, with the request as an oracle. */
    method GenerateEmail(post: Request -> ApiReply)
      modifies this`loading, this`generatedEmail, this`snackbar, this`requests
      ensures prompt == "" ==>
        && loading == old(loading)
        && snackbar == Snackbar(true, "Please enter a prompt.", "error")
        && requests == old(requests) && generatedEmail == old(generatedEmail)
      ensures prompt != "" ==>
        var request := Request("/api/email/generate",
          [("prompt", Text(prompt)), ("tone", Text(settings.tone)),
           ("length", Text(settings.length)), ("language", Text(settings.language))]);
        var reply := post(request);
        && !loading
        && requests == old(requests) + [request]
        && (if reply.Resolved? && Shown(reply.data, "email_content").Some? then
              && generatedEmail == Shown(reply.data, "email_content").value
              && snackbar == Snackbar(true, "Email generated successfully!", "success")
            else
              && generatedEmail == old(generatedEmail)
              && snackbar == Snackbar(true, "Error generating email: " + FailureText(reply), "error"))
    {
      if prompt == "" {
        snackbar := Snackbar(true, "Please enter a prompt.", "error");
        return;
      }
      loading := true;
      var request := Request("/api/email/generate",
        [("prompt", Text(prompt)), ("tone", Text(settings.tone)),
         ("length", Text(settings.length)), ("language", Text(settings.language))]);
      requests := requests + [request];
      var reply := post(request);
      if reply.Resolved? && Shown(reply.data, "email_content").Some? {
        generatedEmail := Shown(reply.data, "email_content").value;
        snackbar := Snackbar(true, "Email generated successfully!", "success");
      } else {
        snackbar := Snackbar(true, "Error generating email: " + FailureText(reply), "error");
      }
      loading := false;
    }

    /** The form data `refineEmail` builds: the file when one is chosen,
        the text otherwise, then the three settings. */
    function RefineEntries(): seq<(string, FormValue)>
      reads this`file, this`emailText, this`settings
    {
      (if file.Some? then [("file", File(file.value))] else [("text", Text(emailText))])
      + [("tone", Text(settings.tone)), ("length", Text(settings.length)), ("language", Text(settings.language))]
    }

    /** `refineEmail`, with the request as an oracle. */
    method RefineEmail(post: Request -> ApiReply)
      modifies this`loading, this`refinedEmail, this`snackbar, this`requests
      ensures file.None? && emailText == "" ==>
        && loading == old(loading)
        && snackbar == Snackbar(true, "Please enter text or upload a file.", "error")
        && requests == old(requests) && refinedEmail == old(refinedEmail)
      ensures file.Some? || emailText != "" ==>
        var request := Request("/api/email/refine", RefineEntries());
        var reply := post(request);
        && !loading
        && requests == old(requests) + [request]
        && (if reply.Resolved? && Shown(reply.data, "refined_email").Some? then
              && refinedEmail == Shown(reply.data, "refined_email").value
              && snackbar == Snackbar(true, "Email refined successfully!", "success")
            else
              && refinedEmail == old(refinedEmail)
              && snackbar == Snackbar(true, "Error refining email: " + FailureText(reply), "error"))
    {
      if file.None? && emailText == "" {
        snackbar := Snackbar(true, "Please enter text or upload a file.", "error");
        return;
      }
      loading := true;
      var request := Request("/api/email/refine", RefineEntries());
      requests := requests + [request];
      var reply := post(request);
      if reply.Resolved? && Shown(reply.data, "refined_email").Some? {
        refinedEmail := Shown(reply.data, "refined_email").value;
        snackbar := Snackbar(true, "Email refined successfully!", "success");
      } else {
        snackbar := Snackbar(true, "Error refining email: " + FailureText(reply), "error");
      }
      loading := false;
    }

    /** A chosen file is sent instead of the text, never beside it. */
    lemma FileSentInsteadOfText()
      requires file.Some?
      ensures RefineEntries()[0] == ("file", File(file.value))
      ensures forall k :: 0 <= k < |RefineEntries()| ==> RefineEntries()[k].0 != "text"
    {
    }

    /** The form data `sendEmail` builds: recipient, subject, body, then one
        `attachments` entry per attachment in list order. */
    function SendEntries(body: string): (entries: seq<(string, FormValue)>)
      reads this`recipient, this`subject, this`attachments
      ensures |entries| == 3 + |attachments|
      ensures entries[..3] == [("recipient", Text(recipient)), ("subject", Text(subject)), ("email_content", Text(body))]
      ensures forall k :: 0 <= k < |attachments| ==> entries[3 + k] == ("attachments", File(attachments[k]))
    {
      [("recipient", Text(recipient)), ("subject", Text(subject)), ("email_content", Text(body))]
      + var files := attachments;
        seq(|files|, k requires 0 <= k < |files| => ("attachments", File(files[k])))
    }

    /** `sendEmail`, with the request as an oracle. */
    method SendEmail(post: Request -> ApiReply)
      modifies this`sending, this`snackbar, this`requests, this`prompt, this`emailText, this`file
      ensures var body := CurrentEmail(tab, generatedEmail, refinedEmail);
        recipient == "" || subject == "" || body == "" ==>
          && sending == old(sending)
          && snackbar == Snackbar(true, "Recipient, subject, and email content are required.", "error")
          && requests == old(requests)
          && prompt == old(prompt) && emailText == old(emailText) && file == old(file)
      ensures var body := CurrentEmail(tab, generatedEmail, refinedEmail);
        recipient != "" && subject != "" && body != "" ==>
          var request := Request("/api/email/send", SendEntries(body));
          var reply := post(request);
          && !sending
          && requests == old(requests) + [request]
          && (if reply.Resolved? then
                && snackbar == Snackbar(true, if Shown(reply.data, "message").Some?
                                              then reply.data["message"] else "Email sent successfully!", "success")
                && prompt == "" && emailText == "" && file == None
              else
                && snackbar == Snackbar(true, "Error sending email: " + FailureText(reply), "error")
                && prompt == old(prompt) && emailText == old(emailText) && file == old(file))
    {
      var body := CurrentEmail(tab, generatedEmail, refinedEmail);
      if recipient == "" || subject == "" || body == "" {
        snackbar := Snackbar(true, "Recipient, subject, and email content are required.", "error");
        return;
      }
      Deliver(Request("/api/email/send", SendEntries(body)), post);
    }

    /** The second half of `sendEmail`, once the form data is built: post it,
        report the outcome and clear the inputs after a success. */
    method Deliver(request: Request, post: Request -> ApiReply)
      modifies this`sending, this`snackbar, this`requests, this`prompt, this`emailText, this`file
      ensures var reply := post(request);
        && !sending
        && requests == old(requests) + [request]
        && (if reply.Resolved? then
              && snackbar == Snackbar(true, if Shown(reply.data, "message").Some?
                                            then reply.data["message"] else "Email sent successfully!", "success")
              && prompt == "" && emailText == "" && file == None
            else
              && snackbar == Snackbar(true, "Error sending email: " + FailureText(reply), "error")
              && prompt == old(prompt) && emailText == old(emailText) && file == old(file))
    {
      sending := true;
      requests := requests + [request];
      var reply := post(request);
      if reply.Resolved? {
        var message := if Shown(reply.data, "message").Some? then reply.data["message"] else "Email sent successfully!";
        snackbar := Snackbar(true, message, "success");
        ResetForm();
      } else {
        snackbar := Snackbar(true, "Error sending email: " + FailureText(reply), "error");
      }
      sending := false;
    }
  }
}
