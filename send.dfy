/** The send endpoint: check the three required fields, collect the
    uploaded attachments, send one message whose plain-text part is the
    content with its tags stripped, and only then log the `sent` action. */
module Send {

  import opened Js
  import opened Utf8
  import opened Http
  import VerifyToken

  // ---------------------------------------------------------------------
  // Required fields

  /** A form field read as `fields.name`: None stands for `undefined`. */
  function Field(fields: map<string, string>, name: string): Option<string> {
    if name in fields then Some(fields[name]) else None
  }

  /** `!recipient || !subject || !emailContent` fails. */
  predicate HasRequired(fields: map<string, string>) {
    && Field(fields, "recipient") != None && Field(fields, "recipient") != Some("")
    && Field(fields, "subject") != None && Field(fields, "subject") != Some("")
    && Field(fields, "email_content") != None && Field(fields, "email_content") != Some("")
  }

  /** The check passes exactly when all three fields are present and non-empty. */
  lemma HasRequiredMeansNonEmpty(fields: map<string, string>)
    ensures HasRequired(fields) <==>
      forall name :: name in ["recipient", "subject", "email_content"] ==>
        name in fields && fields[name] != ""
  {
    var names := ["recipient", "subject", "email_content"];
    if HasRequired(fields) {
      forall name | name in names ensures name in fields && fields[name] != "" {
        assert name == names[0] || name == names[1] || name == names[2];
      }
    }
    if forall name :: name in names ==> name in fields && fields[name] != "" {
      assert names[0] in names && names[1] in names && names[2] in names;
    }
  }

  // ---------------------------------------------------------------------
  // Tag stripping

  /** `content.replace(/<[^>]*>/g, '')`: each `<` that has a `>` somewhere
      after it is removed together with everything up to and including the
      first such `>`; a `<` with no later `>` stays, as does the rest. */
  function StripTags(s: string): (r: string)
    ensures |r| <= |s|
    decreases |s|
  {
    if s == [] then []
    else if s[0] == '<' && '>' in s then StripTags(s[IndexOf(s, '>') + 1..])
    else [s[0]] + StripTags(s[1..])
  }

  /** No `<` is followed, anywhere later, by a `>`. */
  predicate TagFree(s: string) {
    forall i, j :: 0 <= i < j < |s| && s[i] == '<' ==> s[j] != '>'
  }

  /** Stripping only deletes characters: it never introduces one. */
  lemma {:induction false} StripTagsSubset(s: string, c: char)
    requires c in StripTags(s)
    ensures c in s
    decreases |s|
  {
    if s[0] == '<' && '>' in s {
      var k := IndexOf(s, '>') + 1;
      StripTagsSubset(s[k..], c);
      assert c in s[k..];
    } else if c != s[0] {
      StripTagsSubset(s[1..], c);
    }
  }

  /** Text without a `<` is left unchanged. */
  lemma {:induction false} StripTagsNoOpen(s: string)
    requires '<' !in s
    ensures StripTags(s) == s
    decreases |s|
  {
    if s != [] {
      StripTagsNoOpen(s[1..]);
    }
  }

  /** The stripped text holds no `<` that a later `>` could close. */
  lemma {:induction false} StripTagsTagFree(s: string)
    ensures TagFree(StripTags(s))
    decreases |s|
  {
    if s == [] {
    } else if s[0] == '<' && '>' in s {
      StripTagsTagFree(s[IndexOf(s, '>') + 1..]);
    } else {
      var tail := StripTags(s[1..]);
      StripTagsTagFree(s[1..]);
      var r := StripTags(s);
      assert r == [s[0]] + tail;
      forall i, j | 0 <= i < j < |r| && r[i] == '<' ensures r[j] != '>' {
        if i == 0 {
          assert '>' !in s;
          if r[j] == '>' {
            assert tail[j - 1] == '>';
            StripTagsSubset(s[1..], '>');
          }
        } else {
          assert tail[i - 1] == '<';
        }
      }
    }
  }

  /** Tag-free text is a fixed point of stripping. */
  lemma {:induction false} StripTagsFixed(s: string)
    requires TagFree(s)
    ensures StripTags(s) == s
    decreases |s|
  {
    if s != [] {
      if s[0] == '<' {
        TagFreeOpenUnclosed(s);
      }
      TagFreeTail(s);
      StripTagsFixed(s[1..]);
      assert s == [s[0]] + s[1..];
    }
  }

  /** In tag-free text a leading `<` is never closed. */
  lemma TagFreeOpenUnclosed(s: string)
    requires TagFree(s) && s != [] && s[0] == '<'
    ensures '>' !in s
  {
    forall j | 0 <= j < |s| ensures s[j] != '>' {
      if j > 0 {
        assert s[0] == '<';
      }
    }
  }

  /** Dropping the first character keeps text tag-free. */
  lemma TagFreeTail(s: string)
    requires TagFree(s) && s != []
    ensures TagFree(s[1..])
  {
    forall i, j | 0 <= i < j < |s[1..]| && s[1..][i] == '<' ensures s[1..][j] != '>' {
      assert s[i + 1] == '<';
    }
  }

  /** Stripping twice is stripping once. */
  lemma StripTagsIdempotent(s: string)
    ensures StripTags(StripTags(s)) == StripTags(s)
  {
    StripTagsTagFree(s);
    StripTagsFixed(StripTags(s));
  }

  // ---------------------------------------------------------------------
  // Attachments

  /** `files.attachments`: absent, one file, or an array of files. */
  datatype AttachmentsField = NoFiles | One(file: Upload) | Many(files: seq<Upload>)

  /** `Array.isArray(a) ? a : [a]`, and no files at all when absent. */
  function FileArray(field: AttachmentsField): seq<Upload>
  {
    match field
    case NoFiles => []
    case One(f) => [f]
    case Many(fs) => fs
  }

  /** A nodemailer attachment. */
  datatype Attachment = Attachment(filename: string, content: seq<byte>)

  /** Every file could be read. */
  predicate AllReadable(files: seq<Upload>, read: Reader) {
    forall i :: 0 <= i < |files| ==> read(files[i]).Some?
  }

  /** The attachment loop: one entry per file, named by its original name,
      in input order; `complete` is false when a read rejected, which
      leaves the loop. */
  method CollectAttachments(field: AttachmentsField, read: Reader)
    returns (attachments: seq<Attachment>, complete: bool)
    ensures complete <==> AllReadable(FileArray(field), read)
    ensures complete ==>
      && |attachments| == |FileArray(field)|
      && forall i :: 0 <= i < |attachments| ==>
           attachments[i] == Attachment(FileArray(field)[i].originalFilename, read(FileArray(field)[i]).value)
  {
    attachments := [];
    complete := true;
    if field.NoFiles? {
      return;
    }
    var fileArray := if field.Many? then field.files else [field.file];
    var i := 0;
    while i < |fileArray|
      invariant 0 <= i <= |fileArray|
      invariant AllReadable(fileArray[..i], read)
      invariant |attachments| == i
      invariant forall k :: 0 <= k < i ==>
        attachments[k] == Attachment(fileArray[k].originalFilename, read(fileArray[k]).value)
    {
      var buffer := read(fileArray[i]);
      if buffer.None? {
        complete := false;
        assert !AllReadable(fileArray, read);
        return;
      }
      attachments := attachments + [Attachment(fileArray[i].originalFilename, buffer.value)];
      i := i + 1;
      assert forall k :: 0 <= k < i ==> fileArray[..i][k] == fileArray[k];
    }
    assert fileArray[..i] == fileArray;
  }

  // ---------------------------------------------------------------------
  // Handler

  /** The parsed multipart form. */
  datatype SendForm = SendForm(fields: map<string, string>, attachments: AttachmentsField)

  /** The message handed to `transporter.sendMail` (the sender address comes
      from the environment). */
  datatype Mail = Mail(to: string, subject: string, text: string, html: string, attachments: seq<Attachment>)

  /** What `sendMail` does: resolve with a message id, or reject. */
  datatype Delivery = Delivered(messageId: string) | DeliveryFailed(message: string)

  /** The success body. */
  datatype Sent = Sent(message: string, messageId: string)

  /** The effects, in order. */
  datatype Effect = SendMail(mail: Mail) | InsertLog(row: LogRow)

  /** The message built from a form that passed the field check. */
  function MailOf(fields: map<string, string>, attachments: seq<Attachment>): Mail
    requires HasRequired(fields)
  {
    var content := fields["email_content"];
    Mail(fields["recipient"], fields["subject"], StripTags(content), content, attachments)
  }

  /** The handler, with `jwt.verify`, the form parser (None when it fails),
      `toBuffer`, `sendMail` and the log insert as oracles. */
  method Handle(httpMethod: string, authorization: Option<string>, verify: VerifyToken.Verifier,
                form: Option<SendForm>, read: Reader, sendMail: Mail -> Delivery, insert: LogRow -> Insert)
    returns (reply: Reply<Sent>, effects: seq<Effect>)
    ensures httpMethod != "POST" ==> reply == Error(405, "Method not allowed") && effects == []
    ensures httpMethod == "POST" && VerifyToken.Gate(authorization, verify).Rejected? ==>
      reply == Error(401, VerifyToken.Gate(authorization, verify).error) && effects == []
    ensures (&& httpMethod == "POST" && VerifyToken.Gate(authorization, verify).Passed?
             && (VerifyToken.Gate(authorization, verify).user.id in {None, Some(0)})) ==>
      reply == Error(401, "User ID missing from token") && effects == []
    ensures (&& httpMethod == "POST" && VerifyToken.AdmittedUser(authorization, verify).Some?
             && form.Some? && !HasRequired(form.value.fields)) ==>
      reply == Error(400, "Missing recipient, subject, or email_content") && effects == []
    ensures form.Some? && !HasRequired(form.value.fields) ==> effects == []
    ensures effects != [] ==>
      && httpMethod == "POST" && VerifyToken.AdmittedUser(authorization, verify).Some?
      && form.Some? && HasRequired(form.value.fields)
      && AllReadable(FileArray(form.value.attachments), read)
      && effects[0].SendMail?
      && effects[0].mail.to == form.value.fields["recipient"]
      && effects[0].mail.subject == form.value.fields["subject"]
      && effects[0].mail.text == StripTags(form.value.fields["email_content"])
      && effects[0].mail.html == form.value.fields["email_content"]
      && |effects[0].mail.attachments| == |FileArray(form.value.attachments)|
      && forall i :: 0 <= i < |effects[0].mail.attachments| ==>
           effects[0].mail.attachments[i]
             == Attachment(FileArray(form.value.attachments)[i].originalFilename,
                           read(FileArray(form.value.attachments)[i]).value)
    ensures (&& httpMethod == "POST" && VerifyToken.AdmittedUser(authorization, verify).Some?
             && form.Some? && HasRequired(form.value.fields)) ==>
      (effects != [] <==> AllReadable(FileArray(form.value.attachments), read))
    ensures (&& httpMethod == "POST" && VerifyToken.AdmittedUser(authorization, verify).Some?
             && form.Some? && HasRequired(form.value.fields)
             && !AllReadable(FileArray(form.value.attachments), read)) ==>
      reply == Unhandled
    ensures httpMethod == "POST" && VerifyToken.AdmittedUser(authorization, verify).Some? && form.None? ==>
      reply == Unhandled && effects == []
    ensures effects != [] && sendMail(effects[0].mail).DeliveryFailed? ==>
      && effects == [effects[0]]
      && reply == ErrorDetail(500, "Failed to send email", sendMail(effects[0].mail).message)
    ensures effects != [] && sendMail(effects[0].mail).Delivered? ==>
      var row := LogRow(VerifyToken.AdmittedUser(authorization, verify).value, "sent",
                        form.value.fields["email_content"]);
      && effects == [effects[0], InsertLog(row)]
      && reply == (if insert(row).InsertFailed? then ErrorDetail(500, "Failed to send email", insert(row).message)
                   else Ok(Sent("Email sent successfully!", sendMail(effects[0].mail).messageId)))
    ensures reply.Ok? ==> |effects| == 2
  {
    effects := [];
    if httpMethod != "POST" {
      return Error(405, "Method not allowed"), effects;
    }
    var gate := VerifyToken.Gate(authorization, verify);
    if gate.Rejected? {
      return Error(401, gate.error), effects;
    }
    var userId := gate.user.id;
    if userId.None? || userId.value == 0 {
      return Error(401, "User ID missing from token"), effects;
    }
    if form.None? {
      return Unhandled, effects;
    }
    var fields := form.value.fields;
    if !HasRequired(fields) {
      return Error(400, "Missing recipient, subject, or email_content"), effects;
    }
    var attachments, complete := CollectAttachments(form.value.attachments, read);
    if !complete {
      return Unhandled, effects;
    }
    reply, effects := Dispatch(userId.value, MailOf(fields, attachments), sendMail, insert);
  }

  /** The second half of the handler, once the message is built: send it,
      log the sent content for the user, and reply. */
  method Dispatch(userId: int, mail: Mail, sendMail: Mail -> Delivery, insert: LogRow -> Insert)
    returns (reply: Reply<Sent>, effects: seq<Effect>)
    ensures effects != [] && effects[0] == SendMail(mail)
    ensures sendMail(mail).DeliveryFailed? ==>
      effects == [SendMail(mail)] && reply == ErrorDetail(500, "Failed to send email", sendMail(mail).message)
    ensures sendMail(mail).Delivered? ==>
      var row := LogRow(userId, "sent", mail.html);
      && effects == [SendMail(mail), InsertLog(row)]
      && reply == (if insert(row).InsertFailed? then ErrorDetail(500, "Failed to send email", insert(row).message)
                   else Ok(Sent("Email sent successfully!", sendMail(mail).messageId)))
  {
    effects := [SendMail(mail)];
    var info := sendMail(mail);
    if info.DeliveryFailed? {
      return ErrorDetail(500, "Failed to send email", info.message), effects;
    }
    var row := LogRow(userId, "sent", mail.html);
    effects := effects + [InsertLog(row)];
    var logged := insert(row);
    if logged.InsertFailed? {
      return ErrorDetail(500, "Failed to send email", logged.message), effects;
    }
    reply := Ok(Sent("Email sent successfully!", info.messageId));
  }
}
