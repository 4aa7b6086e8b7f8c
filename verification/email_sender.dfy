/** The `Email` message builder of lib/email-sender.mjs. Sending, and the
    file stream an attachment reads from, are outside the model: an
    attachment records the path its content is read from. */
module Emails {
  import opened Wrappers

  /** A nodemailer address: a plain string or a `{ name, address }` object. */
  datatype Address = Plain(text: string) | Mailbox(name: string, address: string)

  datatype Attachment = Attachment(filename: string, contentPath: string, cid: Option<string>)

  /** The nodemailer options `toMailOptions` builds; a list is `None` when
      the property is not set. */
  datatype MailOptions = MailOptions(
    from: Address,
    subject: string,
    html: string,
    to: Option<seq<Address>>,
    cc: Option<seq<Address>>,
    bcc: Option<seq<Address>>,
    attachments: Option<seq<Attachment>>)

  const NO_RECIPIENTS := "The email has not recipients!"

  /** `path.basename(p)` with POSIX separators: the last component, trailing
      slashes ignored. */
  function Basename(p: string): (r: string)
    ensures '/' !in r
  {
    var trimmed := TrimSlashes(p);
    LastComponent(trimmed)
  }

  function TrimSlashes(p: string): (r: string)
    ensures |r| <= |p| && r == p[..|r|]
    ensures |r| == 0 || r[|r| - 1] != '/'
  {
    if |p| > 0 && p[|p| - 1] == '/' then TrimSlashes(p[..|p| - 1]) else p
  }

  /** The text after the last '/'. */
  function LastComponent(p: string): (r: string)
    ensures '/' !in r && |r| <= |p|
  {
    if |p| == 0 then ""
    else if p[|p| - 1] == '/' then ""
    else LastComponent(p[..|p| - 1]) + [p[|p| - 1]]
  }

  /** The last component is a suffix of the path, preceded by a '/' unless
      it is the whole path. */
  lemma {:induction false} LastComponentIsSuffix(p: string)
    ensures var r := LastComponent(p);
      r == p[|p| - |r|..] && (|r| < |p| ==> p[|p| - |r| - 1] == '/')
  {
    if |p| > 0 && p[|p| - 1] != '/' {
      var q := p[..|p| - 1];
      LastComponentIsSuffix(q);
      var r := LastComponent(q);
      assert q[|q| - |r|..] + [p[|p| - 1]] == p[|p| - |r| - 1..];
    }
  }

  /** The base name of "dir/name" is "name". */
  lemma {:induction false} BasenameOfPath(dir: string, name: string)
    requires name != "" && '/' !in name
    ensures Basename(dir + "/" + name) == name
  {
    var p := dir + "/" + name;
    assert p[|p| - 1] == name[|name| - 1];
    LastComponentAfterSlash(dir, name);
  }

  lemma {:induction false} LastComponentAfterSlash(dir: string, name: string)
    requires '/' !in name
    ensures LastComponent(dir + "/" + name) == name
  {
    if |name| > 0 {
      var p := dir + "/" + name;
      var shorter := name[..|name| - 1];
      assert p[..|p| - 1] == dir + "/" + shorter;
      assert '/' !in shorter by {
        assert forall k :: 0 <= k < |shorter| ==> shorter[k] == name[k];
      }
      LastComponentAfterSlash(dir, shorter);
      assert shorter + [name[|name| - 1]] == name;
    } else {
      assert dir + "/" + name == dir + "/";
    }
  }

  class Email {
    const from: Address
    const subject: string
    const html: string
    var to: seq<Address>
    var cc: seq<Address>
    var bcc: seq<Address>
    var attachments: seq<Attachment>

    constructor (from: Address, subject: string, html: string)
      ensures this.from == from && this.subject == subject && this.html == html
      ensures to == [] && cc == [] && bcc == [] && attachments == []
    {
      this.from, this.subject, this.html := from, subject, html;
      to, cc, bcc, attachments := [], [], [], [];
    }

    method AddTo(address: Address)
      modifies this
      ensures to == old(to) + [address]
      ensures cc == old(cc) && bcc == old(bcc) && attachments == old(attachments)
    {
      to := to + [address];
    }

    method AddCC(address: Address)
      modifies this
      ensures cc == old(cc) + [address]
      ensures to == old(to) && bcc == old(bcc) && attachments == old(attachments)
    {
      cc := cc + [address];
    }

    method AddBCC(address: Address)
      modifies this
      ensures bcc == old(bcc) + [address]
      ensures to == old(to) && cc == old(cc) && attachments == old(attachments)
    {
      bcc := bcc + [address];
    }

    method AddAttachment(fileFullPath: string)
      modifies this
      ensures attachments == old(attachments) + [Attachment(Basename(fileFullPath), fileFullPath, None)]
      ensures to == old(to) && cc == old(cc) && bcc == old(bcc)
    {
      var filename := Basename(fileFullPath);
      attachments := attachments + [Attachment(filename, fileFullPath, None)];
    }

    method AddInlineAttachment(fileFullPath: string, contentId: string)
      modifies this
      ensures attachments == old(attachments) + [Attachment(Basename(fileFullPath), fileFullPath, Some(contentId))]
      ensures to == old(to) && cc == old(cc) && bcc == old(bcc)
    {
      var filename := Basename(fileFullPath);
      attachments := attachments + [Attachment(filename, fileFullPath, Some(contentId))];
    }

    /** `toMailOptions()`: fails without any recipient; otherwise the sender,
        subject and body, and each non-empty list as it stands. */
    function ToMailOptions(): (r: Result<MailOptions, string>)
      reads this
      ensures r.Failure? <==> to == [] && cc == [] && bcc == []
      ensures r.Failure? ==> r.error == NO_RECIPIENTS
      ensures r.Success? ==> r.value.from == from && r.value.subject == subject && r.value.html == html
      ensures r.Success? ==> (r.value.to.Some? <==> to != []) && (r.value.to.Some? ==> r.value.to.value == to)
      ensures r.Success? ==> (r.value.cc.Some? <==> cc != []) && (r.value.cc.Some? ==> r.value.cc.value == cc)
      ensures r.Success? ==> (r.value.bcc.Some? <==> bcc != []) && (r.value.bcc.Some? ==> r.value.bcc.value == bcc)
      ensures r.Success? ==> (r.value.attachments.Some? <==> attachments != [])
                             && (r.value.attachments.Some? ==> r.value.attachments.value == attachments)
    {
      if |to| == 0 && |cc| == 0 && |bcc| == 0 then Failure(NO_RECIPIENTS)
      else Success(MailOptions(from, subject, html,
        if |to| > 0 then Some(to) else None,
        if |cc| > 0 then Some(cc) else None,
        if |bcc| > 0 then Some(bcc) else None,
        if |attachments| > 0 then Some(attachments) else None))
    }
  }

  /** A message with one recipient and one attachment: the options carry
      both, in the order they were added. */
  method BuildExample(from: Address, recipient: Address, dir: string, name: string) returns (options: Result<MailOptions, string>)
    requires name != "" && '/' !in name
    ensures options.Success?
    ensures options.value.to == Some([recipient]) && options.value.cc == None && options.value.bcc == None
    ensures options.value.attachments == Some([Attachment(name, dir + "/" + name, None)])
  {
    var email := new Email(from, "subject", "<b>body</b>");
    email.AddTo(recipient);
    email.AddAttachment(dir + "/" + name);
    BasenameOfPath(dir, name);
    assert email.to == [recipient] && email.cc == [] && email.bcc == [];
    assert email.attachments == [Attachment(name, dir + "/" + name, None)];
    options := email.ToMailOptions();
  }

  /** Attachments alone are no recipients. */
  method AttachmentsAreNoRecipients(from: Address, path: string) returns (options: Result<MailOptions, string>)
    ensures options == Failure(NO_RECIPIENTS)
  {
    var email := new Email(from, "", "");
    email.AddAttachment(path);
    email.AddInlineAttachment(path, "logo");
    options := email.ToMailOptions();
  }
}
