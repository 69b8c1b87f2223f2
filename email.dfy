/** The outbound message and its fluent builder (`Email`, `Default`,
    `Email::new` and the `with_*` setters). Each setter consumes the message
    and hands back the updated one, so every setter is a pure function from
    the old message to the new one. */
module EmailBuilder {
  import opened Wrappers

  newtype u8 = x: int | 0 <= x < 0x100

  /** An attachment, kept opaque: the message only stores and replaces
      whole sequences of them. */
  datatype File = File(name: string, bytes: seq<u8>, contentType: string, cid: Option<string>)

  datatype Email = Email(
    from: string,
    to: string,
    textbody: Option<string>,
    htmlbody: Option<string>,
    cc: Option<string>,
    bcc: Option<string>,
    subject: Option<string>,
    replyto: Option<string>,
    listUnsubscribe: Option<string>,
    attachments: Option<seq<File>>,
    tags: Option<seq<string>>)

  /** A uniform view of the message's fields, so that "every other field is
      left untouched" can be stated once for all setters. */
  datatype Field =
    | From | To | TextBody | HtmlBody | Cc | Bcc | Subject | ReplyTo
    | ListUnsubscribe | Attachments | Tags

  datatype FieldValue =
    | Required(s: string)
    | OptText(text: Option<string>)
    | OptFiles(files: Option<seq<File>>)
    | OptTags(list: Option<seq<string>>)

  function Get(e: Email, f: Field): FieldValue
  {
    match f
    case From => Required(e.from)
    case To => Required(e.to)
    case TextBody => OptText(e.textbody)
    case HtmlBody => OptText(e.htmlbody)
    case Cc => OptText(e.cc)
    case Bcc => OptText(e.bcc)
    case Subject => OptText(e.subject)
    case ReplyTo => OptText(e.replyto)
    case ListUnsubscribe => OptText(e.listUnsubscribe)
    case Attachments => OptFiles(e.attachments)
    case Tags => OptTags(e.tags)
  }

  /** An optional field that holds nothing. */
  predicate Absent(v: FieldValue)
  {
    v == OptText(None) || v == OptFiles(None) || v == OptTags(None)
  }

  /** `a` and `b` hold the same value in every field outside `fs`. */
  predicate AgreeOutside(a: Email, b: Email, fs: set<Field>)
  {
    forall f :: f !in fs ==> Get(a, f) == Get(b, f)
  }

  /** Two messages that agree on every field are the same message. */
  lemma SameFieldsSameEmail(a: Email, b: Email)
    requires AgreeOutside(a, b, {})
    ensures a == b
  {
    assert Get(a, From) == Get(b, From) && Get(a, To) == Get(b, To);
    assert Get(a, TextBody) == Get(b, TextBody) && Get(a, HtmlBody) == Get(b, HtmlBody);
    assert Get(a, Cc) == Get(b, Cc) && Get(a, Bcc) == Get(b, Bcc);
    assert Get(a, Subject) == Get(b, Subject) && Get(a, ReplyTo) == Get(b, ReplyTo);
    assert Get(a, ListUnsubscribe) == Get(b, ListUnsubscribe);
    assert Get(a, Attachments) == Get(b, Attachments) && Get(a, Tags) == Get(b, Tags);
  }

  /** `Default for Email`: empty addresses and every optional field absent. */
  function Default(): (e: Email)
    ensures e.from == [] && e.to == []
    ensures forall f :: f !in {From, To} ==> Absent(Get(e, f))
  {
    Email([], [], None, None, None, None, None, None, None, None, None)
  }

  /** `Email::new`: the given addresses, a text body, and nothing else. */
  function New(from: string, to: string, body: string): (e: Email)
    ensures e.from == from && e.to == to && e.textbody == Some(body)
    ensures forall f :: f !in {From, To, TextBody} ==> Absent(Get(e, f))
  {
    Default().(from := from, to := to, textbody := Some(body))
  }

  /** `with_html`: the HTML body is set and the text body cleared. */
  function WithHtml(e: Email, html: string): (r: Email)
    ensures r.htmlbody == Some(html) && r.textbody == None
    ensures AgreeOutside(e, r, {TextBody, HtmlBody})
  {
    e.(htmlbody := Some(html), textbody := None)
  }

  /** `with_text_body`: the text body is set and the HTML body cleared. */
  function WithTextBody(e: Email, text: string): (r: Email)
    ensures r.textbody == Some(text) && r.htmlbody == None
    ensures AgreeOutside(e, r, {TextBody, HtmlBody})
  {
    e.(textbody := Some(text), htmlbody := None)
  }

  function WithCc(e: Email, cc: string): (r: Email)
    ensures r.cc == Some(cc) && AgreeOutside(e, r, {Cc})
  {
    e.(cc := Some(cc))
  }

  function WithBcc(e: Email, bcc: string): (r: Email)
    ensures r.bcc == Some(bcc) && AgreeOutside(e, r, {Bcc})
  {
    e.(bcc := Some(bcc))
  }

  function WithSubject(e: Email, subject: string): (r: Email)
    ensures r.subject == Some(subject) && AgreeOutside(e, r, {Subject})
  {
    e.(subject := Some(subject))
  }

  function WithReplyTo(e: Email, replyto: string): (r: Email)
    ensures r.replyto == Some(replyto) && AgreeOutside(e, r, {ReplyTo})
  {
    e.(replyto := Some(replyto))
  }

  function WithListUnsubscribe(e: Email, listUnsubscribe: string): (r: Email)
    ensures r.listUnsubscribe == Some(listUnsubscribe) && AgreeOutside(e, r, {ListUnsubscribe})
  {
    e.(listUnsubscribe := Some(listUnsubscribe))
  }

  /** `with_attachments`: the whole list is replaced, never appended to. */
  function WithAttachments(e: Email, attachments: seq<File>): (r: Email)
    ensures r.attachments == Some(attachments) && AgreeOutside(e, r, {Attachments})
  {
    e.(attachments := Some(attachments))
  }

  /** `with_tags`: the whole list is replaced, never appended to. */
  function WithTags(e: Email, tags: seq<string>): (r: Email)
    ensures r.tags == Some(tags) && AgreeOutside(e, r, {Tags})
  {
    e.(tags := Some(tags))
  }

  // ---------------------------------------------------------------------
  // Chains of setters

  /** One builder call, as data, so that chains of calls can be reasoned about. */
  datatype Setter =
    | SetHtml(html: string)
    | SetTextBody(text: string)
    | SetCc(cc: string)
    | SetBcc(bcc: string)
    | SetSubject(subject: string)
    | SetReplyTo(replyto: string)
    | SetListUnsubscribe(listUnsubscribe: string)
    | SetAttachments(attachments: seq<File>)
    | SetTags(tags: seq<string>)

  /** The fields a setter assigns. */
  function Writes(s: Setter): set<Field>
  {
    match s
    case SetHtml(_) => {TextBody, HtmlBody}
    case SetTextBody(_) => {TextBody, HtmlBody}
    case SetCc(_) => {Cc}
    case SetBcc(_) => {Bcc}
    case SetSubject(_) => {Subject}
    case SetReplyTo(_) => {ReplyTo}
    case SetListUnsubscribe(_) => {ListUnsubscribe}
    case SetAttachments(_) => {Attachments}
    case SetTags(_) => {Tags}
  }

  /** The value a setter leaves in a field it assigns, whatever the field
      held before. */
  function Effect(s: Setter, f: Field): FieldValue
    requires f in Writes(s)
  {
    match s
    case SetHtml(h) => if f == HtmlBody then OptText(Some(h)) else OptText(None)
    case SetTextBody(t) => if f == TextBody then OptText(Some(t)) else OptText(None)
    case SetCc(x) => OptText(Some(x))
    case SetBcc(x) => OptText(Some(x))
    case SetSubject(x) => OptText(Some(x))
    case SetReplyTo(x) => OptText(Some(x))
    case SetListUnsubscribe(x) => OptText(Some(x))
    case SetAttachments(xs) => OptFiles(Some(xs))
    case SetTags(xs) => OptTags(Some(xs))
  }

  predicate IsBodySetter(s: Setter)
  {
    s.SetHtml? || s.SetTextBody?
  }

  /** Exactly one of the two bodies is present. */
  predicate OneBody(e: Email)
  {
    e.textbody.Some? != e.htmlbody.Some?
  }

  /** One builder call: it writes exactly its own fields, with the values
      `Effect` prescribes, and leaves every other field as it was. */
  function Apply(e: Email, s: Setter): (r: Email)
    ensures forall f :: f in Writes(s) ==> Get(r, f) == Effect(s, f)
    ensures AgreeOutside(e, r, Writes(s))
    ensures IsBodySetter(s) ==> OneBody(r)
  {
    match s
    case SetHtml(h) => WithHtml(e, h)
    case SetTextBody(t) => WithTextBody(e, t)
    case SetCc(x) => WithCc(e, x)
    case SetBcc(x) => WithBcc(e, x)
    case SetSubject(x) => WithSubject(e, x)
    case SetReplyTo(x) => WithReplyTo(e, x)
    case SetListUnsubscribe(x) => WithListUnsubscribe(e, x)
    case SetAttachments(xs) => WithAttachments(e, xs)
    case SetTags(xs) => WithTags(e, xs)
  }

  /** A left-to-right chain `e.with_a(..).with_b(..)...`: `ops[0]` is
      applied first. */
  function ApplyAll(e: Email, ops: seq<Setter>): Email
    decreases |ops|
  {
    if ops == [] then e
    else Apply(ApplyAll(e, ops[..|ops| - 1]), ops[|ops| - 1])
  }

  /** `Email::new(..)` followed by the chain `ops`. */
  function Build(from: string, to: string, body: string, ops: seq<Setter>): Email
  {
    ApplyAll(New(from, to, body), ops)
  }

  /** Chaining two chains is one chain. */
  lemma {:induction false} ApplyAllAppend(e: Email, a: seq<Setter>, b: seq<Setter>)
    ensures ApplyAll(e, a + b) == ApplyAll(ApplyAll(e, a), b)
    decreases |b|
  {
    if b != [] {
      assert (a + b)[..|a + b| - 1] == a + b[..|b| - 1];
      ApplyAllAppend(e, a, b[..|b| - 1]);
    } else {
      assert a + b == a;
    }
  }

  /** The last call in `ops` that writes `f`, if any. */
  function LastWrite(ops: seq<Setter>, f: Field): (r: Option<Setter>)
    ensures r.Some? ==> r.value in ops && f in Writes(r.value)
    decreases |ops|
  {
    if ops == [] then None
    else if f in Writes(ops[|ops| - 1]) then Some(ops[|ops| - 1])
    else LastWrite(ops[..|ops| - 1], f)
  }

  /** Last writer wins: after a chain, each field holds what the last call
      that writes it left there, or its starting value if no call writes it.
      This covers "the last body setter wins", "list setters replace" and
      "every other field is left untouched" at once. */
  lemma {:induction false} LastWriterWins(e: Email, ops: seq<Setter>, f: Field)
    ensures Get(ApplyAll(e, ops), f) ==
      match LastWrite(ops, f)
      case None => Get(e, f)
      case Some(s) => Effect(s, f)
    decreases |ops|
  {
    if ops != [] {
      LastWriterWins(e, ops[..|ops| - 1], f);
    }
  }

  /** A chain in which no call writes `f` leaves `f` unchanged. */
  lemma UntouchedField(e: Email, ops: seq<Setter>, f: Field)
    requires forall i :: 0 <= i < |ops| ==> f !in Writes(ops[i])
    ensures Get(ApplyAll(e, ops), f) == Get(e, f)
  {
    LastWriterWins(e, ops, f);
  }

  /** Every call preserves "exactly one body", so every message built with
      `Email::new` and any chain of setters has exactly one body. */
  lemma {:induction false} ChainKeepsOneBody(e: Email, ops: seq<Setter>)
    requires OneBody(e)
    ensures OneBody(ApplyAll(e, ops))
    decreases |ops|
  {
    if ops != [] {
      var p := ApplyAll(e, ops[..|ops| - 1]);
      ChainKeepsOneBody(e, ops[..|ops| - 1]);
      assert Get(Apply(p, ops[|ops| - 1]), TextBody) == Get(p, TextBody) || IsBodySetter(ops[|ops| - 1]);
      assert Get(Apply(p, ops[|ops| - 1]), HtmlBody) == Get(p, HtmlBody) || IsBodySetter(ops[|ops| - 1]);
    }
  }

  lemma BuiltEmailHasOneBody(from: string, to: string, body: string, ops: seq<Setter>)
    ensures OneBody(Build(from, to, body, ops))
  {
    ChainKeepsOneBody(New(from, to, body), ops);
  }

  /** A call whose fields include everything an earlier call wrote undoes
      that earlier call completely. */
  lemma Overwrite(e: Email, s1: Setter, s2: Setter)
    requires Writes(s1) <= Writes(s2)
    ensures Apply(Apply(e, s1), s2) == Apply(e, s2)
  {
    var a, b := Apply(Apply(e, s1), s2), Apply(e, s2);
    forall f ensures Get(a, f) == Get(b, f) {
      if f !in Writes(s2) {
        assert Get(Apply(e, s1), f) == Get(e, f);
      }
    }
    SameFieldsSameEmail(a, b);
  }

  /** Every setter is idempotent. */
  lemma SetterIdempotent(e: Email, s: Setter)
    ensures Apply(Apply(e, s), s) == Apply(e, s)
  {
    Overwrite(e, s, s);
  }

  /** The list setters replace: `e.with_tags(a).with_tags(b) == e.with_tags(b)`. */
  lemma ListSettersReplace(e: Email, a: seq<string>, b: seq<string>, fa: seq<File>, fb: seq<File>)
    ensures WithTags(WithTags(e, a), b) == WithTags(e, b)
    ensures WithAttachments(WithAttachments(e, fa), fb) == WithAttachments(e, fb)
  {
    Overwrite(e, SetTags(a), SetTags(b));
    Overwrite(e, SetAttachments(fa), SetAttachments(fb));
  }

  /** The two body setters cancel each other: the last one wins. */
  lemma LastBodySetterWins(e: Email, h: string, t: string)
    ensures WithTextBody(WithHtml(e, h), t) == WithTextBody(e, t)
    ensures WithHtml(WithTextBody(e, t), h) == WithHtml(e, h)
  {
    Overwrite(e, SetHtml(h), SetTextBody(t));
    Overwrite(e, SetTextBody(t), SetHtml(h));
  }

  /** Calls that write different fields may be made in either order. */
  lemma SettersCommute(e: Email, s1: Setter, s2: Setter)
    requires Writes(s1) !! Writes(s2)
    ensures Apply(Apply(e, s1), s2) == Apply(Apply(e, s2), s1)
  {
    var a, b := Apply(Apply(e, s1), s2), Apply(Apply(e, s2), s1);
    forall f ensures Get(a, f) == Get(b, f) {
      if f in Writes(s1) {
        assert Get(Apply(e, s2), f) == Get(e, f);
      } else if f in Writes(s2) {
        assert Get(Apply(e, s1), f) == Get(e, f);
      } else {
        assert Get(Apply(e, s1), f) == Get(e, f) && Get(Apply(e, s2), f) == Get(e, f);
      }
    }
    SameFieldsSameEmail(a, b);
  }
}
