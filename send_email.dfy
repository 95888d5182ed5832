/** The `send-email` edge function (`supabase/functions/send-email/index.ts`):
    it reads the recipient and the name from a JSON body and mails a fixed
    feedback-form link, answering with CORS headers. */
module SendEmail {
  import opened Common
  import opened Json
  import opened Text

  const FormLink := "https://docs.google.com/forms/d/e/1FAIpQLSeEsner41jxNo8BfbEHr92y4Wwa_m-JcVBLai-04lStnJE8Dg/viewform"
  const Sender := "Bakemate <noreply@bakematevisits.com>"
  const Subject := "Thanks for your precious time"
  const NameFallback := "there"
  const MissingEmail := "Missing email"
  const SendStep := "send-email"
  /** What the runtime throws when the body is the JSON `null`. */
  const NullBodyMessage := "Cannot read properties of null (reading 'email')"

  const CorsHeaders: map<string, string> := map[
    "Access-Control-Allow-Origin" := "*",
    "Access-Control-Allow-Headers" := "authorization, x-client-info, apikey, content-type",
    "Access-Control-Allow-Methods" := "POST, OPTIONS"]

  /** The headers of every JSON answer: the CORS headers and the content type. */
  function JsonHeaders(): (h: map<string, string>)
    ensures h.Keys == CorsHeaders.Keys + {"Content-Type"}
    ensures h["Content-Type"] == "application/json"
    ensures forall k :: k in CorsHeaders ==> h[k] == CorsHeaders[k]
  {
    CorsHeaders["Content-Type" := "application/json"]
  }

  /** A request: its method and what `req.json()` gives (`None` when it
      throws). */
  datatype Request = Request(verb: string, body: Option<Json>)

  datatype ResponseBody = PlainText(text: string) | JsonBody(value: Json)

  datatype Response = Response(status: int, headers: map<string, string>, body: ResponseBody)

  /** A thrown error the handler does not catch, answered by the server
      runtime itself. */
  datatype Reply = Answered(response: Response) | Uncaught(message: string)

  /** The message handed to the mail service. The HTML part carries the same
      name and link as the text part. */
  datatype Message = Message(from: string, to: seq<string>, subject: string, displayName: string, link: string, text: string)

  /** `typeof parsed[key] === "string" ? parsed[key].trim() : ""` */
  function TrimmedField(parsed: Json, key: string): (v: string)
    ensures StringField(parsed, key).None? ==> v == ""
    ensures StringField(parsed, key).Some? ==> v == Trim(StringField(parsed, key).value)
  {
    if StringField(parsed, key).Some? then Trim(StringField(parsed, key).value) else ""
  }

  /** `name || "there"` */
  function DisplayName(name: string): (shown: string)
    ensures name == "" ==> shown == NameFallback
    ensures name != "" ==> shown == name
  {
    if name == "" then NameFallback else name
  }

  /** The plain-text part of the mail. */
  function MailText(displayName: string, link: string): (text: string)
    ensures StartsWith(text, "Hi " + displayName)
  {
    var greeting := "Hi " + displayName;
    var rest := "\n\nThank you for your precious time.\nLeave feedback: " + link + "\n";
    assert (greeting + rest)[..|greeting|] == greeting;
    greeting + rest
  }

  /** The mail sent to `email`, greeting `name`. */
  function MessageFor(email: string, name: string): (m: Message)
    ensures m.to == [email] && m.link == FormLink && m.displayName == DisplayName(name)
    ensures m.from == Sender && m.subject == Subject
    ensures m.text == MailText(DisplayName(name), FormLink)
  {
    Message(Sender, [email], Subject, DisplayName(name), FormLink, MailText(DisplayName(name), FormLink))
  }

  /** What one call of the handler does: the reply, and the mail handed to
      the mail service, if any. `sendError` is what that call throws, as
      `String(error)`. */
  datatype Outcome = Outcome(reply: Reply, sent: Option<Message>)

  /** `json(body, status)` */
  function JsonReply(value: Json, status: int): (r: Reply)
    ensures r.Answered? && r.response.status == status && r.response.headers == JsonHeaders()
    ensures r.response.body == JsonBody(value)
  {
    Answered(Response(status, JsonHeaders(), JsonBody(value)))
  }

  /** The body of the 400 answer. */
  function MissingEmailBody(): Json {
    JObj(map["ok" := JBool(false), "error" := JStr(MissingEmail)])
  }

  /** The body of the 200 answer. */
  function SentBody(): Json {
    JObj(map["ok" := JBool(true)])
  }

  /** The body of the 500 answer for what the mail service threw. */
  function SendFailedBody(e: string): Json {
    JObj(map["ok" := JBool(false), "error" := JStr(e), "step" := JStr(SendStep)])
  }

  /** The answer to a preflight request. */
  function PreflightOutcome(): (o: Outcome)
    ensures o.sent.None? && o.reply.Answered? && o.reply.response.status == 200
    ensures o.reply.response.headers == CorsHeaders
  {
    Outcome(Answered(Response(200, CorsHeaders, PlainText("ok"))), None)
  }

  /** The handler after the preflight check, given the parsed body (`{}`
      when it did not parse). */
  function HandleBody(parsed: Json, sendError: Option<string>): (o: Outcome)
    ensures parsed.JNull? ==> o == Outcome(Uncaught(NullBodyMessage), None)
    ensures o.sent.Some? <==> !parsed.JNull? && TrimmedField(parsed, "email") != ""
    ensures o.sent.Some? ==> o.sent.value == MessageFor(TrimmedField(parsed, "email"), TrimmedField(parsed, "name"))
    ensures !parsed.JNull? && o.sent.None? ==> o.reply == JsonReply(MissingEmailBody(), 400)
    ensures o.sent.Some? && sendError.None? ==> o.reply == JsonReply(SentBody(), 200)
    ensures o.sent.Some? && sendError.Some? ==> o.reply == JsonReply(SendFailedBody(sendError.value), 500)
  {
    if parsed.JNull? then Outcome(Uncaught(NullBodyMessage), None)
    else
      var email := TrimmedField(parsed, "email");
      if email == "" then Outcome(JsonReply(MissingEmailBody(), 400), None)
      else
        var message := MessageFor(email, TrimmedField(parsed, "name"));
        match sendError
        case None => Outcome(JsonReply(SentBody(), 200), Some(message))
        case Some(e) => Outcome(JsonReply(SendFailedBody(e), 500), Some(message))
  }

  /** The handler passed to `serve`. */
  function Handle(req: Request, sendError: Option<string>): (o: Outcome)
    ensures req.verb == "OPTIONS" ==> o == PreflightOutcome()
    ensures req.verb != "OPTIONS" ==> o == HandleBody(req.body.GetOr(JObj(map[])), sendError)
  {
    if req.verb == "OPTIONS" then PreflightOutcome() else HandleBody(req.body.GetOr(JObj(map[])), sendError)
  }

  /** A body that does not parse is handled exactly like `{}`, which is a
      400 with nothing sent. */
  lemma UnparseableBodyIsEmpty(verb: string, sendError: Option<string>)
    requires verb != "OPTIONS"
    ensures Handle(Request(verb, None), sendError) == Handle(Request(verb, Some(JObj(map[]))), sendError)
    ensures Handle(Request(verb, None), sendError).sent.None?
    ensures Handle(Request(verb, None), sendError).reply.response.status == 400
  {
    var empty := JObj(map[]);
    assert StringField(empty, "email").None?;
  }

  /** Every answer other than the preflight's is JSON with the CORS
      headers. */
  lemma AnswersCarryHeaders(req: Request, sendError: Option<string>)
    requires req.verb != "OPTIONS"
    ensures var r := Handle(req, sendError).reply;
            r.Answered? ==> r.response.headers == JsonHeaders() && r.response.body.JsonBody?
  {
  }

  /** Only the `email` and `name` columns of the body matter: the link the
      client sends (`formLink`, `testimonialLink`), the base URL and the visit
      id change nothing, since the mailed link is fixed. */
  lemma OtherColumnsIgnored(verb: string, fields: map<string, Json>, key: string, value: Json, sendError: Option<string>)
    requires key != "email" && key != "name"
    ensures Handle(Request(verb, Some(JObj(fields[key := value]))), sendError) ==
            Handle(Request(verb, Some(JObj(fields))), sendError)
  {
    var before := JObj(fields);
    var after := JObj(fields[key := value]);
    assert Field(after, "email") == Field(before, "email");
    assert Field(after, "name") == Field(before, "name");
    HandleBodyReadsEmailAndName(after, before, sendError);
  }

  /** The handler reads nothing of a non-null body but its trimmed `email`
      and `name`. */
  lemma HandleBodyReadsEmailAndName(p: Json, q: Json, sendError: Option<string>)
    requires !p.JNull? && !q.JNull?
    requires TrimmedField(p, "email") == TrimmedField(q, "email")
    requires TrimmedField(p, "name") == TrimmedField(q, "name")
    ensures HandleBody(p, sendError) == HandleBody(q, sendError)
  {
  }

  /** The mail greets "there" exactly when the trimmed name is empty. */
  lemma GreetingFallback(fields: map<string, Json>, sendError: Option<string>)
    requires TrimmedField(JObj(fields), "email") != ""
    ensures var o := Handle(Request("POST", Some(JObj(fields))), sendError);
            o.sent.Some? && (o.sent.value.displayName == NameFallback <==>
                             TrimmedField(JObj(fields), "name") == "" || TrimmedField(JObj(fields), "name") == NameFallback)
  {
  }
}
