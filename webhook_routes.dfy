/**
 * The two webhook endpoints: the subscription handshake, and the delivery endpoint that
 * claims each message id once and schedules the background task for text messages from
 * the one allowed contact.
 */
module WebhookRoutes {
  import opened Optional
  import opened PyStr
  import opened PyJson
  import opened Startup

  // ------------------------------------------------------------ verification

  /**
   * The handshake's answer: the challenge as a number, 403, 400, or a server error when
   * the challenge is missing or not an integer (`int()` raises).
   */
  datatype VerifyResult = Challenge(value: int) | Forbidden | BadRequest | ServerError

  /** A query parameter counts as given when present and not empty. */
  predicate Given(p: Option<string>) { p.Some? && p.value != "" }

  /** `webhook_verify` with the three query parameters and the configured token. */
  function WebhookVerify(mode: Option<string>, token: Option<string>, challenge: Option<string>,
                         verifyToken: string): (r: VerifyResult)
    ensures r == BadRequest <==> !Given(mode) || !Given(token)
    ensures r == Forbidden <==> Given(mode) && Given(token) && (mode.value != "subscribe" || token.value != verifyToken)
    ensures r.Challenge? <==> Given(mode) && Given(token) && mode.value == "subscribe" && token.value == verifyToken &&
                              challenge.Some? && ParseInt(challenge.value).Some?
    ensures r.Challenge? ==> mode == Some("subscribe") && token == Some(verifyToken) && verifyToken != "" &&
                             ParseInt(challenge.value) == Some(r.value)
    ensures r == ServerError <==> Given(mode) && Given(token) && mode.value == "subscribe" && token.value == verifyToken &&
                                  (challenge.None? || ParseInt(challenge.value).None?)
  {
    if Given(mode) && Given(token) then
      if mode.value == "subscribe" && token.value == verifyToken then
        if challenge.Some? && ParseInt(challenge.value).Some? then Challenge(ParseInt(challenge.value).value)
        else ServerError
      else Forbidden
    else BadRequest
  }

  /** Meta's handshake succeeds: the challenge it sent comes back as the same number. */
  lemma {:induction false} HandshakeEchoesChallenge(n: int, verifyToken: string)
    requires verifyToken != "" && |IntToString(n)| <= MaxStrDigits
    ensures WebhookVerify(Some("subscribe"), Some(verifyToken), Some(IntToString(n)), verifyToken) == Challenge(n)
  {
    ParseIntShow(n);
    HandshakeAnswer(IntToString(n), verifyToken);
  }

  /** With the right mode and token, the challenge's number comes back, or a server error when `int()` refuses it. */
  lemma {:induction false} HandshakeAnswer(c: string, verifyToken: string)
    requires verifyToken != ""
    ensures WebhookVerify(Some("subscribe"), Some(verifyToken), Some(c), verifyToken) ==
              match ParseInt(c) case Some(n) => Challenge(n) case None => ServerError
  {
  }

  /**
   * A challenge with digit groups, such as `1_000`, comes back as its number; one with more
   * digits than `int()` accepts is a server error.
   */
  lemma {:induction false} HandshakeChallengeText(a: string, b: string, verifyToken: string)
    requires verifyToken != "" && DigitGroups(a) && DigitGroups(b)
    ensures var r := WebhookVerify(Some("subscribe"), Some(verifyToken), Some(a + "_" + b), verifyToken);
            (r.Challenge? <==> |KeepDigits(a + b)| <= MaxStrDigits) &&
            (r.Challenge? ==> ParseInt(a + b) == Some(r.value)) &&
            (!r.Challenge? ==> r == ServerError)
  {
    ParseIntGrouped(a, b);
    HandshakeAnswer(a + "_" + b, verifyToken);
  }

  /**
   * A challenge padded with spaces, tabs or line breaks still comes back as its number,
   * while one next to an information separator (0x1C .. 0x1F) is a server error.
   */
  lemma HandshakeChallengePadding(a: string, n: int, b: string, verifyToken: string)
    requires verifyToken != "" && AllIntSpace(a) && AllIntSpace(b) && |IntToString(n)| <= MaxStrDigits
    ensures WebhookVerify(Some("subscribe"), Some(verifyToken), Some(a + IntToString(n) + b), verifyToken) == Challenge(n)
    ensures WebhookVerify(Some("subscribe"), Some(verifyToken), Some("\U{1C}5"), verifyToken) == ServerError
    ensures WebhookVerify(Some("subscribe"), Some(verifyToken), Some("5\U{1F}"), verifyToken) == ServerError
  {
    ParseIntPadded(a, n, b);
    HandshakeAnswer(a + IntToString(n) + b, verifyToken);
    ParseIntSeparators();
    HandshakeAnswer("\U{1C}5", verifyToken);
    HandshakeAnswer("5\U{1F}", verifyToken);
  }

  // ---------------------------------------------------------------- delivery

  const AllowedContact := "6285730784528"

  /** The background task `webhook_process` schedules. */
  datatype Task = Task(senderId: string, text: string, messageId: string)

  /** What happens once a message id has been claimed. */
  datatype AfterClaim =
    | NotText                                 // not a text message: nothing scheduled
    | OtherSender                             // sender's digits are not the allowed contact
    | Dispatch(senderId: string, text: string)
    | FailedAfterClaim                        // a malformed field raised after the claim

  /** How the payload walk ends. */
  datatype Walk =
    | NotForUs                 // wrong object, no entry, no changes or no messages
    | Failure                  // a malformed payload raised before any id was claimed
    | Dropped                  // missing, empty or already claimed message id
    | Claimed(id: string, after: AfterClaim)

  /** What a dispatched message has passed: the allowed sender, both fields trimmed. */
  predicate Dispatchable(senderId: string, text: string) {
    KeepDigits(senderId) == AllowedContact && senderId == Strip(senderId) && text == Strip(text)
  }

  /** The checks after the claim: text type, allowed sender, then the body. */
  function AfterClaimOf(message: map<string, Json>): (r: AfterClaim)
    ensures r.Dispatch? ==> Dispatchable(r.senderId, r.text)
  {
    if Get(message, "type") != Some(Str("text")) then NotText
    else match SenderOf(message)
      case None => FailedAfterClaim
      case Some(sender) =>
        if KeepDigits(sender) != AllowedContact then OtherSender
        else match BodyOf(message)
          case None => FailedAfterClaim
          case Some(text) => Dispatch(sender, text)
  }

  /** `message.get("from", "").strip()`; `None` when the sender is not a string. */
  function SenderOf(message: map<string, Json>): (r: Option<string>)
    ensures r.Some? <==> "from" !in message || message["from"].Str?
    ensures r.Some? ==> r.value == Strip(r.value)
    ensures "from" !in message ==> r == Some("")
  {
    var from := GetOr(message, "from", Str(""));
    if !from.Str? then None
    else
      StripIdempotent(from.s);
      Some(Strip(from.s))
  }

  /** `message["text"].get("body", "").strip()`; `None` when any step of it raises. */
  function BodyOf(message: map<string, Json>): (r: Option<string>)
    ensures r.Some? <==> "text" in message && message["text"].Obj? &&
                         ("body" !in message["text"].fields || message["text"].fields["body"].Str?)
    ensures r.Some? ==> r.value == Strip(r.value)
  {
    if "text" !in message || !message["text"].Obj? then None
    else
      var body := GetOr(message["text"].fields, "body", Str(""));
      if !body.Str? then None
      else
        StripIdempotent(body.s);
        Some(Strip(body.s))
  }

  /** The message's id is a non-empty string that is not in flight. */
  predicate FreshId(message: map<string, Json>, ids: set<string>)
    ensures FreshId(message, ids) <==>
              "id" in message && message["id"].Str? && message["id"].s != "" && message["id"].s !in ids
  {
    var id := Get(message, "id");
    id.Some? && id.value.Str? && id.value.s != "" && id.value.s !in ids
  }

  /**
   * The id check on the first message: missing or empty ids and ids in flight are dropped.
   * A fresh id is claimed before the type and the sender are looked at, so it is claimed
   * whatever they are.
   */
  function WalkMessage(message: map<string, Json>, ids: set<string>): (w: Walk)
    ensures w.Claimed? <==> FreshId(message, ids)
    ensures w.Claimed? ==> Get(message, "id") == Some(Str(w.id)) && w.after == AfterClaimOf(message)
    ensures var id := Get(message, "id");
            w == Dropped <==> id.None? || !Truthy(id.value) || (id.value.Str? && id.value.s in ids)
    ensures w.Failure? <==> Get(message, "id").Some? && Truthy(Get(message, "id").value) && !Get(message, "id").value.Str?
  {
    match Get(message, "id")
    case None => Dropped
    case Some(id) =>
      if !Truthy(id) then Dropped
      else if !id.Str? then Failure
      else if id.s in ids then Dropped
      else Claimed(id.s, AfterClaimOf(message))
  }

  /** Once its id is in flight, the same message is dropped. */
  lemma ClaimedMessageDropped(message: map<string, Json>, ids: set<string>)
    requires WalkMessage(message, ids).Claimed?
    ensures WalkMessage(message, ids + {WalkMessage(message, ids).id}) == Dropped
  {
    var id := Get(message, "id").value;
    assert id.Str? && WalkMessage(message, ids).id == id.s;
  }

  /** The first element of a truthy value indexed with `[0]`, when it is a dict. */
  function FirstObject(v: Json): Option<map<string, Json>> {
    if v.Arr? && v.items != [] && v.items[0].Obj? then Some(v.items[0].fields) else None
  }

  /** Where the walk down to the first message stops. */
  datatype Located = Stopped(walk: Walk) | AtMessage(message: map<string, Json>)

  /**
   * The walk through `data.object`, `entry[0].changes[0].value.messages[0]` as the
   * endpoint does it; `body == None` is a request body that is not JSON. It does not
   * depend on the ids in flight.
   */
  function Locate(body: Option<Json>): (r: Located)
    ensures r.Stopped? ==> r.walk == NotForUs || r.walk == Failure
    // a body that is not a JSON object raises
    ensures body.None? || !body.value.Obj? ==> r == Stopped(Failure)
    // each of the four tests that is not passed, after the earlier ones were, stops the walk as not for us
    ensures body.Some? && body.value.Obj? && !ForUs(body.value.fields) ==> r == Stopped(NotForUs)
    ensures body.Some? && body.value.Obj? && ForUs(body.value.fields) && !Truthy(EntryOf(body.value.fields)) ==>
              r == Stopped(NotForUs)
    ensures body.Some? && body.value.Obj? && ForUs(body.value.fields) &&
            FirstObject(EntryOf(body.value.fields)).Some? && !HasChanges(FirstObject(EntryOf(body.value.fields)).value) ==>
              r == Stopped(NotForUs)
    ensures ReachesValue(body) && !Truthy(MessagesOf(ValueAt(body))) ==> r == Stopped(NotForUs)
    // past all four, the walk is at the first message, when it is a dict
    ensures ReachesValue(body) && FirstObject(MessagesOf(ValueAt(body))).Some? ==>
              r == AtMessage(FirstObject(MessagesOf(ValueAt(body))).value)
    ensures r.AtMessage? ==> ReachesValue(body) && FirstObject(MessagesOf(ValueAt(body))) == Some(r.message)
  {
    if body.None? || !body.value.Obj? then Stopped(Failure)
    else
      var data := body.value.fields;
      if !ForUs(data) then Stopped(NotForUs)
      else
        var entry := EntryOf(data);
        if !Truthy(entry) then Stopped(NotForUs)
        else if FirstObject(entry).None? then Stopped(Failure)
        else
          var e0 := FirstObject(entry).value;
          if !HasChanges(e0) then Stopped(NotForUs)
          else if FirstObject(e0["changes"]).None? then Stopped(Failure)
          else
            var value := GetOr(FirstObject(e0["changes"]).value, "value", Obj(map[]));
            if !value.Obj? then Stopped(Failure)
            else
              var messages := MessagesOf(value.fields);
              if !Truthy(messages) then Stopped(NotForUs)
              else if FirstObject(messages).None? then Stopped(Failure)
              else AtMessage(FirstObject(messages).value)
  }

  /** `data.get('object') == 'whatsapp_business_account'`. */
  predicate ForUs(data: map<string, Json>)
    ensures ForUs(data) <==> "object" in data && data["object"] == Str("whatsapp_business_account")
  {
    Get(data, "object") == Some(Str("whatsapp_business_account"))
  }

  /** `data.get('entry', [])`. */
  function EntryOf(data: map<string, Json>): Json { GetOr(data, "entry", Arr([])) }

  /** `entry[0].get('changes')` is truthy. */
  predicate HasChanges(e0: map<string, Json>) { "changes" in e0 && Truthy(e0["changes"]) }

  /** `value.get('messages', [])`. */
  function MessagesOf(value: map<string, Json>): (ms: Json)
    ensures "messages" in value ==> ms == value["messages"]
    ensures "messages" !in value ==> ms == Arr([])
  {
    GetOr(value, "messages", Arr([]))
  }

  /** The walk gets as far as `entry[0]['changes'][0].get('value', {})` and finds a dict there. */
  predicate ReachesValue(body: Option<Json>) {
    body.Some? && body.value.Obj? && ForUs(body.value.fields) &&
    FirstObject(EntryOf(body.value.fields)).Some? &&
    HasChanges(FirstObject(EntryOf(body.value.fields)).value) &&
    FirstObject(FirstObject(EntryOf(body.value.fields)).value["changes"]).Some? &&
    GetOr(FirstObject(FirstObject(EntryOf(body.value.fields)).value["changes"]).value, "value", Obj(map[])).Obj?
  }

  /** That `value` dict. */
  function ValueAt(body: Option<Json>): map<string, Json>
    requires ReachesValue(body)
  {
    GetOr(FirstObject(FirstObject(EntryOf(body.value.fields)).value["changes"]).value, "value", Obj(map[])).fields
  }

  /**
   * A payload built the way Meta nests a message reaches that message, whatever other
   * fields, entries, changes and messages it carries.
   */
  lemma LocateNested(data: map<string, Json>, e0: map<string, Json>, c0: map<string, Json>, v: map<string, Json>,
                     m: map<string, Json>, entries: seq<Json>, changes: seq<Json>, messages: seq<Json>)
    ensures var value := v["messages" := Arr([Obj(m)] + messages)];
            var change := c0["value" := Obj(value)];
            var entry := e0["changes" := Arr([Obj(change)] + changes)];
            var payload := data["object" := Str("whatsapp_business_account")]["entry" := Arr([Obj(entry)] + entries)];
            Locate(Some(Obj(payload))) == AtMessage(m)
  {
    var value := v["messages" := Arr([Obj(m)] + messages)];
    var change := c0["value" := Obj(value)];
    var entry := e0["changes" := Arr([Obj(change)] + changes)];
    var payload := data["object" := Str("whatsapp_business_account")]["entry" := Arr([Obj(entry)] + entries)];
    assert FirstObject(EntryOf(payload)) == Some(entry);
    assert FirstObject(entry["changes"]) == Some(change);
    assert ReachesValue(Some(Obj(payload))) && ValueAt(Some(Obj(payload))) == value;
    assert FirstObject(MessagesOf(value)) == Some(m);
  }

  function WalkPayload(body: Option<Json>, ids: set<string>): (w: Walk)
    ensures w.Claimed? <==> Locate(body).AtMessage? && FreshId(Locate(body).message, ids)
    ensures w.Claimed? ==> Get(Locate(body).message, "id") == Some(Str(w.id)) && w.id != "" && w.id !in ids
    ensures w.Claimed? && w.after.Dispatch? ==> Dispatchable(w.after.senderId, w.after.text)
  {
    match Locate(body)
    case Stopped(w) => w
    case AtMessage(m) => WalkMessage(m, ids)
  }

  /** The endpoint's answer: `{"status": "OK"}` or `{"status": "error", ...}`. */
  datatype Status = Ok | Error

  /** The response body, the id claimed (if any) and the task scheduled (if any). */
  datatype Delivery = Delivery(status: Status, claim: Option<string>, task: Option<Task>)

  function DeliveryOf(w: Walk): (d: Delivery)
    ensures d.claim.Some? <==> w.Claimed?
    ensures d.claim.Some? ==> d.claim.value == w.id
    ensures d.task.Some? <==> w.Claimed? && w.after.Dispatch?
    ensures d.task.Some? ==> d.task.value == Task(w.after.senderId, w.after.text, w.id)
    ensures d.status == Error <==> w == Failure || (w.Claimed? && w.after == FailedAfterClaim)
    ensures d.status == Error ==> d.task.None?
  {
    match w
    case NotForUs => Delivery(Ok, None, None)
    case Failure => Delivery(Error, None, None)
    case Dropped => Delivery(Ok, None, None)
    case Claimed(id, after) =>
      match after
      case Dispatch(sender, text) => Delivery(Ok, Some(id), Some(Task(sender, text, id)))
      case FailedAfterClaim => Delivery(Error, Some(id), None)
      case _ => Delivery(Ok, Some(id), None)
  }

  /**
   * `webhook_process` as a decision on the payload and the in-flight ids: at most one new
   * id is claimed, and a task is scheduled only for a claimed text message from the
   * allowed contact, with the trimmed sender id and the trimmed body.
   */
  function Decide(body: Option<Json>, ids: set<string>): (d: Delivery)
    ensures d.claim.Some? <==> Locate(body).AtMessage? && FreshId(Locate(body).message, ids)
    ensures d.claim.Some? ==> Get(Locate(body).message, "id") == Some(Str(d.claim.value))
    ensures d.claim.Some? ==> d.claim.value != "" && d.claim.value !in ids
    ensures d.task.Some? ==> d.claim == Some(d.task.value.messageId)
    ensures d.task.Some? ==> Dispatchable(d.task.value.senderId, d.task.value.text)
  {
    var w := WalkPayload(body, ids);
    var d := DeliveryOf(w);
    assert d.claim.Some? ==> w.Claimed? && d.claim.value == w.id;
    assert d.task.Some? ==> w.Claimed? && w.after.Dispatch? &&
                            d.task.value == Task(w.after.senderId, w.after.text, w.id);
    d
  }

  /**
   * A fresh id is claimed even when the message is not text or comes from another sender.
   * Nothing is scheduled then, and the id stays in flight, since only the background task
   * releases it.
   */
  lemma ClaimedWithoutTask(body: Option<Json>, ids: set<string>)
    requires Locate(body).AtMessage? && FreshId(Locate(body).message, ids)
    requires var m := Locate(body).message;
             Get(m, "type") != Some(Str("text")) || (SenderOf(m).Some? && KeepDigits(SenderOf(m).value) != AllowedContact)
    ensures Decide(body, ids) == Delivery(Ok, Some(Get(Locate(body).message, "id").value.s), None)
  {
  }

  /** A first message whose id is missing, falsy or in flight is dropped: no claim, no task, OK. */
  lemma UnclaimedDropped(body: Option<Json>, ids: set<string>)
    requires Locate(body).AtMessage?
    requires var id := Get(Locate(body).message, "id");
             id.None? || !Truthy(id.value) || (id.value.Str? && id.value.s in ids)
    ensures Decide(body, ids) == Delivery(Ok, None, None)
  {
  }

  /** An id that has been claimed is dropped on every redelivery while it is in flight. */
  lemma RedeliveryDropped(body: Option<Json>, ids: set<string>)
    requires Decide(body, ids).claim.Some?
    ensures var again := Decide(body, ids + {Decide(body, ids).claim.value});
            again.claim.None? && again.task.None? && again.status == Ok
  {
    var w := WalkPayload(body, ids);
    assert w.Claimed?;
    match Locate(body)
    case AtMessage(m) => ClaimedMessageDropped(m, ids);
  }

  /** `webhook_process` against the application state: the claim is recorded in the in-flight set. */
  method WebhookProcess(app: AppState, body: Option<Json>) returns (status: Status, task: Option<Task>)
    modifies app`processingIds
    ensures var d := Decide(body, old(app.processingIds));
            status == d.status && task == d.task &&
            app.processingIds == old(app.processingIds) + (if d.claim.Some? then {d.claim.value} else {})
  {
    var d := Decide(body, app.processingIds);
    if d.claim.Some? {
      app.processingIds := app.processingIds + {d.claim.value};
    }
    status, task := d.status, d.task;
  }
}
