/**
 * The `/webhook` handler (index.js lines 168-204) and the `/test` route (lines
 * 226-248). Each request is classified and parsed; a VIP message notifies the
 * staff; the log row is appended, and a failed append is swallowed; the reply
 * is looked up; the request is answered. The effects are recorded as a trace
 * in the order they happen, and whether the sheet append succeeds is an input.
 */
module Webhook {
  import opened Wrappers
  import opened Strings
  import opened Classifier
  import opened RecordParser
  import opened Classification
  import opened AutoReply
  import opened SheetLog

  /** The JSON body of a POST: `message` and `sender`, each possibly missing. */
  datatype Body = Body(message: Option<string>, sender: Option<string>)

  /** An effect of handling a request, visible outside the handler. */
  datatype Effect =
    | Notify(text: string)                          // `notifyStaff(text)`
    | Append(row: seq<Cell>, succeeded: bool)       // `appendToSheet` writing `row`, or failing

  /** `req.body?.message || ""`: a missing or empty message becomes the empty string. */
  function MessageOf(body: Body): (message: string)
    ensures body.message.Some? ==> message == body.message.value
    ensures body.message.None? ==> message == ""
  {
    if body.message.Some? && body.message.value != "" then body.message.value else ""
  }

  /** `req.body?.sender || "Unknown"`: a missing or empty sender becomes "Unknown". */
  function SenderOf(body: Body): (sender: string)
    ensures sender != ""
    ensures body.sender.Some? && body.sender.value != "" ==> sender == body.sender.value
    ensures body.sender.None? || body.sender.value == "" ==> sender == "Unknown"
  {
    if body.sender.Some? && body.sender.value != "" then body.sender.value else "Unknown"
  }

  /** The text sent to the staff for a VIP message. */
  function NotifyText(message: string): (text: string)
    ensures Occurs(text, message)
  {
    OccursInMiddle("【VIP／予約DM】\n内容：", message, "\n対応：スタッフ対応必要");
    "【VIP／予約DM】\n内容：" + message + "\n対応：スタッフ対応必要"
  }

  /** The number of staff notifications in a trace. */
  function Notifications(trace: seq<Effect>): nat {
    if trace == [] then 0
    else Notifications(trace[..|trace| - 1]) + (if trace[|trace| - 1].Notify? then 1 else 0)
  }

  /** The number of sheet appends in a trace. */
  function Appends(trace: seq<Effect>): nat {
    if trace == [] then 0
    else Appends(trace[..|trace| - 1]) + (if trace[|trace| - 1].Append? then 1 else 0)
  }

  /** Every notification in the trace comes before every append. */
  ghost predicate NotifiesBeforeAppending(trace: seq<Effect>) {
    forall i, j :: 0 <= i < |trace| && 0 <= j < |trace| && trace[i].Notify? && trace[j].Append? ==> i < j
  }

  /**
   * The pipeline the two routes share: classify, parse, notify when the parsed
   * category is VIP, then append the row. A failed append ends nothing: it is
   * recorded in the trace and the pipeline carries on.
   */
  method RunPipeline(message: string, sender: string, appendSucceeds: bool, now: Instant)
    returns (parsed: map<string, string>, trace: seq<Effect>)
    ensures var c := Classify(ToLower(message));
      && parsed == Record(c)
      && |trace| == (if c == Vip then 2 else 1)
      && Notifications(trace) == (if c == Vip then 1 else 0)
      && Appends(trace) == 1
      && NotifiesBeforeAppending(trace)
      && (c == Vip ==> trace[0] == Notify(NotifyText(message)))
      && trace[|trace| - 1] == Append(BuildRow(Record(c), message, sender, now), appendSucceeds)
  {
    var raw := ClassifyMessage(message);
    parsed := ParseAIResult(raw);
    ghost var c := Classify(ToLower(message));
    RoundTrip(message);
    ParsedCategoryIdentifies(message, Vip);
    assert parsed == Record(c);
    trace := [];
    if "category" in parsed && parsed["category"] == "VIP" {
      trace := trace + [Notify(NotifyText(message))];
    }
    assert |trace| == (if c == Vip then 1 else 0);
    var row := BuildRow(parsed, message, sender, now);
    EffectCounts(trace, Append(row, appendSucceeds));
    trace := trace + [Append(row, appendSucceeds)];
  }

  /** Appending after at most one notification: the counts and the order of the effects. */
  lemma EffectCounts(before: seq<Effect>, append: Effect)
    requires |before| <= 1 && (forall i :: 0 <= i < |before| ==> before[i].Notify?) && append.Append?
    ensures Notifications(before + [append]) == |before|
    ensures Appends(before + [append]) == 1
    ensures NotifiesBeforeAppending(before + [append])
  {
  }

  /**
   * `POST /webhook`: the status is 200 whatever the message and whether or not
   * the append succeeds; the staff are notified exactly once, before the
   * append, for a VIP message and never otherwise; a reply exists exactly for
   * store-information messages.
   */
  method HandleWebhook(body: Body, appendSucceeds: bool, now: Instant)
    returns (trace: seq<Effect>, reply: Option<string>, status: int)
    ensures status == 200
    ensures var message := MessageOf(body);
      var c := Classify(ToLower(message));
      && |trace| == (if c == Vip then 2 else 1)
      && Notifications(trace) == (if c == Vip then 1 else 0)
      && Appends(trace) == 1
      && NotifiesBeforeAppending(trace)
      && (c == Vip ==> trace[0] == Notify(NotifyText(message)))
      && trace[|trace| - 1] == Append(BuildRow(Record(c), message, SenderOf(body), now), appendSucceeds)
      && reply == AutoReplyMessage(Record(c))
      && (reply.Some? <==> c == StoreInfo)
  {
    var message := MessageOf(body);
    var sender := SenderOf(body);
    var parsed;
    parsed, trace := RunPipeline(message, sender, appendSucceeds, now);
    reply := AutoReplyMessage(parsed);
    ReplyIffStoreInfo(message);
    status := 200;
  }

  /**
   * `GET /test`: the fixed VIP message from "TEST_USER" notifies the staff,
   * then appends a row that needs attention, and the route answers with its
   * completion text even when the append fails.
   */
  method HandleTest(appendSucceeds: bool, now: Instant) returns (trace: seq<Effect>, response: string)
    ensures response == "OK /test 完了"
    ensures |trace| == 2
    ensures trace[0] == Notify(NotifyText("VIP席空いてますか？"))
    ensures trace[1] == Append(BuildRow(Record(Vip), "VIP席空いてますか？", "TEST_USER", now), appendSucceeds)
    ensures trace[1].Append? && trace[1].succeeded == appendSucceeds
    ensures var row := trace[1].row;
      |row| == 12 && row[2] == Text("TEST_USER") && row[3] == Text("VIP席空いてますか？")
      && row[6] == Text("VIP") && row[8] == Text(NeedsAttention) && row[9] == Text("YES") && row[11] == Text("")
  {
    var message := "VIP席空いてますか？";
    var sender := "TEST_USER";
    assert Classify(ToLower(message)) == Vip by {
      TestMessageIsVip();
    }
    var parsed;
    parsed, trace := RunPipeline(message, sender, appendSucceeds, now);
    response := "OK /test 完了";
  }

  /**
   * A body without a message is classified from the empty string, as "その他";
   * by the contract of `HandleWebhook` such a request notifies nobody and gets
   * no reply.
   */
  lemma MissingMessageIsOther(body: Body)
    requires body.message.None?
    ensures Classify(ToLower(MessageOf(body))) == Other
  {
  }
}
