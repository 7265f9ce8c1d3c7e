/**
 * The log row (`appendToSheet`, index.js lines 133-153): twelve cells for the
 * "Main Log" sheet, with a status and a reply type derived from the parsed
 * classification. Authentication and the network call are not part of this
 * model; the timestamp is a parameter.
 */
module SheetLog {
  import opened Strings
  import opened Classifier
  import opened Classification

  /** The moment `new Date()` captures, as milliseconds since the epoch. */
  type Instant = int

  /** A cell of the row: text, or the `Date` object in the timestamp column. */
  datatype Cell = Text(text: string) | Time(at: Instant)

  /** Status of a message the system answered by itself. */
  const AutoReplied: string := "自動返信済"
  /** Status of a message a person must handle. */
  const NeedsAttention: string := "要対応"

  /** `parsed[key] || ""`: a missing field reads as the empty string. */
  function Field(parsed: map<string, string>, key: string): (value: string)
    ensures key !in parsed ==> value == ""
    ensures key in parsed && parsed[key] != "" ==> value == parsed[key]
    ensures key in parsed && parsed[key] == "" ==> value == ""
  {
    if key in parsed && parsed[key] != "" then parsed[key] else ""
  }

  /**
   * The row appended for one message: empty first cell, source, sender,
   * message, timestamp, language, category, auto-reply flag, status, alert
   * flag, empty notes cell, reply type.
   */
  function BuildRow(parsed: map<string, string>, message: string, sender: string, now: Instant): (row: seq<Cell>)
    ensures |row| == 12
    ensures row[0] == Text("") && row[1] == Text("Instagram") && row[5] == Text("JA") && row[10] == Text("")
    ensures row[2] == Text(sender) && row[3] == Text(message) && row[4] == Time(now)
    ensures row[6] == Text(Field(parsed, "category"))
    ensures row[7] == Text(Field(parsed, "auto_reply"))
    ensures row[9] == Text(Field(parsed, "alert"))
    ensures row[8] == Text(AutoReplied) || row[8] == Text(NeedsAttention)
    ensures row[8] == Text(AutoReplied) <==> Field(parsed, "auto_reply") == "YES"
    ensures row[11] == (if Field(parsed, "auto_reply") == "YES" then row[6] else Text(""))
  {
    var autoReply := Field(parsed, "auto_reply");
    var category := Field(parsed, "category");
    var alert := Field(parsed, "alert");
    var status := if autoReply == "YES" then AutoReplied else NeedsAttention;
    var replyType := if autoReply == "YES" then category else "";
    [Text(""), Text("Instagram"), Text(sender), Text(message), Time(now), Text("JA"),
     Text(category), Text(autoReply), Text(status), Text(alert), Text(""), Text(replyType)]
  }

  /**
   * The row the handler builds for a message: the category cell names the
   * matched rule, and the message needs attention, raises the alert and has no
   * reply type exactly when it is a VIP message.
   */
  lemma RowOfMessage(text: string, sender: string, now: Instant)
    ensures var row := BuildRow(ParsedClassification(text), text, sender, now);
      var c := Classify(ToLower(text));
      && row[6] == Text(Name(c))
      && (row[8] == Text(NeedsAttention) <==> c == Vip)
      && (row[9] == Text("YES") <==> c == Vip)
      && (row[11] == Text("") <==> c == Vip)
      && (c != Vip ==> row[11] == Text(Name(c)))
  {
    RoundTrip(text);
    var c := Classify(ToLower(text));
    FieldValuesReadable(c);
  }
}
