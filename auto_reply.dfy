/**
 * The canned reply (`getAutoReplyMessage`, index.js lines 80-101): a fixed text
 * for store-information questions and nothing for every other category.
 */
module AutoReply {
  import opened Wrappers
  import opened Strings
  import opened Classifier
  import opened Classification

  /** Opening hours, map link, web site and Instagram account of the venue. */
  const StoreInfoReply: string :=
    "お問い合わせありがとうございます！\n\n【基本営業時間】\n22:00 〜 翌05:00\n\n【場所】\n"
    + "https://maps.app.goo.gl/oVTnjvmxomGJi98S7\n\n────────────────\n▼公式サイト\n"
    + "https://osaka.gala-resort.jp/\n\n▼公式Instagram\nhttps://www.instagram.com/gala.resort/\n"
    + "────────────────\n\nご不明点があればお気軽にご連絡ください！"

  /** `getAutoReplyMessage(parsed)`: the canned text, or `null` (here `None`). */
  function AutoReplyMessage(parsed: map<string, string>): (reply: Option<string>)
    ensures reply.Some? <==> "category" in parsed && parsed["category"] == "店舗情報"
    ensures reply.Some? ==> reply.value == StoreInfoReply && reply.value != ""
  {
    if "category" in parsed && parsed["category"] == "店舗情報" then Some(StoreInfoReply) else None
  }

  /**
   * For every message the handler sees, a reply exists exactly when the message
   * was classified as store information, and then the block also promised one
   * (`auto_reply: YES`); VIP, lost-item, job and other messages get none.
   */
  lemma ReplyIffStoreInfo(text: string)
    ensures AutoReplyMessage(ParsedClassification(text)).Some? <==> Classify(ToLower(text)) == StoreInfo
    ensures AutoReplyMessage(ParsedClassification(text)).Some? ==>
      "auto_reply" in ParsedClassification(text) && ParsedClassification(text)["auto_reply"] == "YES"
  {
    ParsedCategoryIdentifies(text, StoreInfo);
    RoundTrip(text);
  }
}
