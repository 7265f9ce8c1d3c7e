# Gala Instagram DM webhook — a Dafny model

The service accepts direct-message webhook events for a night venue's
Instagram account. For each message it does the following:

1. It sorts the message into one of five categories with a fixed keyword chain:
   - 店舗情報: store information, such as opening hours, location or access.
   - VIP: VIP seating or champagne.
   - 落とし物: lost items.
   - 求人: jobs.
   - その他: anything else.
2. It writes the result as a `key: value` text block and parses that block back into a dictionary.
3. It alerts the staff for VIP messages.
4. It appends a twelve-cell row to the "Main Log" spreadsheet. A failed append is ignored.
5. It looks up a canned reply for store-information questions.
6. It answers 200.

The model covers this pipeline from the message to the effects and the status code. The whole pipeline lives in `index.js`.

| file | module | what it holds |
|---|---|---|
| wrappers.dfy | `Wrappers` | `Option`, for `null` and missing properties |
| strings.dfy | `Strings` | the JavaScript string operations used: `toLowerCase` (ASCII), `includes`, `split` on one character, `trim` |
| classifier.dfy | `Classifier` | `classifyMessage`: the keyword chain, the five text blocks, the rule table as a first-match reference |
| record_parser.dfy | `RecordParser` | `parseAIResult`, as a loop filling a dictionary, plus its fold specification |
| classification.dfy | `Classification` | parsing a classifier block: the round trip |
| auto_reply.dfy | `AutoReply` | `getAutoReplyMessage` |
| sheet_log.dfy | `SheetLog` | the row built in `appendToSheet` |
| webhook.dfy | `Webhook` | `POST /webhook` and `GET /test` as methods that emit an ordered trace of `Notify` and `Append` effects |

The parser is imperative in the source: `forEach` mutates a dictionary. The model
mirrors this with `ParseAIResult`, a `while` loop that updates a `map`. Its
postcondition ties the result to `ParseLines`, a left fold that keeps the source's
overwrite order. The handlers are methods that build their effect trace step by
step. The classifier, the reply lookup and the row are pure functions.

Facts about `index.js` that the model keeps:
- `parseAIResult` splits a line on every colon and takes the second piece as the value, so `a: b: c` gives `b` (`RecordParser.EveryColonSplits`).
- The row always has 12 cells.
- The classifier never writes a `language` field.
- A line whose key is `__proto__` adds no entry. That is what assigning to that property of a plain JavaScript object does.

## Model

| member | source | states |
|---|---|---|
| Strings.ToLower | index.js:16 | same length, and each character lower-cased on its own: `A`-`Z` become `a`-`z`, everything else is unchanged (ASCII only, see Left out) |
| Strings.Contains | index.js:18-23 | the empty keyword is always found, and a keyword longer than the text never is; `Strings.ContainsIffOccurs` gives the full meaning |
| Strings.Split | index.js:69-70 | there is always at least one piece, so `""` splits into `[""]`; `Strings.SplitJoin` and `Strings.JoinSplit` give the full meaning |
| Strings.Trim | index.js:70 | the result is no longer than the input and has no whitespace or line terminator at either end; `Strings.TrimPadded` says exactly what is removed |
| Strings.ContainsIffOccurs | index.js:18-23 | the `includes` scan is true exactly when the keyword occurs at some index of the text |
| Strings.ToLowerConcat | index.js:16 | lower-casing works character by character, so it distributes over concatenation |
| Strings.SplitJoin | index.js:69-70 | `split` loses only the separators: joining the pieces gives the input back, and no piece contains the separator |
| Strings.JoinSplit | index.js:69-70 | pieces without the separator, joined and split again, come back unchanged |
| Strings.TrimPadded | index.js:70 | `trim` removes exactly the whitespace padding around a core whose ends are not whitespace |
| Classifier.ClassifyMessage | index.js:15-61 | whatever the text, the answer is one of the five category blocks; which one is given by `Classifier.ClassifyIsFirstFiringRule`, and its lines by `Classifier.BlockSplitsIntoLines` |
| Classifier.BlockSplitsIntoLines | index.js:25-60 | each block splits on line breaks into exactly five lines: an empty line, `category: `, `alert: ` and `auto_reply: ` with the category's values, and an empty line |
| Classifier.ClassifyIsFirstFiringRule | index.js:15-61 | the rule chain `Classify` is first match wins: the category is `c` iff a keyword of `c` occurs (or `c` is the default) and no earlier rule's keyword occurs |
| Classifier.StoreInfoPriority | index.js:18-30 | a store keyword in the lower-cased text gives the 店舗情報 / alert NO / auto_reply YES block, even when other keywords are present |
| Classifier.VipRule | index.js:32-38 | with no store keyword, a VIP keyword gives the VIP / alert YES / auto_reply NO block |
| Classifier.VipInAnyCase | index.js:16-38 | "VIP" written in any mix of upper and lower case, with no store keyword, gives the VIP block |
| Classifier.LostItemRule | index.js:40-46 | with no store or VIP keyword, a lost-item keyword gives the 落とし物 block |
| Classifier.JobRule | index.js:48-54 | with no store, VIP or lost-item keyword, a job keyword gives the 求人 block |
| Classifier.DefaultRule | index.js:56-60 | text with none of the keywords gives the その他 / alert NO / auto_reply YES block |
| Classifier.EmptyMessageIsOther | index.js:15-60 | the empty message is classified as その他 |
| Classifier.StoreInfoBeforeVipExample | index.js:18-38 | "営業時間ですがVIPシャンパン頼めますか" is store information, not VIP |
| Classifier.TestMessageIsVip | index.js:227-231 | the `/test` message "VIP席空いてますか？" gives the VIP block |
| RecordParser.LineEntry | index.js:70-71 | the `forEach` callback: an entry always has a non-empty key and value, and the key is never `__proto__`; `RecordParser.PaddedFieldLine`, `RecordParser.SecondColonEndsValue` and `RecordParser.LineWithoutColonDropped` together give the entry of every line, and `RecordParser.EntryShape` adds that key and value are trimmed and colon-free |
| RecordParser.PaddedFieldLine | index.js:70-71 | a line with one colon and any whitespace around key and value (`a:b`, `  a :b`, `:b`, `a:`) gives the trimmed key and value exactly when both are non-empty and the key is not `__proto__`, and nothing otherwise |
| RecordParser.Store | index.js:71 | `parsed[key] = value`: no entry leaves the dictionary alone; an entry adds its key with its value and leaves every other key unchanged |
| RecordParser.ParseAIResult | index.js:67-74 | the dictionary filled line by line equals the in-order fold of the line entries over the `\n`-separated lines |
| RecordParser.LineWithoutColonDropped | index.js:70-71 | a line without a colon adds no entry |
| RecordParser.BlankLineDropped | index.js:69-71 | an empty or whitespace-only line adds no entry |
| RecordParser.EntryShape | index.js:70-71 | an entry has a non-empty, trimmed, colon-free key and value, and its key is not `__proto__` |
| RecordParser.FieldLineEntry | index.js:70-71 | a line `key: value` with a clean key and value gives exactly that key and value |
| RecordParser.SecondColonEndsValue | index.js:70 | everything from the second colon on is ignored |
| RecordParser.EveryColonSplits | index.js:70 | `a: b: c` gives key `a` with value `b` |
| RecordParser.ParseLinesKeys | index.js:68-73 | a key is in the dictionary iff some line defines it |
| RecordParser.ParseLinesLastWins | index.js:69-71 | the value of a key is the one from the last line that defines it |
| RecordParser.ParseLinesConcat | index.js:69-72 | parsing two runs of lines is parsing the first and letting the second override it |
| RecordParser.ParsedEntriesShape | index.js:68-73 | every dictionary entry has a non-empty, trimmed, colon-free key and value |
| RecordParser.TwoFieldExample | index.js:67-74 | `"category: VIP\nalert: YES\n\n"` parses to exactly `{category: VIP, alert: YES}` |
| Classification.BlockParsesToRecord | index.js:25-73 | each of the five blocks parses to its three fields; the empty first and last lines add nothing |
| Classification.RoundTrip | index.js:176-177 | for every message, the parsed classification has exactly the keys category, alert and auto_reply, with the values of the chosen block |
| Classification.AlertAndAutoReplyFollowVip | index.js:25-60 | in every parsed classification, alert is YES iff the category is VIP, and auto_reply is NO iff the category is VIP |
| Classification.ParsedCategoryIdentifies | index.js:25-60 | the parsed category name identifies the rule that matched |
| AutoReply.AutoReplyMessage | index.js:80-101 | the canned text is returned iff the parsed category is 店舗情報; otherwise `null` |
| AutoReply.ReplyIffStoreInfo | index.js:195-196 | for every message, a reply exists iff it was classified as store information, and then its auto_reply field is YES |
| SheetLog.Field | index.js:133-135 | `parsed[key] \|\| ""`: a missing key or an empty value reads as `""`, any other value is returned as stored |
| SheetLog.BuildRow | index.js:133-153 | the row has 12 cells, with `""`, Instagram, JA and `""` at positions 0, 1, 5 and 10; the status is 自動返信済 iff auto_reply is YES, else 要対応; the reply type is the category iff auto_reply is YES, else `""`; a missing field reads as `""` |
| SheetLog.RowOfMessage | index.js:133-153 | for a classified message, the category cell names the matched rule, and the row needs attention, has alert YES and has an empty reply type iff the message is VIP |
| Webhook.MessageOf | index.js:169 | a missing message becomes `""` |
| Webhook.SenderOf | index.js:170 | a missing or empty sender becomes "Unknown"; the sender is never empty |
| Webhook.NotifyText | index.js:183-185 | the staff alert text contains the message |
| Webhook.RunPipeline | index.js:176-193 | the parsed dictionary is the record of the matched rule; the trace has exactly one append, as its last effect, with the row for that record; before it comes exactly one notification with the message if the category is VIP, and none otherwise |
| Webhook.HandleWebhook | index.js:168-204 | status 200 for every string body and whether or not the append fails; two effects for a VIP message and one otherwise: one notification iff VIP, before the single append; the reply is the lookup on the parsed record, so it exists iff the message is store information |
| Webhook.HandleTest | index.js:226-248 | the test route notifies once for its VIP message, then appends the whole `appendToSheet` row for the VIP record, TEST_USER, its message and the current time (so VIP, auto_reply NO, 要対応, alert YES and an empty reply type), and answers "OK /test 完了" |
| Webhook.MissingMessageIsOther | index.js:169-176 | a body without a message is classified as その他 |

## Left out

- Express setup, JSON body parsing, `app.listen` and the `GET /` liveness route (index.js:8-9, 210-220). They are framework plumbing.
- Google authentication, the Sheets `values.append` call and the environment variables they read (index.js:122-131, 155-160).
  - They are modelled only as the boolean `appendSucceeds`, recorded in the `Append` effect.
  - In the source, a failure during authentication happens before the row is built. The model still records the row that would have been written.
- `new Date()` (index.js:145) is the opaque `Instant` parameter `now`.
- Console output is not modelled. This covers the body of `notifyStaff` with its own `try`/`catch`, and the "あり"/"なし" log of the reply. A notification is only a `Notify` trace event carrying its text, and the reply is returned instead of logged.
- The 500 answer (index.js:200-202) is not modelled.
  - It is reachable through a message that is not a string and whose conversion throws. For example, with `{"message": {"toString": 1}}`, `|| ""` (index.js:169) lets the object through, and `String(text)` (index.js:16) throws a TypeError inside the `try` (index.js:174-176).
  - `Body` holds optional strings only, so it excludes that case.
  - `HandleWebhook`'s `ensures status == 200` holds for string bodies only. For those, nothing in the modelled steps throws.
- `toLowerCase` is modelled for the ASCII letters only.
  - This does not change any classification. The Japanese keywords have no case.
  - No non-ASCII character lower-cases to the letters of "vip". For example, "İ" becomes "i" plus a combining dot, so "vi̇p" has no "vip".
- A message or sender that is not a JSON string is not modelled. Such a value can be converted, as `String()` converts a number, or its conversion can throw, as above. `Body` holds optional strings only.
- JavaScript strings are UTF-16 code units, while Dafny characters are Unicode scalar values. Lone surrogates cannot be represented.
- The literal text of the canned reply is kept as a constant. Only whether a reply is present is reasoned about.
- Concurrent requests are not modelled. They share no state in the core.
