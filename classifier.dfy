/**
 * The message classifier (`classifyMessage`, index.js lines 15-61): the text is
 * lower-cased and checked against four keyword groups in a fixed order; the
 * first group with a keyword in the text decides the category, and a text that
 * matches none is "その他" (other). The result is a block of `key: value` lines.
 */
module Classifier {
  import opened Strings

  datatype Category = StoreInfo | Vip | LostItem | JobInquiry | Other

  /** Opening hours, location and access questions. */
  const StoreKeywords: seq<string> := ["営業時間", "何時から", "場所", "どこ", "アクセス"]
  /** VIP seating and champagne orders. */
  const VipKeywords: seq<string> := ["vip", "シャンパン"]
  /** Lost and forgotten belongings. */
  const LostItemKeywords: seq<string> := ["落とし物", "忘れ物"]
  /** Job applications and part-time work. */
  const JobKeywords: seq<string> := ["求人", "バイト", "仕事"]

  /** One `t.includes(a) || t.includes(b) || ...` condition of the rule chain. */
  predicate ContainsAny(t: string, keywords: seq<string>) {
    exists i | 0 <= i < |keywords| :: Contains(t, keywords[i])
  }

  /** The rule chain applied to already lower-cased text. */
  function Classify(t: string): Category {
    if ContainsAny(t, StoreKeywords) then StoreInfo
    else if ContainsAny(t, VipKeywords) then Vip
    else if ContainsAny(t, LostItemKeywords) then LostItem
    else if ContainsAny(t, JobKeywords) then JobInquiry
    else Other
  }

  /** The text block returned for each category, leading and trailing line breaks included. */
  function Block(c: Category): string {
    match c
    case StoreInfo => "\ncategory: 店舗情報\nalert: NO\nauto_reply: YES\n"
    case Vip => "\ncategory: VIP\nalert: YES\nauto_reply: NO\n"
    case LostItem => "\ncategory: 落とし物\nalert: NO\nauto_reply: YES\n"
    case JobInquiry => "\ncategory: 求人\nalert: NO\nauto_reply: YES\n"
    case Other => "\ncategory: その他\nalert: NO\nauto_reply: YES\n"
  }

  /**
   * `classifyMessage(text)`: lower-case, then pick the block of the first
   * matching rule. Whatever the text, the answer is one of the five blocks.
   */
  function ClassifyMessage(text: string): (block: string)
    ensures exists c :: block == Block(c)
  {
    Block(Classify(ToLower(text)))
  }

  // ---------------------------------------------------------------------------
  // The fields written in each block
  // ---------------------------------------------------------------------------

  /** The value after `category:`. */
  function Name(c: Category): string {
    match c
    case StoreInfo => "店舗情報"
    case Vip => "VIP"
    case LostItem => "落とし物"
    case JobInquiry => "求人"
    case Other => "その他"
  }

  /** The value after `alert:`. */
  function AlertFlag(c: Category): string {
    match c
    case StoreInfo => "NO"
    case Vip => "YES"
    case LostItem => "NO"
    case JobInquiry => "NO"
    case Other => "NO"
  }

  /** The value after `auto_reply:`. */
  function AutoReplyFlag(c: Category): string {
    match c
    case StoreInfo => "YES"
    case Vip => "NO"
    case LostItem => "YES"
    case JobInquiry => "YES"
    case Other => "YES"
  }

  /** One `key: value` line of a block. */
  function Line(key: string, value: string): string {
    key + ": " + value
  }

  /** The lines of a block: an empty line, the three fields, and an empty line. */
  function BlockLines(c: Category): seq<string> {
    ["", Line("category", Name(c)), Line("alert", AlertFlag(c)), Line("auto_reply", AutoReplyFlag(c)), ""]
  }

  /** Every block is its five lines joined with line breaks. */
  lemma BlockIsJoinedLines(c: Category)
    ensures Block(c) == Join(BlockLines(c), '\n')
  {
    var a, b, d := Line("category", Name(c)), Line("alert", AlertFlag(c)), Line("auto_reply", AutoReplyFlag(c));
    JoinFieldLines(a, b, d);
    BlockIsFieldLines(c);
  }

  /**
   * Each block literal is the three field lines between line breaks. The five
   * cases are separate lemmas because comparing all five literals in one proof
   * is beyond the solver's resource limit; each one alone is immediate.
   */
  lemma BlockIsFieldLines(c: Category)
    ensures Block(c) == "\n" + Line("category", Name(c)) + "\n" + Line("alert", AlertFlag(c)) + "\n" + Line("auto_reply", AutoReplyFlag(c)) + "\n"
  {
    match c
    case StoreInfo => StoreInfoBlockIsFieldLines();
    case Vip => VipBlockIsFieldLines();
    case LostItem => LostItemBlockIsFieldLines();
    case JobInquiry => JobInquiryBlockIsFieldLines();
    case Other => OtherBlockIsFieldLines();
  }

  lemma StoreInfoBlockIsFieldLines()
    ensures Block(StoreInfo) == "\n" + Line("category", Name(StoreInfo)) + "\n" + Line("alert", AlertFlag(StoreInfo)) + "\n" + Line("auto_reply", AutoReplyFlag(StoreInfo)) + "\n"
  {
  }

  lemma VipBlockIsFieldLines()
    ensures Block(Vip) == "\n" + Line("category", Name(Vip)) + "\n" + Line("alert", AlertFlag(Vip)) + "\n" + Line("auto_reply", AutoReplyFlag(Vip)) + "\n"
  {
  }

  lemma LostItemBlockIsFieldLines()
    ensures Block(LostItem) == "\n" + Line("category", Name(LostItem)) + "\n" + Line("alert", AlertFlag(LostItem)) + "\n" + Line("auto_reply", AutoReplyFlag(LostItem)) + "\n"
  {
  }

  lemma JobInquiryBlockIsFieldLines()
    ensures Block(JobInquiry) == "\n" + Line("category", Name(JobInquiry)) + "\n" + Line("alert", AlertFlag(JobInquiry)) + "\n" + Line("auto_reply", AutoReplyFlag(JobInquiry)) + "\n"
  {
  }

  lemma OtherBlockIsFieldLines()
    ensures Block(Other) == "\n" + Line("category", Name(Other)) + "\n" + Line("alert", AlertFlag(Other)) + "\n" + Line("auto_reply", AutoReplyFlag(Other)) + "\n"
  {
  }

  /**
   * No line of a block holds a line break, so splitting the block gives back
   * its five lines: an empty one, the three fields, and an empty one.
   */
  lemma BlockSplitsIntoLines(c: Category)
    ensures Split(Block(c), '\n') == BlockLines(c)
  {
    var ls := BlockLines(c);
    assert '\n' !in Name(c) && '\n' !in AlertFlag(c) && '\n' !in AutoReplyFlag(c);
    assert forall i :: 0 <= i < |ls| ==> '\n' !in ls[i];
    BlockIsJoinedLines(c);
    JoinSplit(ls, '\n');
  }

  /** Three lines between an empty first and an empty last line, joined with line breaks. */
  lemma JoinFieldLines(a: string, b: string, d: string)
    ensures Join(["", a, b, d, ""], '\n') == "\n" + a + "\n" + b + "\n" + d + "\n"
  {
    var ls := ["", a, b, d, ""];
    assert ls[1..][1..][1..][1..] == [""];
    assert Join(ls[3..], '\n') == d + "\n" + "";
    assert Join(ls[2..], '\n') == b + "\n" + Join(ls[3..], '\n');
    assert Join(ls[1..], '\n') == a + "\n" + Join(ls[2..], '\n');
    assert Join(ls, '\n') == "" + "\n" + Join(ls[1..], '\n');
  }

  /** The names are pairwise different, so the category can be read back from its name. */
  lemma NameInjective(c: Category, d: Category)
    ensures Name(c) == Name(d) <==> c == d
  {
  }

  // ---------------------------------------------------------------------------
  // The rule table as a declarative reference
  // ---------------------------------------------------------------------------

  /** Position of each rule in the chain; the default rule comes last. */
  function Rank(c: Category): nat {
    match c
    case StoreInfo => 0
    case Vip => 1
    case LostItem => 2
    case JobInquiry => 3
    case Other => 4
  }

  /** The keywords that trigger each rule; the default rule has none. */
  function Keywords(c: Category): seq<string> {
    match c
    case StoreInfo => StoreKeywords
    case Vip => VipKeywords
    case LostItem => LostItemKeywords
    case JobInquiry => JobKeywords
    case Other => []
  }

  /** The rule for `c` fires on `t`: one of its keywords occurs in `t`, or `c` is the default. */
  ghost predicate Fires(c: Category, t: string) {
    c == Other || exists k :: k in Keywords(c) && Occurs(t, k)
  }

  /** The scanning condition agrees with its declarative reading. */
  lemma ContainsAnyIffSomeOccurs(t: string, keywords: seq<string>)
    ensures ContainsAny(t, keywords) <==> exists k :: k in keywords && Occurs(t, k)
  {
    forall i | 0 <= i < |keywords| {
      ContainsIffOccurs(t, keywords[i]);
    }
  }

  /**
   * First match wins: `Classify(t)` is `c` exactly when the rule for `c` fires on
   * `t` and no rule earlier in the chain does.
   */
  lemma ClassifyIsFirstFiringRule(t: string, c: Category)
    ensures Classify(t) == c <==> Fires(c, t) && forall d :: Rank(d) < Rank(c) ==> !Fires(d, t)
  {
    ContainsAnyIffSomeOccurs(t, StoreKeywords);
    ContainsAnyIffSomeOccurs(t, VipKeywords);
    ContainsAnyIffSomeOccurs(t, LostItemKeywords);
    ContainsAnyIffSomeOccurs(t, JobKeywords);
    assert Fires(StoreInfo, t) <==> ContainsAny(t, StoreKeywords);
    assert Fires(Vip, t) <==> ContainsAny(t, VipKeywords);
    assert Fires(LostItem, t) <==> ContainsAny(t, LostItemKeywords);
    assert Fires(JobInquiry, t) <==> ContainsAny(t, JobKeywords);
  }

  // ---------------------------------------------------------------------------
  // The individual rules
  // ---------------------------------------------------------------------------

  /** A store-information keyword decides the block, whatever other keywords the text holds. */
  lemma StoreInfoPriority(text: string)
    requires exists k :: k in StoreKeywords && Occurs(ToLower(text), k)
    ensures ClassifyMessage(text) == "\ncategory: 店舗情報\nalert: NO\nauto_reply: YES\n"
  {
    ClassifyIsFirstFiringRule(ToLower(text), StoreInfo);
  }

  /** Without a store-information keyword, a VIP keyword gives the alerting VIP block. */
  lemma VipRule(text: string)
    requires forall k :: k in StoreKeywords ==> !Occurs(ToLower(text), k)
    requires exists k :: k in VipKeywords && Occurs(ToLower(text), k)
    ensures Classify(ToLower(text)) == Vip
    ensures ClassifyMessage(text) == "\ncategory: VIP\nalert: YES\nauto_reply: NO\n"
  {
    ClassifyIsFirstFiringRule(ToLower(text), Vip);
  }

  /** "VIP" in any mix of upper and lower case counts as the VIP keyword. */
  lemma VipInAnyCase(p: string, u: string, q: string)
    requires ToLower(u) == "vip"
    requires forall k :: k in StoreKeywords ==> !Occurs(ToLower(p + u + q), k)
    ensures Classify(ToLower(p + u + q)) == Vip
    ensures ClassifyMessage(p + u + q) == "\ncategory: VIP\nalert: YES\nauto_reply: NO\n"
  {
    ToLowerConcat(p + u, q);
    ToLowerConcat(p, u);
    OccursInMiddle(ToLower(p), "vip", ToLower(q));
    VipRule(p + u + q);
  }

  /** Without store or VIP keywords, a lost-item keyword gives the lost-item block. */
  lemma LostItemRule(text: string)
    requires forall k :: k in StoreKeywords + VipKeywords ==> !Occurs(ToLower(text), k)
    requires exists k :: k in LostItemKeywords && Occurs(ToLower(text), k)
    ensures ClassifyMessage(text) == "\ncategory: 落とし物\nalert: NO\nauto_reply: YES\n"
  {
    ClassifyIsFirstFiringRule(ToLower(text), LostItem);
  }

  /** Without store, VIP or lost-item keywords, a job keyword gives the job block. */
  lemma JobRule(text: string)
    requires forall k :: k in StoreKeywords + VipKeywords + LostItemKeywords ==> !Occurs(ToLower(text), k)
    requires exists k :: k in JobKeywords && Occurs(ToLower(text), k)
    ensures ClassifyMessage(text) == "\ncategory: 求人\nalert: NO\nauto_reply: YES\n"
  {
    ClassifyIsFirstFiringRule(ToLower(text), JobInquiry);
  }

  /** A text with none of the keywords falls through to the default block. */
  lemma DefaultRule(text: string)
    requires forall k :: k in StoreKeywords + VipKeywords + LostItemKeywords + JobKeywords ==> !Occurs(ToLower(text), k)
    ensures ClassifyMessage(text) == "\ncategory: その他\nalert: NO\nauto_reply: YES\n"
  {
    ClassifyIsFirstFiringRule(ToLower(text), Other);
  }

  /** The empty message (the handler's default) is classified as "その他". */
  lemma EmptyMessageIsOther()
    ensures ClassifyMessage("") == "\ncategory: その他\nalert: NO\nauto_reply: YES\n"
  {
    assert ToLower("") == "";
    assert Classify("") == Other;
  }

  /** A question about opening hours that also names VIP and champagne is still store information. */
  lemma StoreInfoBeforeVipExample()
    ensures ClassifyMessage("営業時間ですがVIPシャンパン頼めますか") == "\ncategory: 店舗情報\nalert: NO\nauto_reply: YES\n"
  {
    var text := "営業時間ですがVIPシャンパン頼めますか";
    var t := ToLower(text);
    assert t[0..4] == "営業時間";
    assert OccursAt(t, "営業時間", 0);
    assert StoreKeywords[0] == "営業時間" && Occurs(t, "営業時間");
    StoreInfoPriority(text);
  }

  /** The fixed message of the `/test` route is classified as VIP. */
  lemma TestMessageIsVip()
    ensures Classify(ToLower("VIP席空いてますか？")) == Vip
    ensures ClassifyMessage("VIP席空いてますか？") == "\ncategory: VIP\nalert: YES\nauto_reply: NO\n"
  {
    var q := "席空いてますか？";
    ToLowerNoCapitals(q);
    ToLowerConcat("VIP", q);
    assert ToLower("VIP") == "vip";
    var t := ToLower("VIP" + q);
    assert t == "vip席空いてますか？";
    forall k | k in StoreKeywords
      ensures !Occurs(t, k)
    {
      assert k[0] in "営何場どア";
      assert k[0] !in t;
      NotOccursWithoutFirstChar(t, k);
    }
    assert "VIP" + q == "VIP席空いてますか？" == "" + "VIP" + q;
    VipInAnyCase("", "VIP", q);
  }
}
