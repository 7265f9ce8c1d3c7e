/**
 * Classification followed by parsing, as the webhook handler chains them
 * (index.js lines 176-177): the block `classifyMessage` writes is read back by
 * `parseAIResult` into a dictionary with exactly the three fields of the block.
 */
module Classification {
  import opened Strings
  import opened Wrappers
  import opened Classifier
  import opened RecordParser

  /** The dictionary a category's block is meant to stand for. */
  function Record(c: Category): map<string, string> {
    map["category" := Name(c), "alert" := AlertFlag(c), "auto_reply" := AutoReplyFlag(c)]
  }

  /** `parseAIResult(await classifyMessage(text))`. */
  function ParsedClassification(text: string): map<string, string> {
    ParseLines(Split(ClassifyMessage(text), '\n'))
  }

  /** A value the parser reads back unchanged from a `key: value` line of a block. */
  ghost predicate Readable(v: string) {
    v != "" && Trimmed(v) && ':' !in v && '\n' !in v
  }

  /** Every field value of a block can be read back by the parser. */
  lemma FieldValuesReadable(c: Category)
    ensures Readable(Name(c)) && Readable(AlertFlag(c)) && Readable(AutoReplyFlag(c))
  {
  }

  /** A field line of a block is one line, and it yields its key and value. */
  lemma FieldLineReadable(k: string, v: string)
    requires Readable(k) && k != "__proto__" && Readable(v)
    ensures '\n' !in Line(k, v)
    ensures LineEntry(Line(k, v)) == Some((k, v))
  {
    FieldLineEntry(k, v);
  }

  /** An empty line, three field lines and an empty line give the three entries. */
  lemma ThreeEntriesBetweenBlanks(a: string, b: string, d: string)
    ensures ParseLines(["", a, b, d, ""]) == Store(Store(Store(map[], LineEntry(a)), LineEntry(b)), LineEntry(d))
  {
    LineWithoutColonDropped("");
    var l0 := [] + [""];
    ParseLinesSnoc([], "");
    var l1 := l0 + [a];
    ParseLinesSnoc(l0, a);
    var l2 := l1 + [b];
    ParseLinesSnoc(l1, b);
    var l3 := l2 + [d];
    ParseLinesSnoc(l2, d);
    var l4 := l3 + [""];
    ParseLinesSnoc(l3, "");
    assert l4 == ["", a, b, d, ""];
  }

  /** A block made of three readable field values parses to exactly those fields. */
  lemma FieldBlockParses(n: string, a: string, r: string)
    requires Readable(n) && Readable(a) && Readable(r)
    ensures ParseLines(Split(Join(["", Line("category", n), Line("alert", a), Line("auto_reply", r), ""], '\n'), '\n'))
         == map["category" := n, "alert" := a, "auto_reply" := r]
  {
    var l1, l2, l3 := Line("category", n), Line("alert", a), Line("auto_reply", r);
    FieldLineReadable("category", n);
    FieldLineReadable("alert", a);
    FieldLineReadable("auto_reply", r);
    var ls := ["", l1, l2, l3, ""];
    assert forall i :: 0 <= i < |ls| ==> '\n' !in ls[i];
    JoinSplit(ls, '\n');
    ThreeEntriesBetweenBlanks(l1, l2, l3);
  }

  /** Each block parses to its record: the empty first and last lines add nothing. */
  lemma BlockParsesToRecord(c: Category)
    ensures ParseLines(Split(Block(c), '\n')) == Record(c)
  {
    BlockIsJoinedLines(c);
    FieldValuesReadable(c);
    FieldBlockParses(Name(c), AlertFlag(c), AutoReplyFlag(c));
  }

  /**
   * The round trip: for every message, parsing the classifier's block gives
   * exactly the keys `category`, `alert` and `auto_reply`, holding the values
   * written in the block of the chosen category.
   */
  lemma RoundTrip(text: string)
    ensures ParsedClassification(text) == Record(Classify(ToLower(text)))
    ensures ParsedClassification(text).Keys == {"category", "alert", "auto_reply"}
  {
    BlockParsesToRecord(Classify(ToLower(text)));
  }

  /**
   * Alert and auto-reply follow VIP: in every parsed classification, `alert` is
   * YES exactly when the category is VIP, and `auto_reply` is NO exactly then.
   */
  lemma AlertAndAutoReplyFollowVip(text: string)
    ensures var p := ParsedClassification(text);
      && "category" in p && "alert" in p && "auto_reply" in p
      && (p["alert"] == "YES" <==> p["category"] == "VIP")
      && (p["auto_reply"] == "NO" <==> p["category"] == "VIP")
      && (p["alert"] == "YES" || p["alert"] == "NO")
      && (p["auto_reply"] == "YES" || p["auto_reply"] == "NO")
  {
    RoundTrip(text);
  }

  /** The parsed category names the rule that matched, so it identifies the category. */
  lemma ParsedCategoryIdentifies(text: string, c: Category)
    ensures "category" in ParsedClassification(text)
    ensures ParsedClassification(text)["category"] == Name(c) <==> Classify(ToLower(text)) == c
  {
    RoundTrip(text);
    assert "category" in Record(Classify(ToLower(text)));
    NameInjective(Classify(ToLower(text)), c);
  }
}
