/**
 * The record parser (`parseAIResult`, index.js lines 67-74). The block is split
 * into lines; each line is split on EVERY colon, the first piece is the key and
 * the second the value, both trimmed. A line adds an entry only when both are
 * non-empty, and a later line with the same key overwrites the earlier value.
 */
module RecordParser {
  import opened Wrappers
  import opened Strings

  /**
   * The entry one line contributes, as the `forEach` callback computes it.
   * A line whose key is `__proto__` adds no entry: assigning a string to that
   * property of a plain JavaScript object neither creates an own key nor
   * changes the object's prototype.
   */
  function LineEntry(line: string): (entry: Option<(string, string)>)
    ensures entry.Some? ==> entry.value.0 != "" && entry.value.1 != "" && entry.value.0 != "__proto__"
  {
    var segments := Split(line, ':');
    var key := Trim(segments[0]);
    var value := if |segments| >= 2 then Trim(segments[1]) else "";
    if key != "" && value != "" && key != "__proto__" then Some((key, value)) else None
  }

  /** `parsed[key] = value` for a line with an entry; nothing for one without. */
  function Store(parsed: map<string, string>, entry: Option<(string, string)>): (stored: map<string, string>)
    ensures entry.None? ==> stored == parsed
    ensures entry.Some? ==> stored.Keys == parsed.Keys + {entry.value.0} && stored[entry.value.0] == entry.value.1
    ensures entry.Some? ==> forall k :: k in parsed && k != entry.value.0 ==> stored[k] == parsed[k]
  {
    match entry
    case None => parsed
    case Some((key, value)) => parsed[key := value]
  }

  /** The dictionary left after processing `lines` from first to last. */
  function ParseLines(lines: seq<string>): map<string, string> {
    if lines == [] then map[]
    else Store(ParseLines(lines[..|lines| - 1]), LineEntry(lines[|lines| - 1]))
  }

  /** `parseAIResult(raw)`: the dictionary is filled in place, one line at a time. */
  method ParseAIResult(raw: string) returns (parsed: map<string, string>)
    ensures parsed == ParseLines(Split(raw, '\n'))
  {
    var lines := Split(raw, '\n');
    parsed := map[];
    var i := 0;
    while i < |lines|
      invariant 0 <= i <= |lines|
      invariant parsed == ParseLines(lines[..i])
    {
      var segments := Split(lines[i], ':');
      var key := Trim(segments[0]);
      var value := if |segments| >= 2 then Trim(segments[1]) else "";
      if key != "" && value != "" && key != "__proto__" {
        parsed := parsed[key := value];
      }
      assert lines[..i + 1][..i] == lines[..i];
      i := i + 1;
    }
    assert lines[..i] == lines;
  }

  // ---------------------------------------------------------------------------
  // Which lines contribute, and what
  // ---------------------------------------------------------------------------

  /** Line `line` sets key `k`. */
  ghost predicate Defines(line: string, k: string) {
    LineEntry(line).Some? && LineEntry(line).value.0 == k
  }

  /** A line without a colon has no value, so it adds nothing. */
  lemma LineWithoutColonDropped(line: string)
    requires ':' !in line
    ensures LineEntry(line) == None
  {
    SplitNoSeparator(line, ':');
  }

  /** Whitespace padding holds no colon. */
  lemma PaddingHasNoColon(w: string)
    requires AllTrimmable(w)
    ensures ':' !in w
  {
    forall i | 0 <= i < |w| ensures w[i] != ':' {
      assert IsTrimmable(w[i]);
    }
  }

  /** A blank line (empty or only whitespace) adds nothing. */
  lemma BlankLineDropped(line: string)
    requires AllTrimmable(line)
    ensures LineEntry(line) == None
  {
    PaddingHasNoColon(line);
    LineWithoutColonDropped(line);
  }

  /**
   * A line with one colon, written with any whitespace around the key and the
   * value (`a:b`, `  a :b`, `:b`, `a:`), gives the trimmed key and value when
   * both are non-empty and the key is not `__proto__`, and nothing otherwise.
   * With `SecondColonEndsValue` and `LineWithoutColonDropped` this fixes the
   * entry of every line.
   */
  lemma PaddedFieldLine(w1: string, k: string, w2: string, w3: string, v: string, w4: string)
    requires AllTrimmable(w1) && AllTrimmable(w2) && AllTrimmable(w3) && AllTrimmable(w4)
    requires Trimmed(k) && Trimmed(v) && ':' !in k && ':' !in v
    ensures LineEntry(w1 + k + w2 + ":" + w3 + v + w4)
         == if k != "" && v != "" && k != "__proto__" then Some((k, v)) else None
  {
    PaddingHasNoColon(w1);
    PaddingHasNoColon(w2);
    PaddingHasNoColon(w3);
    PaddingHasNoColon(w4);
    var before, after := w1 + k + w2, w3 + v + w4;
    assert ':' !in before && ':' !in after;
    assert w1 + k + w2 + ":" + w3 + v + w4 == before + [':'] + after;
    SplitAtFirst(before, ':', after);
    SplitNoSeparator(after, ':');
    TrimPadded(w1, k, w2);
    TrimPadded(w3, v, w4);
  }

  /** What an entry holds: a non-empty trimmed key and value, neither with a colon. */
  lemma EntryShape(line: string)
    requires LineEntry(line).Some?
    ensures var (k, v) := LineEntry(line).value;
      k != "" && v != "" && k != "__proto__" && Trimmed(k) && Trimmed(v) && ':' !in k && ':' !in v
  {
    var segments := Split(line, ':');
    SplitJoin(line, ':');
    assert ':' !in segments[0] && ':' !in segments[1];
    if ':' in Trim(segments[0]) {
      TrimKeepsInside(segments[0], ':');
    }
    if ':' in Trim(segments[1]) {
      TrimKeepsInside(segments[1], ':');
    }
  }

  /** A well-formed `key: value` line gives exactly that key and value. */
  lemma FieldLineEntry(k: string, v: string)
    requires k != "" && v != "" && k != "__proto__"
    requires Trimmed(k) && Trimmed(v) && ':' !in k && ':' !in v
    ensures LineEntry(k + ": " + v) == Some((k, v))
  {
    assert k + ": " + v == k + [':'] + (" " + v);
    SplitAtFirst(k, ':', " " + v);
    assert ':' !in " " + v;
    SplitNoSeparator(" " + v, ':');
    TrimOfTrimmed(k);
    assert AllTrimmable(" ");
    assert " " + v + [] == " " + v;
    TrimPadded(" ", v, []);
  }

  /** Only the first two colon-separated pieces matter: anything after a second colon is lost. */
  lemma SecondColonEndsValue(a: string, b: string, rest: string)
    requires ':' !in a && ':' !in b
    ensures LineEntry(a + ":" + b + ":" + rest) == LineEntry(a + ":" + b)
  {
    assert a + ":" + b + ":" + rest == a + [':'] + (b + [':'] + rest);
    assert a + ":" + b == a + [':'] + b;
    SplitAtFirst(a, ':', b + [':'] + rest);
    SplitAtFirst(b, ':', rest);
    SplitAtFirst(a, ':', b);
    SplitNoSeparator(b, ':');
  }

  /** The line `a: b: c` gives key `a` with value `b`, not `b: c`. */
  lemma EveryColonSplits()
    ensures LineEntry("a: b: c") == Some(("a", "b"))
  {
    SecondColonEndsValue("a", " b", " c");
    assert "a" + ":" + " b" + ":" + " c" == "a: b: c";
    assert "a" + ":" + " b" == "a" + ": " + "b";
    FieldLineEntry("a", "b");
  }

  // ---------------------------------------------------------------------------
  // The dictionary built from many lines
  // ---------------------------------------------------------------------------

  /** Processing one more line stores that line's entry on top of what was there. */
  lemma ParseLinesSnoc(lines: seq<string>, line: string)
    ensures ParseLines(lines + [line]) == Store(ParseLines(lines), LineEntry(line))
  {
  }

  /** Storing an entry on top of a merged dictionary stores it in the overriding part. */
  lemma StoreAfterMerge(m1: map<string, string>, m2: map<string, string>, entry: Option<(string, string)>)
    ensures Store(m1 + m2, entry) == m1 + Store(m2, entry)
  {
    if entry.Some? {
      var (k, v) := entry.value;
      assert (m1 + m2)[k := v] == m1 + m2[k := v];
    }
  }

  /** Parsing two runs of lines is parsing the first, then letting the second override it. */
  lemma {:induction false} ParseLinesConcat(a: seq<string>, b: seq<string>)
    ensures ParseLines(a + b) == ParseLines(a) + ParseLines(b)
    decreases |b|
  {
    if b == [] {
      assert a + b == a;
    } else {
      var b' := b[..|b| - 1];
      var last := b[|b| - 1];
      assert a + b == (a + b') + [last];
      assert b == b' + [last];
      ParseLinesConcat(a, b');
      ParseLinesSnoc(a + b', last);
      ParseLinesSnoc(b', last);
      StoreAfterMerge(ParseLines(a), ParseLines(b'), LineEntry(last));
    }
  }

  /** A key is in the dictionary exactly when some line defines it. */
  lemma {:induction false} ParseLinesKeys(lines: seq<string>, k: string)
    ensures k in ParseLines(lines) <==> exists i :: 0 <= i < |lines| && Defines(lines[i], k)
    decreases |lines|
  {
    if lines != [] {
      var init := lines[..|lines| - 1];
      ParseLinesKeys(init, k);
      assert forall i :: 0 <= i < |init| ==> init[i] == lines[i];
      if k in ParseLines(init) {
        var i :| 0 <= i < |init| && Defines(init[i], k);
        assert Defines(lines[i], k);
      }
    }
  }

  /** The value of a key is the one written by the last line that defines it. */
  lemma {:induction false} ParseLinesLastWins(lines: seq<string>, i: nat, k: string, v: string)
    requires i < |lines| && LineEntry(lines[i]) == Some((k, v))
    requires forall j :: i < j < |lines| ==> !Defines(lines[j], k)
    ensures k in ParseLines(lines) && ParseLines(lines)[k] == v
    decreases |lines|
  {
    var init := lines[..|lines| - 1];
    if i < |lines| - 1 {
      assert forall j :: i < j < |init| ==> init[j] == lines[j];
      ParseLinesLastWins(init, i, k, v);
      assert !Defines(lines[|lines| - 1], k);
    }
  }

  /** Every entry of the dictionary has a non-empty trimmed key and value without colons. */
  lemma {:induction false} ParsedEntriesShape(lines: seq<string>, k: string)
    requires k in ParseLines(lines)
    ensures var v := ParseLines(lines)[k];
      k != "" && v != "" && Trimmed(k) && Trimmed(v) && ':' !in k && ':' !in v
    decreases |lines|
  {
    var init := lines[..|lines| - 1];
    var last := lines[|lines| - 1];
    if LineEntry(last).Some? {
      EntryShape(last);
    }
    if !Defines(last, k) {
      ParsedEntriesShape(init, k);
    }
  }

  /** Two field lines followed by two empty lines give the two entries, the second overriding the first. */
  lemma TwoEntriesThenBlanks(a: string, b: string)
    requires LineEntry(a).Some? && LineEntry(b).Some?
    ensures ParseLines([a, b, "", ""]) == Store(Store(map[], LineEntry(a)), LineEntry(b))
  {
    var lines := [a, b, "", ""];
    LineWithoutColonDropped("");
    ParseLinesSnoc([], a);
    ParseLinesSnoc([a], b);
    ParseLinesSnoc([a, b], "");
    ParseLinesSnoc([a, b, ""], "");
    assert [a] == [] + [a];
    assert [a, b] == [a] + [b];
    assert [a, b, ""] == [a, b] + [""];
    assert lines == [a, b, ""] + [""];
  }

  /** Two `key: value` lines and two line breaks parse to the two entries. */
  lemma TwoFieldLines(k1: string, v1: string, k2: string, v2: string)
    requires k1 != "" && v1 != "" && k1 != "__proto__" && Trimmed(k1) && Trimmed(v1)
    requires k2 != "" && v2 != "" && k2 != "__proto__" && Trimmed(k2) && Trimmed(v2)
    requires ':' !in k1 && ':' !in v1 && ':' !in k2 && ':' !in v2
    requires '\n' !in k1 && '\n' !in v1 && '\n' !in k2 && '\n' !in v2
    ensures ParseLines(Split(k1 + ": " + v1 + "\n" + k2 + ": " + v2 + "\n\n", '\n')) == map[k1 := v1][k2 := v2]
  {
    var a, b := k1 + ": " + v1, k2 + ": " + v2;
    var lines := [a, b, "", ""];
    assert Join(lines[2..], '\n') == "\n" by {
      assert lines[2..][1..] == [""];
    }
    assert Join(lines[1..], '\n') == b + "\n" + "\n" by {
      assert lines[1..][1..] == lines[2..];
    }
    assert Join(lines, '\n') == a + "\n" + (b + "\n" + "\n");
    assert k1 + ": " + v1 + "\n" + k2 + ": " + v2 + "\n\n" == a + "\n" + (b + "\n" + "\n");
    assert forall i :: 0 <= i < |lines| ==> '\n' !in lines[i];
    JoinSplit(lines, '\n');
    FieldLineEntry(k1, v1);
    FieldLineEntry(k2, v2);
    TwoEntriesThenBlanks(a, b);
  }

  /**
   * The block `category: VIP`, `alert: YES` followed by two line breaks
   * parses to those two entries; the empty lines leave no trace. The block is
   * passed in as `raw` and fixed by the precondition, rather than written into
   * the postcondition, because the solver evaluates `Split` on a literal
   * character by character, which makes any proof that mentions it costly.
   */
  lemma TwoFieldExample(raw: string)
    requires raw == "category: VIP\nalert: YES\n\n"
    ensures ParseLines(Split(raw, '\n')) == map["category" := "VIP", "alert" := "YES"]
  {
    assert raw == "category" + ": " + "VIP" + "\n" + "alert" + ": " + "YES" + "\n\n";
    TwoFieldLines("category", "VIP", "alert", "YES");
  }
}
