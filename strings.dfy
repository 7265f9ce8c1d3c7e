/**
 * The JavaScript string operations the message pipeline relies on:
 * `toLowerCase`, `includes`, `split` on a one-character separator and `trim`.
 */
module Strings {

  // ---------------------------------------------------------------------------
  // Lower-casing (ASCII only)
  // ---------------------------------------------------------------------------

  /** Lower-cases an ASCII capital letter and leaves every other character alone. */
  function LowerChar(ch: char): (r: char)
    ensures !('A' <= r <= 'Z')
    ensures !('A' <= ch <= 'Z') ==> r == ch
    ensures 'A' <= ch <= 'Z' ==> r as int == ch as int + 32
  {
    if 'A' <= ch <= 'Z' then (ch as int + 32) as char else ch
  }

  /** `String.prototype.toLowerCase`, restricted to the ASCII letters. */
  function ToLower(s: string): (r: string)
    ensures |r| == |s|
    ensures forall i :: 0 <= i < |s| ==> r[i] == LowerChar(s[i])
  {
    seq(|s|, i requires 0 <= i < |s| => LowerChar(s[i]))
  }

  /** Lower-casing works character by character, so it distributes over concatenation. */
  lemma ToLowerConcat(a: string, b: string)
    ensures ToLower(a + b) == ToLower(a) + ToLower(b)
  {
  }

  /** A string without ASCII capitals is its own lower-case form. */
  lemma ToLowerNoCapitals(s: string)
    requires forall i :: 0 <= i < |s| ==> !('A' <= s[i] <= 'Z')
    ensures ToLower(s) == s
  {
  }

  // ---------------------------------------------------------------------------
  // Substring search
  // ---------------------------------------------------------------------------

  /** `s.includes(k)`: does `k` appear as a contiguous part of `s`? */
  function Contains(s: string, k: string): (found: bool)
    ensures k == [] ==> found
    ensures found ==> |k| <= |s|
    decreases |s|
  {
    if |k| > |s| then false
    else s[..|k|] == k || Contains(s[1..], k)
  }

  /** `k` occurs in `s` starting at index `i`. */
  ghost predicate OccursAt(s: string, k: string, i: int) {
    0 <= i && i + |k| <= |s| && s[i..i + |k|] == k
  }

  /** The declarative reading of `includes`: some index starts an occurrence. */
  ghost predicate Occurs(s: string, k: string) {
    exists i :: OccursAt(s, k, i)
  }

  /** The scan `Contains` finds an occurrence exactly when there is one. */
  lemma {:induction false} ContainsIffOccurs(s: string, k: string)
    ensures Contains(s, k) <==> Occurs(s, k)
    decreases |s|
  {
    if |k| > |s| {
    } else if s[..|k|] == k {
      assert OccursAt(s, k, 0);
    } else {
      ContainsIffOccurs(s[1..], k);
      if Contains(s[1..], k) {
        var i :| OccursAt(s[1..], k, i);
        assert 0 <= i && i + 1 + |k| <= |s|;
        forall j | 0 <= j < |k|
          ensures s[i + 1..i + 1 + |k|][j] == k[j]
        {
          assert s[1..][i..i + |k|][j] == k[j];
        }
        assert OccursAt(s, k, i + 1);
      } else {
        forall i | 0 <= i
          ensures !OccursAt(s, k, i)
        {
          if 0 < i && i + |k| <= |s| {
            assert s[1..][i - 1..i - 1 + |k|] == s[i..i + |k|];
            assert !OccursAt(s[1..], k, i - 1);
          }
        }
      }
    }
  }

  /** A word placed between two strings occurs in the result. */
  lemma OccursInMiddle(p: string, k: string, q: string)
    ensures Occurs(p + k + q, k)
  {
    assert (p + k + q)[|p|..|p| + |k|] == k;
    assert OccursAt(p + k + q, k, |p|);
  }

  /** A non-empty word whose first character is absent from `s` does not occur in `s`. */
  lemma NotOccursWithoutFirstChar(s: string, k: string)
    requires k != [] && k[0] !in s
    ensures !Occurs(s, k)
  {
  }

  // ---------------------------------------------------------------------------
  // Splitting on one character
  // ---------------------------------------------------------------------------

  /**
   * `s.split(sep)` for a one-character separator: the pieces between the
   * separators, including the empty pieces before a leading, after a trailing
   * and between two adjacent separators; `""` splits into `[""]`.
   */
  function Split(s: string, sep: char): (parts: seq<string>)
    ensures |parts| >= 1
    decreases |s|
  {
    if s == [] then [""]
    else
      var rest := Split(s[1..], sep);
      if s[0] == sep then [""] + rest
      else [[s[0]] + rest[0]] + rest[1..]
  }

  /** The pieces glued back together with the separator between them. */
  function Join(parts: seq<string>, sep: char): (s: string)
    requires |parts| >= 1
    ensures |s| >= |parts| - 1
  {
    if |parts| == 1 then parts[0] else parts[0] + [sep] + Join(parts[1..], sep)
  }

  /** Splitting loses nothing but the separators: joining the pieces gives the input back. */
  lemma {:induction false} SplitJoin(s: string, sep: char)
    ensures Join(Split(s, sep), sep) == s
    ensures forall i :: 0 <= i < |Split(s, sep)| ==> sep !in Split(s, sep)[i]
    decreases |s|
  {
    if s != [] {
      var rest := Split(s[1..], sep);
      SplitJoin(s[1..], sep);
      if s[0] == sep {
        assert Split(s, sep) == [""] + rest;
        assert Join([""] + rest, sep) == [sep] + Join(rest, sep);
      } else {
        var parts := Split(s, sep);
        assert parts == [[s[0]] + rest[0]] + rest[1..];
        if |rest| == 1 {
          assert Join(parts, sep) == [s[0]] + rest[0];
        } else {
          assert parts[1..] == rest[1..];
          assert Join(parts, sep) == [s[0]] + (rest[0] + [sep] + Join(rest[1..], sep));
        }
        assert s == [s[0]] + s[1..];
      }
    }
  }

  /** A string without the separator is a single piece. */
  lemma {:induction false} SplitNoSeparator(s: string, sep: char)
    requires sep !in s
    ensures Split(s, sep) == [s]
    decreases |s|
  {
    if s != [] {
      SplitNoSeparator(s[1..], sep);
      assert s == [s[0]] + s[1..];
    }
  }

  /** Splitting at the first separator: the part before it is the first piece. */
  lemma {:induction false} SplitAtFirst(a: string, sep: char, b: string)
    requires sep !in a
    ensures Split(a + [sep] + b, sep) == [a] + Split(b, sep)
    decreases |a|
  {
    if a == [] {
      assert [sep] + b == a + [sep] + b;
      assert ([sep] + b)[1..] == b;
    } else {
      assert (a + [sep] + b)[1..] == a[1..] + [sep] + b;
      SplitAtFirst(a[1..], sep, b);
      assert a == [a[0]] + a[1..];
    }
  }

  /** Pieces without the separator come back unchanged from a join followed by a split. */
  lemma {:induction false} JoinSplit(parts: seq<string>, sep: char)
    requires |parts| >= 1
    requires forall i :: 0 <= i < |parts| ==> sep !in parts[i]
    ensures Split(Join(parts, sep), sep) == parts
    decreases |parts|
  {
    if |parts| == 1 {
      SplitNoSeparator(parts[0], sep);
    } else {
      JoinSplit(parts[1..], sep);
      SplitAtFirst(parts[0], sep, Join(parts[1..], sep));
      assert parts == [parts[0]] + parts[1..];
    }
  }

  // ---------------------------------------------------------------------------
  // Trimming
  // ---------------------------------------------------------------------------

  /**
   * The characters `String.prototype.trim` removes: the WhiteSpace and
   * LineTerminator code points of ECMA-262 (tab, vertical tab, form feed,
   * space, no-break space, byte order mark, the Unicode space separators,
   * line feed, carriage return, line and paragraph separator).
   */
  predicate IsTrimmable(ch: char) {
    || ch == '\t' || ch == '\n' || ch == '\U{000B}' || ch == '\U{000C}' || ch == '\r'
    || ch == ' ' || ch == '\U{00A0}' || ch == '\U{1680}'
    || ('\U{2000}' <= ch <= '\U{200A}')
    || ch == '\U{2028}' || ch == '\U{2029}' || ch == '\U{202F}' || ch == '\U{205F}'
    || ch == '\U{3000}' || ch == '\U{FEFF}'
  }

  /** Every character of `w` is one `trim` removes. */
  ghost predicate AllTrimmable(w: string) {
    forall i :: 0 <= i < |w| ==> IsTrimmable(w[i])
  }

  /** Neither end of `s` is a character `trim` removes. */
  ghost predicate Trimmed(s: string) {
    s == [] || (!IsTrimmable(s[0]) && !IsTrimmable(s[|s| - 1]))
  }

  /** `trim` at the front: drops the leading trimmable characters. */
  function TrimStart(s: string): (r: string)
    ensures |r| <= |s|
    ensures r == [] || !IsTrimmable(r[0])
  {
    if s != [] && IsTrimmable(s[0]) then TrimStart(s[1..]) else s
  }

  /** `trim` at the back: drops the trailing trimmable characters. */
  function TrimEnd(s: string): (r: string)
    ensures |r| <= |s|
    ensures r == [] || !IsTrimmable(r[|r| - 1])
  {
    if s != [] && IsTrimmable(s[|s| - 1]) then TrimEnd(s[..|s| - 1]) else s
  }

  /** What `TrimStart` leaves is a suffix of its input. */
  lemma {:induction false} TrimStartIsSuffix(s: string)
    ensures TrimStart(s) == s[|s| - |TrimStart(s)|..]
    decreases |s|
  {
    if s != [] && IsTrimmable(s[0]) {
      TrimStartIsSuffix(s[1..]);
    }
  }

  /** What `TrimEnd` leaves is a prefix of its input. */
  lemma {:induction false} TrimEndIsPrefix(s: string)
    ensures TrimEnd(s) == s[..|TrimEnd(s)|]
    decreases |s|
  {
    if s != [] && IsTrimmable(s[|s| - 1]) {
      TrimEndIsPrefix(s[..|s| - 1]);
    }
  }

  /** `s.trim()`: drops the trimmable characters at both ends. */
  function Trim(s: string): (r: string)
    ensures |r| <= |s|
    ensures Trimmed(r)
  {
    TrimEndIsPrefix(TrimStart(s));
    TrimEnd(TrimStart(s))
  }

  /** Trimming only removes characters: everything in the result was in the input. */
  lemma TrimKeepsInside(s: string, ch: char)
    requires ch in Trim(s)
    ensures ch in s
  {
    var a := TrimStart(s);
    var r := TrimEnd(a);
    TrimStartIsSuffix(s);
    TrimEndIsPrefix(a);
    var i :| 0 <= i < |r| && r[i] == ch;
    assert a[i] == ch;
    assert s[|s| - |a| + i] == ch;
  }

  lemma {:induction false} TrimStartPadded(w: string, rest: string)
    requires AllTrimmable(w)
    requires rest == [] || !IsTrimmable(rest[0])
    ensures TrimStart(w + rest) == rest
    decreases |w|
  {
    if w != [] {
      assert (w + rest)[1..] == w[1..] + rest;
      TrimStartPadded(w[1..], rest);
    } else {
      assert w + rest == rest;
    }
  }

  lemma {:induction false} TrimEndPadded(rest: string, w: string)
    requires AllTrimmable(w)
    requires rest == [] || !IsTrimmable(rest[|rest| - 1])
    ensures TrimEnd(rest + w) == rest
    decreases |w|
  {
    if w != [] {
      assert (rest + w)[..|rest + w| - 1] == rest + w[..|w| - 1];
      TrimEndPadded(rest, w[..|w| - 1]);
    } else {
      assert rest + w == rest;
    }
  }

  /** `trim` removes exactly the trimmable padding around a trimmed core. */
  lemma TrimPadded(w1: string, v: string, w2: string)
    requires AllTrimmable(w1) && AllTrimmable(w2) && Trimmed(v)
    ensures Trim(w1 + v + w2) == v
  {
    if v == [] {
      assert w1 + v + w2 == w1 + w2 + [];
      TrimStartPadded(w1 + w2, []);
      assert TrimEnd([]) == [];
    } else {
      assert w1 + v + w2 == w1 + (v + w2);
      TrimStartPadded(w1, v + w2);
      TrimEndPadded(v, w2);
    }
  }

  /** A string whose ends are not trimmable is left alone by `trim`. */
  lemma TrimOfTrimmed(v: string)
    requires Trimmed(v)
    ensures Trim(v) == v
  {
  }
}
