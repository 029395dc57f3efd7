/**
 The two ECMAScript string built-ins the upload handler relies on:
 `String.prototype.split` with a one-character separator and
 `String.prototype.trim`. `Join` (`Array.prototype.join`) is the inverse of
 `Split` and is used to state what `Split` computes.
 */
module JsString {

  /** ECMAScript WhiteSpace and LineTerminator code points: what `trim` removes. */
  predicate IsWhitespace(c: char) {
    if c < '\U{A0}' then c == ' ' || ('\t' <= c <= '\r')
    else
      || c == '\U{A0}' || c == '\U{1680}' || ('\U{2000}' <= c <= '\U{200A}')
      || c == '\U{2028}' || c == '\U{2029}' || c == '\U{202F}' || c == '\U{205F}'
      || c == '\U{3000}' || c == '\U{FEFF}'
  }

  ghost predicate AllWhitespace(s: string) {
    forall k :: 0 <= k < |s| ==> IsWhitespace(s[k])
  }

  /** No whitespace at either end (what `trim` leaves behind). */
  predicate Trimmed(s: string) {
    s == [] || (!IsWhitespace(s[0]) && !IsWhitespace(s[|s| - 1]))
  }

  /** `s.trimStart()`: the suffix of `s` left after dropping leading whitespace. */
  function TrimStart(s: string): (r: string)
    ensures |r| <= |s| && r == s[|s| - |r|..]
    ensures AllWhitespace(s[..|s| - |r|])
    ensures r == [] || !IsWhitespace(r[0])
  {
    if s != [] && IsWhitespace(s[0]) then
      var r := TrimStart(s[1..]);
      assert s[..|s| - |r|] == [s[0]] + s[1..][..|s| - 1 - |r|];
      r
    else s
  }

  /** `s.trimEnd()`: the prefix of `s` left after dropping trailing whitespace. */
  function TrimEnd(s: string): (r: string)
    ensures |r| <= |s| && r == s[..|r|]
    ensures AllWhitespace(s[|r|..])
    ensures r == [] || !IsWhitespace(r[|r| - 1])
  {
    if s != [] && IsWhitespace(s[|s| - 1]) then
      var r := TrimEnd(s[..|s| - 1]);
      assert s[|r|..] == s[..|s| - 1][|r|..] + [s[|s| - 1]];
      r
    else s
  }

  /** `s.trim()`: `s` without its leading and trailing whitespace. */
  function Trim(s: string): (r: string)
    ensures Trimmed(r) && |r| <= |s|
  {
    var t := TrimStart(s);
    var r := TrimEnd(t);
    assert Trimmed(r) by {
      if r != [] {
        assert r[0] == t[0];
      }
    }
    r
  }

  /**
   What `trim` removes is whitespace and only that: the result is a factor
   `s[i..j]` of `s` whose two neighbours `s[..i]` and `s[j..]` are blank.
   */
  lemma TrimIsFactor(s: string)
    ensures exists i, j :: 0 <= i <= j <= |s| && Trim(s) == s[i..j] && AllWhitespace(s[..i]) && AllWhitespace(s[j..])
  {
    var t := TrimStart(s);
    var r := TrimEnd(t);
    var i := |s| - |t|;
    var j := i + |r|;
    assert r == s[i..j] by {
      assert t == s[i..] && r == t[..|r|];
    }
    assert AllWhitespace(s[j..]) by {
      assert s[j..] == t[|r|..];
    }
    assert Trim(s) == s[i..j] && AllWhitespace(s[..i]);
  }

  /** A trimmed string contains no character that `s` lacks. */
  lemma TrimKeepsOut(s: string, c: char)
    requires c !in s
    ensures c !in Trim(s)
  {
    TrimIsFactor(s);
    var i, j :| 0 <= i <= j <= |s| && Trim(s) == s[i..j] && AllWhitespace(s[..i]) && AllWhitespace(s[j..]);
  }

  /** `trim` leaves an already trimmed string alone, so it is idempotent. */
  lemma TrimOfTrimmed(s: string)
    requires Trimmed(s)
    ensures Trim(s) == s
  {
  }

  lemma TrimIdempotent(s: string)
    ensures Trim(Trim(s)) == Trim(s)
  {
    TrimOfTrimmed(Trim(s));
  }

  /** A string of whitespace only trims to the empty string, and only such a string does. */
  lemma {:induction false} TrimEmptyIffBlank(s: string)
    ensures Trim(s) == [] <==> AllWhitespace(s)
  {
    if AllWhitespace(s) && s != [] {
      assert IsWhitespace(s[0]);
      assert AllWhitespace(s[1..]) by {
        forall k | 0 <= k < |s| - 1 ensures IsWhitespace(s[1..][k]) {
          assert s[1..][k] == s[k + 1];
        }
      }
      TrimEmptyIffBlank(s[1..]);
      assert TrimStart(s) == TrimStart(s[1..]);
    }
    if Trim(s) == [] {
      var t := TrimStart(s);
      assert TrimEnd(t) == [];
      assert t == [];
      assert s[..|s|] == s;
    }
  }

  /**
   `s.split(sep)` for a one-character separator: the maximal runs of
   `s` between separators, in order. There is always at least one field:
   `"".split(",")` is `[""]`.
   */
  function Split(s: string, sep: char): (parts: seq<string>)
    ensures |parts| >= 1
  {
    if s == [] then [[]]
    else
      var rest := Split(s[1..], sep);
      if s[0] == sep then [[]] + rest
      else [[s[0]] + rest[0]] + rest[1..]
  }

  /** There is one field more than there are separators in the text. */
  lemma {:induction false} SplitCount(s: string, sep: char)
    ensures |Split(s, sep)| == multiset(s)[sep] + 1
  {
    if s != [] {
      SplitCount(s[1..], sep);
      assert s == [s[0]] + s[1..];
      assert multiset(s) == multiset{s[0]} + multiset(s[1..]);
    }
  }

  /** No field holds the separator. */
  lemma {:induction false} SplitFieldsLackSeparator(s: string, sep: char)
    ensures forall i :: 0 <= i < |Split(s, sep)| ==> sep !in Split(s, sep)[i]
  {
    if s != [] {
      SplitFieldsLackSeparator(s[1..], sep);
      var rest := Split(s[1..], sep);
      if s[0] != sep {
        var parts := Split(s, sep);
        assert parts == [[s[0]] + rest[0]] + rest[1..];
        forall i | 0 <= i < |parts| ensures sep !in parts[i] {
          if i > 0 {
            assert parts[i] == rest[i];
          }
        }
      }
    }
  }

  /** `parts.join(sep)`: the fields with one separator between neighbours. */
  function Join(parts: seq<string>, sep: char): (s: string)
  {
    if parts == [] then []
    else if |parts| == 1 then parts[0]
    else parts[0] + [sep] + Join(parts[1..], sep)
  }

  /** A character that is not the separator and is in no field is not in the joined text. */
  lemma {:induction false} JoinKeepsOut(parts: seq<string>, sep: char, c: char)
    requires c != sep
    requires forall i :: 0 <= i < |parts| ==> c !in parts[i]
    ensures c !in Join(parts, sep)
  {
    if |parts| > 1 {
      JoinKeepsOut(parts[1..], sep, c);
      assert c !in parts[0];
    }
  }

  /** Joining the fields back gives the original text: `split` loses nothing. */
  lemma {:induction false} JoinSplit(s: string, sep: char)
    ensures Join(Split(s, sep), sep) == s
  {
    if s != [] {
      JoinSplit(s[1..], sep);
      var rest := Split(s[1..], sep);
      if s[0] == sep {
        assert Split(s, sep) == [[]] + rest;
        assert Join(Split(s, sep), sep) == [] + [sep] + Join(rest, sep);
      } else {
        var parts := Split(s, sep);
        assert parts == [[s[0]] + rest[0]] + rest[1..];
        if |rest| == 1 {
          assert Join(parts, sep) == [s[0]] + rest[0];
        } else {
          assert parts[1..] == rest[1..];
          assert Join(rest, sep) == rest[0] + [sep] + Join(rest[1..], sep);
          assert Join(parts, sep) == ([s[0]] + rest[0]) + [sep] + Join(rest[1..], sep);
        }
      }
    }
  }

  /** Splitting joined fields that hold no separator gives back the same fields. */
  lemma {:induction false} SplitJoin(parts: seq<string>, sep: char)
    requires |parts| >= 1
    requires forall i :: 0 <= i < |parts| ==> sep !in parts[i]
    ensures Split(Join(parts, sep), sep) == parts
  {
    if |parts| == 1 {
      SplitWithoutSeparator(parts[0], sep);
    } else {
      SplitWithoutSeparator(parts[0], sep);
      SplitJoin(parts[1..], sep);
      SplitConcat(parts[0], Join(parts[1..], sep), sep);
      assert [parts[0]] + parts[1..] == parts;
    }
  }

  /** A text without the separator is one field. */
  lemma SplitWithoutSeparator(s: string, sep: char)
    requires sep !in s
    ensures Split(s, sep) == [s]
  {
    JoinSplit(s, sep);
    SplitCount(s, sep);
    assert multiset(s)[sep] == 0;
  }

  /** A text that starts with a field `a` free of separators: `a` is its first field. */
  lemma SplitFirstField(s: string, a: string, b: string, sep: char)
    requires s == a + [sep] + b && sep !in a
    ensures Split(s, sep) == [a] + Split(b, sep)
  {
    SplitConcat(a, b, sep);
    SplitWithoutSeparator(a, sep);
  }

  /** One step of `Split`: the first character either ends the first field or joins it. */
  lemma SplitCons(c: char, t: string, sep: char)
    ensures Split([c] + t, sep) ==
      if c == sep then [[]] + Split(t, sep)
      else [[c] + Split(t, sep)[0]] + Split(t, sep)[1..]
  {
    assert ([c] + t)[1..] == t;
  }

  /**
   A separator cuts the text in two independent halves: the fields of
   `a + [sep] + b` are the fields of `a` followed by the fields of `b`.
   */
  lemma {:induction false} SplitConcat(a: string, b: string, sep: char)
    ensures Split(a + [sep] + b, sep) == Split(a, sep) + Split(b, sep)
  {
    if a == [] {
      assert a + [sep] + b == [sep] + b;
      SplitCons(sep, b, sep);
    } else {
      SplitConcat(a[1..], b, sep);
      SplitConsAppend(a[0], a[1..], a[1..] + [sep] + b, Split(b, sep), sep);
      assert [a[0]] + a[1..] == a;
      assert [a[0]] + (a[1..] + [sep] + b) == a + [sep] + b;
    }
  }

  /**
   The inductive step of `SplitConcat`: when the fields of `t` are those of
   `a` followed by `tail`, a character put in front of both keeps it so.
   */
  lemma {:induction false} SplitConsAppend(c: char, a: string, t: string, tail: seq<string>, sep: char)
    requires Split(t, sep) == Split(a, sep) + tail
    ensures Split([c] + t, sep) == Split([c] + a, sep) + tail
  {
    SplitCons(c, t, sep);
    SplitCons(c, a, sep);
    PushFront(c, sep, Split(a, sep), tail);
  }

  /** The sequence part of `SplitConsAppend`: putting a character in front commutes with appending fields. */
  lemma PushFront(c: char, sep: char, ra: seq<string>, tail: seq<string>)
    requires |ra| >= 1
    ensures var rt := ra + tail;
      (if c == sep then [[]] + rt else [[c] + rt[0]] + rt[1..]) ==
      (if c == sep then [[]] + ra else [[c] + ra[0]] + ra[1..]) + tail
  {
    if c == sep {
      ReplaceHead([], [[]] + ra, tail);
    } else {
      assert (ra + tail)[0] == ra[0];
      ReplaceHead([c] + ra[0], ra, tail);
    }
  }

  /** Replacing the first element of `r + tail` is replacing the first element of `r`, then appending `tail`. */
  lemma ReplaceHead<T>(x: T, r: seq<T>, tail: seq<T>)
    requires |r| >= 1
    ensures [x] + (r + tail)[1..] == ([x] + r[1..]) + tail
  {
    assert (r + tail)[1..] == r[1..] + tail;
  }
}
