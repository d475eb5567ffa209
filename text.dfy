/** Python `str` operations the converter relies on, on strings as sequences of
    characters: `str.split(sep)` with a one-character separator, `sep.join`,
    `str.strip()` with no argument, and the line splitting of `readlines()`. */
module Text {

  type String = seq<char>

  /** Number of occurrences of `c` in `s`. */
  function Count(s: String, c: char): (n: nat)
    ensures n <= |s|
    ensures n == 0 <==> c !in s
  {
    if s == [] then 0 else (if s[0] == c then 1 else 0) + Count(s[1..], c)
  }

  lemma {:induction false} CountAppend(a: String, b: String, c: char)
    ensures Count(a + b, c) == Count(a, c) + Count(b, c)
  {
    if a == [] {
      assert a + b == b;
    } else {
      assert (a + b)[1..] == a[1..] + b;
      CountAppend(a[1..], b, c);
    }
  }

  // ---------------------------------------------------------------------------
  // join and split

  /** `[sep].join(parts)`: the parts with one `sep` between neighbours, so
      joining two or more parts puts a separator in the text. */
  function Join(parts: seq<String>, sep: char): (r: String)
    ensures |parts| >= 2 ==> sep in r
  {
    if |parts| == 0 then []
    else if |parts| == 1 then parts[0]
    else parts[0] + [sep] + Join(parts[1..], sep)
  }

  /** A joined string holds exactly one separator per gap when no part holds one. */
  lemma {:induction false} JoinCount(parts: seq<String>, sep: char)
    requires |parts| >= 1
    requires forall k :: 0 <= k < |parts| ==> sep !in parts[k]
    ensures Count(Join(parts, sep), sep) == |parts| - 1
  {
    if |parts| > 1 {
      JoinCount(parts[1..], sep);
      CountAppend(parts[0], [sep], sep);
      CountAppend(parts[0] + [sep], Join(parts[1..], sep), sep);
    }
  }

  /** A character absent from every part is absent from the joined string,
      unless it is the separator itself. */
  lemma {:induction false} JoinExcludes(parts: seq<String>, sep: char, c: char)
    requires c != sep
    requires forall k :: 0 <= k < |parts| ==> c !in parts[k]
    ensures c !in Join(parts, sep)
  {
    if |parts| > 1 {
      JoinExcludes(parts[1..], sep, c);
    }
  }

  /** Position of the first occurrence of `c` in `s`. */
  function FirstIndex(s: String, c: char): (i: nat)
    requires c in s
    ensures i < |s| && s[i] == c && c !in s[..i]
  {
    if s[0] == c then 0
    else
      assert s == [s[0]] + s[1..];
      var j := FirstIndex(s[1..], c);
      assert s[..j + 1] == [s[0]] + s[1..][..j];
      j + 1
  }

  /** The parts of a split around the first separator at `i`: `s[..i]`, then
      the parts of what follows it. */
  lemma SplitStep(s: String, sep: char, i: nat, rest: seq<String>)
    requires i < |s| && s[i] == sep && sep !in s[..i]
    requires |rest| == Count(s[i + 1..], sep) + 1
    requires forall k :: 0 <= k < |rest| ==> sep !in rest[k]
    requires Join(rest, sep) == s[i + 1..]
    ensures |[s[..i]] + rest| == Count(s, sep) + 1
    ensures forall k :: 0 <= k < |[s[..i]] + rest| ==> sep !in ([s[..i]] + rest)[k]
    ensures Join([s[..i]] + rest, sep) == s
  {
    var parts := [s[..i]] + rest;
    assert parts[1..] == rest;
    assert s == s[..i] + ([sep] + s[i + 1..]);
    CountAppend(s[..i], [sep] + s[i + 1..], sep);
    assert ([sep] + s[i + 1..])[1..] == s[i + 1..];
    assert Count([sep] + s[i + 1..], sep) == 1 + Count(s[i + 1..], sep);
    assert s[..i] + [sep] + s[i + 1..] == s;
  }

  /** `s.split(sep)`: the maximal runs of `s` between occurrences of `sep`.
      There is always at least one part, so the empty string splits to `[""]`. */
  function Split(s: String, sep: char): (parts: seq<String>)
    ensures |parts| == Count(s, sep) + 1
    ensures forall k :: 0 <= k < |parts| ==> sep !in parts[k]
    ensures Join(parts, sep) == s
    decreases |s|
  {
    if sep !in s then [s]
    else
      var i := FirstIndex(s, sep);
      var rest := Split(s[i + 1..], sep);
      SplitStep(s, sep, i, rest);
      [s[..i]] + rest
  }

  /** A separator-free string followed by a separator and `t` splits to that
      string followed by the parts of `t`. */
  lemma SplitAtSeparator(a: String, t: String, sep: char)
    requires sep !in a
    ensures Split(a + [sep] + t, sep) == [a] + Split(t, sep)
  {
    var s := a + [sep] + t;
    assert s[|a|] == sep;
    var i := FirstIndex(s, sep);
    assert i == |a|;
    assert s[..i] == a;
    assert s[i + 1..] == t;
  }

  /** Round trip: splitting a join gives back the parts when no part holds the separator. */
  lemma {:induction false} SplitJoin(parts: seq<String>, sep: char)
    requires |parts| >= 1
    requires forall k :: 0 <= k < |parts| ==> sep !in parts[k]
    ensures Split(Join(parts, sep), sep) == parts
  {
    if |parts| > 1 {
      var tail := Join(parts[1..], sep);
      assert Join(parts, sep) == parts[0] + [sep] + tail;
      SplitJoin(parts[1..], sep);
      SplitAtSeparator(parts[0], tail, sep);
      assert [parts[0]] + parts[1..] == parts;
    }
  }

  /** Every part of a split is made of characters of the split string. */
  lemma {:induction false} SplitExcludes(s: String, sep: char, c: char)
    requires c !in s
    ensures forall k :: 0 <= k < |Split(s, sep)| ==> c !in Split(s, sep)[k]
    decreases |s|
  {
    if sep in s {
      var i := FirstIndex(s, sep);
      assert s == s[..i] + [sep] + s[i + 1..];
      SplitExcludes(s[i + 1..], sep, c);
    }
  }

  // ---------------------------------------------------------------------------
  // strip

  /** The characters for which Python's `str.isspace()` holds: those `str.strip()`
      with no argument removes. */
  predicate IsWhitespace(c: char)
  {
    || c == ' ' || c == '\t' || c == '\n' || c == '\r'
    || c == '\U{B}' || c == '\U{C}'
    || ('\U{1C}' <= c <= '\U{1F}')
    || c == '\U{85}' || c == '\U{A0}' || c == '\U{1680}'
    || ('\U{2000}' <= c <= '\U{200A}')
    || c == '\U{2028}' || c == '\U{2029}' || c == '\U{202F}' || c == '\U{205F}'
    || c == '\U{3000}'
  }

  /** Length of the whitespace run that starts `s`. */
  function LeadingWhitespace(s: String): (n: nat)
    ensures n <= |s|
    ensures forall k :: 0 <= k < n ==> IsWhitespace(s[k])
    ensures n < |s| ==> !IsWhitespace(s[n])
  {
    if s == [] || !IsWhitespace(s[0]) then 0 else 1 + LeadingWhitespace(s[1..])
  }

  /** Length of the whitespace run that ends `s`. */
  function TrailingWhitespace(s: String): (n: nat)
    ensures n <= |s|
    ensures forall k :: |s| - n <= k < |s| ==> IsWhitespace(s[k])
    ensures n < |s| ==> !IsWhitespace(s[|s| - n - 1])
  {
    if s == [] || !IsWhitespace(s[|s| - 1]) then 0 else 1 + TrailingWhitespace(s[..|s| - 1])
  }

  /** `s.strip()`: skip the leading whitespace, then the end moves left over
      whitespace but never past the start. */
  function Strip(s: String): (r: String)
    ensures |r| <= |s|
    ensures r == [] || (!IsWhitespace(r[0]) && !IsWhitespace(r[|r| - 1]))
  {
    var i := LeadingWhitespace(s);
    var n := TrailingWhitespace(s[i..]);
    assert n < |s| - i ==> s[i..][|s| - i - n - 1] == s[|s| - n - 1];
    s[i..|s| - n]
  }

  predicate AllWhitespace(s: String)
  {
    forall k :: 0 <= k < |s| ==> IsWhitespace(s[k])
  }

  /** Strip removes exactly a whitespace prefix and a whitespace suffix:
      whatever sits between those, with no whitespace at its ends, is the result. */
  lemma StripUnique(pre: String, mid: String, post: String)
    requires AllWhitespace(pre) && AllWhitespace(post)
    requires mid == [] || (!IsWhitespace(mid[0]) && !IsWhitespace(mid[|mid| - 1]))
    ensures Strip(pre + mid + post) == mid
  {
    var s := pre + mid + post;
    var i := LeadingWhitespace(s);
    if mid == [] {
      assert s == pre + post;
      assert AllWhitespace(s);
      assert i == |s|;
    } else {
      assert forall k :: 0 <= k < |pre| ==> s[k] == pre[k];
      assert s[|pre|] == mid[0];
      assert i == |pre|;
      var rest := s[i..];
      assert rest == mid + post;
      var n := TrailingWhitespace(rest);
      assert forall k :: 0 <= k < |post| ==> rest[|mid| + k] == post[k];
      assert rest[|mid| - 1] == mid[|mid| - 1];
      assert n == |post|;
    }
  }

  /** Strip splits its argument into a whitespace prefix, the result, and a
      whitespace suffix. */
  lemma StripDecompose(s: String) returns (pre: String, post: String)
    ensures s == pre + Strip(s) + post
    ensures AllWhitespace(pre) && AllWhitespace(post)
  {
    var i := LeadingWhitespace(s);
    var n := TrailingWhitespace(s[i..]);
    var j := |s| - n;
    pre, post := s[..i], s[j..];
    forall k | 0 <= k < |post| ensures IsWhitespace(post[k]) {
      assert post[k] == s[i..][j - i + k];
    }
    assert s == pre + s[i..j] + post;
  }

  lemma StripIdempotent(s: String)
    ensures Strip(Strip(s)) == Strip(s)
  {
    StripUnique([], Strip(s), []);
    assert [] + Strip(s) + [] == Strip(s);
  }

  /** A whitespace character appended to a string does not change its strip. */
  lemma StripAppendWhitespace(s: String, c: char)
    requires IsWhitespace(c)
    ensures Strip(s + [c]) == Strip(s)
  {
    var pre, post := StripDecompose(s);
    assert s + [c] == pre + Strip(s) + (post + [c]);
    StripUnique(pre, Strip(s), post + [c]);
  }

  /** Strip only removes characters, so a character absent from `s` is absent after it. */
  lemma StripExcludes(s: String, c: char)
    requires c !in s
    ensures c !in Strip(s)
  {
    var pre, post := StripDecompose(s);
    assert forall k :: 0 <= k < |Strip(s)| ==> Strip(s)[k] == s[|pre| + k];
  }

  // ---------------------------------------------------------------------------
  // lines

  /** Concatenation of a sequence of strings. */
  function Concat(parts: seq<String>): String
  {
    if parts == [] then [] else parts[0] + Concat(parts[1..])
  }

  lemma {:induction false} ConcatAppend(parts: seq<String>, last: String)
    ensures Concat(parts + [last]) == Concat(parts) + last
  {
    if parts == [] {
      assert parts + [last] == [last];
    } else {
      assert (parts + [last])[1..] == parts[1..] + [last];
      ConcatAppend(parts[1..], last);
    }
  }

  /** A complete line: one newline, at its end. */
  predicate IsTerminatedLine(l: String)
  {
    |l| > 0 && l[|l| - 1] == '\n' && '\n' !in l[..|l| - 1]
  }

  /** What `readlines()` returns: a complete line, or the unterminated text at
      the very end of the file. */
  predicate IsReadLine(l: String, isLast: bool)
  {
    IsTerminatedLine(l) || (isLast && l != [] && '\n' !in l)
  }

  /** A character other than a newline put in front of a read line keeps it one. */
  lemma PrependReadLine(c: char, l: String, isLast: bool)
    requires c != '\n' && IsReadLine(l, isLast)
    ensures IsReadLine([c] + l, isLast)
  {
    var m := [c] + l;
    if IsTerminatedLine(l) {
      assert m[..|m| - 1] == [c] + l[..|l| - 1];
    }
  }

  /** The lines of a text that starts with `c` and continues with text cut into
      `rest`: a newline closes a line of its own, any other character opens the
      first line of `rest`. */
  function PrependChar(c: char, rest: seq<String>): seq<String>
  {
    if c == '\n' || rest == [] then [[c]] + rest else [[c] + rest[0]] + rest[1..]
  }

  lemma PrependCharConcat(c: char, rest: seq<String>)
    ensures Concat(PrependChar(c, rest)) == [c] + Concat(rest)
  {
    var lines := PrependChar(c, rest);
    if c == '\n' || rest == [] {
      assert lines[1..] == rest;
    } else {
      assert lines[1..] == rest[1..];
      assert Concat(rest) == rest[0] + Concat(rest[1..]);
    }
  }

  lemma PrependCharShape(c: char, rest: seq<String>)
    requires forall k :: 0 <= k < |rest| ==> IsReadLine(rest[k], k == |rest| - 1)
    ensures var lines := PrependChar(c, rest);
      forall k :: 0 <= k < |lines| ==> IsReadLine(lines[k], k == |lines| - 1)
  {
    var lines := PrependChar(c, rest);
    if c == '\n' || rest == [] {
      assert forall k :: 1 <= k < |lines| ==> lines[k] == rest[k - 1];
    } else {
      PrependReadLine(c, rest[0], 0 == |rest| - 1);
      assert forall k :: 1 <= k < |lines| ==> lines[k] == rest[k];
    }
  }

  lemma PrependCharCount(t: String, rest: seq<String>)
    requires t != []
    requires |rest| == Count(t[1..], '\n') + (if t[1..] != [] && t[|t| - 1] != '\n' then 1 else 0)
    requires rest == [] <==> t[1..] == []
    ensures |PrependChar(t[0], rest)| == Count(t, '\n') + (if t[|t| - 1] != '\n' then 1 else 0)
  {
  }

  /** `f.readlines()` on a file holding `t`: the text cut after every newline,
      each line keeping its newline. */
  function ReadLines(t: String): (lines: seq<String>)
    ensures lines == [] <==> t == []
  {
    if t == [] then [] else PrependChar(t[0], ReadLines(t[1..]))
  }

  /** The lines `readlines()` returns make up the whole text; every line but the
      last ends with its only newline, the last may lack one; and there are as
      many lines as newlines, plus one for unterminated text at the end. An
      empty file has no lines. */
  lemma {:induction false} ReadLinesSpec(t: String)
    ensures Concat(ReadLines(t)) == t
    ensures forall k :: 0 <= k < |ReadLines(t)| ==> IsReadLine(ReadLines(t)[k], k == |ReadLines(t)| - 1)
    ensures |ReadLines(t)| == Count(t, '\n') + (if t != [] && t[|t| - 1] != '\n' then 1 else 0)
  {
    if t != [] {
      var rest := ReadLines(t[1..]);
      ReadLinesSpec(t[1..]);
      assert t == [t[0]] + t[1..];
      PrependCharConcat(t[0], rest);
      PrependCharShape(t[0], rest);
      PrependCharCount(t, rest);
    }
  }

  lemma ReadLinesCons(c: char, t: String)
    ensures ReadLines([c] + t) == PrependChar(c, ReadLines(t))
  {
    assert ([c] + t)[1..] == t;
  }

  /** Reading back a complete line followed by more text yields that line first. */
  lemma {:induction false} ReadLinesPrepend(l: String, t: String)
    requires IsTerminatedLine(l)
    ensures ReadLines(l + t) == [l] + ReadLines(t)
  {
    var l' := l[1..];
    assert l + t == [l[0]] + (l' + t);
    ReadLinesCons(l[0], l' + t);
    if |l| == 1 {
      assert l' + t == t;
      assert l == ['\n'];
    } else {
      assert l[0] != '\n' by {
        assert l[0] == l[..|l| - 1][0];
      }
      assert IsTerminatedLine(l') by {
        assert l'[..|l'| - 1] == l[..|l| - 1][1..];
      }
      ReadLinesPrepend(l', t);
      var x := [l'] + ReadLines(t);
      assert PrependChar(l[0], x) == [[l[0]] + l'] + x[1..];
      assert x[1..] == ReadLines(t);
      assert [l[0]] + l' == l;
    }
  }

  /** Round trip: `readlines()` on a concatenation of complete lines gives them back. */
  lemma {:induction false} ReadLinesConcat(lines: seq<String>)
    requires forall k :: 0 <= k < |lines| ==> IsTerminatedLine(lines[k])
    ensures ReadLines(Concat(lines)) == lines
  {
    if lines != [] {
      ReadLinesConcat(lines[1..]);
      ReadLinesPrepend(lines[0], Concat(lines[1..]));
    }
  }
}
