/** The few Python string built-ins the pipeline relies on: `str.strip()`,
    `str.split(sep)` on a one-character separator, `str.replace` of one
    character, and `len(str.split())`, the whitespace word count. */
module Strings {

  /** The characters for which Python's `str.isspace()` holds; `strip()` and
      `split()` without arguments use exactly this set. */
  predicate IsSpace(c: char) {
    || ('\t' <= c <= '\r')
    || ('\U{1c}' <= c <= '\U{1f}')
    || c == ' '
    || c == '\U{85}'
    || c == '\U{a0}'
    || c == '\U{1680}'
    || ('\U{2000}' <= c <= '\U{200a}')
    || c == '\U{2028}'
    || c == '\U{2029}'
    || c == '\U{202f}'
    || c == '\U{205f}'
    || c == '\U{3000}'
  }

  predicate AllSpace(s: string) {
    forall k :: 0 <= k < |s| ==> IsSpace(s[k])
  }

  /** Neither end of `s` is whitespace: what `strip()` leaves behind. */
  predicate Trimmed(s: string) {
    s == [] || (!IsSpace(s[0]) && !IsSpace(s[|s| - 1]))
  }

  // ---------------------------------------------------------------- strip

  function TrimStart(s: string): (r: string)
    ensures |r| <= |s|
    ensures r == [] || !IsSpace(r[0])
  {
    if s != [] && IsSpace(s[0]) then TrimStart(s[1..]) else s
  }

  function TrimEnd(s: string): (r: string)
    ensures |r| <= |s|
    ensures r == [] || !IsSpace(r[|r| - 1])
    ensures r == [] || r[0] == s[0]
  {
    if s != [] && IsSpace(s[|s| - 1]) then TrimEnd(s[..|s| - 1]) else s
  }

  /** `TrimStart` removes a whitespace prefix and keeps the rest. */
  lemma {:induction false} TrimStartSplit(s: string) returns (lead: string)
    ensures s == lead + TrimStart(s) && AllSpace(lead)
  {
    if s != [] && IsSpace(s[0]) {
      var rest := TrimStartSplit(s[1..]);
      lead := [s[0]] + rest;
      assert s == [s[0]] + s[1..];
      assert [s[0]] + (rest + TrimStart(s[1..])) == lead + TrimStart(s[1..]);
      assert AllSpace(lead) by {
        forall k | 0 <= k < |lead| ensures IsSpace(lead[k]) {
          if k > 0 { assert lead[k] == rest[k - 1]; }
        }
      }
    } else {
      lead := [];
      assert s == [] + s;
    }
  }

  /** `TrimEnd` removes a whitespace suffix and keeps the rest. */
  lemma {:induction false} TrimEndSplit(s: string) returns (trail: string)
    ensures s == TrimEnd(s) + trail && AllSpace(trail)
  {
    if s != [] && IsSpace(s[|s| - 1]) {
      var init := s[..|s| - 1];
      var rest := TrimEndSplit(init);
      trail := rest + [s[|s| - 1]];
      assert s == init + [s[|s| - 1]];
      assert (TrimEnd(init) + rest) + [s[|s| - 1]] == TrimEnd(init) + trail;
      assert AllSpace(trail) by {
        forall k | 0 <= k < |trail| ensures IsSpace(trail[k]) {
          if k < |rest| { assert trail[k] == rest[k]; }
        }
      }
    } else {
      trail := [];
      assert s == s + [];
    }
  }

  /** Python `s.strip()`. */
  function Strip(s: string): (r: string)
    ensures Trimmed(r) && |r| <= |s|
  {
    TrimEnd(TrimStart(s))
  }

  /** What `strip()` removed is whitespace on both sides: `s` is the result
      with a whitespace prefix and a whitespace suffix. */
  lemma {:induction false} StripDecomposes(s: string) returns (lead: string, trail: string)
    ensures s == lead + (Strip(s) + trail)
    ensures AllSpace(lead) && AllSpace(trail)
  {
    lead := TrimStartSplit(s);
    trail := TrimEndSplit(TrimStart(s));
  }

  lemma {:induction false} TrimStartOfSpaces(a: string, t: string)
    requires AllSpace(a) && (t == [] || !IsSpace(t[0]))
    ensures TrimStart(a + t) == t
  {
    if a == [] {
      assert a + t == t;
    } else {
      assert (a + t)[1..] == a[1..] + t;
      TrimStartOfSpaces(a[1..], t);
    }
  }

  lemma {:induction false} TrimEndOfSpaces(t: string, b: string)
    requires AllSpace(b) && (t == [] || !IsSpace(t[|t| - 1]))
    ensures TrimEnd(t + b) == t
  {
    if b == [] {
      assert t + b == t;
    } else {
      assert (t + b)[..|t + b| - 1] == t + b[..|b| - 1];
      TrimEndOfSpaces(t, b[..|b| - 1]);
    }
  }

  /** The reference characterisation of `strip()`: whenever `s` splits into
      whitespace, a trimmed middle and whitespace, that middle is `Strip(s)`. */
  lemma {:induction false} StripUnique(lead: string, r: string, trail: string)
    requires AllSpace(lead) && AllSpace(trail) && Trimmed(r)
    ensures Strip(lead + (r + trail)) == r
  {
    if r == [] {
      assert r + trail == trail;
      assert AllSpace(lead + trail) by {
        forall k | 0 <= k < |lead + trail| ensures IsSpace((lead + trail)[k]) {
          if k >= |lead| { assert (lead + trail)[k] == trail[k - |lead|]; }
        }
      }
      assert lead + trail == (lead + trail) + [];
      TrimStartOfSpaces(lead + trail, []);
    } else {
      TrimStartOfSpaces(lead, r + trail);
      TrimEndOfSpaces(r, trail);
    }
  }

  lemma {:induction false} StripIdempotent(s: string)
    ensures Strip(Strip(s)) == Strip(s)
  {
    var r := Strip(s);
    assert [] + (r + []) == r;
    StripUnique([], r, []);
  }

  // ------------------------------------------------------- replace a char

  /** Python `s.replace(x, y)` for one-character `x` and `y`. */
  function ReplaceChar(s: string, x: char, y: char): (r: string)
    ensures |r| == |s|
    ensures forall k :: 0 <= k < |s| ==> r[k] == (if s[k] == x then y else s[k])
    ensures x != y ==> x !in r
  {
    if s == [] then [] else [if s[0] == x then y else s[0]] + ReplaceChar(s[1..], x, y)
  }

  /** The number of occurrences of `c` in `s`: Python `s.count(c)`. */
  function Count(s: string, c: char): nat
  {
    if s == [] then 0 else (if s[0] == c then 1 else 0) + Count(s[1..], c)
  }

  /** Replacing `x` keeps the number of every other character of the result. */
  lemma {:induction false} ReplaceCharKeepsCount(s: string, x: char, y: char, c: char)
    requires c != x && c != y
    ensures Count(ReplaceChar(s, x, y), c) == Count(s, c)
  {
    if s != [] {
      ReplaceCharKeepsCount(s[1..], x, y, c);
      assert ReplaceChar(s, x, y)[1..] == ReplaceChar(s[1..], x, y);
    }
  }

  // ---------------------------------------------------------------- split

  /** Python `s.split(sep)`: the pieces between separators, empty ones kept. */
  function Split(s: string, sep: char): (parts: seq<string>)
    ensures |parts| == Count(s, sep) + 1
    ensures forall i :: 0 <= i < |parts| ==> sep !in parts[i]
  {
    if s == [] then [""]
    else
      var rest := Split(s[1..], sep);
      if s[0] == sep then [""] + rest
      else [[s[0]] + rest[0]] + rest[1..]
  }

  /** Python `sep.join(parts)`. */
  function Join(parts: seq<string>, sep: char): string
    requires |parts| >= 1
  {
    if |parts| == 1 then parts[0] else parts[0] + [sep] + Join(parts[1..], sep)
  }

  /** Every character of a piece is a character of the joined text. */
  lemma {:induction false} JoinContains(parts: seq<string>, sep: char, i: nat, c: char)
    requires i < |parts| && c in parts[i]
    ensures c in Join(parts, sep)
  {
    if i > 0 {
      JoinContains(parts[1..], sep, i - 1, c);
    }
  }

  lemma {:induction false} JoinSplit(s: string, sep: char)
    ensures Join(Split(s, sep), sep) == s
  {
    if s != [] {
      var rest := Split(s[1..], sep);
      JoinSplit(s[1..], sep);
      var parts := Split(s, sep);
      if s[0] == sep {
        assert parts == [""] + rest;
        assert parts[1..] == rest;
        assert Join(parts, sep) == [sep] + Join(rest, sep);
      } else {
        assert parts == [[s[0]] + rest[0]] + rest[1..];
        JoinOntoFirst([s[0]], rest, sep);
      }
      assert s == [s[0]] + s[1..];
    }
  }

  /** Prefixing the first piece prefixes the joined text. */
  lemma {:induction false} JoinOntoFirst(w: string, parts: seq<string>, sep: char)
    requires |parts| >= 1
    ensures Join([w + parts[0]] + parts[1..], sep) == w + Join(parts, sep)
  {
    var q := [w + parts[0]] + parts[1..];
    assert q[0] == w + parts[0];
    assert q[1..] == parts[1..];
  }

  lemma {:induction false} SplitJoin(parts: seq<string>, sep: char)
    requires |parts| >= 1
    requires forall i :: 0 <= i < |parts| ==> sep !in parts[i]
    ensures Split(Join(parts, sep), sep) == parts
  {
    if |parts| == 1 {
      SplitPiece(parts[0], sep);
    } else {
      var tail := Join(parts[1..], sep);
      SplitJoin(parts[1..], sep);
      SplitPrefix(parts[0], tail, sep);
      assert Join(parts, sep) == parts[0] + [sep] + tail;
      assert [parts[0]] + parts[1..] == parts;
    }
  }

  lemma {:induction false} SplitPiece(w: string, sep: char)
    requires sep !in w
    ensures Split(w, sep) == [w]
  {
    if w != [] {
      SplitPiece(w[1..], sep);
      assert [w[0]] + w[1..] == w;
    }
  }

  /** A separator-free prefix attaches to the first piece. */
  lemma {:induction false} SplitPrefix(w: string, t: string, sep: char)
    requires sep !in w
    ensures Split(w + [sep] + t, sep) == [w] + Split(t, sep)
  {
    if w == [] {
      assert w + [sep] + t == [sep] + t;
      assert ([sep] + t)[1..] == t;
    } else {
      assert (w + [sep] + t)[1..] == w[1..] + [sep] + t;
      SplitPrefix(w[1..], t, sep);
      assert [w[0]] + w[1..] == w;
    }
  }

  // --------------------------------------------- newline to paragraph tags

  const ParagraphBreak := "</p><p>"

  /** Python `s.replace("\n", "</p><p>")`. */
  function Paragraphs(s: string): string
  {
    if s == [] then []
    else
      (if s[0] == '\n' then ParagraphBreak else [s[0]]) + Paragraphs(s[1..])
  }

  /** No newline survives, each one grows by the six extra characters of the
      tag pair, and text without newlines comes back unchanged. */
  lemma {:induction false} ParagraphsFacts(s: string)
    ensures '\n' !in Paragraphs(s)
    ensures |Paragraphs(s)| == |s| + 6 * Count(s, '\n')
    ensures '\n' !in s ==> Paragraphs(s) == s
  {
    if s != [] {
      ParagraphsFacts(s[1..]);
      assert '\n' !in ParagraphBreak;
      if '\n' !in s {
        assert s == [s[0]] + s[1..];
        assert '\n' !in s[1..];
      }
    }
  }

  /** The inverse edit: `"</p><p>"` back to a newline. */
  function Unparagraph(t: string): string
  {
    if |t| >= 7 && t[..7] == ParagraphBreak then "\n" + Unparagraph(t[7..])
    else if t == [] then []
    else [t[0]] + Unparagraph(t[1..])
  }

  /** On text without `'<'` the paragraph markup loses nothing. */
  lemma {:induction false} ParagraphsRoundTrip(s: string)
    requires '<' !in s
    ensures Unparagraph(Paragraphs(s)) == s
  {
    if s != [] {
      assert s == [s[0]] + s[1..];
      ParagraphsRoundTrip(s[1..]);
      var rest := Paragraphs(s[1..]);
      if s[0] == '\n' {
        UnparagraphBreak(rest);
      } else {
        UnparagraphChar(s[0], rest);
      }
    }
  }

  lemma {:induction false} UnparagraphBreak(rest: string)
    ensures Unparagraph(ParagraphBreak + rest) == "\n" + Unparagraph(rest)
  {
    var t := ParagraphBreak + rest;
    assert t[..7] == ParagraphBreak;
    assert t[7..] == rest;
  }

  lemma {:induction false} UnparagraphChar(c: char, rest: string)
    requires c != '<'
    ensures Unparagraph([c] + rest) == [c] + Unparagraph(rest)
  {
    var t := [c] + rest;
    assert t[0] == c;
    assert ParagraphBreak[0] == '<';
    assert !(|t| >= 7 && t[..7] == ParagraphBreak);
    assert t[1..] == rest;
  }

  // ----------------------------------------------------------- word count

  /** Position `i` opens a maximal run of non-whitespace characters. */
  predicate WordStart(s: string, i: int)
    requires 0 <= i < |s|
  {
    !IsSpace(s[i]) && (i == 0 || IsSpace(s[i - 1]))
  }

  /** Python `len(s.split())`: the number of maximal non-whitespace runs. */
  function WordCount(s: string): nat
  {
    if s == [] then 0
    else WordCount(s[..|s| - 1]) + (if WordStart(s, |s| - 1) then 1 else 0)
  }

  /** After whitespace (or at the start) words of two texts do not merge. */
  lemma {:induction false} WordCountAppend(a: string, b: string)
    requires a == [] || IsSpace(a[|a| - 1])
    ensures WordCount(a + b) == WordCount(a) + WordCount(b)
  {
    if b == [] {
      assert a + b == a;
    } else {
      var b' := b[..|b| - 1];
      assert (a + b)[..|a + b| - 1] == a + b';
      WordCountAppend(a, b');
      var n := |a + b| - 1;
      if |b| == 1 {
        assert WordStart(a + b, n) == WordStart(b, 0);
      } else {
        assert (a + b)[n - 1] == b[|b| - 2];
        assert WordStart(a + b, n) == WordStart(b, |b| - 1);
      }
    }
  }

  lemma {:induction false} WordCountOfSpaces(s: string)
    requires AllSpace(s)
    ensures WordCount(s) == 0
  {
    if s != [] {
      WordCountOfSpaces(s[..|s| - 1]);
    }
  }

  /** A non-empty text without whitespace is one word. */
  lemma {:induction false} WordCountOfWord(w: string)
    requires w != [] && forall k :: 0 <= k < |w| ==> !IsSpace(w[k])
    ensures WordCount(w) == 1
  {
    if |w| > 1 {
      WordCountOfWord(w[..|w| - 1]);
    }
  }

  /** Appending text never removes a word. */
  lemma {:induction false} WordCountMonotone(a: string, b: string)
    ensures WordCount(a) <= WordCount(a + b)
  {
    if b == [] {
      assert a + b == a;
    } else {
      var b' := b[..|b| - 1];
      assert (a + b)[..|a + b| - 1] == a + b';
      WordCountMonotone(a, b');
    }
  }
}
