/** The string operations the chat loops and the vectorizer rely on:
    Python's `str.strip()`, `str.lower()`, `sep.join(parts)`, `s.split(sep)`
    and repeated `+=`. */
module Text {

  /** The characters `str.strip()` removes when called without arguments:
      every code point Python's `str.isspace` accepts. */
  predicate IsSpace(c: char)
  {
    || ('\U{9}' <= c <= '\U{D}')
    || ('\U{1C}' <= c <= '\U{20}')
    || c == '\U{85}' || c == '\U{A0}' || c == '\U{1680}'
    || ('\U{2000}' <= c <= '\U{200A}')
    || c == '\U{2028}' || c == '\U{2029}' || c == '\U{202F}'
    || c == '\U{205F}' || c == '\U{3000}'
  }

  predicate AllSpace(s: string)
  {
    forall i :: 0 <= i < |s| ==> IsSpace(s[i])
  }

  /** Neither end of `t` is whitespace (the empty string qualifies). */
  predicate Trimmed(t: string)
  {
    t == [] || (!IsSpace(t[0]) && !IsSpace(t[|t| - 1]))
  }

  /** `s` is `t` surrounded by whitespace on both sides. */
  predicate Padded(s: string, w1: string, t: string, w2: string)
  {
    s == w1 + t + w2 && AllSpace(w1) && AllSpace(w2)
  }

  /** `s.lstrip()`. */
  function TrimStart(s: string): (r: string)
    ensures |r| <= |s|
  {
    if s != [] && IsSpace(s[0]) then TrimStart(s[1..]) else s
  }

  /** `s.rstrip()`. */
  function TrimEnd(s: string): (r: string)
    ensures |r| <= |s|
  {
    if s != [] && IsSpace(s[|s| - 1]) then TrimEnd(s[..|s| - 1]) else s
  }

  /** What `lstrip()` leaves is a suffix of `s` not starting with
      whitespace, and only whitespace was removed. */
  lemma {:induction false} TrimStartShape(s: string)
    ensures TrimStart(s) == s[|s| - |TrimStart(s)|..]
    ensures AllSpace(s[..|s| - |TrimStart(s)|])
    ensures TrimStart(s) == [] || !IsSpace(TrimStart(s)[0])
  {
    if s != [] && IsSpace(s[0]) {
      TrimStartShape(s[1..]);
      var r := TrimStart(s[1..]);
      assert s[1..][..|s| - 1 - |r|] == s[1..|s| - |r|];
    }
  }

  /** What `rstrip()` leaves is a prefix of `s` not ending with whitespace,
      and only whitespace was removed. */
  lemma {:induction false} TrimEndShape(s: string)
    ensures TrimEnd(s) == s[..|TrimEnd(s)|]
    ensures AllSpace(s[|TrimEnd(s)|..])
    ensures TrimEnd(s) == [] || !IsSpace(TrimEnd(s)[|TrimEnd(s)| - 1])
  {
    if s != [] && IsSpace(s[|s| - 1]) {
      TrimEndShape(s[..|s| - 1]);
      var r := TrimEnd(s[..|s| - 1]);
      assert s[..|s| - 1][|r|..] == s[|r|..|s| - 1];
      assert s[|r|..] == s[|r|..|s| - 1] + [s[|s| - 1]];
    }
  }

  /** `s.strip()`. */
  function Strip(s: string): (r: string)
    ensures |r| <= |s|
    ensures Trimmed(r)
  {
    var a := TrimStart(s);
    TrimStartShape(s);
    TrimEndShape(a);
    var r := TrimEnd(a);
    assert r != [] ==> r[0] == a[0];
    r
  }

  /** How many characters `lstrip()` removes from the front of `s`. */
  function Lead(s: string): (k: nat)
    ensures k <= |s|
  {
    |s| - |TrimStart(s)|
  }

  /** Stripping only cuts whitespace off the two ends of the string. */
  lemma StripCuts(s: string)
    ensures Lead(s) + |Strip(s)| <= |s|
    ensures Padded(s, s[..Lead(s)], Strip(s), s[Lead(s) + |Strip(s)|..])
  {
    var a := TrimStart(s);
    var r := TrimEnd(a);
    var k := Lead(s);
    assert Strip(s) == r;
    assert a == s[k..] && AllSpace(s[..k]) by {
      TrimStartShape(s);
    }
    assert r == s[k..k + |r|] && AllSpace(s[k + |r|..]) by {
      TrimEndShape(a);
      assert a[..|r|] == s[k..k + |r|];
      assert a[|r|..] == s[k + |r|..];
    }
    PaddedSlices(s, k, k + |r|);
  }

  lemma PaddedSlices(s: string, i: nat, j: nat)
    requires i <= j <= |s|
    requires AllSpace(s[..i]) && AllSpace(s[j..])
    ensures Padded(s, s[..i], s[i..j], s[j..])
  {
    SliceJoin(s, i, j);
  }

  lemma SliceJoin(s: string, i: nat, j: nat)
    requires i <= j <= |s|
    ensures s == s[..i] + s[i..j] + s[j..]
  {
  }

  lemma {:induction false} TrimStartPadded(w: string, t: string)
    requires AllSpace(w)
    requires t == [] || !IsSpace(t[0])
    ensures TrimStart(w + t) == t
  {
    if w != [] {
      assert (w + t)[1..] == w[1..] + t;
      TrimStartPadded(w[1..], t);
    } else {
      assert w + t == t;
    }
  }

  lemma {:induction false} TrimEndPadded(t: string, w: string)
    requires AllSpace(w)
    requires t == [] || !IsSpace(t[|t| - 1])
    ensures TrimEnd(t + w) == t
  {
    if w != [] {
      assert (t + w)[..|t + w| - 1] == t + w[..|w| - 1];
      TrimEndPadded(t, w[..|w| - 1]);
    } else {
      assert t + w == t;
    }
  }

  /** Whitespace around a string with non-blank ends is exactly what
      `strip()` removes: the result does not depend on how much there was. */
  lemma StripPadded(w1: string, t: string, w2: string)
    requires AllSpace(w1) && AllSpace(w2) && Trimmed(t)
    ensures Strip(w1 + t + w2) == t
  {
    if t == [] {
      assert forall i :: 0 <= i < |w1 + w2| ==> IsSpace((w1 + w2)[i]);
      assert w1 + t + w2 == w1 + w2 + [];
      TrimStartPadded(w1 + w2, []);
      TrimEndPadded([], []);
    } else {
      assert w1 + t + w2 == w1 + (t + w2);
      TrimStartPadded(w1, t + w2);
      TrimEndPadded(t, w2);
    }
  }

  /** `s.strip().strip() == s.strip()`. */
  lemma StripIdempotent(s: string)
    ensures Strip(Strip(s)) == Strip(s)
  {
    assert "" + Strip(s) + "" == Strip(s);
    StripPadded("", Strip(s), "");
  }

  /** A string strips to nothing exactly when it is all whitespace. */
  lemma StripEmptyIff(s: string)
    ensures Strip(s) == "" <==> AllSpace(s)
  {
    StripCuts(s);
    if AllSpace(s) {
      assert s + "" + "" == s;
      StripPadded(s, "", "");
    }
  }

  /** `c.lower()` for the ASCII letters; every other character is kept. */
  function LowerChar(c: char): char
  {
    if 'A' <= c <= 'Z' then (c as int + 32) as char else c
  }

  function Lower(s: string): (r: string)
    ensures |r| == |s|
  {
    seq(|s|, i requires 0 <= i < |s| => LowerChar(s[i]))
  }

  /** Lowering a character never turns whitespace into non-whitespace or
      back. */
  lemma LowerKeepsSpace(c: char)
    ensures IsSpace(LowerChar(c)) <==> IsSpace(c)
  {
  }

  /** `s.strip().lower() == word`, for a lower-case word with non-blank
      ends, holds exactly when `s` is that word in any mix of case with
      nothing but whitespace around it. */
  lemma StrippedLowerIff(s: string, word: string)
    requires word != "" && Trimmed(word)
    ensures Lower(Strip(s)) == word <==> exists w1, t, w2 :: Padded(s, w1, t, w2) && Lower(t) == word
  {
    if Lower(Strip(s)) == word {
      StripCuts(s);
      var t := Strip(s);
      var w1, w2 := s[..Lead(s)], s[Lead(s) + |t|..];
      assert Padded(s, w1, t, w2) && Lower(t) == word;
    }
    if exists w1, t, w2 :: Padded(s, w1, t, w2) && Lower(t) == word {
      var w1, t, w2 :| Padded(s, w1, t, w2) && Lower(t) == word;
      PaddedWordStrips(s, w1, t, w2, word);
    }
  }

  lemma PaddedWordStrips(s: string, w1: string, t: string, w2: string, word: string)
    requires word != "" && Trimmed(word)
    requires Padded(s, w1, t, w2) && Lower(t) == word
    ensures Lower(Strip(s)) == word
  {
    var n := |t|;
    assert Lower(t)[0] == LowerChar(t[0]) && Lower(t)[n - 1] == LowerChar(t[n - 1]);
    LowerKeepsSpace(t[0]);
    LowerKeepsSpace(t[n - 1]);
    StripPadded(w1, t, w2);
  }

  /** `sep.join(parts)`. */
  function Join(parts: seq<string>, sep: string): string
  {
    if |parts| == 0 then ""
    else if |parts| == 1 then parts[0]
    else parts[0] + sep + Join(parts[1..], sep)
  }

  /** `s.split(c)` for a one-character separator: the maximal pieces between
      occurrences of `c`, always at least one. */
  function Split(s: string, c: char): (pieces: seq<string>)
    ensures |pieces| >= 1
  {
    if s == [] then [""]
    else if s[0] == c then [""] + Split(s[1..], c)
    else
      var rest := Split(s[1..], c);
      [[s[0]] + rest[0]] + rest[1..]
  }

  lemma {:induction false} SplitPiece(p: string, c: char, rest: string)
    requires c !in p
    ensures Split(p + [c] + rest, c) == [p] + Split(rest, c)
  {
    if p == [] {
      assert p + [c] + rest == [c] + rest;
      assert ([c] + rest)[1..] == rest;
    } else {
      assert (p + [c] + rest)[1..] == p[1..] + [c] + rest;
      SplitPiece(p[1..], c, rest);
      assert [p[0]] + p[1..] == p;
    }
  }

  lemma {:induction false} SplitWhole(p: string, c: char)
    requires c !in p
    ensures Split(p, c) == [p]
  {
    if p != [] {
      SplitWhole(p[1..], c);
      assert [p[0]] + p[1..] == p;
    }
  }

  /** Splitting a join on the same separator gives the parts back, as long
      as no part contains the separator. */
  lemma {:induction false} SplitJoin(parts: seq<string>, c: char)
    requires |parts| >= 1
    requires forall i :: 0 <= i < |parts| ==> c !in parts[i]
    ensures Split(Join(parts, [c]), c) == parts
  {
    if |parts| == 1 {
      SplitWhole(parts[0], c);
    } else {
      SplitJoin(parts[1..], c);
      SplitPiece(parts[0], c, Join(parts[1..], [c]));
      assert [parts[0]] + parts[1..] == parts;
    }
  }

  /** The text `full_response += piece` builds from a sequence of pieces. */
  function Concat(pieces: seq<string>): string
  {
    if pieces == [] then "" else Concat(pieces[..|pieces| - 1]) + pieces[|pieces| - 1]
  }

  lemma {:induction false} ConcatAppend(a: seq<string>, b: seq<string>)
    ensures Concat(a + b) == Concat(a) + Concat(b)
  {
    if b == [] {
      assert a + b == a;
    } else {
      var init, last := b[..|b| - 1], b[|b| - 1];
      assert (a + b)[..|a + b| - 1] == a + init;
      assert Concat(a + b) == Concat(a + init) + last;
      ConcatAppend(a, init);
      assert Concat(b) == Concat(init) + last;
    }
  }
}
