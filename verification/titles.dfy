/**
 * The two pure text rules the thumbnail generator applies to a video title:
 * `clear` (whitespace normalisation, thumbnails.py lines 10-11) and the
 * 60-character display limit (lines 94-95).
 *
 * Strings are sequences of Unicode scalar values and Python `str` is a
 * sequence of code points, so lengths agree with Python's `len` for every
 * title made of scalar values. A Python `str` can also hold a lone surrogate
 * (a JSON `"\ud800"`, say), which a Dafny `char` cannot; such titles are
 * outside the model.
 */
module Titles {

  /**
   * Python's whitespace test. For `str` patterns the regular expression class
   * `\s` and `str.strip()` both use the same Unicode whitespace table, so one
   * predicate serves both halves of `clear`.
   */
  predicate IsSpace(c: char) {
    || '\U{9}' <= c <= '\U{D}'
    || '\U{1C}' <= c <= '\U{20}'
    || c == '\U{85}' || c == '\U{A0}' || c == '\U{1680}'
    || '\U{2000}' <= c <= '\U{200A}'
    || c == '\U{2028}' || c == '\U{2029}' || c == '\U{202F}'
    || c == '\U{205F}' || c == '\U{3000}'
  }

  // ---------------------------------------------------------------------
  // Shape of a normalised title
  // ---------------------------------------------------------------------

  /** Neither end is whitespace. */
  predicate Trimmed(t: string) {
    t == [] || (!IsSpace(t[0]) && !IsSpace(t[|t| - 1]))
  }

  /** Every whitespace character is a plain `' '` and none is followed by another. */
  predicate SingleSpaced(t: string) {
    forall i :: 0 <= i < |t| && IsSpace(t[i]) ==>
      t[i] == ' ' && (i + 1 < |t| ==> !IsSpace(t[i + 1]))
  }

  predicate Normal(t: string) {
    Trimmed(t) && SingleSpaced(t)
  }

  /** A word as `str.split()` yields it: non-empty, no whitespace. */
  predicate IsWord(w: string) {
    |w| > 0 && forall i :: 0 <= i < |w| ==> !IsSpace(w[i])
  }

  /** The non-whitespace characters of `s`, in order. */
  function NonSpace(s: string): string {
    if s == [] then []
    else (if IsSpace(s[0]) then [] else [s[0]]) + NonSpace(s[1..])
  }

  // ---------------------------------------------------------------------
  // The pieces of `clear`
  // ---------------------------------------------------------------------

  /** `s.lstrip()`: drop leading whitespace. */
  function DropSpaces(s: string): (r: string)
    ensures |r| <= |s| && r == s[|s| - |r|..]
    ensures r == [] || !IsSpace(r[0])
    ensures forall i :: 0 <= i < |s| - |r| ==> IsSpace(s[i])
  {
    if |s| > 0 && IsSpace(s[0]) then DropSpaces(s[1..]) else s
  }

  /** `s.rstrip()`: drop trailing whitespace. */
  function TrimEnd(s: string): (r: string)
    ensures |r| <= |s| && r == s[..|r|]
    ensures r == [] || !IsSpace(r[|r| - 1])
    ensures forall i :: |r| <= i < |s| ==> IsSpace(s[i])
  {
    if |s| > 0 && IsSpace(s[|s| - 1]) then TrimEnd(s[..|s| - 1]) else s
  }

  /** `s` is `i` whitespace characters, then `r`, then only whitespace. */
  predicate Framing(s: string, i: int, r: string) {
    0 <= i <= |s| - |r| && AllSpace(s[..i]) && r == s[i..i + |r|] && AllSpace(s[i + |r|..])
  }

  /**
   * `s.strip()`: the result is trimmed, and it is what remains of `s` once a
   * whitespace-only prefix and a whitespace-only suffix are cut off.
   */
  function Strip(s: string): (r: string)
    ensures Trimmed(r)
    ensures exists i :: Framing(s, i, r)
  {
    StripFrames(s);
    TrimEnd(DropSpaces(s))
  }

  lemma StripFrames(s: string)
    ensures Trimmed(TrimEnd(DropSpaces(s)))
    ensures exists i :: Framing(s, i, TrimEnd(DropSpaces(s)))
  {
    var d := DropSpaces(s);
    CutOuterSpaces(s, d, TrimEnd(d));
  }

  /**
   * A whitespace-only prefix of `s` cut off to leave `d`, then a
   * whitespace-only suffix of `d` cut off to leave `r`: `r` is the middle of
   * `s` between two whitespace-only pieces.
   */
  lemma CutOuterSpaces(s: string, d: string, r: string)
    requires |d| <= |s| && d == s[|s| - |d|..]
    requires forall k :: 0 <= k < |s| - |d| ==> IsSpace(s[k])
    requires |r| <= |d| && r == d[..|r|]
    requires forall k :: |r| <= k < |d| ==> IsSpace(d[k])
    requires d == [] || !IsSpace(d[0])
    requires r == [] || !IsSpace(r[|r| - 1])
    ensures Trimmed(r)
    ensures exists i :: Framing(s, i, r)
  {
    var i := |s| - |d|;
    var before := s[..i];
    forall j | 0 <= j < |before|
      ensures IsSpace(before[j])
    {
      assert before[j] == s[j];
    }
    var after := s[i + |r|..];
    forall j | 0 <= j < |after|
      ensures IsSpace(after[j])
    {
      assert after[j] == d[|r| + j];
    }
    assert r == s[i..i + |r|];
    assert Framing(s, i, r);
    assert r == [] || r[0] == d[0];
  }

  /**
   * `re.sub(r"\s+", " ", s)`: every maximal run of whitespace becomes one
   * space. `CollapseSingleSpaced` and `CollapseKeepsNonSpace` state what the
   * result is.
   */
  function Collapse(s: string): (r: string)
    decreases |s|
  {
    if s == [] then []
    else if IsSpace(s[0]) then [' '] + Collapse(DropSpaces(s))
    else [s[0]] + Collapse(s[1..])
  }

  /** After `Collapse`, every whitespace character is a single `' '`. */
  lemma {:induction false} CollapseSingleSpaced(s: string)
    ensures SingleSpaced(Collapse(s))
    decreases |s|
  {
    if s != [] {
      if IsSpace(s[0]) {
        var rest := Collapse(DropSpaces(s));
        CollapseSingleSpaced(DropSpaces(s));
        SingleSpacedCons(' ', rest);
      } else {
        CollapseSingleSpaced(s[1..]);
        SingleSpacedCons(s[0], Collapse(s[1..]));
      }
    }
  }

  /** `Collapse` keeps the non-whitespace characters of `s`, in order. */
  lemma {:induction false} CollapseKeepsNonSpace(s: string)
    ensures NonSpace(Collapse(s)) == NonSpace(s)
    decreases |s|
  {
    if s != [] {
      if IsSpace(s[0]) {
        var rest := Collapse(DropSpaces(s));
        CollapseKeepsNonSpace(DropSpaces(s));
        NonSpaceDropSpaces(s);
        assert ([' '] + rest)[1..] == rest;
      } else {
        var rest := Collapse(s[1..]);
        CollapseKeepsNonSpace(s[1..]);
        assert ([s[0]] + rest)[1..] == rest;
      }
    }
  }

  /** A character in front of a single-spaced string keeps it single-spaced unless it starts a whitespace run. */
  lemma SingleSpacedCons(c: char, t: string)
    requires SingleSpaced(t)
    requires IsSpace(c) ==> c == ' ' && (t == [] || !IsSpace(t[0]))
    ensures SingleSpaced([c] + t)
  {
    var u := [c] + t;
    forall i | 0 <= i < |u| && IsSpace(u[i])
      ensures u[i] == ' ' && (i + 1 < |u| ==> !IsSpace(u[i + 1]))
    {
      if i > 0 {
        assert u[i] == t[i - 1];
      }
    }
  }

  /**
   * `clear(text)`: collapse whitespace runs, then strip both ends. The result
   * is normalised and keeps exactly the non-whitespace characters of the input.
   */
  function Clear(s: string): (r: string)
    ensures Normal(r)
    ensures NonSpace(r) == NonSpace(s)
  {
    ClearIsJoinedWords(s);
    WordsAreWords(s);
    JoinedWordsNormal(Words(s));
    NonSpaceOfJoin(Words(s));
    NonSpaceIsWords(s);
    Strip(Collapse(s))
  }

  // ---------------------------------------------------------------------
  // Reference definition: " ".join(s.split())
  // ---------------------------------------------------------------------

  /** The longest prefix of `s` without whitespace. */
  function TakeWord(s: string): (w: string)
    ensures |w| <= |s| && w == s[..|w|]
    ensures forall i :: 0 <= i < |w| ==> !IsSpace(w[i])
    ensures |w| == |s| || IsSpace(s[|w|])
  {
    if s == [] || IsSpace(s[0]) then [] else [s[0]] + TakeWord(s[1..])
  }

  /** `s.split()` with no separator: the maximal whitespace-free runs. */
  function Words(s: string): seq<string>
    decreases |s|
  {
    var t := DropSpaces(s);
    if t == [] then []
    else
      var w := TakeWord(t);
      assert !IsSpace(t[0]);
      [w] + Words(t[|w|..])
  }

  /** `" ".join(ws)`. */
  function JoinWords(ws: seq<string>): string {
    if |ws| == 0 then []
    else if |ws| == 1 then ws[0]
    else ws[0] + [' '] + JoinWords(ws[1..])
  }

  /** Concatenation of all words, with no separator. */
  function Flatten(ws: seq<string>): string {
    if ws == [] then [] else ws[0] + Flatten(ws[1..])
  }

  // ---------------------------------------------------------------------
  // Display limit for the title (lines 94-95)
  // ---------------------------------------------------------------------

  const TitleLimit: nat := 60
  const TitleKeep: nat := 57
  const Ellipsis: string := "..."

  /**
   * A title longer than 60 characters is shown as its first 57 characters
   * followed by "..."; a shorter one is shown whole.
   */
  function Truncate(t: string): (r: string)
    ensures |r| <= TitleLimit
    ensures |t| <= TitleLimit ==> r == t
    ensures |t| > TitleLimit ==>
      |r| == TitleLimit && r[..TitleKeep] == t[..TitleKeep] && r[TitleKeep..] == Ellipsis
  {
    if |t| > TitleLimit then t[..TitleKeep] + Ellipsis else t
  }

  // ---------------------------------------------------------------------
  // Lemmas
  // ---------------------------------------------------------------------

  /** `Collapse` passes a non-whitespace character through. */
  lemma CollapseCons(c: char, t: string)
    requires !IsSpace(c)
    ensures Collapse([c] + t) == [c] + Collapse(t)
  {
    assert ([c] + t)[1..] == t;
  }

  /** `Collapse` keeps a single space in front of text that does not start with whitespace. */
  lemma CollapseSpaceCons(t: string)
    requires t == [] || !IsSpace(t[0])
    ensures Collapse([' '] + t) == [' '] + Collapse(t)
  {
    var x := [' '] + t;
    assert x[0] == ' ' && x[1..] == t;
    assert DropSpaces(x) == DropSpaces(t);
    assert DropSpaces(t) == t;
  }

  lemma {:induction false} CollapseKeepsWord(w: string, u: string)
    requires forall i :: 0 <= i < |w| ==> !IsSpace(w[i])
    ensures Collapse(w + u) == w + Collapse(u)
    decreases |w|
  {
    if w == [] {
      assert w + u == u;
    } else {
      var c, v := w[0], w[1..];
      assert w + u == [c] + (v + u);
      CollapseCons(c, v + u);
      CollapseKeepsWord(v, u);
      assert w + Collapse(u) == [c] + (v + Collapse(u));
    }
  }

  lemma {:induction false} TrimEndAppend(a: string, b: string)
    requires TrimEnd(b) != []
    ensures TrimEnd(a + b) == a + TrimEnd(b)
    decreases |b|
  {
    if IsSpace(b[|b| - 1]) {
      assert (a + b)[..|a + b| - 1] == a + b[..|b| - 1];
      TrimEndAppend(a, b[..|b| - 1]);
    }
  }

  lemma {:induction false} TakeWordOf(w: string, u: string)
    requires forall i :: 0 <= i < |w| ==> !IsSpace(w[i])
    requires u == [] || IsSpace(u[0])
    ensures TakeWord(w + u) == w
    decreases |w|
  {
    if w != [] {
      assert (w + u)[0] == w[0];
      assert (w + u)[1..] == w[1..] + u;
      TakeWordOf(w[1..], u);
      assert w == [w[0]] + w[1..];
    }
  }

  lemma WordsSkipSpaces(s: string)
    ensures Words(s) == Words(DropSpaces(s))
  {
    var t := DropSpaces(s);
    assert DropSpaces(t) == t;
  }

  lemma WordsOfWordThenRest(w: string, u: string)
    requires IsWord(w)
    requires u == [] || IsSpace(u[0])
    ensures Words(w + u) == [w] + Words(u)
  {
    var s := w + u;
    assert s[0] == w[0];
    assert DropSpaces(s) == s;
    TakeWordOf(w, u);
    assert s[|w|..] == u;
  }

  lemma ClearOfSpaceLed(s: string)
    requires s != [] && IsSpace(s[0])
    ensures Strip(Collapse(s)) == Strip(Collapse(DropSpaces(s)))
  {
    var t := DropSpaces(s);
    assert Collapse(s) == [' '] + Collapse(t);
    assert ([' '] + Collapse(t))[1..] == Collapse(t);
    assert DropSpaces([' '] + Collapse(t)) == DropSpaces(Collapse(t));
  }

  lemma ClearOfWordThenRest(w: string, u: string)
    requires IsWord(w)
    requires u == [] || IsSpace(u[0])
    ensures DropSpaces(u) == [] ==> Strip(Collapse(w + u)) == w
    ensures DropSpaces(u) != [] ==>
      Strip(Collapse(w + u)) == w + [' '] + Strip(Collapse(DropSpaces(u)))
  {
    CollapseKeepsWord(w, u);
    var c := Collapse(w + u);
    assert c[0] == w[0];
    assert DropSpaces(c) == c;
    if u == [] {
      assert c == w;
    } else {
      var v := DropSpaces(u);
      assert Collapse(u) == [' '] + Collapse(v);
      assert c == (w + [' ']) + Collapse(v);
      if v == [] {
        assert TrimEnd(w + [' ']) == TrimEnd(w);
      } else {
        assert Collapse(v)[0] == v[0];
        TrimEndAppend(w + [' '], Collapse(v));
        assert DropSpaces(Collapse(v)) == Collapse(v);
      }
    }
  }

  /** Leading whitespace changes neither side of `clear(s) == " ".join(s.split())`. */
  lemma ClearSpaceStep(s: string)
    requires s != [] && IsSpace(s[0])
    requires Strip(Collapse(DropSpaces(s))) == JoinWords(Words(DropSpaces(s)))
    ensures Strip(Collapse(s)) == JoinWords(Words(s))
  {
    ClearOfSpaceLed(s);
    WordsSkipSpaces(s);
  }

  /** A word followed by nothing but whitespace clears to that word. */
  lemma ClearLastWord(w: string, u: string)
    requires IsWord(w)
    requires u == [] || IsSpace(u[0])
    requires DropSpaces(u) == []
    ensures Strip(Collapse(w + u)) == JoinWords(Words(w + u))
  {
    ClearOfWordThenRest(w, u);
    WordsOfWordThenRest(w, u);
    WordsSkipSpaces(u);
  }

  /** A word followed by whitespace and more words: one step of the induction. */
  lemma ClearWordStep(w: string, u: string)
    requires IsWord(w)
    requires u == [] || IsSpace(u[0])
    requires DropSpaces(u) != []
    requires Strip(Collapse(DropSpaces(u))) == JoinWords(Words(DropSpaces(u)))
    ensures Strip(Collapse(w + u)) == JoinWords(Words(w + u))
  {
    var v := DropSpaces(u);
    ClearOfWordThenRest(w, u);
    WordsOfWordThenRest(w, u);
    WordsSkipSpaces(u);
    var ws := Words(v);
    assert ws != [] by {
      assert !IsSpace(v[0]);
      assert DropSpaces(v) == v;
    }
    assert ([w] + ws)[1..] == ws;
  }

  /** `clear(s) == " ".join(s.split())`. */
  lemma {:induction false} ClearIsJoinedWords(s: string)
    ensures Strip(Collapse(s)) == JoinWords(Words(s))
    decreases |s|
  {
    if s == [] {
    } else if IsSpace(s[0]) {
      ClearIsJoinedWords(DropSpaces(s));
      ClearSpaceStep(s);
    } else {
      var w := TakeWord(s);
      var u := s[|w|..];
      assert s == w + u;
      assert IsWord(w) by {
        assert !IsSpace(s[0]);
      }
      if DropSpaces(u) == [] {
        ClearLastWord(w, u);
      } else {
        ClearIsJoinedWords(DropSpaces(u));
        ClearWordStep(w, u);
      }
    }
  }

  /** Joining words with single spaces yields a normalised string. */
  lemma {:induction false} JoinedWordsNormal(ws: seq<string>)
    requires forall k :: 0 <= k < |ws| ==> IsWord(ws[k])
    ensures Normal(JoinWords(ws))
    ensures ws != [] ==> JoinWords(ws) != [] && JoinWords(ws)[0] == ws[0][0]
  {
    if |ws| >= 2 {
      var w := ws[0];
      var j := JoinWords(ws[1..]);
      JoinedWordsNormal(ws[1..]);
      var x := w + [' '] + j;
      assert JoinWords(ws) == x;
      forall i | 0 <= i < |x|
        ensures IsSpace(x[i]) ==> x[i] == ' ' && (i + 1 < |x| ==> !IsSpace(x[i + 1]))
      {
        if i < |w| {
          assert x[i] == w[i];
        } else if i > |w| {
          assert x[i] == j[i - |w| - 1];
          if i + 1 < |x| {
            assert x[i + 1] == j[i - |w|];
          }
        }
      }
      assert x[|x| - 1] == j[|j| - 1];
    }
  }

  /** Every piece `str.split()` yields is a word. */
  lemma {:induction false} WordsAreWords(s: string)
    ensures forall k :: 0 <= k < |Words(s)| ==> IsWord(Words(s)[k])
    decreases |s|
  {
    var t := DropSpaces(s);
    if t != [] {
      var w := TakeWord(t);
      assert !IsSpace(t[0]);
      assert IsWord(w);
      var rest := Words(t[|w|..]);
      WordsAreWords(t[|w|..]);
      assert Words(s) == [w] + rest;
      AllWordsCons(w, rest);
    }
  }

  lemma AllWordsCons(w: string, rest: seq<string>)
    requires IsWord(w)
    requires forall k :: 0 <= k < |rest| ==> IsWord(rest[k])
    ensures forall k :: 0 <= k < |[w] + rest| ==> IsWord(([w] + rest)[k])
  {
    forall k | 0 <= k < |[w] + rest|
      ensures IsWord(([w] + rest)[k])
    {
      if k > 0 {
        assert ([w] + rest)[k] == rest[k - 1];
      }
    }
  }

  lemma {:induction false} NonSpaceAppend(a: string, b: string)
    ensures NonSpace(a + b) == NonSpace(a) + NonSpace(b)
    decreases |a|
  {
    if a != [] {
      var head: string := if IsSpace(a[0]) then [] else [a[0]];
      assert (a + b)[0] == a[0];
      assert (a + b)[1..] == a[1..] + b;
      NonSpaceAppend(a[1..], b);
      calc {
        NonSpace(a + b);
        head + NonSpace(a[1..] + b);
        head + (NonSpace(a[1..]) + NonSpace(b));
        (head + NonSpace(a[1..])) + NonSpace(b);
        NonSpace(a) + NonSpace(b);
      }
    } else {
      assert a + b == b;
    }
  }

  lemma {:induction false} NonSpaceOfWord(w: string)
    requires forall i :: 0 <= i < |w| ==> !IsSpace(w[i])
    ensures NonSpace(w) == w
    decreases |w|
  {
    if w != [] {
      NonSpaceOfWord(w[1..]);
    }
  }

  lemma {:induction false} NonSpaceDropSpaces(s: string)
    ensures NonSpace(DropSpaces(s)) == NonSpace(s)
    decreases |s|
  {
    if |s| > 0 && IsSpace(s[0]) {
      NonSpaceDropSpaces(s[1..]);
    }
  }

  /** Joining words keeps their characters: only the separators are whitespace. */
  lemma {:induction false} NonSpaceOfJoin(ws: seq<string>)
    requires forall k :: 0 <= k < |ws| ==> IsWord(ws[k])
    ensures NonSpace(JoinWords(ws)) == Flatten(ws)
  {
    if |ws| == 1 {
      NonSpaceOfWord(ws[0]);
      assert Flatten(ws) == ws[0] + Flatten([]);
    } else if |ws| >= 2 {
      NonSpaceOfJoin(ws[1..]);
      NonSpaceOfWord(ws[0]);
      NonSpaceAppend(ws[0] + [' '], JoinWords(ws[1..]));
      NonSpaceAppend(ws[0], [' ']);
    }
  }

  /** Splitting into words loses only whitespace. */
  lemma {:induction false} NonSpaceIsWords(s: string)
    ensures NonSpace(s) == Flatten(Words(s))
    decreases |s|
  {
    var t := DropSpaces(s);
    NonSpaceDropSpaces(s);
    if t != [] {
      var w := TakeWord(t);
      var u := t[|w|..];
      assert t == w + u;
      NonSpaceAppend(w, u);
      NonSpaceOfWord(w);
      NonSpaceIsWords(u);
      assert Words(s) == [w] + Words(u);
      assert ([w] + Words(u))[1..] == Words(u);
    }
  }

  lemma SingleSpacedTail(t: string)
    requires t != [] && SingleSpaced(t)
    ensures SingleSpaced(t[1..])
  {
    var u := t[1..];
    forall i | 0 <= i < |u| && IsSpace(u[i])
      ensures u[i] == ' ' && (i + 1 < |u| ==> !IsSpace(u[i + 1]))
    {
      assert u[i] == t[i + 1];
    }
  }

  lemma {:induction false} CollapseFixesSingleSpaced(t: string)
    requires SingleSpaced(t)
    ensures Collapse(t) == t
    decreases |t|
  {
    if t != [] {
      var u := t[1..];
      SingleSpacedTail(t);
      CollapseFixesSingleSpaced(u);
      assert t == [t[0]] + u;
      if IsSpace(t[0]) {
        assert t[0] == ' ' && (u == [] || !IsSpace(u[0]));
        CollapseSpaceCons(u);
      } else {
        CollapseCons(t[0], u);
      }
    }
  }

  /** `clear` leaves a string unchanged exactly when it is already normalised. */
  lemma ClearFixedPoints(t: string)
    ensures Clear(t) == t <==> Normal(t)
  {
    if Normal(t) {
      CollapseFixesSingleSpaced(t);
      assert DropSpaces(t) == t;
    }
  }

  /** `clear` is idempotent. */
  lemma ClearIdempotent(s: string)
    ensures Clear(Clear(s)) == Clear(s)
  {
    ClearFixedPoints(Clear(s));
  }

  /** Every character is whitespace. */
  predicate AllSpace(p: string) {
    forall i :: 0 <= i < |p| ==> IsSpace(p[i])
  }

  lemma {:induction false} DropSpacesPrefix(p: string, x: string)
    requires AllSpace(p)
    requires x == [] || !IsSpace(x[0])
    ensures DropSpaces(p + x) == x
    decreases |p|
  {
    if p == [] {
      assert p + x == x;
    } else {
      assert (p + x)[0] == p[0];
      assert (p + x)[1..] == p[1..] + x;
      DropSpacesPrefix(p[1..], x);
    }
  }

  /** A whitespace-only string splits into no words. */
  lemma WordsOfSpaces(p: string)
    requires AllSpace(p)
    ensures Words(p) == []
  {
    DropSpacesPrefix(p, []);
    assert p + [] == p;
  }

  /** Splitting whitespace, then a word, then more text yields that word first. */
  lemma WordsOfSpacedWord(p: string, w: string, u: string)
    requires AllSpace(p)
    requires IsWord(w)
    requires u == [] || IsSpace(u[0])
    ensures Words(p + (w + u)) == [w] + Words(u)
  {
    DropSpacesPrefix(p, w + u);
    WordsSkipSpaces(p + (w + u));
    WordsOfWordThenRest(w, u);
  }

  /** Whitespace, a word, then whitespace only, split into that one word. */
  lemma WordsOfLastWord(b: string, w: string, c: string)
    requires AllSpace(b) && AllSpace(c)
    requires IsWord(w)
    ensures Words(b + (w + c)) == [w]
  {
    WordsOfSpaces(c);
    WordsOfSpacedWord(b, w, c);
  }

  /** Two words between whitespace runs split into exactly those two words. */
  lemma WordsOfTwo(a: string, h: string, b: string, w: string, c: string)
    requires AllSpace(a) && AllSpace(b) && AllSpace(c) && b != []
    requires IsWord(h) && IsWord(w)
    ensures Words(a + (h + (b + (w + c)))) == [h, w]
  {
    var rest := b + (w + c);
    assert rest[0] == b[0];
    WordsOfLastWord(b, w, c);
    WordsOfSpacedWord(a, h, rest);
  }

  /**
   * Two words surrounded and separated by whitespace runs are cleared to the
   * two words joined by one space; `"  Hello   World  "` is one instance.
   */
  lemma ClearOfTwo(s: string, a: string, h: string, b: string, w: string, c: string)
    requires s == a + (h + (b + (w + c)))
    requires AllSpace(a) && AllSpace(b) && AllSpace(c) && b != []
    requires IsWord(h) && IsWord(w)
    ensures Clear(s) == h + " " + w
  {
    WordsOfTwo(a, h, b, w, c);
    ClearIsJoinedWords(s);
    assert [h, w][1..] == [w];
  }

  /**
   * Truncating twice changes nothing, and the shown title is either the
   * whole title or a strict prefix of it followed by the ellipsis.
   */
  lemma TruncateIdempotent(t: string)
    ensures Truncate(Truncate(t)) == Truncate(t)
    ensures Truncate(t) == t || (Truncate(t)[..TitleKeep] < t && Truncate(t)[TitleKeep..] == Ellipsis)
  {
  }
}
