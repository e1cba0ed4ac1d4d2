/**
 * The three string operations the TSP reader applies to each line: Python's
 * `str.strip()`, `str.split()` and `str.split(' ', 1)`.
 */
module Text {

  /** Python's `str.isspace()` on one character. */
  predicate IsSpace(c: char)
  {
    || ('\U{0009}' <= c <= '\U{000D}')
    || ('\U{001C}' <= c <= '\U{001F}')
    || c == ' ' || c == '\U{0085}' || c == '\U{00A0}' || c == '\U{1680}'
    || ('\U{2000}' <= c <= '\U{200A}')
    || c == '\U{2028}' || c == '\U{2029}' || c == '\U{202F}' || c == '\U{205F}' || c == '\U{3000}'
  }

  predicate AllSpace(s: string)
  {
    forall i :: 0 <= i < |s| ==> IsSpace(s[i])
  }

  predicate NoSpace(s: string)
  {
    forall i :: 0 <= i < |s| ==> !IsSpace(s[i])
  }

  /** `s.lstrip()`: drops the leading whitespace. */
  function TrimStart(s: string): (r: string)
    ensures |r| <= |s|
    ensures r == [] || !IsSpace(r[0])
  {
    if s != [] && IsSpace(s[0]) then TrimStart(s[1..]) else s
  }

  /** What `lstrip` removes is a whitespace prefix, and what it keeps starts with a non-whitespace character. */
  lemma {:induction false} TrimStartSpec(s: string)
    ensures var r := TrimStart(s);
      && r == s[|s| - |r|..]
      && AllSpace(s[..|s| - |r|])
  {
    if s != [] && IsSpace(s[0]) {
      TrimStartSpec(s[1..]);
      var r := TrimStart(s[1..]);
      assert s[1..][..|s| - 1 - |r|] == s[1..|s| - |r|];
    }
  }

  /** `s.rstrip()`: drops the trailing whitespace. */
  function TrimEnd(s: string): (r: string)
    ensures |r| <= |s|
  {
    if s != [] && IsSpace(s[|s| - 1]) then TrimEnd(s[..|s| - 1]) else s
  }

  /** What `rstrip` removes is a whitespace suffix, and what it keeps ends with a non-whitespace character. */
  lemma {:induction false} TrimEndSpec(s: string)
    ensures var r := TrimEnd(s);
      && r == s[..|r|]
      && AllSpace(s[|r|..])
      && (r == [] || !IsSpace(r[|r| - 1]))
  {
    if s != [] && IsSpace(s[|s| - 1]) {
      TrimEndSpec(s[..|s| - 1]);
      var r := TrimEnd(s[..|s| - 1]);
      assert s[..|s| - 1][|r|..] == s[|r|..|s| - 1];
      assert s[|r|..] == s[|r|..|s| - 1] + [s[|s| - 1]];
    }
  }

  /** `s.strip()`: the part of `s` between its leading and its trailing whitespace. */
  function Strip(s: string): (r: string)
    ensures |r| <= |s|
  {
    TrimEnd(TrimStart(s))
  }

  /** `strip` cuts `s` down to a slice with only whitespace outside it and none at either end of it. */
  lemma StripSpec(s: string)
    ensures var r := Strip(s);
      && (exists i, j :: 0 <= i <= j <= |s| && r == s[i..j] && AllSpace(s[..i]) && AllSpace(s[j..]))
      && (r == [] || (!IsSpace(r[0]) && !IsSpace(r[|r| - 1])))
  {
    var t := TrimStart(s);
    var r := TrimEnd(t);
    TrimStartSpec(s);
    TrimEndSpec(t);
    var i := |s| - |t|;
    var j := i + |r|;
    assert r == s[i..j];
    assert s[j..] == t[|r|..];
    assert r != [] ==> r[0] == t[0];
  }

  /** Stripping twice strips nothing more. */
  lemma StripIdempotent(s: string)
    ensures Strip(Strip(s)) == Strip(s)
  {
    var r := Strip(s);
    StripSpec(s);
    assert TrimStart(r) == r;
    assert TrimEnd(r) == r;
  }

  /** The length of the longest prefix of `s` without whitespace. */
  function WordEnd(s: string): (k: nat)
    ensures k <= |s|
    ensures s != [] && !IsSpace(s[0]) ==> k > 0
  {
    if s == [] || IsSpace(s[0]) then 0 else WordEnd(s[1..]) + 1
  }

  lemma {:induction false} WordEndSpec(s: string)
    ensures var k := WordEnd(s);
      && NoSpace(s[..k])
      && (k < |s| ==> IsSpace(s[k]))
  {
    if s != [] && !IsSpace(s[0]) {
      WordEndSpec(s[1..]);
      var k := WordEnd(s[1..]);
      assert s[..k + 1] == [s[0]] + s[1..][..k];
    }
  }

  /** `s.split()`: the maximal runs of non-whitespace characters, in order. */
  function Words(s: string): (words: seq<string>)
    decreases |s|
  {
    var t := TrimStart(s);
    if t == [] then []
    else
      var k := WordEnd(t);
      [t[..k]] + Words(t[k..])
  }

  /** Every word of `split()` is a nonempty run of non-whitespace characters. */
  lemma {:induction false} WordsAreWords(s: string)
    ensures forall w :: w in Words(s) ==> w != [] && NoSpace(w)
    decreases |s|
  {
    var t := TrimStart(s);
    if t != [] {
      var k := WordEnd(t);
      WordEndSpec(t);
      WordsAreWords(t[k..]);
    }
  }

  /** The characters of `s` that are not whitespace, in order. */
  function NonSpace(s: string): string
  {
    if s == [] then []
    else if IsSpace(s[0]) then NonSpace(s[1..])
    else [s[0]] + NonSpace(s[1..])
  }

  function Concat(words: seq<string>): string
  {
    if words == [] then [] else words[0] + Concat(words[1..])
  }

  lemma {:induction false} NonSpaceConcat(a: string, b: string)
    ensures NonSpace(a + b) == NonSpace(a) + NonSpace(b)
  {
    if a != [] {
      assert (a + b)[1..] == a[1..] + b;
      NonSpaceConcat(a[1..], b);
    } else {
      assert a + b == b;
    }
  }

  lemma {:induction false} NonSpaceOfSpaces(s: string)
    requires AllSpace(s)
    ensures NonSpace(s) == []
  {
    if s != [] {
      NonSpaceOfSpaces(s[1..]);
    }
  }

  lemma {:induction false} NonSpaceOfWord(s: string)
    requires NoSpace(s)
    ensures NonSpace(s) == s
  {
    if s != [] {
      NonSpaceOfWord(s[1..]);
    }
  }

  /** `s.split()` loses exactly the whitespace: its words, run together, are the other characters of `s`. */
  lemma {:induction false} WordsKeepNonSpace(s: string)
    ensures Concat(Words(s)) == NonSpace(s)
    decreases |s|
  {
    var t := TrimStart(s);
    TrimStartSpec(s);
    var skipped := s[..|s| - |t|];
    assert s == skipped + t;
    NonSpaceConcat(skipped, t);
    NonSpaceOfSpaces(skipped);
    if t != [] {
      var k := WordEnd(t);
      WordEndSpec(t);
      assert t == t[..k] + t[k..];
      NonSpaceConcat(t[..k], t[k..]);
      NonSpaceOfWord(t[..k]);
      WordsKeepNonSpace(t[k..]);
      var words := Words(s);
      assert words == [t[..k]] + Words(t[k..]);
      assert words[1..] == Words(t[k..]);
    }
  }

  /** A line without whitespace inside is a single word. */
  lemma SingleWord(s: string)
    requires s != [] && NoSpace(s)
    ensures Words(s) == [s]
  {
    assert TrimStart(s) == s;
    assert WordEnd(s) == |s| by {
      WordEndOfWord(s);
    }
    assert s[..|s|] == s && s[|s|..] == [];
    assert Words([]) == [];
  }

  lemma {:induction false} WordEndOfWord(s: string)
    requires NoSpace(s)
    ensures WordEnd(s) == |s|
  {
    if s != [] {
      WordEndOfWord(s[1..]);
    }
  }

  /** A whitespace character ends the word it follows. */
  lemma {:induction false} WordEndBeforeSpace(a: string, c: char, b: string)
    requires IsSpace(c)
    ensures WordEnd(a + [c] + b) == WordEnd(a)
  {
    if a != [] && !IsSpace(a[0]) {
      assert (a + [c] + b)[1..] == a[1..] + [c] + b;
      WordEndBeforeSpace(a[1..], c, b);
    } else if a == [] {
      assert (a + [c] + b)[0] == c;
    }
  }

  /** Leading whitespace does not change the words. */
  lemma WordsAfterSpace(c: char, s: string)
    requires IsSpace(c)
    ensures Words([c] + s) == Words(s)
  {
    assert ([c] + s)[1..] == s;
    assert TrimStart([c] + s) == TrimStart(s);
  }

  /**
   * `split()` splits at every whitespace character: the words of `a`, a
   * whitespace character and `b` are the words of `a` followed by those of `b`.
   * With `Words([]) == []` and `SingleWord`, this determines `split()` on every
   * string.
   */
  lemma {:induction false} WordsSplitAtSpace(a: string, c: char, b: string)
    requires IsSpace(c)
    ensures Words(a + [c] + b) == Words(a) + Words(b)
    decreases |a|, 1
  {
    if a == [] {
      assert a + [c] + b == [c] + b;
      WordsAfterSpace(c, b);
    } else if IsSpace(a[0]) {
      SplitAfterLeadingSpace(a, c, b);
    } else {
      SplitAfterWord(a, c, b);
    }
  }

  lemma {:induction false} SplitAfterLeadingSpace(a: string, c: char, b: string)
    requires IsSpace(c) && a != [] && IsSpace(a[0])
    ensures Words(a + [c] + b) == Words(a) + Words(b)
    decreases |a|, 0
  {
    var rest := a[1..];
    assert a + [c] + b == [a[0]] + (rest + [c] + b);
    assert a == [a[0]] + rest;
    WordsAfterSpace(a[0], rest + [c] + b);
    WordsAfterSpace(a[0], rest);
    WordsSplitAtSpace(rest, c, b);
  }

  lemma {:induction false} SplitAfterWord(a: string, c: char, b: string)
    requires IsSpace(c) && a != [] && !IsSpace(a[0])
    ensures Words(a + [c] + b) == Words(a) + Words(b)
    decreases |a|, 0
  {
    var s := a + [c] + b;
    var k := WordEnd(a);
    WordEndBeforeSpace(a, c, b);
    WordsOfWordStart(a);
    WordsOfWordStart(s);
    var tail := a[k..];
    assert s[..k] == a[..k];
    assert s[k..] == tail + [c] + b;
    WordsSplitAtSpace(tail, c, b);
  }

  /** A string that starts with a word splits into that word and the words of the rest. */
  lemma WordsOfWordStart(s: string)
    requires s != [] && !IsSpace(s[0])
    ensures Words(s) == [s[..WordEnd(s)]] + Words(s[WordEnd(s)..])
  {
    assert TrimStart(s) == s;
  }

  /**
   * A coordinate line `index x y`, its three tokens separated by single spaces,
   * splits into exactly those three tokens.
   */
  lemma ThreeTokens(index: string, x: string, y: string)
    requires index != [] && NoSpace(index) && x != [] && NoSpace(x) && y != [] && NoSpace(y)
    ensures Words(index + " " + x + " " + y) == [index, x, y]
  {
    SingleWord(index);
    SingleWord(x);
    SingleWord(y);
    assert index + " " + (x + " " + y) == index + " " + x + " " + y;
    WordsSplitAtSpace(x, ' ', y);
    WordsSplitAtSpace(index, ' ', x + " " + y);
  }

  /** The index of the first `' '` in `s`, or `|s|` when there is none. */
  function FirstBlank(s: string): (k: nat)
    ensures k <= |s|
    ensures k < |s| ==> s[k] == ' '
  {
    if s == [] || s[0] == ' ' then 0 else FirstBlank(s[1..]) + 1
  }

  /** No `' '` comes before the first one. */
  lemma {:induction false} FirstBlankSpec(s: string)
    ensures forall i :: 0 <= i < FirstBlank(s) ==> s[i] != ' '
  {
    if s != [] && s[0] != ' ' {
      FirstBlankSpec(s[1..]);
    }
  }

  /**
   * `s.split(' ', 1)`: the text before the first space and the text after it,
   * or `s` alone when it holds no space.
   */
  function SplitAtFirstSpace(s: string): (parts: seq<string>)
    ensures |parts| == 1 || |parts| == 2
  {
    var k := FirstBlank(s);
    if k == |s| then [s] else [s[..k], s[k + 1..]]
  }

  /**
   * `split(' ', 1)` gives two parts exactly when `s` holds a space; then they
   * are the text before its first space and the text after it, and otherwise
   * the one part is `s` itself.
   */
  lemma SplitAtFirstSpaceSpec(s: string)
    ensures var parts := SplitAtFirstSpace(s);
      && (|parts| == 2 <==> ' ' in s)
      && (|parts| == 1 ==> parts[0] == s)
      && (|parts| == 2 ==> parts[0] + " " + parts[1] == s && ' ' !in parts[0])
  {
    var k := FirstBlank(s);
    FirstBlankSpec(s);
    if k == |s| {
      assert forall i :: 0 <= i < |s| ==> s[i] != ' ';
    } else {
      assert s[..k] + " " + s[k + 1..] == s;
      assert forall i :: 0 <= i < k ==> s[..k][i] != ' ';
    }
  }
}
