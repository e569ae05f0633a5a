/** Whitespace handling of Python strings, as used by the caption wrapper:
    `str.split()` with no argument, `str.strip()` with no argument and
    `sep.join(parts)`. */
module Strings {

  /** The characters Python's `str.isspace()` accepts; they are the
      separators of `str.split()` and what `str.strip()` removes. */
  predicate IsSpace(c: char) {
    var n := c as int;
    (9 <= n <= 13) || (28 <= n <= 32) || n == 0x85 || n == 0xA0 || n == 0x1680
    || (0x2000 <= n <= 0x200A) || n == 0x2028 || n == 0x2029 || n == 0x202F
    || n == 0x205F || n == 0x3000
  }

  /** A non-empty run of non-whitespace characters: what `str.split()` yields. */
  predicate IsWord(w: string) {
    |w| > 0 && forall i :: 0 <= i < |w| ==> !IsSpace(w[i])
  }

  predicate AllWords(ws: seq<string>) {
    forall i :: 0 <= i < |ws| ==> IsWord(ws[i])
  }

  /** Neither starts nor ends with whitespace (the empty string included). */
  predicate Trimmed(s: string) {
    s == [] || (!IsSpace(s[0]) && !IsSpace(s[|s| - 1]))
  }

  /** Length of the longest whitespace-free prefix of `s`. */
  function WordLength(s: string): (n: nat)
    ensures n <= |s|
    ensures forall i :: 0 <= i < n ==> !IsSpace(s[i])
    ensures n == |s| || IsSpace(s[n])
  {
    if s == [] || IsSpace(s[0]) then 0 else 1 + WordLength(s[1..])
  }

  /** `s.split()`: the maximal whitespace-free runs of `s`, in order. */
  function Split(s: string): seq<string>
    decreases |s|
  {
    if s == [] then []
    else if IsSpace(s[0]) then Split(s[1..])
    else
      var n := WordLength(s);
      [s[..n]] + Split(s[n..])
  }

  /** Drops leading whitespace. */
  function TrimStart(s: string): string {
    if s != [] && IsSpace(s[0]) then TrimStart(s[1..]) else s
  }

  /** Drops trailing whitespace. */
  function TrimEnd(s: string): string {
    if s != [] && IsSpace(s[|s| - 1]) then TrimEnd(s[..|s| - 1]) else s
  }

  /** `s.strip()`. */
  function Strip(s: string): string {
    TrimEnd(TrimStart(s))
  }

  /** `[sep].join(parts)` for a one-character separator. */
  function Join(parts: seq<string>, sep: char): string {
    if |parts| == 0 then ""
    else if |parts| == 1 then parts[0]
    else Join(parts[..|parts| - 1], sep) + [sep] + parts[|parts| - 1]
  }

  /** The words of all parts, part after part. */
  function SplitAll(parts: seq<string>): seq<string> {
    if parts == [] then [] else SplitAll(parts[..|parts| - 1]) + Split(parts[|parts| - 1])
  }

  /** A whitespace character after `a` ends the first word of `a` where it
      ended anyway. */
  lemma WordLengthOfExtension(a: string, t: string)
    requires |t| > 0 && IsSpace(t[0])
    ensures WordLength(a + t) == WordLength(a)
  {
    var s, m := a + t, WordLength(a);
    assert forall i :: 0 <= i < m ==> s[i] == a[i];
    assert s[m] == if m < |a| then a[m] else t[0];
  }

  /** Splitting at a whitespace character splits the two sides independently. */
  lemma {:induction false} SplitAroundSpace(a: string, c: char, b: string)
    requires IsSpace(c)
    ensures Split(a + [c] + b) == Split(a) + Split(b)
    decreases |a|
  {
    var s := a + [c] + b;
    if a == [] {
      assert s[1..] == b;
    } else if IsSpace(a[0]) {
      assert s[1..] == a[1..] + [c] + b;
      SplitAroundSpace(a[1..], c, b);
    } else {
      WordLengthOfExtension(a, [c] + b);
      var m := WordLength(a);
      assert s == a + ([c] + b);
      assert s[..m] == a[..m];
      assert s[m..] == a[m..] + [c] + b;
      SplitAroundSpace(a[m..], c, b);
    }
  }

  /** A word splits into itself. */
  lemma SplitWord(w: string)
    requires IsWord(w)
    ensures Split(w) == [w]
  {
    assert WordLength(w) == |w|;
    assert w[..|w|] == w;
    assert w[|w|..] == [];
  }

  /** Every piece `str.split()` returns is a word. */
  lemma {:induction false} SplitYieldsWords(s: string)
    ensures AllWords(Split(s))
    decreases |s|
  {
    if s == [] {
    } else if IsSpace(s[0]) {
      SplitYieldsWords(s[1..]);
    } else {
      var n := WordLength(s);
      SplitYieldsWords(s[n..]);
      assert IsWord(s[..n]);
    }
  }

  /** Joining with a whitespace separator and splitting again gives back the
      words of the parts: `"\n".join(lines).split()` is the words of the lines. */
  lemma {:induction false} SplitJoin(parts: seq<string>, sep: char)
    requires IsSpace(sep)
    ensures Split(Join(parts, sep)) == SplitAll(parts)
    decreases |parts|
  {
    if |parts| == 0 {
    } else if |parts| == 1 {
      assert parts[..0] == [];
    } else {
      var init := parts[..|parts| - 1];
      SplitJoin(init, sep);
      SplitAroundSpace(Join(init, sep), sep, parts[|parts| - 1]);
    }
  }

  /** Stripping `prev + " " + w`, for a trimmed `prev` and a word `w`, drops the
      space exactly when `prev` is empty: the line-growing step of the wrapper. */
  lemma StripSpaceWord(prev: string, w: string)
    requires Trimmed(prev) && IsWord(w)
    ensures Strip(prev + " " + w) == if prev == "" then w else prev + " " + w
  {
    var t := prev + " " + w;
    if prev == "" {
      assert t[1..] == w;
      assert TrimStart(t) == w;
    } else {
      assert t[0] == prev[0];
    }
    assert t[|t| - 1] == w[|w| - 1];
  }
}
