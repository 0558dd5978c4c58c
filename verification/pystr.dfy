/**
 * The parts of Python's `str` that the login handler relies on:
 * `s.split()` (split on runs of whitespace), `s.split(sep)` for a one-character
 * separator, and `sep.join(parts)`, each with the laws that tie them together.
 */
module PyStr {

  /** Python's `str.isspace` for one character: the characters `str.split()` separates on. */
  predicate IsSpace(c: char) {
    ('\t' <= c <= '\r') || ('\U{1C}' <= c <= '\U{1F}') || c == ' '
    || c == '\U{85}' || c == '\U{A0}' || c == '\U{1680}'
    || ('\U{2000}' <= c <= '\U{200A}') || c == '\U{2028}' || c == '\U{2029}'
    || c == '\U{202F}' || c == '\U{205F}' || c == '\U{3000}'
  }

  predicate AllSpace(s: string) {
    forall i :: 0 <= i < |s| ==> IsSpace(s[i])
  }

  /** A word of `str.split()`: non-empty and free of whitespace. */
  predicate IsWord(w: string) {
    |w| > 0 && forall i :: 0 <= i < |w| ==> !IsSpace(w[i])
  }

  /** Either nothing follows, or what follows starts with whitespace (so a word ends here). */
  predicate StartsAtBoundary(s: string) {
    s == [] || IsSpace(s[0])
  }

  /** Length of the run of non-whitespace characters at the start of `s`. */
  function WordLen(s: string): (n: nat)
    ensures n <= |s|
    ensures forall i :: 0 <= i < n ==> !IsSpace(s[i])
    ensures n < |s| ==> IsSpace(s[n])
  {
    if |s| == 0 || IsSpace(s[0]) then 0 else 1 + WordLen(s[1..])
  }

  /** `s.split()`: the maximal whitespace-free runs of `s`, in order. */
  function Words(s: string): (ws: seq<string>)
    ensures forall k :: 0 <= k < |ws| ==> IsWord(ws[k])
    decreases |s|
  {
    if |s| == 0 then []
    else if IsSpace(s[0]) then Words(s[1..])
    else
      var n := WordLen(s);
      [s[..n]] + Words(s[n..])
  }

  /** `sep.join(parts)`. */
  function Join(parts: seq<string>, sep: string): string {
    if |parts| == 0 then ""
    else if |parts| == 1 then parts[0]
    else parts[0] + sep + Join(parts[1..], sep)
  }

  lemma {:induction false} WordLenOfWord(w: string, rest: string)
    requires IsWord(w) && StartsAtBoundary(rest)
    ensures WordLen(w + rest) == |w|
    decreases |w|
  {
    if |w| > 1 {
      assert (w + rest)[1..] == w[1..] + rest;
      WordLenOfWord(w[1..], rest);
    } else {
      assert (w + rest)[1..] == rest;
    }
  }

  /** Leading whitespace never changes what `str.split()` returns. */
  lemma {:induction false} WordsSkipSpace(sp: string, s: string)
    requires AllSpace(sp)
    ensures Words(sp + s) == Words(s)
    decreases |sp|
  {
    if |sp| > 0 {
      assert (sp + s)[0] == sp[0];
      assert (sp + s)[1..] == sp[1..] + s;
      WordsSkipSpace(sp[1..], s);
    } else {
      assert sp + s == s;
    }
  }

  /** A word followed by a boundary is the first item `str.split()` returns. */
  lemma WordsCons(w: string, rest: string)
    requires IsWord(w) && StartsAtBoundary(rest)
    ensures Words(w + rest) == [w] + Words(rest)
  {
    WordLenOfWord(w, rest);
    assert (w + rest)[..|w|] == w;
    assert (w + rest)[|w|..] == rest;
  }

  /** Round trip: splitting words joined by single spaces gives the words back. */
  lemma {:induction false} WordsJoinRoundTrip(ws: seq<string>)
    requires forall k :: 0 <= k < |ws| ==> IsWord(ws[k])
    ensures Words(Join(ws, " ")) == ws
  {
    if |ws| == 1 {
      WordsCons(ws[0], "");
      assert ws[0] + "" == ws[0];
    } else if |ws| > 1 {
      var tail := Join(ws[1..], " ");
      assert Join(ws, " ") == ws[0] + (" " + tail);
      WordsCons(ws[0], " " + tail);
      WordsSkipSpace(" ", tail);
      WordsJoinRoundTrip(ws[1..]);
      assert ws == [ws[0]] + ws[1..];
    }
  }

  /** Index of the first `c` in `s`, or `|s|` when there is none. */
  function FirstIndexOf(s: string, c: char): (i: nat)
    ensures i <= |s|
    ensures forall j :: 0 <= j < i ==> s[j] != c
    ensures i < |s| ==> s[i] == c
  {
    if |s| == 0 || s[0] == c then 0 else 1 + FirstIndexOf(s[1..], c)
  }

  /** `s.split(c)` for a one-character separator `c`: the pieces between the occurrences of `c`. */
  function Split(s: string, c: char): (parts: seq<string>)
    ensures |parts| >= 1
    ensures forall k :: 0 <= k < |parts| ==> c !in parts[k]
    decreases |s|
  {
    var i := FirstIndexOf(s, c);
    if i == |s| then [s] else [s[..i]] + Split(s[i + 1..], c)
  }

  /** Joining the pieces of `s.split(c)` with `c` rebuilds `s`. */
  lemma {:induction false} SplitJoin(s: string, c: char)
    ensures Join(Split(s, c), [c]) == s
    decreases |s|
  {
    var i := FirstIndexOf(s, c);
    if i < |s| {
      var rest := Split(s[i + 1..], c);
      SplitJoin(s[i + 1..], c);
      assert Split(s, c) == [s[..i]] + rest;
      assert s == s[..i] + [c] + s[i + 1..];
    }
  }

  lemma {:induction false} FirstIndexOfAfterFree(p: string, c: char, t: string)
    requires c !in p
    ensures FirstIndexOf(p + t, c) == |p| + FirstIndexOf(t, c)
    decreases |p|
  {
    if |p| > 0 {
      assert (p + t)[0] == p[0];
      assert (p + t)[1..] == p[1..] + t;
      FirstIndexOfAfterFree(p[1..], c, t);
    } else {
      assert p + t == t;
    }
  }

  /** Splitting `c`-free pieces joined with `c` gives the pieces back. */
  lemma {:induction false} JoinSplit(parts: seq<string>, c: char)
    requires |parts| >= 1
    requires forall k :: 0 <= k < |parts| ==> c !in parts[k]
    ensures Split(Join(parts, [c]), c) == parts
  {
    var p := parts[0];
    if |parts| == 1 {
      FirstIndexOfAfterFree(p, c, "");
      assert p + "" == p;
    } else {
      var tail := Join(parts[1..], [c]);
      var s := p + ([c] + tail);
      assert Join(parts, [c]) == s;
      FirstIndexOfAfterFree(p, c, [c] + tail);
      assert s[..|p|] == p;
      assert s[|p| + 1..] == tail;
      JoinSplit(parts[1..], c);
      assert parts == [p] + parts[1..];
    }
  }

  /** The first piece of `s.split(c)` is everything before the first `c`. */
  lemma SplitHead(s: string, c: char)
    ensures Split(s, c)[0] == s[..FirstIndexOf(s, c)]
  {
  }
}
