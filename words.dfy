/** Python's argument-less `str.split()`: the text cut at runs of whitespace,
    with no empty words. */
module Words {

  /** `str.isspace()` on one code point: the Unicode whitespace Python splits on. */
  predicate IsSpace(c: char) {
    ('\t' <= c <= '\r') || ('\U{1C}' <= c <= '\U{1F}') || c == ' ' ||
    c == '\U{85}' || c == '\U{A0}' || c == '\U{1680}' ||
    ('\U{2000}' <= c <= '\U{200A}') || c == '\U{2028}' || c == '\U{2029}' ||
    c == '\U{202F}' || c == '\U{205F}' || c == '\U{3000}'
  }

  /** A token `split()` can produce: non-empty, without whitespace. */
  predicate IsWord(w: string) {
    |w| > 0 && forall k :: 0 <= k < |w| ==> !IsSpace(w[k])
  }

  /** A non-empty run of lower-case letters and underscores is a word. */
  lemma LowerCaseWord(w: string)
    requires |w| > 0 && forall k :: 0 <= k < |w| ==> '_' <= w[k] <= 'z'
    ensures IsWord(w)
  {
  }

  /** Length of the longest whitespace-free prefix of `s`. */
  function WordLength(s: string): (n: nat)
    ensures n <= |s|
    ensures forall k :: 0 <= k < n ==> !IsSpace(s[k])
    ensures n < |s| ==> IsSpace(s[n])
  {
    if s == [] || IsSpace(s[0]) then 0 else 1 + WordLength(s[1..])
  }

  /** The words of `s`, left to right. */
  function Split(s: string): (words: seq<string>)
    ensures forall k :: 0 <= k < |words| ==> IsWord(words[k])
    decreases |s|
  {
    if s == [] then []
    else if IsSpace(s[0]) then Split(s[1..])
    else
      var n := WordLength(s);
      [s[..n]] + Split(s[n..])
  }

  /** The words separated by single spaces: the inverse of `Split` on words. */
  function Join(words: seq<string>): string {
    if |words| == 0 then ""
    else if |words| == 1 then words[0]
    else words[0] + " " + Join(words[1..])
  }

  lemma SplitWord(w: string)
    requires IsWord(w)
    ensures Split(w) == [w]
  {
    var n := WordLength(w);
    assert n == |w|;
    assert w[..n] == w && w[n..] == [];
  }

  /** Text made only of whitespace has no words. */
  lemma {:induction false} SplitAllSpace(s: string)
    requires forall k :: 0 <= k < |s| ==> IsSpace(s[k])
    ensures Split(s) == []
  {
    if s != [] {
      assert IsSpace(s[0]);
      SplitAllSpace(s[1..]);
    }
  }

  /** A whitespace character always ends a word: the words of the text around
      it are the words before it followed by the words after it. */
  lemma {:induction false} SplitAtSpace(a: string, c: char, b: string)
    requires IsSpace(c)
    ensures Split(a + [c] + b) == Split(a) + Split(b)
    decreases |a|
  {
    var s := a + [c] + b;
    if a == [] {
      assert s[0] == c && s[1..] == b;
    } else if IsSpace(a[0]) {
      assert s[0] == a[0] && s[1..] == a[1..] + [c] + b;
      SplitAtSpace(a[1..], c, b);
    } else {
      assert s[0] == a[0];
      var m, n := WordLength(a), WordLength(s);
      assert forall k :: 0 <= k < |a| ==> s[k] == a[k];
      if m < |a| {
        assert n == m;
        assert s[..n] == a[..m];
        assert s[n..] == a[m..] + [c] + b;
        SplitAtSpace(a[m..], c, b);
      } else {
        assert s[|a|] == c;
        assert n == |a|;
        assert s[..n] == a && a[..m] == a;
        assert s[n..] == [c] + b && ([c] + b)[1..] == b;
        assert a[m..] == [];
      }
    }
  }

  /** Splitting the words joined by spaces gives back exactly those words. */
  lemma {:induction false} SplitJoin(words: seq<string>)
    requires forall k :: 0 <= k < |words| ==> IsWord(words[k])
    ensures Split(Join(words)) == words
  {
    if |words| == 1 {
      SplitWord(words[0]);
    } else if |words| > 1 {
      var w, rest := words[0], Join(words[1..]);
      var s := w + " " + rest;
      assert s == Join(words);
      var n := WordLength(s);
      assert s[|w|] == ' ';
      assert forall k :: 0 <= k < |w| ==> s[k] == w[k];
      assert n == |w|;
      assert s[..n] == w;
      assert s[n..] == " " + rest;
      assert (" " + rest)[1..] == rest;
      SplitJoin(words[1..]);
    }
  }
}
