/** The few string operations of Python's `str` that the modelled code uses:
    `split()` with no argument, `' '.join`, `upper()` and `lower()`,
    restricted to ASCII. */
module Text {

  /** The ASCII characters that `str.split()` treats as whitespace. */
  predicate IsSpace(c: char) {
    c == ' ' || c == '\t' || c == '\n' || c == '\r' || c == '\U{B}' || c == '\U{C}'
    || ('\U{1C}' <= c <= '\U{1F}')
  }

  /** A token that `str.split()` can return: non-empty, without whitespace. */
  predicate IsWord(w: string) {
    |w| > 0 && forall i :: 0 <= i < |w| ==> !IsSpace(w[i])
  }

  predicate NoSpace(w: string) {
    forall i :: 0 <= i < |w| ==> !IsSpace(w[i])
  }

  predicate NoLowerCase(s: string) {
    forall i :: 0 <= i < |s| ==> !('a' <= s[i] <= 'z')
  }

  function UpperChar(c: char): char {
    if 'a' <= c <= 'z' then (c as int - 32) as char else c
  }

  function LowerChar(c: char): char {
    if 'A' <= c <= 'Z' then (c as int + 32) as char else c
  }

  /** `s.upper()` */
  function Upper(s: string): (r: string)
    ensures |r| == |s| && NoLowerCase(r)
    ensures forall i :: 0 <= i < |s| ==> (IsSpace(r[i]) <==> IsSpace(s[i]))
  {
    seq(|s|, i requires 0 <= i < |s| => UpperChar(s[i]))
  }

  /** `s.lower()` */
  function Lower(s: string): string {
    seq(|s|, i requires 0 <= i < |s| => LowerChar(s[i]))
  }

  lemma UpperOfUpper(s: string)
    requires NoLowerCase(s)
    ensures Upper(s) == s
  {
  }

  /** The maximal run of non-whitespace characters that ends `s`. */
  function TrailingWord(s: string): (w: string)
    ensures |w| <= |s|
  {
    if s == [] || IsSpace(s[|s| - 1]) then [] else TrailingWord(s[..|s| - 1]) + [s[|s| - 1]]
  }

  /** The trailing word is a suffix without whitespace, preceded by
      whitespace unless it is the whole string. */
  lemma {:induction false} TrailingWordIsSuffix(s: string)
    ensures TrailingWord(s) == s[|s| - |TrailingWord(s)|..]
    ensures NoSpace(TrailingWord(s))
    ensures |TrailingWord(s)| < |s| ==> IsSpace(s[|s| - |TrailingWord(s)| - 1])
    decreases |s|
  {
    if s != [] && !IsSpace(s[|s| - 1]) {
      var init := s[..|s| - 1];
      TrailingWordIsSuffix(init);
      var w := TrailingWord(init);
      assert TrailingWord(s) == w + [s[|s| - 1]];
      assert s == init + [s[|s| - 1]];
      assert s[|s| - |w| - 1..] == init[|init| - |w|..] + [s[|s| - 1]];
      if |w| < |init| {
        assert s[|s| - |w| - 2] == init[|init| - |w| - 1];
      }
    }
  }

  /** `s.split()`: the maximal runs of non-whitespace characters, in order. */
  function Split(s: string): (ws: seq<string>)
    decreases |s|
  {
    if s == [] then []
    else if IsSpace(s[|s| - 1]) then Split(s[..|s| - 1])
    else
      var w := TrailingWord(s);
      Split(s[..|s| - |w|]) + [w]
  }

  /** Every token `s.split()` returns is a non-empty word without whitespace. */
  lemma {:induction false} SplitWords(s: string)
    ensures forall k :: 0 <= k < |Split(s)| ==> IsWord(Split(s)[k])
    decreases |s|
  {
    if s == [] {
    } else if IsSpace(s[|s| - 1]) {
      SplitWords(s[..|s| - 1]);
    } else {
      var w := TrailingWord(s);
      TrailingWordIsSuffix(s);
      SplitWords(s[..|s| - |w|]);
      assert |w| > 0;
    }
  }

  /** `' '.join(ws)` */
  function JoinSpaced(ws: seq<string>): string {
    if |ws| == 0 then []
    else if |ws| == 1 then ws[0]
    else JoinSpaced(ws[..|ws| - 1]) + " " + ws[|ws| - 1]
  }

  lemma {:induction false} TrailingWordAfterSpace(p: string, w: string)
    requires NoSpace(w)
    requires p == [] || IsSpace(p[|p| - 1])
    ensures TrailingWord(p + w) == w
    decreases |w|
  {
    if w == [] {
      assert p + w == p;
    } else {
      var s := p + w;
      var init := w[..|w| - 1];
      var c := w[|w| - 1];
      assert s[..|s| - 1] == p + init;
      assert s[|s| - 1] == c && !IsSpace(c);
      TrailingWordAfterSpace(p, init);
      assert TrailingWord(s) == TrailingWord(p + init) + [c];
      assert init + [c] == w;
    }
  }

  /** The last whitespace-separated token of `p + " " + w` is `w`. */
  lemma LastTokenAfterSpace(p: string, w: string)
    requires IsWord(w)
    ensures |Split(p + " " + w)| > 0
    ensures Split(p + " " + w)[|Split(p + " " + w)| - 1] == w
  {
    var s := p + " " + w;
    TrailingWordAfterSpace(p + " ", w);
    assert s[|s| - 1] == w[|w| - 1];
  }

  /** Splitting a word that follows whitespace appends that word. */
  lemma SplitAfterSpace(p: string, w: string)
    requires IsWord(w)
    requires p == [] || IsSpace(p[|p| - 1])
    ensures Split(p + w) == Split(p) + [w]
  {
    var s := p + w;
    TrailingWordAfterSpace(p, w);
    assert s[|s| - 1] == w[|w| - 1];
    assert s[..|s| - |w|] == p;
  }

  lemma SplitDropSpace(s: string)
    ensures Split(s + " ") == Split(s)
  {
    var t := s + " ";
    assert t[..|t| - 1] == s;
  }

  /** Reading back what `' '.join` wrote gives the same tokens. */
  lemma {:induction false} SplitJoinSpaced(ws: seq<string>)
    requires forall k :: 0 <= k < |ws| ==> IsWord(ws[k])
    ensures Split(JoinSpaced(ws)) == ws
    decreases |ws|
  {
    if |ws| == 1 {
      SplitWord(ws);
    } else if |ws| > 1 {
      var init, w := ws[..|ws| - 1], ws[|ws| - 1];
      SplitJoinSpaced(init);
      SplitJoinStep(init, w);
      assert init + [w] == ws;
    }
  }

  /** One more word joined after a space adds that token. */
  lemma SplitJoinStep(init: seq<string>, w: string)
    requires |init| > 0 && IsWord(w)
    requires Split(JoinSpaced(init)) == init
    ensures Split(JoinSpaced(init + [w])) == init + [w]
  {
    var ws := init + [w];
    assert ws[..|ws| - 1] == init && ws[|ws| - 1] == w;
    var j := JoinSpaced(init);
    assert JoinSpaced(ws) == j + " " + w;
    SplitAfterSpace(j + " ", w);
    SplitDropSpace(j);
  }

  /** A single word splits into itself. */
  lemma SplitWord(ws: seq<string>)
    requires |ws| == 1 && IsWord(ws[0])
    ensures Split(JoinSpaced(ws)) == ws
  {
    SplitAfterSpace([], ws[0]);
    assert [] + ws[0] == ws[0];
  }

  /** The tokens of a string without lower-case letters have none either. */
  lemma SliceNoLowerCase(s: string, i: nat, j: nat)
    requires NoLowerCase(s) && i <= j <= |s|
    ensures NoLowerCase(s[i..j])
  {
    forall k | 0 <= k < j - i
      ensures !('a' <= s[i..j][k] <= 'z')
    {
      assert s[i..j][k] == s[i + k];
    }
  }

  predicate AllNoLowerCase(ws: seq<string>) {
    forall k :: 0 <= k < |ws| ==> NoLowerCase(ws[k])
  }

  lemma {:induction false} SplitNoLowerCase(s: string)
    requires NoLowerCase(s)
    ensures AllNoLowerCase(Split(s))
    decreases |s|
  {
    if s == [] {
    } else if IsSpace(s[|s| - 1]) {
      SliceNoLowerCase(s, 0, |s| - 1);
      SplitNoLowerCase(s[..|s| - 1]);
    } else {
      var w := TrailingWord(s);
      var p := s[..|s| - |w|];
      TrailingWordIsSuffix(s);
      SliceNoLowerCase(s, 0, |s| - |w|);
      SliceNoLowerCase(s, |s| - |w|, |s|);
      SplitNoLowerCase(p);
      assert Split(s) == Split(p) + [w];
    }
  }

  lemma {:induction false} JoinSpacedNoLowerCase(ws: seq<string>)
    requires forall k :: 0 <= k < |ws| ==> NoLowerCase(ws[k])
    ensures NoLowerCase(JoinSpaced(ws))
    decreases |ws|
  {
    if |ws| > 1 {
      JoinSpacedNoLowerCase(ws[..|ws| - 1]);
    }
  }
}
