/** Splitting the remainder of a `=>` link line into a link target and a label. */
module LinkLineDecoder {

  /** Rust's `char::is_whitespace`: the characters with the Unicode
      White_Space property. */
  predicate IsWhitespace(c: char)
  {
    ('\t' <= c <= '\r') || c == ' ' || c == '\U{85}' || c == '\U{A0}' || c == '\U{1680}'
    || ('\U{2000}' <= c <= '\U{200A}') || c == '\U{2028}' || c == '\U{2029}'
    || c == '\U{202F}' || c == '\U{205F}' || c == '\U{3000}'
  }

  /** The first index at or after `from` holding a non-whitespace character,
      or `|s|` when there is none. */
  function FirstNonWs(s: string, from: nat): (r: nat)
    requires from <= |s|
    decreases |s| - from
    ensures from <= r <= |s|
    ensures forall j :: from <= j < r ==> IsWhitespace(s[j])
    ensures r < |s| ==> !IsWhitespace(s[r])
  {
    if from == |s| || !IsWhitespace(s[from]) then from else FirstNonWs(s, from + 1)
  }

  /** The first index at or after `from` holding a whitespace character,
      or `|s|` when there is none. */
  function FirstWs(s: string, from: nat): (r: nat)
    requires from <= |s|
    decreases |s| - from
    ensures from <= r <= |s|
    ensures forall j :: from <= j < r ==> !IsWhitespace(s[j])
    ensures r < |s| ==> IsWhitespace(s[r])
  {
    if from == |s| || IsWhitespace(s[from]) then from else FirstWs(s, from + 1)
  }

  /** What the splitter yields. The target is the first maximal run of
      non-whitespace characters (the whole input when it is all whitespace).
      The label runs from the next non-whitespace character after the target
      (from index 0 when there is none) up to, but excluding, the last
      character of the input. */
  function SplitLink(s: string): (parts: (string, string))
    requires |s| > 0
    ensures 0 < |parts.0| <= |s| && |parts.1| < |s|
  {
    var p := FirstNonWs(s, 0);
    if p == |s| then (s, s[..|s| - 1])
    else
      var k := FirstWs(s, p);
      var q := FirstNonWs(s, k);
      (s[p..k], if q < |s| then s[q..|s| - 1] else s[..|s| - 1])
  }

  /** The splitter as the gateway runs it: one pass over the characters that
      records where the target starts and ends and where the label starts. */
  method DecodeLinkLine(s: string) returns (target: string, text: string)
    requires |s| > 0
    ensures (target, text) == SplitLink(s)
  {
    ghost var p := FirstNonWs(s, 0);
    ghost var k := if p < |s| then FirstWs(s, p) else |s|;
    ghost var q := FirstNonWs(s, k);
    var startLink, endLink, startText := 0, 0, 0;
    var startEmpty := false;
    var i := 0;
    while i < |s|
      invariant 0 <= i <= q
      invariant startEmpty == (0 < i <= p)
      invariant startLink == (if p < i then p else 0)
      invariant endLink == (if k < i then k else 0)
      invariant startText == 0
    {
      var c := s[i];
      if IsWhitespace(c) && i == 0 {
        startEmpty := true;
      }
      if !IsWhitespace(c) && startEmpty {
        startEmpty := false;
        startLink := i;
      }
      if IsWhitespace(c) && endLink == 0 && !startEmpty {
        endLink := i;
      }
      if !IsWhitespace(c) && endLink > 0 && !startEmpty {
        startText := i;
        break;
      }
      i := i + 1;
    }
    assert p < |s| ==> p < k;
    assert startText == (if q < |s| then q else 0);
    assert startLink == (if p < |s| then p else 0);
    assert endLink == (if k < |s| then k else 0);
    if endLink == 0 {
      endLink := |s|;
    }
    target := s[startLink..endLink];
    text := s[startText..|s| - 1];
    assert target == SplitLink(s).0;
    assert text == SplitLink(s).1;
  }

  /** The input holds a non-whitespace character. */
  predicate HasWord(s: string)
  {
    exists i :: 0 <= i < |s| && !IsWhitespace(s[i])
  }

  /** `w` stands at index `p` of `s` as a whole word that only whitespace precedes. */
  predicate FirstWordAt(s: string, p: int, w: string)
  {
    0 <= p && p + |w| <= |s| && s[p..p + |w|] == w
    && (forall j :: 0 <= j < p ==> IsWhitespace(s[j]))
    && (p + |w| == |s| || IsWhitespace(s[p + |w|]))
  }

  /** When the input holds a word, the target is its first maximal run of
      non-whitespace characters: it is preceded only by whitespace and
      followed by whitespace or the end of the input. */
  lemma TargetIsFirstWord(s: string)
    requires |s| > 0 && HasWord(s)
    ensures var target := SplitLink(s).0;
            |target| > 0
            && (forall i :: 0 <= i < |target| ==> !IsWhitespace(target[i]))
            && exists p :: FirstWordAt(s, p, target)
  {
    var p := FirstNonWs(s, 0);
    var i :| 0 <= i < |s| && !IsWhitespace(s[i]);
    assert p <= i;
    var k := FirstWs(s, p);
    assert SplitLink(s).0 == s[p..k];
    assert FirstWordAt(s, p, s[p..k]);
  }

  /** The label is a suffix of the input with its last character cut off; when
      a word follows the target it starts there, otherwise it is the whole input
      but its last character. */
  lemma LabelDropsLastChar(s: string)
    requires |s| > 0
    ensures var text := SplitLink(s).1;
            |text| < |s| && text + [s[|s| - 1]] == s[|s| - |text| - 1..]
            && (0 < |text| < |s| - 1 ==> !IsWhitespace(text[0]))
  {
    var p := FirstNonWs(s, 0);
    var q := if p < |s| then FirstNonWs(s, FirstWs(s, p)) else |s|;
    var from := if q < |s| then q else 0;
    assert SplitLink(s).1 == s[from..|s| - 1];
    SliceThenLast(s, from);
  }

  lemma SliceThenLast(s: string, from: nat)
    requires from < |s|
    ensures s[from..|s| - 1] + [s[|s| - 1]] == s[from..]
  {
  }

  /** A visible ASCII character, never whitespace. */
  predicate IsVisible(c: char)
  {
    '!' <= c <= '~'
  }

  predicate AllVisible(w: string)
  {
    forall i :: 0 <= i < |w| ==> IsVisible(w[i])
  }

  /** A single word after the leading space: the target is the word and the
      label is the whole input minus its last character, leading space kept. */
  lemma SingleWordLabel(w: string)
    requires |w| > 0 && AllVisible(w)
    ensures SplitLink(" " + w) == (w, (" " + w)[..|w|])
  {
    var s := " " + w;
    assert FirstNonWs(s, 0) == 1 by {
      assert IsWhitespace(s[0]) && !IsWhitespace(s[1]);
    }
    assert forall j :: 1 <= j < |s| ==> s[j] == w[j - 1];
    assert FirstWs(s, 1) == |s|;
    var p := FirstNonWs(s, 0);
    var k := FirstWs(s, p);
    assert k == |s|;
    assert FirstNonWs(s, k) == |s|;
    assert s[p..k] == w;
  }

  /** Two words after the leading space: the target is the first word and the
      label is the second word minus its last character. */
  lemma TwoWordLabel(w: string, v: string)
    requires |w| > 0 && AllVisible(w) && |v| > 0 && AllVisible(v)
    ensures SplitLink(" " + w + " " + v) == (w, v[..|v| - 1])
  {
    var s := " " + w + " " + v;
    var n := |w| + 1;
    assert s[1..n] == w;
    assert s[0] == ' ' && s[n] == ' ' && s[n + 1] == v[0];
    assert !IsWhitespace(s[1]) by { assert s[1] == w[0]; }
    assert FirstNonWs(s, 0) == 1;
    FirstWsAfterWord(s, 1, w);
    assert FirstNonWs(s, n) == n + 1;
    assert s[n + 1..|s| - 1] == v[..|v| - 1];
  }

  /** A visible word at `from` that whitespace or the end of the input follows
      ends where the word does. */
  lemma FirstWsAfterWord(s: string, from: nat, w: string)
    requires from + |w| <= |s| && s[from..from + |w|] == w && AllVisible(w)
    requires from + |w| == |s| || IsWhitespace(s[from + |w|])
    ensures FirstWs(s, from) == from + |w|
  {
    forall j | from <= j < from + |w|
      ensures !IsWhitespace(s[j])
    {
      assert s[j] == w[j - from];
    }
  }

  /** An example link line, as the code splits it: the target is found, the
      label loses its final character. */
  lemma SplitLinkExampleWeb(url: string, name: string)
    requires url == "https://example.com" && name == "Example"
    ensures SplitLink(" " + url + " " + name) == (url, "Exampl")
  {
    assert AllVisible(url);
    assert AllVisible(name);
    TwoWordLabel(url, name);
    assert name[..|name| - 1] == "Exampl";
  }

  /** A link without a label is labelled with the whole text after `=>`, its
      leading space kept and its last character dropped. */
  lemma SplitLinkExamplePath(path: string)
    requires path == "/foo.gmi"
    ensures SplitLink(" " + path) == (path, " /foo.gm")
  {
    assert AllVisible(path);
    SingleWordLabel(path);
    assert (" " + path)[..|path|] == " /foo.gm";
  }
}
