/** Escaping of HTML text content: `&`, `<` and `>` become entities, as the
    `html_escape::encode_text` function the transpiler relies on does. */
module Html {

  /** The escaped form of one character. */
  function EscapeChar(c: char): (r: string)
    ensures |r| >= 1
    ensures forall i :: 0 <= i < |r| ==> r[i] != '<' && r[i] != '>'
    ensures c != '&' && c != '<' && c != '>' ==> r == [c]
  {
    if c == '&' then "&amp;"
    else if c == '<' then "&lt;"
    else if c == '>' then "&gt;"
    else [c]
  }

  /** `s` with every `&`, `<` and `>` replaced by its entity. */
  function EncodeText(s: string): (r: string)
    ensures |r| >= |s|
    ensures forall i :: 0 <= i < |r| ==> r[i] != '<' && r[i] != '>'
  {
    if s == [] then [] else EscapeChar(s[0]) + EncodeText(s[1..])
  }

  /** The reverse mapping: each of the three entities becomes its character
      again and everything else is kept. */
  function DecodeEntities(s: string): (r: string)
    decreases |s|
  {
    if s == [] then []
    else if |s| >= 5 && s[..5] == "&amp;" then "&" + DecodeEntities(s[5..])
    else if |s| >= 4 && s[..4] == "&lt;" then "<" + DecodeEntities(s[4..])
    else if |s| >= 4 && s[..4] == "&gt;" then ">" + DecodeEntities(s[4..])
    else [s[0]] + DecodeEntities(s[1..])
  }

  lemma DecodeAmp(rest: string)
    ensures DecodeEntities("&amp;" + rest) == "&" + DecodeEntities(rest)
  {
    var e := "&amp;" + rest;
    assert e[..5] == "&amp;" && e[5..] == rest;
  }

  lemma DecodeLt(rest: string)
    ensures DecodeEntities("&lt;" + rest) == "<" + DecodeEntities(rest)
  {
    var e := "&lt;" + rest;
    assert e[1] == 'l' && (|e| >= 5 ==> e[..5] != "&amp;");
    assert e[..4] == "&lt;" && e[4..] == rest;
  }

  lemma DecodeGt(rest: string)
    ensures DecodeEntities("&gt;" + rest) == ">" + DecodeEntities(rest)
  {
    var e := "&gt;" + rest;
    assert e[1] == 'g' && (|e| >= 5 ==> e[..5] != "&amp;") && e[..4] != "&lt;";
    assert e[..4] == "&gt;" && e[4..] == rest;
  }

  lemma DecodeOther(c: char, rest: string)
    requires c != '&'
    ensures DecodeEntities([c] + rest) == [c] + DecodeEntities(rest)
  {
    var e := [c] + rest;
    assert e[0] == c && e[1..] == rest;
  }

  /** Decoding consumes one escaped character at a time. */
  lemma DecodeEscapeChar(c: char, rest: string)
    ensures DecodeEntities(EscapeChar(c) + rest) == [c] + DecodeEntities(rest)
  {
    if c == '&' {
      DecodeAmp(rest);
    } else if c == '<' {
      DecodeLt(rest);
    } else if c == '>' {
      DecodeGt(rest);
    } else {
      DecodeOther(c, rest);
    }
  }

  /** Escaping loses nothing: decoding the entities gives back the text. */
  lemma {:induction false} DecodeEncodeText(s: string)
    ensures DecodeEntities(EncodeText(s)) == s
  {
    if s != [] {
      DecodeEncodeText(s[1..]);
      DecodeEscapeChar(s[0], EncodeText(s[1..]));
      assert [s[0]] + s[1..] == s;
    }
  }

  /** Escaping distributes over concatenation. */
  lemma {:induction false} EncodeTextAppend(a: string, b: string)
    ensures EncodeText(a + b) == EncodeText(a) + EncodeText(b)
  {
    if a != [] {
      assert (a + b)[0] == a[0] && (a + b)[1..] == a[1..] + b;
      EncodeTextAppend(a[1..], b);
      var x, y, z := EscapeChar(a[0]), EncodeText(a[1..]), EncodeText(b);
      assert x + (y + z) == x + y + z;
    } else {
      assert a + b == b;
    }
  }

  /** Text without `&`, `<` or `>`. */
  predicate IsPlain(s: string)
  {
    forall i :: 0 <= i < |s| ==> s[i] != '&' && s[i] != '<' && s[i] != '>'
  }

  /** Plain text is left unchanged. */
  lemma {:induction false} EncodeTextPlain(s: string)
    requires IsPlain(s)
    ensures EncodeText(s) == s
  {
    if s != [] {
      EncodeTextPlain(s[1..]);
    }
  }
}
