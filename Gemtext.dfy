/** The text/gemini to HTML transpiler: a line-driven state machine (after
    sections 5.4 and 5.5 of the Gemini protocol specification, with headings
    extended to six levels) that appends HTML for each line and carries one
    render mode from line to line. */
module Gemtext {
  import opened Wrappers
  import opened Html
  import opened LinkLineDecoder

  /** The render mode carried across lines. */
  datatype GeminiGem = Text | LinkLine | Heading | ListItem | QuoteLine | PreformatToggle

  /** What the transpiler is given besides the document: the host the document
      came from, and the URL parser's verdict on a link target (the scheme of
      the parsed URL, or None when it does not parse as an absolute URL). */
  datatype Origin = Origin(host: string, urlScheme: string -> Option<string>)

  const Fence: string := "```"
  const PreOpen: string := "<pre style=\"overflow: scroll;\">"
  const PreClose: string := "</pre>"
  const MaxLevel: nat := 6

  predicate IsFence(line: string)
  {
    |line| >= 3 && line[..3] == Fence
  }

  /** The closing list tag a line emits when it ends a list. */
  function CloseList(mode: GeminiGem): string
  {
    if mode == ListItem then "</ul>" else ""
  }

  function Min(a: nat, b: nat): nat { if a <= b then a else b }

  /** The number of occurrences of `c` in `s`. */
  function CountChar(s: string, c: char): nat
  {
    if s == [] then 0 else CountChar(s[..|s| - 1], c) + (if s[|s| - 1] == c then 1 else 0)
  }

  /** The first index at or after `from` holding `c`, if any. */
  function IndexOf(s: string, c: char, from: nat): (r: Option<nat>)
    requires from <= |s|
    decreases |s| - from
    ensures r.Some? ==> from <= r.value < |s| && s[r.value] == c
    ensures r.Some? ==> forall j :: from <= j < r.value ==> s[j] != c
    ensures r.None? ==> forall j :: from <= j < |s| ==> s[j] != c
  {
    if from == |s| then None
    else if s[from] == c then Some(from)
    else IndexOf(s, c, from + 1)
  }

  /** The level of a heading whose text starts at index `space`: one for the
      leading `#`, plus one per further `#` before the space, at most six. */
  function HeadingLevel(line: string, space: nat): (level: nat)
    requires 1 <= space <= |line|
    ensures 1 <= level <= MaxLevel
  {
    Min(MaxLevel, 1 + CountChar(line[1..space], '#'))
  }

  /** The level counter of a heading line: scans past the leading `#` up to the
      first space, counting further `#`s (other characters are skipped) and
      stopping at six. */
  method ScanHeading(line: string) returns (level: nat, space: Option<nat>)
    requires |line| >= 1
    ensures space == IndexOf(line, ' ', 1)
    ensures space.Some? ==> level == HeadingLevel(line, space.value)
  {
    level := 1;
    space := None;
    var i := 1;
    while i < |line|
      invariant 1 <= i <= |line|
      invariant level == Min(MaxLevel, 1 + CountChar(line[1..i], '#'))
      invariant forall j :: 1 <= j < i ==> line[j] != ' '
    {
      assert line[1..i + 1][..i - 1] == line[1..i];
      var c := line[i];
      if c == '#' {
        if level != MaxLevel {
          level := level + 1;
        }
      } else if c == ' ' {
        space := Some(i);
        break;
      }
      i := i + 1;
    }
  }

  function LevelDigit(level: nat): char
    requires 1 <= level <= MaxLevel
  {
    ('0' as int + level) as char
  }

  /** The HTML of a heading line: nothing when it has no space, otherwise the
      escaped text from the first space on (the space kept) in `<hN>` tags. */
  function HeadingHtml(line: string): (r: string)
    requires |line| >= 1
    ensures r == "" <==> forall k :: 1 <= k < |line| ==> line[k] != ' '
  {
    match IndexOf(line, ' ', 1)
    case None => ""
    case Some(space) =>
      var d := LevelDigit(HeadingLevel(line, space));
      "<h" + [d] + ">" + EncodeText(line[space..]) + "</h" + [d] + ">"
  }

  predicate IsWebScheme(scheme: Option<string>)
  {
    scheme == Some("http") || scheme == Some("https")
  }

  /** Where a link points: http and https URLs directly, everything else back
      through the gateway's `?search=` query, relative targets resolved against
      the host the document came from. */
  function Href(target: string, origin: Origin): (href: string)
    ensures IsWebScheme(origin.urlScheme(target)) ==> href == target
    ensures !IsWebScheme(origin.urlScheme(target)) ==>
              |href| >= 8 + |target| && href[..8] == "?search=" && href[|href| - |target|..] == target
    ensures origin.urlScheme(target).Some? && !IsWebScheme(origin.urlScheme(target)) ==> |href| == 8 + |target|
    ensures origin.urlScheme(target).None? ==>
              |href| >= 8 + |target| && href[8..|href| - |target|] == origin.host + (if |target| > 0 && target[0] == '/' then "" else "/")
  {
    match origin.urlScheme(target)
    case Some(scheme) =>
      if scheme == "http" || scheme == "https" then target else "?search=" + target
    case None =>
      if |target| > 0 && target[0] == '/' then "?search=" + origin.host + target
      else "?search=" + origin.host + "/" + target
  }

  /** The HTML of a link line, given what follows the `=>` (a leading space). */
  function LinkHtml(rest: string, origin: Origin): (r: string)
    requires |rest| > 0
    ensures |r| >= 17 && r[..9] == "<a href=\"" && r[|r| - 8..] == "</a><br>"
  {
    var parts := SplitLink(EncodeText(rest));
    "<a href=\"" + Href(parts.0, origin) + "\">" + parts.1 + "</a><br>"
  }

  /** The HTML of a line starting with `=>`: a link when a space follows,
      nothing otherwise. */
  function LinkLineHtml(line: string, origin: Origin): (r: string)
    requires |line| >= 2
    ensures r != "" <==> |line| >= 3 && line[2] == ' '
  {
    if |line| >= 3 && line[2] == ' ' then LinkHtml(line[2..], origin) else ""
  }

  function ParagraphHtml(line: string): string
  {
    "<p>" + EncodeText(line) + "</p>"
  }

  /** The opening list tag a list line emits when no list is open. */
  function OpenList(mode: GeminiGem): string
  {
    if mode != ListItem then "<ul>" else ""
  }

  /** The item of a list line, its text from the marker's space on. */
  function ItemHtml(line: string): string
    requires |line| >= 1
  {
    "<li>" + EncodeText(line[1..]) + "</li>"
  }

  function QuoteHtml(line: string): string
    requires |line| >= 1
  {
    "<blockquote>" + EncodeText(line[1..]) + "</blockquote>"
  }

  /** One line outside a preformatted block that is not a fence: what its
      first character makes of it. */
  function MarkupStep(mode: GeminiGem, line: string, origin: Origin): (res: (GeminiGem, string))
    ensures res.0 != PreformatToggle || mode == PreformatToggle
  {
    if |line| == 0 then (mode, CloseList(mode) + ParagraphHtml(line))
    else if line[0] == '#' then (Heading, CloseList(mode) + HeadingHtml(line))
    else if line[0] == '=' then
      if |line| >= 2 && line[1] == '>' then (LinkLine, CloseList(mode) + LinkLineHtml(line, origin))
      else (mode, "")
    else if line[0] == '*' then
      if |line| >= 2 && line[1] == ' ' then (ListItem, OpenList(mode) + ItemHtml(line))
      else (mode, "")
    else if line[0] == '>' then
      if |line| >= 2 && line[1] == ' ' then (QuoteLine, CloseList(mode) + QuoteHtml(line))
      else (mode, "")
    else (mode, CloseList(mode) + ParagraphHtml(line))
  }

  /** One line of the state machine: the mode after the line and the HTML the
      line appends. A fence toggles preformatted mode; inside a block every
      other line is copied verbatim. */
  function LineStep(mode: GeminiGem, line: string, origin: Origin): (res: (GeminiGem, string))
    ensures res.0 == PreformatToggle <==> ((mode == PreformatToggle) != IsFence(line))
    ensures mode == PreformatToggle && !IsFence(line) ==> res.1 == line
  {
    if mode == PreformatToggle then
      if IsFence(line) then (Text, PreClose) else (PreformatToggle, line)
    else if IsFence(line) then (PreformatToggle, PreOpen)
    else MarkupStep(mode, line, origin)
  }

  /** The heading branch of the line loop. */
  method RenderHeading(line: string) returns (html: string)
    requires |line| >= 1
    ensures html == HeadingHtml(line)
  {
    html := "";
    var level, space := ScanHeading(line);
    if space.Some? {
      var d := LevelDigit(level);
      html := "<h" + [d] + ">" + EncodeText(line[space.value..]) + "</h" + [d] + ">";
    }
  }

  /** The link branch of the line loop, after the `=>`. */
  method RenderLink(line: string, origin: Origin) returns (html: string)
    requires |line| >= 2
    ensures html == LinkLineHtml(line, origin)
  {
    html := "";
    if |line| >= 3 && line[2] == ' ' {
      var target, text := DecodeLinkLine(EncodeText(line[2..]));
      html := "<a href=\"" + Href(target, origin) + "\">" + text + "</a><br>";
    }
  }

  /** The body of the transpiler's line loop: fences and preformatted lines
      first, then the dispatch on the first character. */
  method RenderLine(mode: GeminiGem, line: string, origin: Origin) returns (next: GeminiGem, out: string)
    ensures (next, out) == LineStep(mode, line, origin)
  {
    if mode == PreformatToggle {
      if IsFence(line) {
        return Text, PreClose;
      }
      return PreformatToggle, line;
    }
    if IsFence(line) {
      return PreformatToggle, PreOpen;
    }
    next, out := mode, "";
    if |line| > 0 {
      var c := line[0];
      if c == '#' {
        out := CloseList(mode);
        next := Heading;
        var heading := RenderHeading(line);
        out := out + heading;
        return;
      } else if c == '=' {
        if |line| >= 2 && line[1] == '>' {
          out := CloseList(mode);
          next := LinkLine;
          var link := RenderLink(line, origin);
          out := out + link;
        }
        return;
      } else if c == '*' {
        if |line| >= 2 && line[1] == ' ' {
          out := OpenList(mode);
          next := ListItem;
          out := out + ItemHtml(line);
        }
        return;
      } else if c == '>' {
        if |line| >= 2 && line[1] == ' ' {
          out := CloseList(mode);
          next := QuoteLine;
          out := out + QuoteHtml(line);
        }
        return;
      }
    }
    out := CloseList(mode) + ParagraphHtml(line);
  }

  /** The transpiler's state between lines: the mode and the HTML so far. */
  datatype RenderState = RenderState(mode: GeminiGem, html: string)

  const Start: RenderState := RenderState(Text, "")

  /** One line of the loop: the output only grows. */
  function Feed(st: RenderState, line: string, origin: Origin): (r: RenderState)
    ensures st.html <= r.html
  {
    var res := LineStep(st.mode, line, origin);
    RenderState(res.0, st.html + res.1)
  }

  /** The state after feeding `lines` one by one, starting from `st`. */
  function Run(st: RenderState, lines: seq<string>, origin: Origin): (r: RenderState)
    decreases |lines|
    ensures st.html <= r.html
  {
    if lines == [] then st else Feed(Run(st, lines[..|lines| - 1], origin), lines[|lines| - 1], origin)
  }

  /** Converts the lines of a document to HTML. Nothing that is still open at
      the end of the document (a list, a preformatted block) is closed. */
  method ParseDocumentToGems(lines: seq<string>, origin: Origin) returns (html: string)
    ensures html == Run(Start, lines, origin).html
  {
    html := "";
    var mode := Text;
    for i := 0 to |lines|
      invariant RenderState(mode, html) == Run(Start, lines[..i], origin)
    {
      assert lines[..i + 1][..i] == lines[..i];
      var next, out := RenderLine(mode, lines[i], origin);
      html := html + out;
      mode := next;
    }
    assert lines[..|lines|] == lines;
  }
}
