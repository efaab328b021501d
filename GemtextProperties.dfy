/** What the transpiler's state machine does over several lines: lists,
    preformatted blocks, headings, links and escaping. */
module GemtextProperties {
  import opened Wrappers
  import opened Html
  import opened LinkLineDecoder
  import opened Gemtext

  /** Feeding two runs of lines in turn is feeding their concatenation. */
  lemma {:induction false} RunAppend(st: RenderState, a: seq<string>, b: seq<string>, origin: Origin)
    ensures Run(st, a + b, origin) == Run(Run(st, a, origin), b, origin)
    decreases |b|
  {
    if b == [] {
      assert a + b == a;
    } else {
      var n := |b| - 1;
      assert (a + b)[..|a + b| - 1] == a + b[..n];
      assert (a + b)[|a + b| - 1] == b[n];
      RunAppend(st, a, b[..n], origin);
    }
  }

  /** Feeding one line and then the rest. */
  lemma RunCons(st: RenderState, line: string, rest: seq<string>, origin: Origin)
    ensures Run(st, [line] + rest, origin) == Run(Feed(st, line, origin), rest, origin)
  {
    RunAppend(st, [line], rest, origin);
    assert [line][..0] == [];
  }

  /** The lines of a block glued together with no separator. */
  function Concat(lines: seq<string>): string
  {
    if lines == [] then "" else Concat(lines[..|lines| - 1]) + lines[|lines| - 1]
  }

  predicate NoFence(lines: seq<string>)
  {
    forall i :: 0 <= i < |lines| ==> !IsFence(lines[i])
  }

  /** Inside a preformatted block every line that is not a fence is appended
      verbatim (unescaped, with no separator) and the block stays open. */
  lemma {:induction false} PreformattedVerbatim(html: string, body: seq<string>, origin: Origin)
    requires NoFence(body)
    ensures Run(RenderState(PreformatToggle, html), body, origin)
            == RenderState(PreformatToggle, html + Concat(body))
    decreases |body|
  {
    if body != [] {
      var n := |body| - 1;
      PreformattedVerbatim(html, body[..n], origin);
    }
  }

  /** A whole preformatted block: the opening fence emits the `<pre>` tag
      without closing an open list, the body is copied verbatim, the closing
      fence emits `</pre>` and returns to `Text` mode. */
  lemma PreformattedBlock(mode: GeminiGem, html: string, open: string, body: seq<string>,
                          close: string, origin: Origin)
    requires mode != PreformatToggle
    requires IsFence(open) && IsFence(close) && NoFence(body)
    ensures Run(RenderState(mode, html), [open] + body + [close], origin)
            == RenderState(Text, html + PreOpen + Concat(body) + PreClose)
  {
    var st := RenderState(mode, html);
    RunAppend(st, [open] + body, [close], origin);
    RunCons(st, open, body, origin);
    var inBlock := Feed(st, open, origin);
    assert inBlock == RenderState(PreformatToggle, html + PreOpen);
    PreformattedVerbatim(html + PreOpen, body, origin);
    assert [close][..0] == [];
  }

  lemma Assoc(a: string, b: string, c: string)
    ensures a + b + c == a + (b + c)
  {
  }

  /** Feeding a single line. */
  lemma RunOne(st: RenderState, line: string, origin: Origin)
    ensures Run(st, [line], origin) == Feed(st, line, origin)
  {
    assert [line][..0] == [];
  }

  /** A list item line: `*` followed by a space. */
  predicate IsListLine(line: string)
  {
    |line| >= 2 && line[0] == '*' && line[1] == ' '
  }

  predicate AllListLines(lines: seq<string>)
  {
    forall i :: 0 <= i < |lines| ==> IsListLine(lines[i])
  }

  /** The `<li>` elements of a run of list lines, text escaped and leading
      space kept. */
  function ListItems(lines: seq<string>): string
    requires AllListLines(lines)
  {
    if lines == [] then ""
    else ListItems(lines[..|lines| - 1]) + ItemHtml(lines[|lines| - 1])
  }

  /** A list line outside a preformatted block opens a list unless one is
      open, appends its item, and leaves the mode at `ListItem`. */
  lemma FeedItem(st: RenderState, line: string, origin: Origin)
    requires st.mode != PreformatToggle && IsListLine(line)
    ensures Feed(st, line, origin) == RenderState(ListItem, st.html + (OpenList(st.mode) + ItemHtml(line)))
  {
    assert line[0] != '`';
  }

  lemma ListOpen(mode: GeminiGem, html: string, items: seq<string>, origin: Origin)
    requires mode != PreformatToggle && |items| == 1 && IsListLine(items[0])
    ensures Run(RenderState(mode, html), items, origin)
            == RenderState(ListItem, html + OpenList(mode) + ListItems(items))
  {
    assert items[..0] == [];
    FeedItem(RenderState(mode, html), items[0], origin);
    assert ListItems(items) == "" + ItemHtml(items[0]);
  }

  lemma ListExtend(st: RenderState, prefix: string, items: seq<string>, origin: Origin)
    requires |items| > 1 && AllListLines(items)
    requires Run(st, items[..|items| - 1], origin) == RenderState(ListItem, prefix + ListItems(items[..|items| - 1]))
    ensures Run(st, items, origin) == RenderState(ListItem, prefix + ListItems(items))
  {
    var n := |items| - 1;
    FeedItem(Run(st, items[..n], origin), items[n], origin);
    assert OpenList(ListItem) + ItemHtml(items[n]) == ItemHtml(items[n]);
    Assoc(prefix, ListItems(items[..n]), ItemHtml(items[n]));
  }

  /** Consecutive list lines form one list: a single `<ul>` (only when the
      list was not already open), one `<li>` per line, and the list stays open. */
  lemma {:induction false} ListGrouping(mode: GeminiGem, html: string, items: seq<string>, origin: Origin)
    requires mode != PreformatToggle
    requires |items| > 0 && AllListLines(items)
    ensures Run(RenderState(mode, html), items, origin)
            == RenderState(ListItem, html + OpenList(mode) + ListItems(items))
    decreases |items|
  {
    if |items| == 1 {
      ListOpen(mode, html, items, origin);
    } else {
      ListGrouping(mode, html, items[..|items| - 1], origin);
      ListExtend(RenderState(mode, html), html + OpenList(mode), items, origin);
    }
  }

  /** A line that is rendered as a paragraph: not a fence, and empty or not
      starting with one of the markers `#`, `=`, `*`, `>`. */
  predicate IsParagraphLine(line: string)
  {
    !IsFence(line) && (|line| == 0 || (line[0] != '#' && line[0] != '=' && line[0] != '*' && line[0] != '>'))
  }

  /** A paragraph line outside a preformatted block closes an open list but
      keeps the mode. */
  lemma FeedParagraph(st: RenderState, line: string, origin: Origin)
    requires st.mode != PreformatToggle && IsParagraphLine(line)
    ensures Feed(st, line, origin) == RenderState(st.mode, st.html + (CloseList(st.mode) + ParagraphHtml(line)))
  {
  }

  /** A list followed by a paragraph: one `<ul>`, the items, one `</ul>`, the
      paragraph; the mode nevertheless stays `ListItem`. */
  lemma ListThenParagraph(items: seq<string>, para: string, origin: Origin)
    requires |items| > 0 && AllListLines(items) && IsParagraphLine(para)
    ensures Run(Start, items + [para], origin)
            == RenderState(ListItem, "<ul>" + ListItems(items) + ("</ul>" + ParagraphHtml(para)))
  {
    RunAppend(Start, items, [para], origin);
    ListGrouping(Text, "", items, origin);
    var list := RenderState(ListItem, "<ul>" + ListItems(items));
    assert "" + OpenList(Text) + ListItems(items) == list.html;
    ParagraphInList(list.html, para, origin);
  }

  /** A paragraph line inside an open list closes it and keeps the mode. */
  lemma ParagraphInList(html: string, para: string, origin: Origin)
    requires IsParagraphLine(para)
    ensures Run(RenderState(ListItem, html), [para], origin)
            == RenderState(ListItem, html + ("</ul>" + ParagraphHtml(para)))
  {
    var list := RenderState(ListItem, html);
    RunOne(list, para, origin);
    FeedParagraph(list, para, origin);
  }

  /** Because the paragraph keeps the mode at `ListItem`, a list line after it
      opens no new `<ul>`: its `<li>` stands outside any list. */
  lemma OrphanItemAfterParagraph(items: seq<string>, para: string, item: string, origin: Origin)
    requires |items| > 0 && AllListLines(items) && IsParagraphLine(para) && IsListLine(item)
    ensures Run(Start, items + [para] + [item], origin).html
            == "<ul>" + ListItems(items) + ("</ul>" + ParagraphHtml(para)) + ItemHtml(item)
  {
    ListThenParagraph(items, para, origin);
    var doc := items + [para] + [item];
    assert doc[..|doc| - 1] == items + [para];
    var st := Run(Start, items + [para], origin);
    FeedItem(st, item, origin);
    assert OpenList(ListItem) + ItemHtml(item) == ItemHtml(item);
  }

  /** A document without fences never enters preformatted mode. */
  lemma {:induction false} NoFenceNeverPreformatted(lines: seq<string>, origin: Origin)
    requires NoFence(lines)
    ensures Run(Start, lines, origin).mode != PreformatToggle
    decreases |lines|
  {
    if lines != [] {
      NoFenceNeverPreformatted(lines[..|lines| - 1], origin);
    }
  }

  /** `n` hash characters. */
  function Hashes(n: nat): (s: string)
    ensures |s| == n && forall i :: 0 <= i < n ==> s[i] == '#'
  {
    seq(n, _ => '#')
  }

  lemma {:induction false} CountHashes(n: nat)
    ensures CountChar(Hashes(n), '#') == n
  {
    if n > 0 {
      assert Hashes(n)[..n - 1] == Hashes(n - 1);
      CountHashes(n - 1);
    }
  }

  /** A heading line outside a preformatted block closes an open list and
      appends its heading. */
  lemma StepHeading(mode: GeminiGem, line: string, origin: Origin)
    requires mode != PreformatToggle && |line| >= 1 && line[0] == '#'
    ensures LineStep(mode, line, origin) == (Heading, CloseList(mode) + HeadingHtml(line))
  {
    assert !IsFence(line);
  }

  /** In a line of `n` hashes and a space the first space is the one after
      the hashes. */
  lemma SpaceAfterHashes(n: nat, text: string)
    requires n >= 1
    ensures IndexOf(Hashes(n) + " " + text, ' ', 1) == Some(n)
  {
    var line := Hashes(n) + " " + text;
    assert line[n] == ' ';
    forall j | 1 <= j < n ensures line[j] != ' ' {
      assert line[j] == '#';
    }
  }

  /** The heading of `n` hashes and a space: level `n` capped at six, the text
      from the space on (space kept) escaped inside the `<hN>` tags. */
  lemma HeadingHtmlOfHashes(n: nat, text: string)
    requires n >= 1
    ensures var d := LevelDigit(Min(MaxLevel, n));
            HeadingHtml(Hashes(n) + " " + text) == "<h" + [d] + ">" + EncodeText(" " + text) + "</h" + [d] + ">"
  {
    SpaceAfterHashes(n, text);
    LevelOfHashes(n, text);
  }

  lemma LevelOfHashes(n: nat, text: string)
    requires n >= 1
    ensures var line := Hashes(n) + " " + text;
            HeadingLevel(line, n) == Min(MaxLevel, n) && line[n..] == " " + text
  {
    var line := Hashes(n) + " " + text;
    assert line[1..n] == Hashes(n - 1);
    CountHashes(n - 1);
    assert line[n..] == " " + text;
  }

  /** A heading line of `n` hashes and a space, in the state machine: an open
      list is closed first and the mode becomes `Heading`. */
  lemma HeadingOfHashes(mode: GeminiGem, n: nat, text: string, origin: Origin)
    requires mode != PreformatToggle && n >= 1
    ensures var d := LevelDigit(Min(MaxLevel, n));
            LineStep(mode, Hashes(n) + " " + text, origin)
            == (Heading, CloseList(mode) + ("<h" + [d] + ">" + EncodeText(" " + text) + "</h" + [d] + ">"))
  {
    StepHeading(mode, Hashes(n) + " " + text, origin);
    HeadingHtmlOfHashes(n, text);
  }

  /** A heading line without a space emits nothing but the closing of an open list. */
  lemma HeadingWithoutSpace(mode: GeminiGem, line: string, origin: Origin)
    requires mode != PreformatToggle && |line| >= 1 && line[0] == '#'
    requires forall i :: 0 <= i < |line| ==> line[i] != ' '
    ensures LineStep(mode, line, origin) == (Heading, CloseList(mode))
  {
    StepHeading(mode, line, origin);
    assert HeadingHtml(line) == "";
    assert CloseList(mode) + "" == CloseList(mode);
  }

  /** A heading whose text is one plain word: the word appears unchanged
      after the kept space. Seven or more hashes give level six. */
  lemma HeadingOfPlainWord(n: nat, w: string)
    requires n >= 1 && IsPlain(w)
    ensures var d := [LevelDigit(Min(MaxLevel, n))];
            HeadingHtml(Hashes(n) + " " + w) == "<h" + d + ">" + (" " + w) + "</h" + d + ">"
    ensures n >= MaxLevel ==> LevelDigit(Min(MaxLevel, n)) == '6'
  {
    HeadingHtmlOfHashes(n, w);
    EncodeTextAppend(" ", w);
    EncodeTextPlain(w);
    assert EncodeText(" ") == " ";
  }

  /** A paragraph line outside a preformatted block reaches the output only
      escaped: between `<p>` tags, with no `<` or `>` of its own, and nothing
      of it lost. */
  lemma ParagraphEscaped(mode: GeminiGem, line: string, origin: Origin)
    requires mode != PreformatToggle && IsParagraphLine(line)
    ensures var e := EncodeText(line);
            LineStep(mode, line, origin) == (mode, CloseList(mode) + ("<p>" + e + "</p>"))
            && (forall i :: 0 <= i < |e| ==> e[i] != '<' && e[i] != '>')
            && DecodeEntities(e) == line
  {
    DecodeEncodeText(line);
  }

  /** A markup tag written in a text line, such as `<script>`, is escaped. */
  lemma TagEscaped(mode: GeminiGem, tag: string, origin: Origin)
    requires mode != PreformatToggle && IsPlain(tag)
    ensures LineStep(mode, "<" + tag + ">", origin)
            == (mode, CloseList(mode) + ("<p>" + ("&lt;" + tag + "&gt;") + "</p>"))
  {
    var line := "<" + tag + ">";
    assert line[0] == '<' && !IsFence(line);
    EncodeTag(tag);
  }

  lemma EncodeTag(tag: string)
    requires IsPlain(tag)
    ensures EncodeText("<" + tag + ">") == "&lt;" + tag + "&gt;"
  {
    EncodeTextAppend("<" + tag, ">");
    EncodeTextAppend("<", tag);
    EncodeTextPlain(tag);
    assert EncodeText("<") == "&lt;";
    assert EncodeText(">") == "&gt;";
  }

  /** A line starting with `=>` outside a preformatted block closes an open
      list and appends its link, if any. */
  lemma StepLink(mode: GeminiGem, line: string, origin: Origin)
    requires mode != PreformatToggle && |line| >= 2 && line[0] == '=' && line[1] == '>'
    ensures LineStep(mode, line, origin) == (LinkLine, CloseList(mode) + LinkLineHtml(line, origin))
  {
    assert !IsFence(line);
  }

  /** The link of `=> target label` with plain ASCII words: the target is
      rewritten by `Href` and the label loses its last character. */
  lemma LinkHtmlOfWords(target: string, name: string, origin: Origin)
    requires |target| > 0 && AllVisible(target) && IsPlain(target)
    requires |name| > 0 && AllVisible(name) && IsPlain(name)
    ensures LinkLineHtml("=>" + " " + target + " " + name, origin)
            == "<a href=\"" + Href(target, origin) + "\">" + name[..|name| - 1] + "</a><br>"
  {
    var line := "=>" + " " + target + " " + name;
    var rest := " " + target + " " + name;
    assert line[2] == ' ' && line[2..] == rest;
    forall i | 0 <= i < |rest| ensures rest[i] != '&' && rest[i] != '<' && rest[i] != '>' {
      if 1 <= i <= |target| { assert rest[i] == target[i - 1]; }
      else if i > |target| + 1 { assert rest[i] == name[i - |target| - 2]; }
    }
    EncodeTextPlain(rest);
    TwoWordLabel(target, name);
  }

  /** A link line of two plain words in the state machine. */
  lemma LinkLineOfWords(mode: GeminiGem, target: string, name: string, origin: Origin)
    requires mode != PreformatToggle
    requires |target| > 0 && AllVisible(target) && IsPlain(target)
    requires |name| > 0 && AllVisible(name) && IsPlain(name)
    ensures LineStep(mode, "=>" + " " + target + " " + name, origin)
            == (LinkLine, CloseList(mode) + ("<a href=\"" + Href(target, origin) + "\">" + name[..|name| - 1] + "</a><br>"))
  {
    StepLink(mode, "=>" + " " + target + " " + name, origin);
    LinkHtmlOfWords(target, name, origin);
  }

  lemma ExampleWords(target: string, name: string)
    requires (target == "https://example.com" && name == "Example") || (target == "/foo.gmi" && name == "Foo")
    ensures |target| > 0 && AllVisible(target) && IsPlain(target)
    ensures |name| > 0 && AllVisible(name) && IsPlain(name)
  {
  }

  /** An example link line, as the code renders it: an https target is kept
      and the label loses its last character. */
  lemma LinkExampleWeb(origin: Origin, url: string, name: string)
    requires url == "https://example.com" && name == "Example"
    requires origin.urlScheme(url) == Some("https")
    ensures LinkLineHtml("=>" + " " + url + " " + name, origin)
            == "<a href=\"" + url + "\">" + "Exampl" + "</a><br>"
  {
    ExampleWords(url, name);
    LinkHtmlOfWords(url, name, origin);
    assert name[..|name| - 1] == "Exampl";
  }

  /** An absolute path that does not parse as a URL goes back through the
      gateway, resolved against the host; the label loses its last character. */
  lemma LinkExamplePath(origin: Origin, path: string, name: string)
    requires path == "/foo.gmi" && name == "Foo"
    requires origin.urlScheme(path).None?
    ensures LinkLineHtml("=>" + " " + path + " " + name, origin)
            == "<a href=\"" + ("?search=" + origin.host + path) + "\">" + "Fo" + "</a><br>"
  {
    ExampleWords(path, name);
    LinkHtmlOfWords(path, name, origin);
    assert Href(path, origin) == "?search=" + origin.host + path;
    assert name[..|name| - 1] == "Fo";
  }

  /** `=>` not followed by a space still closes an open list and sets the
      mode, but emits no link. */
  lemma LinkWithoutSpace(mode: GeminiGem, line: string, origin: Origin)
    requires mode != PreformatToggle && |line| >= 2 && line[0] == '=' && line[1] == '>'
    requires |line| == 2 || line[2] != ' '
    ensures LineStep(mode, line, origin) == (LinkLine, CloseList(mode))
  {
    StepLink(mode, line, origin);
    assert CloseList(mode) + "" == CloseList(mode);
  }

  /** A quote line outside a preformatted block closes an open list and
      appends its quotation. */
  lemma StepQuote(mode: GeminiGem, line: string, origin: Origin)
    requires mode != PreformatToggle && |line| >= 2 && line[0] == '>' && line[1] == ' '
    ensures LineStep(mode, line, origin) == (QuoteLine, CloseList(mode) + QuoteHtml(line))
  {
    assert !IsFence(line);
  }

  /** Inside a list, every line but a fence or a list line either emits nothing
      (an incomplete marker) or starts its output by closing the list. */
  lemma LeavingList(line: string, origin: Origin)
    requires !IsFence(line) && !IsListLine(line)
    ensures var out := LineStep(ListItem, line, origin).1;
            out == "" || (|out| >= 5 && out[..5] == "</ul>")
  {
    var out := LineStep(ListItem, line, origin).1;
    if out != "" {
      var piece :| out == "</ul>" + piece;
      assert out[..5] == "</ul>";
    }
  }

  /** `*`, `>` or `=` without the character the marker needs next emits
      nothing and leaves the mode alone, even inside a list. */
  lemma IncompleteMarkerSilent(mode: GeminiGem, line: string, origin: Origin)
    requires mode != PreformatToggle && |line| >= 1
    requires ((line[0] == '*' || line[0] == '>') && (|line| == 1 || line[1] != ' '))
             || (line[0] == '=' && (|line| == 1 || line[1] != '>'))
    ensures LineStep(mode, line, origin) == (mode, "")
  {
    assert !IsFence(line);
  }
}
