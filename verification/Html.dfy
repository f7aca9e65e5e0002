/** Turning loose HTML into well-nested XHTML: the stack of open tags, and what is emitted for each of them. */
module Html {
  import opened Wrappers

  predicate IsNameChar(c: char) {
    'a' <= c <= 'z' || '0' <= c <= '9'
  }

  /** A name of a tag: lower-case letters and digits. */
  type Name = s: string | forall k :: 0 <= k < |s| ==> IsNameChar(s[k]) witness ""

  /** A tag that has been opened: its name in the input, and the element that was opened for it. */
  datatype Tag = Tag(src: Name, dest: string)

  /** The output, without attribute text: a character, an escaped '<', the start of a comment, an element
      opened, closed or empty, a line break. */
  datatype Token =
    | Char(c: char)
    | Lt
    | CommentStart
    | Open(name: string)
    | Close(name: string)
    | Empty(name: string)
    | Break

  /** What one turn of the loop appends to the two outputs, the tag stack after it, and the cursor. */
  datatype Step = Step(out: seq<Token>, plain: string, tags: seq<Tag>, next: nat)

  // ------------------------------------------------------------------------ the cursor

  const NUL: char := '\0'

  /** The character at i of a NUL-terminated string. */
  function At(s: string, i: nat): char {
    if i < |s| then s[i] else NUL
  }

  function Lower(c: char): char {
    if 'A' <= c <= 'Z' then (c as int + 32) as char else c
  }

  /** g_ascii_strncasecmp(s + i, lit, strlen(lit)) == 0 */
  predicate Starts(s: string, i: nat, lit: string) {
    forall k :: 0 <= k < |lit| ==> Lower(At(s, i + k)) == Lower(lit[k])
  }

  /** The first '>' from i on, or the end. */
  function FirstGt(s: string, i: nat): (j: nat)
    requires i <= |s|
    ensures i <= j <= |s| && (j < |s| ==> s[j] == '>')
    ensures forall k :: i <= k < j ==> s[k] != '>'
    decreases |s| - i
  {
    if i == |s| || s[i] == '>' then i else FirstGt(s, i + 1)
  }

  // -------------------------------------------------------------------- properly nested

  /** The elements that are open after out, innermost first, if every element is closed by its own name. */
  function OpenAfter(out: seq<Token>): Option<seq<string>> {
    if out == [] then Some([])
    else
      match OpenAfter(out[..|out| - 1])
      case None => None
      case Some(open) => Applied(open, out[|out| - 1])
  }

  function Applied(open: seq<string>, t: Token): Option<seq<string>> {
    match t
    case Open(name) => Some([name] + open)
    case Close(name) => if open != [] && open[0] == name then Some(open[1..]) else None
    case _ => Some(open)
  }

  function AppliedAll(open: seq<string>, out: seq<Token>): Option<seq<string>>
    decreases out
  {
    if out == [] then Some(open)
    else
      match Applied(open, out[0])
      case None => None
      case Some(o) => AppliedAll(o, out[1..])
  }

  lemma {:induction false} OpenAppend(a: seq<Token>, b: seq<Token>)
    requires OpenAfter(a).Some?
    ensures OpenAfter(a + b) == AppliedAll(OpenAfter(a).value, b)
    decreases b
  {
    if b == [] {
      assert a + b == a;
    } else {
      var c := a + [b[0]];
      assert c[..|c| - 1] == a;
      assert a + b == c + b[1..];
      if OpenAfter(c).Some? { OpenAppend(c, b[1..]); } else { StaysBroken(c, b[1..]); }
    }
  }

  lemma {:induction false} StaysBroken(a: seq<Token>, b: seq<Token>)
    requires OpenAfter(a).None?
    ensures OpenAfter(a + b).None?
    decreases b
  {
    if b == [] {
      assert a + b == a;
    } else {
      var c := a + [b[0]];
      assert c[..|c| - 1] == a && a + b == c + b[1..];
      StaysBroken(c, b[1..]);
    }
  }

  function Dests(tags: seq<Tag>): (d: seq<string>)
    ensures |d| == |tags|
  {
    if tags == [] then [] else [tags[0].dest] + Dests(tags[1..])
  }

  // ---------------------------------------------------------------------- the plain text

  /** The character a token begins with; NUL for markup. */
  function Head(t: Token): char {
    if t.Char? then t.c else NUL
  }

  /** What a token says in plain text, before next: a break is a line break that is not doubled. */
  function Said(t: Token, next: char): string {
    match t
    case Char(c) => [c]
    case Lt => "<"
    case Break => if next == '\n' then "" else "\n"
    case _ => ""
  }

  /** The plain text of the output, when next is the character that comes after it. */
  function Text(out: seq<Token>, next: char): string {
    if out == [] then ""
    else
      var last := out[|out| - 1];
      Text(out[..|out| - 1], Head(last)) + Said(last, next)
  }

  lemma TextOne(out: seq<Token>, t: Token, next: char)
    ensures Text(out + [t], next) == Text(out, Head(t)) + Said(t, next)
  {
    assert (out + [t])[..|out|] == out;
  }

  /** All that matters of the next character is whether it is a line break. */
  lemma TextNext(out: seq<Token>, a: char, b: char)
    requires a == '\n' <==> b == '\n'
    ensures Text(out, a) == Text(out, b)
  {
  }

  // ------------------------------------------------------------------------ closing tags

  /** The closing tag at c is that of t. */
  predicate Closes(s: string, c: nat, t: Tag) {
    Starts(s, c + 2, t.src) && At(s, c + 2 + |t.src|) == '>'
  }

  /** The innermost open tag that the closing tag at c is for, or the number of open tags. */
  function Innermost(s: string, c: nat, tags: seq<Tag>): (k: nat)
    ensures k <= |tags| && (k < |tags| ==> Closes(s, c, tags[k]))
    ensures forall i :: 0 <= i < k ==> !Closes(s, c, tags[i])
  {
    if tags == [] || Closes(s, c, tags[0]) then 0 else 1 + Innermost(s, c, tags[1..])
  }

  /** Closing tokens for the elements of the tags, innermost first. */
  function Closings(tags: seq<Tag>): (out: seq<Token>)
    ensures |out| == |tags|
  {
    if tags == [] then [] else [Close(tags[0].dest)] + Closings(tags[1..])
  }

  function Escaped(tags: seq<Tag>, c: nat): Step {
    Step([Lt], "<", tags, c + 1)
  }

  /** A closing tag closes down to the innermost open tag of its name, and is escaped if there is none. */
  function CloseStep(s: string, c: nat, tags: seq<Tag>): Step {
    var k := Innermost(s, c, tags);
    if k < |tags| then Step(Closings(tags[..k + 1]), "", tags[k + 1..], c + |tags[k].src| + 3) else Escaped(tags, c)
  }

  lemma {:induction false} ClosingsNested(tags: seq<Tag>, k: nat)
    requires k <= |tags|
    ensures AppliedAll(Dests(tags), Closings(tags[..k])) == Some(Dests(tags[k..]))
    decreases k
  {
    if k == 0 {
      assert tags[0..] == tags && tags[..0] == [];
    } else {
      var t := tags[..k];
      assert t[0] == tags[0] && t[1..] == tags[1..][..k - 1];
      ClosingsNested(tags[1..], k - 1);
      assert tags[1..][k - 1..] == tags[k..];
      assert Dests(tags)[1..] == Dests(tags[1..]);
    }
  }

  lemma {:induction false} ClosingsSilent(out: seq<Token>, tags: seq<Tag>, next: char)
    requires tags != []
    ensures Text(out + Closings(tags), next) == Text(out, NUL)
    decreases tags
  {
    var t := Close(tags[0].dest);
    assert out + Closings(tags) == (out + [t]) + Closings(tags[1..]);
    TextOne(out, t, next);
    TextOne(out, t, NUL);
    if tags[1..] == [] {
      assert (out + [t]) + Closings([]) == out + [t];
    } else {
      ClosingsSilent(out + [t], tags[1..], next);
    }
  }

  // ------------------------------------------------------------------------ opening tags

  lemma {:induction false} StartsInside(s: string, i: nat, lit: string)
    requires i <= |s| && NUL !in lit && Starts(s, i, lit)
    ensures i + |lit| <= |s|
  {
    if lit != "" {
      var k := |lit| - 1;
      StartsInside(s, i, lit[..k]);
      assert Lower(At(s, i + k)) == Lower(lit[k]);
    }
  }

  /** The end of the attributes: whether a '>' was found outside quotes, where, and whether a '<' came before it. */
  datatype Attrs = Attrs(found: bool, end: nat, lt: bool)

  /** The scan of ALLOW_TAG_ALT from o on; quote is the open quotation mark, or NUL. */
  function ScanAttrs(s: string, o: nat, quote: char, lt: bool): (a: Attrs)
    requires o <= |s|
    ensures a.found ==> o <= a.end < |s|
    decreases |s| - o
  {
    if o == |s| then Attrs(false, o, lt)
    else if quote == NUL && (s[o] == '\"' || s[o] == '\'') then ScanAttrs(s, o + 1, s[o], lt)
    else if quote != NUL then ScanAttrs(s, o + 1, if s[o] == quote then NUL else quote, lt)
    else if s[o] == '<' then ScanAttrs(s, o + 1, quote, true)
    else if s[o] == '>' then Attrs(true, o, lt)
    else ScanAttrs(s, o + 1, quote, lt)
  }

  method FindAttrs(s: string, from: nat) returns (a: Attrs)
    requires from <= |s|
    ensures a == ScanAttrs(s, from, NUL, false)
  {
    var o, quote, lt := from, NUL, false;
    while o < |s|
      invariant o <= |s| && ScanAttrs(s, from, NUL, false) == ScanAttrs(s, o, quote, lt)
      decreases |s| - o
    {
      if quote == NUL && (s[o] == '\"' || s[o] == '\'') {
        quote := s[o];
      } else if quote != NUL {
        if s[o] == quote { quote := NUL; }
      } else if s[o] == '<' {
        lt := true;
      } else if s[o] == '>' {
        return Attrs(true, o, lt);
      }
      o := o + 1;
    }
    a := Attrs(false, o, lt);
  }

  /** A tag that opens an element of the output. */
  function Opened(tags: seq<Tag>, t: Tag, next: nat): Step {
    Step([Open(t.dest)], "", [t] + tags, next)
  }

  /** What a tag that closes nothing does: one token, and its element on the stack if it opens one. */
  ghost predicate Simple(s: string, tags: seq<Tag>, st: Step) {
    && |st.out| == 1
    && !st.out[0].Char?
    && st.plain == Said(st.out[0], At(s, st.next))
    && if st.out[0].Open? then st.tags != [] && st.tags[1..] == tags && st.out[0].name == st.tags[0].dest
       else st.tags == tags && !st.out[0].Close?
  }

  /** ALLOW_TAG_ALT(t.src, t.dest), if it applies at c. */
  function AllowTag(s: string, c: nat, tags: seq<Tag>, t: Tag): (st: Option<Step>)
    requires c < |s|
    ensures st.Some? ==> c < st.value.next <= |s| && Simple(s, tags, st.value)
  {
    var n := c + 1 + |t.src|;
    if Starts(s, c, "<" + t.src + " ") then
      StartsInside(s, c, "<" + t.src + " ");
      var a := ScanAttrs(s, n, NUL, false);
      if a.found && !a.lt then
        Some(if At(s, a.end - 1) != '/' then Opened(tags, t, a.end + 1) else Step([Empty(t.dest)], "", tags, a.end + 1))
      else Some(Escaped(tags, c))
    else if Starts(s, c, "<" + t.src) && At(s, n) == '>' then Some(Opened(tags, t, n + 1))
    else if Starts(s, c, "<" + t.src) && Starts(s, n, "/>") then
      StartsInside(s, c, "<" + t.src);
      StartsInside(s, n, "/>");
      Some(Step([Empty(t.dest)], "", tags, n + 2))
    else None
  }

  /** The allowed tags, in the order they are looked for. */
  const ALLOWED: seq<Tag> := [
    Tag("a", "a"), Tag("b", "strong"), Tag("blockquote", "blockquote"), Tag("bold", "strong"), Tag("cite", "cite"),
    Tag("div", "div"), Tag("em", "em"), Tag("h1", "h1"), Tag("h2", "h2"), Tag("h3", "h3"), Tag("h4", "h4"),
        Tag("h5", "h5"),
    Tag("h6", "h6"), Tag("html", "html"), Tag("i", "em"), Tag("italic", "em"), Tag("li", "li"), Tag("ol", "ol"),
    Tag("p", "p"), Tag("pre", "pre"), Tag("q", "q"), Tag("span", "span"), Tag("strong", "strong"), Tag("ul", "ul")]

  /** The first tag of the table that applies at c. */
  function FirstAllowed(s: string, c: nat, tags: seq<Tag>, table: seq<Tag>): (st: Option<Step>)
    requires c < |s|
    ensures st.Some? ==> c < st.value.next <= |s| && Simple(s, tags, st.value)
  {
    if table == [] then None
    else
      var st := AllowTag(s, c, tags, table[0]);
      if st.Some? then st else FirstAllowed(s, c, tags, table[1..])
  }

  /** A line break, or the rule that is replaced by one. */
  predicate IsBreak(s: string, c: nat) {
    (Starts(s, c, "<br") || Starts(s, c, "<hr"))
        && (At(s, c + 3) == '>' || Starts(s, c + 3, "/>") || Starts(s, c + 3, " />"))
  }

  /** bgcolor= occurs from p on, before any '>'. */
  predicate HasBgcolor(s: string, p: nat)
    decreases |s| - p
  {
    p < |s| && s[p] != '>' && (Starts(s, p, "bgcolor=") || HasBgcolor(s, p + 1))
  }

  predicate Occurs(s: string, p: nat, lit: string)
    decreases |s| - p
  {
    p < |s| && (Starts(s, p, lit) || Occurs(s, p + 1, lit))
  }

  predicate IsFont(s: string, c: nat) {
    Starts(s, c, "<font") && (At(s, c + 5) == '>' || At(s, c + 5) == ' ')
  }

  predicate IsColouredBody(s: string, c: nat) {
    Starts(s, c, "<body ") && HasBgcolor(s, c)
  }

  predicate HasGt(s: string, c: nat) {
    exists k :: c <= k < |s| && s[k] == '>'
  }

  /** A C string in which every font tag and every body tag with a background colour is finished. */
  predicate Terminated(s: string) {
    NUL !in s && (forall c: nat :: c < |s| && (IsFont(s, c) || IsColouredBody(s, c)) ==> HasGt(s, c))
  }

  /** The names of the tags that become spans, if one stands at c. */
  function SpanName(s: string, c: nat): Option<Name> {
    if Starts(s, c, "<u>") then Some("u")
    else if Starts(s, c, "<underline>") then Some("underline")
    else if Starts(s, c, "<s>") then Some("s")
    else if Starts(s, c, "<strike>") then Some("strike")
    else if Starts(s, c, "<sub>") then Some("sub")
    else if Starts(s, c, "<sup>") then Some("sup")
    else if IsFont(s, c) then Some("font")
    else if IsColouredBody(s, c) then Some("body")
    else None
  }

  // ------------------------------------------------------------------------ one turn

  lemma GtFound(s: string, c: nat)
    requires c <= |s| && HasGt(s, c)
    ensures FirstGt(s, c) < |s|
  {
  }

  lemma LitHasGt(s: string, c: nat, lit: string)
    requires c <= |s| && NUL !in lit && Starts(s, c, lit) && lit != "" && lit[|lit| - 1] == '>'
    ensures HasGt(s, c)
  {
    StartsInside(s, c, lit);
    assert Lower(At(s, c + (|lit| - 1))) == Lower(lit[|lit| - 1]);
    assert s[c + (|lit| - 1)] == '>';
  }

  lemma BreakEnds(s: string, c: nat)
    requires c < |s| && IsBreak(s, c)
    ensures HasGt(s, c)
  {
    StartsInside(s, c, if Starts(s, c, "<br") then "<br" else "<hr");
    if At(s, c + 3) == '>' {
      assert s[c + 3] == '>';
    } else if Starts(s, c + 3, "/>") {
      LitHasGt(s, c + 3, "/>");
    } else {
      LitHasGt(s, c + 3, " />");
    }
  }

  lemma SpanEnds(s: string, c: nat)
    requires c < |s| && Terminated(s) && SpanName(s, c).Some?
    ensures HasGt(s, c)
  {
    if Starts(s, c, "<u>") { LitHasGt(s, c, "<u>"); }
    else if Starts(s, c, "<underline>") { LitHasGt(s, c, "<underline>"); }
    else if Starts(s, c, "<s>") { LitHasGt(s, c, "<s>"); }
    else if Starts(s, c, "<strike>") { LitHasGt(s, c, "<strike>"); }
    else if Starts(s, c, "<sub>") { LitHasGt(s, c, "<sub>"); }
    else if Starts(s, c, "<sup>") { LitHasGt(s, c, "<sup>"); }
  }

  const BODY := Tag("body", "body")

  /** What is done with a '<' that no '/' follows. */
  function OpenStep(s: string, c: nat, tags: seq<Tag>): (st: Step)
    requires c < |s| && Terminated(s)
    ensures c < st.next <= |s| && Simple(s, tags, st)
  {
    var first := FirstAllowed(s, c, tags, ALLOWED);
    var span := SpanName(s, c);
    if first.Some? then first.value
    else if IsBreak(s, c) then
      BreakEnds(s, c);
      GtFound(s, c);
      var n := FirstGt(s, c) + 1;
      Step([Break], if At(s, n) != '\n' then "\n" else "", tags, n)
    else if span.Some? then
      SpanEnds(s, c);
      GtFound(s, c);
      Opened(tags, Tag(span.value, "span"), FirstGt(s, c) + 1)
    else
      var body := AllowTag(s, c, tags, BODY);
      if body.Some? then body.value
      else if Starts(s, c, "<!--") && Occurs(s, c + 4, "-->") then
        StartsInside(s, c, "<!--");
        Step([CommentStart], "", tags, c + 4)
      else Escaped(tags, c)
  }

  function StepAt(s: string, c: nat, tags: seq<Tag>): (st: Step)
    requires c < |s| && Terminated(s)
    ensures c < st.next <= |s|
  {
    if s[c] != '<' then Step([Char(s[c])], [s[c]], tags, c + 1)
    else if At(s, c + 1) == '/' then
      var k := Innermost(s, c, tags);
      CloserInside(s, c, tags, k);
      CloseStep(s, c, tags)
    else OpenStep(s, c, tags)
  }

  lemma CloserInside(s: string, c: nat, tags: seq<Tag>, k: nat)
    requires c < |s| && At(s, c + 1) == '/'
    requires k < |tags| ==> Closes(s, c, tags[k])
    ensures k < |tags| ==> c + |tags[k].src| + 3 <= |s|
  {
    if k < |tags| {
      StartsInside(s, c + 2, tags[k].src);
    }
  }

  lemma SimpleNested(s: string, tags: seq<Tag>, st: Step)
    requires Simple(s, tags, st)
    ensures AppliedAll(Dests(tags), st.out) == Some(Dests(st.tags))
  {
    assert st.out[1..] == [];
  }

  /** Whatever is emitted keeps the markup nested, and what stays open is what is on the tag stack. */
  lemma StepNested(s: string, c: nat, tags: seq<Tag>)
    requires c < |s| && Terminated(s)
    ensures AppliedAll(Dests(tags), StepAt(s, c, tags).out) == Some(Dests(StepAt(s, c, tags).tags))
  {
    var st := StepAt(s, c, tags);
    if s[c] != '<' {
      assert st.out[1..] == [];
    } else if At(s, c + 1) == '/' && Innermost(s, c, tags) < |tags| {
      ClosingsNested(tags, Innermost(s, c, tags) + 1);
    } else {
      SimpleNested(s, tags, st);
    }
  }

  /** The plain output stays the text of the markup. */
  lemma StepText(s: string, c: nat, tags: seq<Tag>, out: seq<Token>)
    requires c < |s| && Terminated(s)
    ensures
      var st := StepAt(s, c, tags);
      Text(out + st.out, At(s, st.next)) == Text(out, At(s, c)) + st.plain
  {
    var st := StepAt(s, c, tags);
    if s[c] == '<' && At(s, c + 1) == '/' && Innermost(s, c, tags) < |tags| {
      var k := Innermost(s, c, tags);
      ClosingsSilent(out, tags[..k + 1], At(s, st.next));
      TextNext(out, NUL, At(s, c));
    } else {
      assert st.out == [st.out[0]];
      TextOne(out, st.out[0], At(s, st.next));
      TextNext(out, Head(st.out[0]), At(s, c));
    }
  }

  // ------------------------------------------------------------------------ the whole run

  /** Both outputs, and the tags left open. */
  datatype Page = Page(out: seq<Token>, plain: string, tags: seq<Tag>)

  function Then(p: Page, q: Page): Page {
    Page(p.out + q.out, p.plain + q.plain, q.tags)
  }

  lemma ThenThen(p: Page, q: Page, r: Page)
    ensures Then(Then(p, q), r) == Then(p, Then(q, r))
  {
  }

  /** The turns of the loop from c on. */
  function Converted(s: string, c: nat, tags: seq<Tag>): Page
    requires c <= |s| && Terminated(s)
    decreases |s| - c
  {
    if c == |s| then Page([], "", tags)
    else
      var st := StepAt(s, c, tags);
      Then(Page(st.out, st.plain, st.tags), Converted(s, st.next, st.tags))
  }

  /** The whole run. */
  function Outcome(s: string): Page
    requires Terminated(s)
  {
    Converted(s, 0, [])
  }

  // ------------------------------------------------------------------------ the code

  /** The closing tag at c: look for its opening tag, then pop down to it. */
  method CloseTag(html: string, c: nat, tags: seq<Tag>) returns (st: Step)
    ensures st == CloseStep(html, c, tags)
  {
    hide Closes;
    var tag := 0;
    while tag < |tags| && !Closes(html, c, tags[tag])
      invariant tag <= |tags| && Innermost(html, c, tags) == tag + Innermost(html, c, tags[tag..])
    {
      tag := tag + 1;
    }
    if tag == |tags| {
      return Escaped(tags, c);
    }
    var xhtml, left, next := [], tags, c + |tags[tag].src| + 3;
    while |tags| - |left| < tag
      invariant |tags| - tag <= |left| <= |tags| && left == tags[|tags| - |left|..]
      invariant xhtml == Closings(tags[..|tags| - |left|])
    {
      ClosingsOneMore(tags, |tags| - |left|);
      xhtml := xhtml + [Close(left[0].dest)];
      left := left[1..];
    }
    ClosingsOneMore(tags, tag);
    xhtml := xhtml + [Close(left[0].dest)];
    left := left[1..];
    st := Step(xhtml, "", left, next);
  }

  lemma {:induction false} ClosingsOneMore(tags: seq<Tag>, k: nat)
    requires k < |tags|
    ensures Closings(tags[..k + 1]) == Closings(tags[..k]) + [Close(tags[k].dest)]
    decreases k
  {
    if k > 0 {
      assert tags[..k + 1][1..] == tags[1..][..k] && tags[..k][1..] == tags[1..][..k - 1];
      ClosingsOneMore(tags[1..], k - 1);
    } else {
      assert tags[..1][1..] == [] && tags[..0] == [];
    }
  }

  method AllowTagAlt(html: string, c: nat, tags: seq<Tag>, t: Tag) returns (st: Option<Step>)
    requires c < |html|
    ensures st == AllowTag(html, c, tags, t)
  {
    var n := c + 1 + |t.src|;
    if Starts(html, c, "<" + t.src + " ") {
      StartsInside(html, c, "<" + t.src + " ");
      var a := FindAttrs(html, n);
      if !a.found || a.lt {
        return Some(Escaped(tags, c));
      }
      var next := a.end + 1;
      st := Some(if At(html, a.end - 1) != '/' then Opened(tags, t, next) else Step([Empty(t.dest)], "", tags, next));
    } else if Starts(html, c, "<" + t.src) && (At(html, n) == '>' || Starts(html, n, "/>")) {
      assert Starts(html, n, "/>") ==> Lower(At(html, n + 0)) == Lower("/>"[0]);
      st := Some(if At(html, n) != '/' then Opened(tags, t, n + 1) else Step([Empty(t.dest)], "", tags, n + 2));
    } else {
      st := None;
    }
  }

  method OpenTag(html: string, c: nat, tags: seq<Tag>) returns (st: Step)
    requires c < |html| && Terminated(html)
    ensures st == OpenStep(html, c, tags)
  {
    for i := 0 to |ALLOWED|
      invariant FirstAllowed(html, c, tags, ALLOWED) == FirstAllowed(html, c, tags, ALLOWED[i..])
    {
      var allowed := AllowTagAlt(html, c, tags, ALLOWED[i]);
      if allowed.Some? {
        return allowed.value;
      }
    }
    if IsBreak(html, c) {
      BreakEnds(html, c);
      GtFound(html, c);
      var n := FirstGt(html, c) + 1;
      return Step([Break], if At(html, n) != '\n' then "\n" else "", tags, n);
    }
    var span := SpanName(html, c);
    if span.Some? {
      SpanEnds(html, c);
      GtFound(html, c);
      return Opened(tags, Tag(span.value, "span"), FirstGt(html, c) + 1);
    }
    var body := AllowTagAlt(html, c, tags, BODY);
    if body.Some? {
      return body.value;
    }
    if Starts(html, c, "<!--") {
      StartsInside(html, c, "<!--");
      if Occurs(html, c + 4, "-->") {
        return Step([CommentStart], "", tags, c + 4);
      }
    }
    st := Escaped(tags, c);
  }

  /** The loop. Whatever the input, the markup emitted so far is properly nested and what it leaves open is exactly
      what is on the tag stack; the plain output is the text of the markup. */
  method HtmlToXhtml(html: string) returns (xhtml: seq<Token>, plain: string, tags: seq<Tag>)
    requires Terminated(html)
    ensures OpenAfter(xhtml) == Some(Dests(tags))
    ensures plain == Text(xhtml, NUL)
    ensures Page(xhtml, plain, tags) == Outcome(html)
  {
    xhtml, plain, tags := [], "", [];
    var c := 0;
    while c < |html|
      invariant c <= |html|
      invariant OpenAfter(xhtml) == Some(Dests(tags))
      invariant plain == Text(xhtml, At(html, c))
      invariant Then(Page(xhtml, plain, tags), Converted(html, c, tags)) == Converted(html, 0, [])
    {
      StepNested(html, c, tags);
      StepText(html, c, tags, xhtml);
      ghost var p, was := Page(xhtml, plain, tags), StepAt(html, c, tags);
      OpenAppend(xhtml, was.out);
      ThenThen(p, Page(was.out, was.plain, was.tags), Converted(html, was.next, was.tags));
      var st;
      if html[c] != '<' {
        st := Step([Char(html[c])], [html[c]], tags, c + 1);
      } else if At(html, c + 1) == '/' {
        st := CloseTag(html, c, tags);
      } else {
        st := OpenTag(html, c, tags);
      }
      assert st == was;
      xhtml, plain, tags, c := xhtml + st.out, plain + st.plain, st.tags, st.next;
    }
  }

  /** The output of a whole run is nested up to what is left open, and the plain output is its text. */
  lemma {:induction false} ConvertedGood(s: string, c: nat, tags: seq<Tag>, out: seq<Token>)
    requires c <= |s| && Terminated(s) && OpenAfter(out) == Some(Dests(tags))
    ensures OpenAfter(out + Converted(s, c, tags).out) == Some(Dests(Converted(s, c, tags).tags))
    ensures Text(out + Converted(s, c, tags).out, NUL) == Text(out, At(s, c)) + Converted(s, c, tags).plain
    decreases |s| - c
  {
    hide StepAt, Text, OpenAfter, AppliedAll, Terminated;
    if c == |s| {
      assert out + [] == out;
    } else {
      var st := StepAt(s, c, tags);
      StepNested(s, c, tags);
      StepText(s, c, tags, out);
      OpenAppend(out, st.out);
      ConvertedGood(s, st.next, st.tags, out + st.out);
      assert out + (st.out + Converted(s, st.next, st.tags).out) == out + st.out + Converted(s, st.next, st.tags).out;
    }
  }
}
