/** Input that closes all it opens, and what becomes of it: the same document in XHTML. */
module HtmlDocs {
  import opened Wrappers
  import opened Html

  // --------------------------------------------------------------- input that is balanced

  /** The whole text of a tag, from '<' to '>'. */
  predicate IsTag(o: string) {
    |o| >= 3 && o[0] == '<' && o[1] != '/' && o[|o| - 1] == '>' && Terminated(o)
  }

  /** The text o opens t. */
  predicate Opens(o: string, t: Tag) {
    && IsTag(o)
    && var st := OpenStep(o, 0, []);
    st.out == [Open(t.dest)] && st.tags == [t] && st.next == |o|
  }

  /** The text o is something that needs no closing: a break, or an empty element. */
  predicate Stands(o: string, token: Token) {
    && IsTag(o)
    && var st := OpenStep(o, 0, []);
    st.out == [token] && st.tags == [] && st.next == |o|
  }

  /** c is the letter l or its capital, or what else l is. */
  predicate Cased(c: char, l: char) {
    c == l || ('a' <= l <= 'z' && c as int - 'A' as int == l as int - 'a' as int)
  }

  /** n is the name with each letter as it is or as a capital. */
  predicate Same(n: string, name: string) {
    |n| == |name| && forall k :: 0 <= k < |n| ==> Cased(n[k], name[k])
  }

  /** The comparison without regard to case is just that. */
  lemma CasedLower(c: char, l: char)
    requires !('A' <= l <= 'Z')
    ensures Lower(c) == Lower(l) <==> Cased(c, l)
  {
  }

  /** Input that closes all it opens: text, things that need no closing, and elements, whose closing tags have the
      names of their opening tags. */
  datatype Doc =
    | End
    | Txt(c: char, rest: Doc)
    | Single(text: string, token: Token, rest: Doc)
    | Elem(open: string, tag: Tag, close: string, kids: Doc, rest: Doc)

  predicate Proper(d: Doc) {
    match d
    case End => true
    case Txt(c, rest) => c != '<' && c != NUL && Proper(rest)
    case Single(text, token, rest) => Stands(text, token) && Proper(rest)
    case Elem(open, tag, close, kids, rest) => Opens(open, tag) && Same(close, tag.src) && Proper(kids) && Proper(rest)
  }

  function Closer(name: string): string {
    "</" + name + ">"
  }

  function Source(d: Doc): string {
    match d
    case End => ""
    case Txt(c, rest) => [c] + Source(rest)
    case Single(text, _, rest) => text + Source(rest)
    case Elem(open, _, close, kids, rest) => open + (Source(kids) + (Closer(close) + Source(rest)))
  }

  /** The same document in XHTML. */
  function Target(d: Doc): seq<Token> {
    match d
    case End => []
    case Txt(c, rest) => [Char(c)] + Target(rest)
    case Single(_, token, rest) => [token] + Target(rest)
    case Elem(_, tag, _, kids, rest) => [Open(tag.dest)] + (Target(kids) + ([Close(tag.dest)] + Target(rest)))
  }

  // ------------------------------------------------------- a tag means the same wherever it stands

  /** part stands at c in s. */
  predicate Sits(s: string, c: nat, part: string) {
    c + |part| <= |s| && s[c..c + |part|] == part
  }

  lemma SitsBoth(s: string, c: nat, a: string, b: string)
    requires Sits(s, c, a + b)
    ensures Sits(s, c, a) && Sits(s, c + |a|, b) && c + |a| + |b| <= |s|
  {
    assert (a + b)[..|a|] == a && (a + b)[|a|..] == b;
    assert s[c..c + |a + b|][..|a|] == s[c..c + |a|];
    assert s[c..c + |a + b|][|a|..] == s[c + |a|..c + |a| + |b|];
  }

  lemma SitsAt(s: string, c: nat, part: string, k: nat)
    requires Sits(s, c, part) && k < |part|
    ensures c + k < |s| && At(s, c + k) == part[k]
  {
    assert s[c..c + |part|][k] == part[k];
  }

  /** '>' is at most the last character. */
  predicate GtLast(lit: string) {
    forall k :: 0 <= k < |lit| - 1 ==> lit[k] != '>'
  }

  lemma StartsLocal(s: string, c: nat, o: string, i: nat, lit: string)
    requires Sits(s, c, o) && i < |o| && o[|o| - 1] == '>' && GtLast(lit)
    ensures Starts(s, c + i, lit) == Starts(o, i, lit)
  {
    if i + |lit| <= |o| {
      forall k | 0 <= k < |lit|
        ensures (Lower(At(s, c + i + k)) == Lower(lit[k])) == (Lower(At(o, i + k)) == Lower(lit[k]))
      {
        SitsAt(s, c, o, i + k);
      }
    } else {
      var k := |o| - 1 - i;
      SitsAt(s, c, o, i + k);
      assert Lower(At(s, c + i + k)) != Lower(lit[k]) && Lower(At(o, i + k)) != Lower(lit[k]);
    }
  }

  lemma {:induction false} ScanLocal(s: string, c: nat, o: string, n: nat, quote: char, lt: bool)
    requires Sits(s, c, o) && n <= |o| && ScanAttrs(o, n, quote, lt).found
    ensures
      var a := ScanAttrs(o, n, quote, lt);
      ScanAttrs(s, c + n, quote, lt) == Attrs(true, c + a.end, a.lt)
    decreases |o| - n
  {
    SitsAt(s, c, o, n);
    if quote == NUL && (o[n] == '\"' || o[n] == '\'') {
      ScanLocal(s, c, o, n + 1, o[n], lt);
    } else if quote != NUL {
      ScanLocal(s, c, o, n + 1, if o[n] == quote then NUL else quote, lt);
    } else if o[n] == '<' {
      ScanLocal(s, c, o, n + 1, quote, true);
    } else if o[n] != '>' {
      ScanLocal(s, c, o, n + 1, quote, lt);
    }
  }

  /** What was done with a tag by itself, done with it at c and with tags on the stack. */
  function Moved(st: Option<Step>, c: nat, tags: seq<Tag>): Option<Step> {
    match st
    case None => None
    case Some(v) => Some(Step(v.out, v.plain, v.tags + tags, c + v.next))
  }

  lemma AllowLocal(s: string, c: nat, o: string, tags: seq<Tag>, t: Tag)
    requires Sits(s, c, o) && IsTag(o) && c < |s|
    requires AllowTag(o, 0, [], t).Some? ==> AllowTag(o, 0, [], t).value.next == |o|
    ensures AllowTag(s, c, tags, t) == Moved(AllowTag(o, 0, [], t), c, tags)
  {
    var lit, n := "<" + t.src, 1 + |t.src|;
    hide Terminated, Sits, Starts, ScanAttrs;
    assert [t] + [] + tags == [t] + tags && [] + tags == tags;
    StartsLocal(s, c, o, 0, lit + " ");
    StartsLocal(s, c, o, 0, lit);
    if Starts(o, 0, lit + " ") {
      StartsInside(o, 0, lit + " ");
      ScanLocal(s, c, o, n, NUL, false);
      var a := ScanAttrs(o, n, NUL, false);
      SitsAt(s, c, o, a.end - 1);
    } else if Starts(o, 0, lit) {
      StartsInside(o, 0, lit);
      LastChar(o, lit);
      SitsAt(s, c, o, n);
      StartsLocal(s, c, o, n, "/>");
    }
  }

  /** Text without '>' ends before the tag does. */
  lemma LastChar(o: string, lit: string)
    requires Starts(o, 0, lit) && |lit| <= |o| && o != "" && o[|o| - 1] == '>' && '>' !in lit
    ensures |lit| < |o|
  {
    forall k | 0 <= k < |lit|
      ensures lit[k] != '>' && k != |o| - 1
    {
      assert Lower(At(o, 0 + k)) == Lower(lit[k]) && lit[k] in lit;
    }
    assert lit != "" ==> lit[|lit| - 1] != '>';
  }

  lemma {:induction false} FirstLocal(s: string, c: nat, o: string, tags: seq<Tag>, table: seq<Tag>)
    requires Sits(s, c, o) && IsTag(o) && c < |s|
    requires FirstAllowed(o, 0, [], table).Some? ==> FirstAllowed(o, 0, [], table).value.next == |o|
    ensures FirstAllowed(s, c, tags, table) == Moved(FirstAllowed(o, 0, [], table), c, tags)
    decreases table
  {
    if table != [] {
      AllowLocal(s, c, o, tags, table[0]);
      if AllowTag(o, 0, [], table[0]).None? {
        FirstLocal(s, c, o, tags, table[1..]);
      }
    }
  }

  lemma {:induction false} FirstGtLocal(s: string, c: nat, o: string, i: nat)
    requires Sits(s, c, o) && i < |o| && o[|o| - 1] == '>'
    ensures FirstGt(s, c + i) == c + FirstGt(o, i) && FirstGt(o, i) < |o|
    decreases |o| - i
  {
    SitsAt(s, c, o, i);
    if o[i] != '>' {
      FirstGtLocal(s, c, o, i + 1);
    }
  }

  lemma {:induction false} BgcolorLocal(s: string, c: nat, o: string, i: nat)
    requires Sits(s, c, o) && i < |o| && o[|o| - 1] == '>'
    ensures HasBgcolor(s, c + i) == HasBgcolor(o, i)
    decreases |o| - i
  {
    SitsAt(s, c, o, i);
    StartsLocal(s, c, o, i, "bgcolor=");
    if o[i] != '>' {
      BgcolorLocal(s, c, o, i + 1);
    }
  }

  lemma BreakLocal(s: string, c: nat, o: string)
    requires Sits(s, c, o) && IsTag(o)
    ensures IsBreak(s, c) == IsBreak(o, 0)
  {
    StartsLocal(s, c, o, 0, "<br");
    StartsLocal(s, c, o, 0, "<hr");
    var b := if Starts(o, 0, "<br") then "<br" else "<hr";
    if Starts(o, 0, b) {
      LastChar(o, b);
      SitsAt(s, c, o, 3);
      StartsLocal(s, c, o, 3, "/>");
      StartsLocal(s, c, o, 3, " />");
    }
  }

  lemma SpanLocal(s: string, c: nat, o: string)
    requires Sits(s, c, o) && IsTag(o)
    ensures SpanName(s, c) == SpanName(o, 0)
  {
    hide Starts, HasBgcolor, IsFont, Sits, Terminated;
    StartsLocal(s, c, o, 0, "<u>");
    StartsLocal(s, c, o, 0, "<underline>");
    StartsLocal(s, c, o, 0, "<s>");
    StartsLocal(s, c, o, 0, "<strike>");
    StartsLocal(s, c, o, 0, "<sub>");
    StartsLocal(s, c, o, 0, "<sup>");
    FontLocal(s, c, o);
    StartsLocal(s, c, o, 0, "<body ");
    BgcolorLocal(s, c, o, 0);
  }

  lemma FontLocal(s: string, c: nat, o: string)
    requires Sits(s, c, o) && IsTag(o)
    ensures IsFont(s, c) == IsFont(o, 0)
  {
    StartsLocal(s, c, o, 0, "<font");
    if Starts(o, 0, "<font") {
      StartsInside(o, 0, "<font");
      LastChar(o, "<font");
      SitsAt(s, c, o, 5);
    }
  }

  /** Of a tag that is taken as a whole, the same is made wherever it stands. */
  lemma OpenLocal(s: string, c: nat, o: string, tags: seq<Tag>)
    requires Sits(s, c, o) && IsTag(o) && Terminated(s) && OpenStep(o, 0, []).next == |o|
    ensures
      var st := OpenStep(o, 0, []);
      c < |s| && StepAt(s, c, tags) == Step(st.out, StepAt(s, c, tags).plain, st.tags + tags, c + |o|)
  {
    hide IsBreak, SpanName, AllowTag, FirstAllowed, HasBgcolor;
    SitsAt(s, c, o, 0);
    SitsAt(s, c, o, 1);
    FirstLocal(s, c, o, tags, ALLOWED);
    BreakLocal(s, c, o);
    SpanLocal(s, c, o);
    FirstGtLocal(s, c, o, 0);
    if FirstAllowed(o, 0, [], ALLOWED).None? && !IsBreak(o, 0) && SpanName(o, 0).None? {
      AllowLocal(s, c, o, tags, BODY);
    }
  }

  // ----------------------------------------------------------------- balanced in, balanced out

  lemma SameStarts(s: string, c: nat, n: string, name: Name)
    requires Sits(s, c, n) && Same(n, name)
    ensures Starts(s, c, name)
  {
    forall k | 0 <= k < |name|
      ensures Lower(At(s, c + k)) == Lower(name[k])
    {
      SitsAt(s, c, n, k);
      CasedLower(n[k], name[k]);
    }
  }

  /** The closing tag of the element that was opened last. */
  lemma CloserStep(s: string, c: nat, n: string, t: Tag, tags: seq<Tag>)
    requires Terminated(s) && Sits(s, c, Closer(n)) && Same(n, t.src)
    ensures c < |s| && StepAt(s, c, [t] + tags) == Step([Close(t.dest)], "", tags, c + |Closer(n)|)
  {
    SitsAt(s, c, Closer(n), 0);
    SitsAt(s, c, Closer(n), 1);
    assert Closer(n) == "</" + (n + ">");
    SitsBoth(s, c, "</", n + ">");
    SitsBoth(s, c + 2, n, ">");
    SameStarts(s, c + 2, n, t.src);
    SitsAt(s, c + 2 + |n|, ">", 0);
    assert Closes(s, c, ([t] + tags)[0]);
    assert ([t] + tags)[..1] == [t] && ([t] + tags)[1..] == tags && [t][1..] == [];
  }

  lemma TxtStep(s: string, c: nat, ch: char, tags: seq<Tag>)
    requires Terminated(s) && Sits(s, c, [ch]) && ch != '<'
    ensures c < |s| && StepAt(s, c, tags) == Step([Char(ch)], [ch], tags, c + 1)
  {
    SitsAt(s, c, [ch], 0);
  }

  /** The run from c to e emits out and leaves the tag stack as it was. */
  ghost predicate Carries(s: string, c: nat, e: nat, tags: seq<Tag>, out: seq<Token>) {
    && c <= e <= |s| && Terminated(s)
    && Converted(s, c, tags).out == out + Converted(s, e, tags).out
    && Converted(s, c, tags).tags == Converted(s, e, tags).tags
  }

  lemma CarriesNothing(s: string, c: nat, tags: seq<Tag>)
    requires c <= |s| && Terminated(s)
    ensures Carries(s, c, c, tags, [])
  {
    assert [] + Converted(s, c, tags).out == Converted(s, c, tags).out;
  }

  lemma CarriesStep(s: string, c: nat, tags: seq<Tag>, e: nat, out: seq<Token>)
    requires Terminated(s) && c < |s| && StepAt(s, c, tags).tags == tags
    requires Carries(s, StepAt(s, c, tags).next, e, tags, out)
    ensures Carries(s, c, e, tags, StepAt(s, c, tags).out + out)
  {
    var st := StepAt(s, c, tags);
    assert st.out + (out + Converted(s, e, tags).out) == st.out + out + Converted(s, e, tags).out;
  }

  lemma CarriesElem(s: string, c: nat, tags: seq<Tag>, c1: nat, kids: seq<Token>, c2: nat, c3: nat, rest: seq<Token>,
        e: nat, t: Tag)
    requires Terminated(s) && c < |s| && c2 < |s|
    requires StepAt(s, c, tags).out == [Open(t.dest)] && StepAt(s, c, tags).tags == [t] + tags
    requires StepAt(s, c, tags).next == c1
    requires StepAt(s, c2, [t] + tags).out == [Close(t.dest)] && StepAt(s, c2, [t] + tags).tags == tags
    requires StepAt(s, c2, [t] + tags).next == c3
    requires Carries(s, c1, c2, [t] + tags, kids) && Carries(s, c3, e, tags, rest)
    ensures Carries(s, c, e, tags, [Open(t.dest)] + (kids + ([Close(t.dest)] + rest)))
  {
    hide StepAt, Terminated;
    var end := Converted(s, e, tags).out;
    assert [Open(t.dest)] + (kids + ([Close(t.dest)] + (rest + end))) ==
           [Open(t.dest)] + (kids + ([Close(t.dest)] + rest)) + end;
  }

  /** Wherever a document stands, the loop turns it into the same document and leaves the tag stack as it was. */
  lemma {:induction false} DocConverted(s: string, c: nat, d: Doc, tags: seq<Tag>)
    requires Proper(d) && Terminated(s) && Sits(s, c, Source(d))
    ensures Carries(s, c, c + |Source(d)|, tags, Target(d))
    decreases d, 1
  {
    hide Sits, StepAt, Terminated, Carries, OpenStep, Same;
    match d
    case End =>
      assert "" + "" == "";
      SitsBoth(s, c, "", "");
      CarriesNothing(s, c, tags);
    case Txt(ch, rest) =>
      SitsBoth(s, c, [ch], Source(rest));
      TxtStep(s, c, ch, tags);
      DocConverted(s, c + 1, rest, tags);
      CarriesStep(s, c, tags, c + |Source(d)|, Target(rest));
    case Single(text, token, rest) =>
      SitsBoth(s, c, text, Source(rest));
      OpenLocal(s, c, text, tags);
      assert [] + tags == tags;
      DocConverted(s, c + |text|, rest, tags);
      CarriesStep(s, c, tags, c + |Source(d)|, Target(rest));
    case Elem(open, tag, close, kids, rest) =>
      ElemConverted(s, c, d, tags);
  }

  lemma {:induction false} ElemConverted(s: string, c: nat, d: Doc, tags: seq<Tag>)
    requires d.Elem? && Proper(d) && Terminated(s) && Sits(s, c, Source(d))
    ensures Carries(s, c, c + |Source(d)|, tags, Target(d))
    decreases d, 0
  {
    hide Sits, StepAt, Terminated, Carries, OpenStep, Same, Closer;
    var rest := Closer(d.close) + Source(d.rest);
    SitsBoth(s, c, d.open, Source(d.kids) + rest);
    var c1 := c + |d.open|;
    SitsBoth(s, c1, Source(d.kids), rest);
    var c2 := c1 + |Source(d.kids)|;
    SitsBoth(s, c2, Closer(d.close), Source(d.rest));
    var c3 := c2 + |Closer(d.close)|;
    OpenLocal(s, c, d.open, tags);
    DocConverted(s, c1, d.kids, [d.tag] + tags);
    CloserStep(s, c2, d.close, d.tag, tags);
    DocConverted(s, c3, d.rest, tags);
    CarriesElem(s, c, tags, c1, Target(d.kids), c2, c3, Target(d.rest), c + |Source(d)|, d.tag);
  }

  /** Every '<' is followed by a '>'. */
  predicate Finished(s: string) {
    forall c: nat :: c < |s| && s[c] == '<' ==> HasGt(s, c)
  }

  lemma FinishedBoth(a: string, b: string)
    requires Finished(a) && Finished(b)
    ensures Finished(a + b)
  {
    forall c: nat | c < |a + b| && (a + b)[c] == '<'
      ensures HasGt(a + b, c)
    {
      if c < |a| {
        var k :| c <= k < |a| && a[k] == '>';
        assert (a + b)[k] == '>';
      } else {
        var k :| c - |a| <= k < |b| && b[k] == '>';
        assert (a + b)[|a| + k] == '>';
      }
    }
  }

  lemma EndFinishes(o: string)
    requires o != "" && o[|o| - 1] == '>'
    ensures Finished(o)
  {
  }

  lemma SameNoNul(n: string, name: Name)
    requires Same(n, name)
    ensures NUL !in n
  {
    forall k | 0 <= k < |n|
      ensures n[k] != NUL
    {
      assert Cased(n[k], name[k]);
    }
  }

  lemma {:induction false} DocFinished(d: Doc)
    requires Proper(d)
    ensures Finished(Source(d)) && NUL !in Source(d)
  {
    hide Finished, OpenStep, Same, IsFont, IsColouredBody;
    match d
    case End =>
      NothingFinished("");
    case Txt(c, rest) =>
      DocFinished(rest);
      NothingFinished([c]);
      FinishedBoth([c], Source(rest));
    case Single(text, _, rest) =>
      DocFinished(rest);
      EndFinishes(text);
      FinishedBoth(text, Source(rest));
    case Elem(open, tag, close, kids, rest) =>
      DocFinished(kids);
      DocFinished(rest);
      SameNoNul(close, tag.src);
      EndFinishes(open);
      EndFinishes(Closer(close));
      FinishedBoth(Closer(close), Source(rest));
      FinishedBoth(Source(kids), Closer(close) + Source(rest));
      FinishedBoth(open, Source(kids) + (Closer(close) + Source(rest)));
  }

  lemma NothingFinished(s: string)
    requires '<' !in s
    ensures Finished(s)
  {
  }

  lemma StartsLt(s: string, c: nat, lit: string)
    requires c < |s| && Starts(s, c, lit) && lit != "" && lit[0] == '<'
    ensures s[c] == '<'
  {
    assert Lower(At(s, c + 0)) == Lower(lit[0]);
  }

  lemma FinishedTerminated(s: string)
    requires Finished(s) && NUL !in s
    ensures Terminated(s)
  {
    forall c: nat | c < |s| && (IsFont(s, c) || IsColouredBody(s, c))
      ensures HasGt(s, c)
    {
      if IsFont(s, c) { StartsLt(s, c, "<font"); } else { StartsLt(s, c, "<body "); }
    }
  }

  lemma DocTerminated(d: Doc)
    requires Proper(d)
    ensures Terminated(Source(d))
  {
    DocFinished(d);
    FinishedTerminated(Source(d));
  }

  lemma ConvertedEnd(s: string, tags: seq<Tag>)
    requires Terminated(s)
    ensures Converted(s, |s|, tags) == Page([], "", tags)
  {
  }

  /** Input that closes all it opens gives the same document in XHTML, which is balanced, and its text. */
  lemma DocBalanced(d: Doc)
    requires Proper(d)
    ensures Terminated(Source(d))
    ensures Outcome(Source(d)) == Page(Target(d), Text(Target(d), NUL), [])
    ensures OpenAfter(Target(d)) == Some([])
  {
    hide Terminated, Converted, Source, Target, Proper, Text;
    DocTerminated(d);
    var s := Source(d);
    assert s[0..|s|] == s;
    DocConverted(s, 0, d, []);
    ConvertedEnd(s, []);
    assert Target(d) + [] == Target(d);
    ConvertedGood(s, 0, [], []);
    EmptyText(At(s, 0));
    assert [] + Target(d) == Target(d);
  }

  lemma EmptyText(c: char)
    ensures Text([], c) == ""
  {
  }

  // ------------------------------------------------------------------ which texts are tags

  /** The first tag of the table with that name. */
  function Listed(name: Name, table: seq<Tag>): Option<string> {
    if table == [] then None else if table[0].src == name then Some(table[0].dest) else Listed(name, table[1..])
  }

  /** o begins with a tag of that name, in upper or lower case, and rest follows the name. */
  ghost predicate Named(o: string, n: string, name: Name, rest: string) {
    && o == "<" + n + rest && name != "" && Same(n, name) && NUL !in rest
    && rest != "" && (rest[0] == '>' || rest[0] == ' ' || rest[0] == '/') && rest[|rest| - 1] == '>'
  }

  lemma NamedAt(o: string, n: string, name: Name, rest: string, k: nat)
    requires Named(o, n, name, rest)
    ensures k < |n| ==> Lower(At(o, 1 + k)) == name[k]
    ensures k < |rest| ==> At(o, 1 + |name| + k) == rest[k]
  {
    if k < |n| { CasedLower(n[k], name[k]); }
  }

  lemma NamedIsTag(o: string, n: string, name: Name, rest: string)
    requires Named(o, n, name, rest)
    ensures IsTag(o) && Starts(o, 0, "<" + name)
  {
    NamedStarts(o, n, name, rest);
    SameNoNul(n, name);
    assert Cased(n[0], name[0]);
    assert o[1] == n[0];
    hide Same, Terminated, Starts, Finished;
    EndFinishes(o);
    FinishedTerminated(o);
  }

  lemma NamedStarts(o: string, n: string, name: Name, rest: string)
    requires Named(o, n, name, rest)
    ensures Starts(o, 0, "<" + name)
  {
    forall k | 0 <= k < 1 + |name|
      ensures Lower(At(o, 0 + k)) == Lower(("<" + name)[k])
    {
      if k > 0 { NamedAt(o, n, name, rest, k - 1); }
    }
  }

  /** Another name that o begins with is a shorter one, and its end is not the end of the name. */
  lemma OtherName(o: string, n: string, name: Name, rest: string, src: Name)
    requires Named(o, n, name, rest) && Starts(o, 0, "<" + src) && src != name
    ensures |src| < |name| && IsNameChar(Lower(At(o, 1 + |src|)))
  {
    forall k | 0 <= k < |src|
      ensures Lower(At(o, 1 + k)) == src[k]
    {
      assert Lower(At(o, 0 + (1 + k))) == Lower(("<" + src)[1 + k]);
    }
    NamedAt(o, n, name, rest, 0);
    assert |src| > |name| ==> IsNameChar(src[|name|]);
    assert |src| <= |name|;
    forall k | 0 <= k < |src|
      ensures src[k] == name[k]
    {
      NamedAt(o, n, name, rest, k);
    }
    assert |src| == |name| ==> src == name;
    NamedAt(o, n, name, rest, |src|);
  }

  lemma StartsHead(s: string, i: nat, lit: string)
    requires Starts(s, i, lit) && lit != ""
    ensures Lower(At(s, i)) == Lower(lit[0])
  {
    assert Lower(At(s, i + 0)) == Lower(lit[0]);
  }

  lemma OtherTag(o: string, n: string, name: Name, rest: string, t: Tag)
    requires Named(o, n, name, rest) && t.src != name
    ensures AllowTag(o, 0, [], t).None?
  {
    var lit := "<" + t.src;
    if Starts(o, 0, lit + " ") {
      StartsLess(o, 0, lit, " ");
      StartsHead(o, 1 + |t.src|, " ");
    }
    if Starts(o, 0, lit) {
      OtherName(o, n, name, rest, t.src);
      if Starts(o, 1 + |t.src|, "/>") { StartsHead(o, 1 + |t.src|, "/>"); }
    }
  }

  lemma StartsLess(s: string, c: nat, lit: string, more: string)
    requires Starts(s, c, lit + more)
    ensures Starts(s, c, lit) && Starts(s, c + |lit|, more)
  {
    forall k | 0 <= k < |lit|
      ensures Lower(At(s, c + k)) == Lower(lit[k])
    {
      assert Lower(At(s, c + k)) == Lower((lit + more)[k]);
    }
    forall k | 0 <= k < |more|
      ensures Lower(At(s, c + |lit| + k)) == Lower(more[k])
    {
      assert Lower(At(s, c + (|lit| + k))) == Lower((lit + more)[|lit| + k]);
    }
  }

  /** A tag is taken for the first of its name in the table. */
  lemma {:induction false} FirstOwn(o: string, n: string, name: Name, rest: string, table: seq<Tag>)
    requires Named(o, n, name, rest)
    requires Listed(name, table).Some? ==> AllowTag(o, 0, [], Tag(name, Listed(name, table).value)).Some?
    ensures FirstAllowed(o, 0, [], table) ==
            if Listed(name, table).None? then None else AllowTag(o, 0, [], Tag(name, Listed(name, table).value))
    decreases table
  {
    if table != [] {
      if table[0].src == name {
        assert table[0] == Tag(name, table[0].dest);
      } else {
        OtherTag(o, n, name, rest, table[0]);
        FirstOwn(o, n, name, rest, table[1..]);
      }
    }
  }

  /** The attributes end outside quotes, and have no '<' or '>' outside quotes. */
  predicate Quiet(attrs: string, quote: char) {
    if attrs == "" then quote == NUL
    else if quote == NUL && (attrs[0] == '\"' || attrs[0] == '\'') then Quiet(attrs[1..], attrs[0])
    else if quote != NUL then Quiet(attrs[1..], if attrs[0] == quote then NUL else quote)
    else attrs[0] != '<' && attrs[0] != '>' && Quiet(attrs[1..], NUL)
  }

  lemma {:induction false} ScanQuiet(o: string, i: nat, attrs: string, quote: char)
    requires i <= |o| && o[i..] == attrs + ">" && Quiet(attrs, quote)
    ensures ScanAttrs(o, i, quote, false) == Attrs(true, |o| - 1, false)
    decreases attrs
  {
    assert o[i] == o[i..][0];
    if attrs != "" {
      assert o[i + 1..] == o[i..][1..] == attrs[1..] + ">";
      var q := if quote == NUL && (attrs[0] == '\"' || attrs[0] == '\'') then attrs[0]
               else if attrs[0] == quote then NUL else quote;
      ScanQuiet(o, i + 1, attrs[1..], q);
    }
  }

  /** A tag of that name by itself. */
  lemma BareTag(n: string, name: Name, dest: string)
    requires name != "" && Same(n, name)
    ensures Named("<" + n + ">", n, name, ">")
    ensures AllowTag("<" + n + ">", 0, [], Tag(name, dest)) == Some(Opened([], Tag(name, dest), |n| + 2))
  {
    var o := "<" + n + ">";
    NamedIsTag(o, n, name, ">");
    NamedAt(o, n, name, ">", 0);
    if Starts(o, 0, "<" + name + " ") {
      StartsLess(o, 0, "<" + name, " ");
      StartsHead(o, 1 + |name|, " ");
    }
  }

  predicate Closed(attrs: string) {
    attrs != "" && attrs[|attrs| - 1] == '/'
  }

  /** A tag of that name with attributes. */
  lemma AttrsTag(n: string, name: Name, attrs: string, dest: string)
    requires name != "" && Same(n, name) && NUL !in attrs && Quiet(attrs, NUL)
    ensures
      var o, t := "<" + n + (" " + attrs + ">"), Tag(name, dest);
      Named(o, n, name, " " + attrs + ">") &&
      AllowTag(o, 0, [], t) == Some(if Closed(attrs) then Step([Empty(dest)], "", [], |o|) else Opened([], t, |o|))
  {
    hide Quiet, Starts, ScanAttrs, Closed, Same;
    var rest := " " + attrs + ">";
    var o := "<" + n + rest;
    assert rest[0] == ' ' && rest[|rest| - 1] == '>' && NUL !in rest;
    AttrsScanned(o, n, name, attrs);
  }

  lemma AttrsScanned(o: string, n: string, name: Name, attrs: string)
    requires Named(o, n, name, " " + attrs + ">") && Quiet(attrs, NUL)
    ensures Starts(o, 0, "<" + name + " ") && ScanAttrs(o, 1 + |name|, NUL, false) == Attrs(true, |o| - 1, false)
    ensures At(o, |o| - 2) == '/' <==> Closed(attrs)
  {
    var rest := " " + attrs + ">";
    NamedIsTag(o, n, name, rest);
    NamedAt(o, n, name, rest, 0);
    StartsMore(o, 0, "<" + name, " ");
    var all := " " + attrs;
    assert all[1..] == attrs && o[1 + |n|..] == all + ">";
    ScanQuiet(o, 1 + |n|, all, NUL);
    NamedAt(o, n, name, rest, |rest| - 2);
  }

  lemma StartsMore(s: string, c: nat, lit: string, more: string)
    requires Starts(s, c, lit) && |more| == 1 && Lower(At(s, c + |lit|)) == Lower(more[0])
    ensures Starts(s, c, lit + more)
  {
  }

  /** An empty element without attributes. */
  lemma SlashTag(n: string, name: Name, dest: string)
    requires name != "" && Same(n, name)
    ensures
      var o := "<" + n + "/>";
      Named(o, n, name, "/>") && AllowTag(o, 0, [], Tag(name, dest)) == Some(Step([Empty(dest)], "", [], |o|))
  {
    var o := "<" + n + "/>";
    NamedIsTag(o, n, name, "/>");
    NamedAt(o, n, name, "/>", 0);
    NamedAt(o, n, name, "/>", 1);
    if Starts(o, 0, "<" + name + " ") {
      StartsLess(o, 0, "<" + name, " ");
      StartsHead(o, 1 + |name|, " ");
    }
  }

  /** Of the allowed names, in any case: a bare tag opens its element, one with attributes opens it unless they end in
      '/', and one with only a '/' is an empty element. */
  lemma AllowedTags(n: string, name: Name, attrs: string)
    requires name != "" && Same(n, name) && Listed(name, ALLOWED).Some? && NUL !in attrs && Quiet(attrs, NUL)
    ensures
      var dest := Listed(name, ALLOWED).value;
      && Opens("<" + n + ">", Tag(name, dest))
      && Stands("<" + n + "/>", Empty(dest))
      && var o := "<" + n + (" " + attrs + ">");
      if Closed(attrs) then Stands(o, Empty(dest)) else Opens(o, Tag(name, dest))
  {
    hide Listed, AllowTag, FirstAllowed, Quiet, Same, IsBreak, SpanName, Named, Closed;
    var dest := Listed(name, ALLOWED).value;
    BareTag(n, name, dest);
    NamedIsTag("<" + n + ">", n, name, ">");
    FirstOwn("<" + n + ">", n, name, ">", ALLOWED);
    SlashTag(n, name, dest);
    NamedIsTag("<" + n + "/>", n, name, "/>");
    FirstOwn("<" + n + "/>", n, name, "/>", ALLOWED);
    AttrsTag(n, name, attrs, dest);
    var rest := " " + attrs + ">";
    NamedIsTag("<" + n + rest, n, name, rest);
    FirstOwn("<" + n + rest, n, name, rest, ALLOWED);
  }

  lemma {:induction false} Unlisted(name: Name, table: seq<Tag>)
    requires forall t :: t in table ==> t.src != name
    ensures Listed(name, table).None?
    decreases table
  {
    if table != [] {
      Unlisted(name, table[1..]);
    }
  }

  lemma NoBreakAllowed(t: Tag)
    requires t in ALLOWED
    ensures t.src != "br" && t.src != "hr"
  {
  }

  lemma NoLetterAllowed(t: Tag)
    requires t in ALLOWED
    ensures t.src != "u" && t.src != "s"
  {
  }

  lemma NoScriptAllowed(t: Tag)
    requires t in ALLOWED
    ensures t.src != "sub" && t.src != "sup"
  {
  }

  lemma NoFontAllowed(t: Tag)
    requires t in ALLOWED
    ensures t.src != "font" && t.src != "body"
  {
  }

  lemma NoLineAllowed(t: Tag)
    requires t in ALLOWED
    ensures t.src != "strike" && t.src != "underline"
  {
  }

  predicate IsSpanName(name: string) {
    name == "u" || name == "underline" || name == "s" || name == "strike" || name == "sub" || name == "sup"
  }

  predicate IsBreakName(name: string) {
    name == "br" || name == "hr"
  }

  /** A tag that is not in the table, not that of the body, is not taken for one that is. */
  lemma NotAllowed(o: string, n: string, name: Name, rest: string)
    requires Named(o, n, name, rest) && (IsSpanName(name) || IsBreakName(name) || name == "font" || name == "body")
    ensures FirstAllowed(o, 0, [], ALLOWED).None?
  {
    hide Named, FirstAllowed, Listed;
    forall t: Tag | t in ALLOWED
      ensures t.src != name
    {
      NoBreakAllowed(t);
      NoLetterAllowed(t);
      NoScriptAllowed(t);
      NoFontAllowed(t);
      NoLineAllowed(t);
    }
    Unlisted(name, ALLOWED);
    FirstOwn(o, n, name, rest, ALLOWED);
  }

  lemma {:induction false} FirstGtEnd(o: string, i: nat)
    requires i < |o| && o[|o| - 1] == '>' && forall k :: i <= k < |o| - 1 ==> o[k] != '>'
    ensures FirstGt(o, i) == |o| - 1
    decreases |o| - i
  {
    if i < |o| - 1 {
      FirstGtEnd(o, i + 1);
    }
  }

  /** No '>' in the name. */
  lemma NamedNoGt(o: string, n: string, name: Name, rest: string)
    requires Named(o, n, name, rest) && forall k :: 0 <= k < |rest| - 1 ==> rest[k] != '>'
    ensures FirstGt(o, 0) == |o| - 1
  {
    forall k | 0 <= k < |o| - 1
      ensures o[k] != '>'
    {
      if 1 <= k < 1 + |n| {
        NamedAt(o, n, name, rest, k - 1);
      } else if k > 0 {
        NamedAt(o, n, name, rest, k - 1 - |n|);
      }
    }
    FirstGtEnd(o, 0);
  }

  /** A break, or a rule, in any case. */
  lemma BreakTag(n: string, name: Name, end: string)
    requires Same(n, name) && IsBreakName(name) && (end == ">" || end == "/>" || end == " />")
    ensures Stands("<" + n + end, Break)
  {
    hide Listed, AllowTag, FirstAllowed, SpanName, IsBreak, Starts, Terminated;
    var o := "<" + n + end;
    NamedIsTag(o, n, name, end);
    NotAllowed(o, n, name, end);
    NamedNoGt(o, n, name, end);
    NamedBreak(o, n, name, end);
  }

  lemma NamedBreak(o: string, n: string, name: Name, end: string)
    requires Named(o, n, name, end) && IsBreakName(name) && (end == ">" || end == "/>" || end == " />")
    ensures IsBreak(o, 0)
  {
    NamedIsTag(o, n, name, end);
    NamedAt(o, n, name, end, 0);
    EndStarts(o, n, name, end);
    assert "<" + "br" == "<br" && "<" + "hr" == "<hr";
  }

  lemma EndStarts(o: string, n: string, name: Name, end: string)
    requires Named(o, n, name, end)
    ensures Starts(o, 1 + |name|, end)
  {
    forall k | 0 <= k < |end|
      ensures Lower(At(o, 1 + |name| + k)) == Lower(end[k])
    {
      NamedAt(o, n, name, end, k);
    }
  }

  /** A bare tag with the text of another is not one. */
  lemma BareIs(o: string, n: string, name: Name, m: Name)
    requires Named(o, n, name, ">")
    ensures Starts(o, 0, "<" + m + ">") <==> m == name
  {
    if m == name {
      NamedIsTag(o, n, name, ">");
      NamedAt(o, n, name, ">", 0);
      StartsMore(o, 0, "<" + name, ">");
    } else if Starts(o, 0, "<" + m + ">") {
      StartsLess(o, 0, "<" + m, ">");
      StartsHead(o, 1 + |m|, ">");
      OtherName(o, n, name, ">", m);
    }
  }

  lemma NotBreak(o: string, n: string, name: Name, rest: string)
    requires Named(o, n, name, rest) && !IsBreakName(name)
    ensures !IsBreak(o, 0)
  {
    assert "<" + "br" == "<br" && "<" + "hr" == "<hr";
    var b: Name := if Starts(o, 0, "<br") then "br" else "hr";
    if Starts(o, 0, "<" + b) {
      OtherName(o, n, name, rest, b);
      if Starts(o, 3, "/>") { StartsHead(o, 3, "/>"); }
      if Starts(o, 3, " />") { StartsHead(o, 3, " />"); }
    }
  }

  /** The tags of which a span is made, bare and in any case. */
  lemma SpanTag(n: string, name: Name)
    requires Same(n, name) && IsSpanName(name)
    ensures Opens("<" + n + ">", Tag(name, "span"))
  {
    hide Listed, AllowTag, FirstAllowed, Starts;
    var o := "<" + n + ">";
    NamedIsTag(o, n, name, ">");
    NotAllowed(o, n, name, ">");
    NotBreak(o, n, name, ">");
    NamedNoGt(o, n, name, ">");
    BareSpan(o, n, name);
  }

  lemma BareSpan(o: string, n: string, name: Name)
    requires Named(o, n, name, ">") && IsSpanName(name)
    ensures SpanName(o, 0) == Some(name)
  {
    hide Starts, IsFont, IsColouredBody, Named;
    assert "<" + "u" + ">" == "<u>" && "<" + "underline" + ">" == "<underline>" && "<" + "s" + ">" == "<s>";
    assert "<" + "strike" + ">" == "<strike>" && "<" + "sub" + ">" == "<sub>" && "<" + "sup" + ">" == "<sup>";
    BareIs(o, n, name, "u");
    BareIs(o, n, name, "underline");
    BareIs(o, n, name, "s");
    BareIs(o, n, name, "strike");
    BareIs(o, n, name, "sub");
    BareIs(o, n, name, "sup");
  }

  /** A tag of another name is not one of these. */
  lemma NotSpan(o: string, n: string, name: Name, rest: string)
    requires Named(o, n, name, rest) && !IsSpanName(name)
    ensures SpanName(o, 0) == if IsFont(o, 0) then Some("font") else if IsColouredBody(o, 0) then Some("body") else None
  {
    hide Starts, IsFont, IsColouredBody, Named;
    assert "<" + "u" + ">" == "<u>" && "<" + "underline" + ">" == "<underline>" && "<" + "s" + ">" == "<s>";
    assert "<" + "strike" + ">" == "<strike>" && "<" + "sub" + ">" == "<sub>" && "<" + "sup" + ">" == "<sup>";
    NotThis(o, n, name, rest, "u");
    NotThis(o, n, name, rest, "underline");
    NotThis(o, n, name, rest, "s");
    NotThis(o, n, name, rest, "strike");
    NotThis(o, n, name, rest, "sub");
    NotThis(o, n, name, rest, "sup");
  }

  lemma NotThis(o: string, n: string, name: Name, rest: string, m: Name)
    requires Named(o, n, name, rest) && m != name
    ensures !Starts(o, 0, "<" + m + ">")
  {
    if Starts(o, 0, "<" + m + ">") {
      StartsLess(o, 0, "<" + m, ">");
      StartsHead(o, 1 + |m|, ">");
      OtherName(o, n, name, rest, m);
    }
  }

  /** Font tags, in any case and with any attributes that have no '>'. */
  lemma FontTag(n: string, attrs: string)
    requires Same(n, "font") && NUL !in attrs && '>' !in attrs && (attrs != "" ==> attrs[0] == ' ')
    ensures Opens("<" + n + (attrs + ">"), Tag("font", "span"))
  {
    hide Listed, AllowTag, FirstAllowed, IsBreak, SpanName;
    var rest := attrs + ">";
    var o := "<" + n + rest;
    NamedIsTag(o, n, "font", rest);
    NotAllowed(o, n, "font", rest);
    NotBreak(o, n, "font", rest);
    NamedNoGt(o, n, "font", rest);
    NamedAt(o, n, "font", rest, 0);
    NotSpan(o, n, "font", rest);
    assert "<" + "font" == "<font";
  }

  /** Body tags: with a background colour they become spans, otherwise they are allowed. */
  lemma BodyTag(n: string, attrs: string)
    requires Same(n, "body") && NUL !in attrs && Quiet(attrs, NUL)
    ensures Opens("<" + n + ">", BODY)
    ensures
      var o := "<" + n + (" " + attrs + ">");
      if HasBgcolor(o, 0) then '>' !in attrs ==> Opens(o, Tag("body", "span"))
      else if Closed(attrs) then Stands(o, Empty("body"))
      else Opens(o, BODY)
  {
    hide Listed, FirstAllowed, AllowTag, IsBreak, SpanName, IsFont, Quiet, Closed;
    BareTag(n, "body", "body");
    BodyIsSpan("<" + n + ">", n, ">");
    AttrsTag(n, "body", attrs, "body");
    var rest := " " + attrs + ">";
    BodyIsSpan("<" + n + rest, n, rest);
    if '>' !in attrs {
      NamedNoGt("<" + n + rest, n, "body", rest);
    }
  }

  lemma BodySpace(o: string, n: string, rest: string)
    requires Named(o, n, "body", rest)
    ensures Starts(o, 0, "<body ") <==> rest[0] == ' '
  {
    NamedIsTag(o, n, "body", rest);
    NamedAt(o, n, "body", rest, 0);
    assert "<" + "body" == "<body" && "<body" + " " == "<body ";
    if rest[0] == ' ' {
      StartsMore(o, 0, "<body", " ");
    }
    if Starts(o, 0, "<body ") {
      StartsLess(o, 0, "<body", " ");
      StartsHead(o, 5, " ");
    }
  }

  lemma BodyIsSpan(o: string, n: string, rest: string)
    requires Named(o, n, "body", rest)
    ensures IsTag(o) && FirstAllowed(o, 0, [], ALLOWED).None? && !IsBreak(o, 0)
    ensures SpanName(o, 0) == if rest[0] == ' ' && HasBgcolor(o, 0) then Some("body") else None
  {
    hide Listed, FirstAllowed, AllowTag, IsBreak, HasBgcolor, Terminated;
    NamedIsTag(o, n, "body", rest);
    NotAllowed(o, n, "body", rest);
    NotBreak(o, n, "body", rest);
    NotSpan(o, n, "body", rest);
    NamedAt(o, n, "body", rest, 0);
    BodySpace(o, n, rest);
    if IsFont(o, 0) {
      assert "<" + "font" == "<font";
      OtherName(o, n, "body", rest, "font");
    }
  }
}
