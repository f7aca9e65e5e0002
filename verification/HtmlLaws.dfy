/** What the parts of the conversion mean, character by character: which texts are tags, what a closing tag closes,
    and what the plain text of a token is. */
module HtmlLaws {
  import opened Wrappers
  import opened Html
  import opened HtmlDocs

  // -------------------------------------------------------------- comparison without case

  /** The text from i on is lit, with letters as they are or as capitals. */
  predicate Reads(s: string, i: nat, lit: string) {
    i + |lit| <= |s| && Same(s[i..i + |lit|], lit)
  }

  lemma StartsIff(s: string, i: nat, lit: string)
    requires i <= |s| && forall k :: 0 <= k < |lit| ==> lit[k] != NUL && !('A' <= lit[k] <= 'Z')
    ensures Starts(s, i, lit) <==> Reads(s, i, lit)
  {
    if Starts(s, i, lit) {
      forall k | 0 <= k < |lit|
        ensures i + k < |s| && Cased(At(s, i + k), lit[k])
      {
        CasedLower(At(s, i + k), lit[k]);
        CasedLower(NUL, lit[k]);
        assert Lower(At(s, i + k)) == Lower(lit[k]);
      }
      if lit != "" {
        var l := lit[|lit| - 1];
        var t := s[i..i + |lit|];
        assert forall k :: 0 <= k < |lit| ==> t[k] == At(s, i + k);
      }
    } else {
      var k :| 0 <= k < |lit| && Lower(At(s, i + k)) != Lower(lit[k]);
      CasedLower(At(s, i + k), lit[k]);
    }
  }

  // ------------------------------------------------------------------------ closing tags

  /** A closing tag of that name stands at c, where "</" has been read. */
  predicate ClosesName(s: string, c: nat, name: string) {
    c + 2 + |name| < |s| && Same(s[c + 2..c + 2 + |name|], name) && s[c + 2 + |name|] == '>'
  }

  lemma ClosesIff(s: string, c: nat, t: Tag)
    requires c + 2 <= |s|
    ensures Closes(s, c, t) <==> ClosesName(s, c, t.src)
  {
    StartsIff(s, c + 2, t.src);
  }

  lemma {:induction false} ClosingsAre(tags: seq<Tag>, i: nat)
    requires i < |tags|
    ensures Closings(tags)[i] == Close(tags[i].dest)
    decreases i
  {
    if i > 0 { ClosingsAre(tags[1..], i - 1); }
  }

  /** A closing tag closes the innermost open tag of its name, and with it all that is open inside. */
  lemma ClosesDownTo(s: string, c: nat, tags: seq<Tag>, k: nat)
    requires c + 2 <= |s| && k < |tags| && ClosesName(s, c, tags[k].src)
    requires forall i :: 0 <= i < k ==> !ClosesName(s, c, tags[i].src)
    ensures var st := CloseStep(s, c, tags);
      && |st.out| == k + 1 && forall i :: 0 <= i <= k ==> st.out[i] == Close(tags[i].dest)
    ensures var st := CloseStep(s, c, tags);
      st.plain == "" && st.tags == tags[k + 1..] && st.next == c + |tags[k].src| + 3
  {
    forall i | 0 <= i <= k
      ensures Closes(s, c, tags[i]) <==> ClosesName(s, c, tags[i].src)
    {
      ClosesIff(s, c, tags[i]);
    }
    var j := Innermost(s, c, tags);
    assert j == k;
    forall i | 0 <= i <= k
      ensures Closings(tags[..k + 1])[i] == Close(tags[i].dest)
    {
      ClosingsAre(tags[..k + 1], i);
    }
  }

  /** A closing tag of no open name is escaped. */
  lemma ClosesNothing(s: string, c: nat, tags: seq<Tag>)
    requires c + 2 <= |s| && forall i :: 0 <= i < |tags| ==> !ClosesName(s, c, tags[i].src)
    ensures CloseStep(s, c, tags) == Step([Lt], "<", tags, c + 1)
  {
    var k := Innermost(s, c, tags);
    if k < |tags| { ClosesIff(s, c, tags[k]); }
  }

  // ------------------------------------------------------------------------ opening tags

  predicate IsBlock(name: string) {
    || name == "blockquote" || name == "div" || name == "li" || name == "ol"
    || name == "p" || name == "pre" || name == "ul" || name == "html"
  }

  predicate IsHeading(name: string) {
    || name == "h1" || name == "h2" || name == "h3" || name == "h4" || name == "h5" || name == "h6"
  }

  predicate IsInline(name: string) {
    || name == "a" || name == "cite" || name == "em" || name == "q" || name == "span" || name == "strong"
  }

  /** The element that is made of a tag of the table. */
  predicate Becomes(name: string, dest: string) {
    || (dest == name && (IsBlock(name) || IsHeading(name) || IsInline(name)))
    || (dest == "strong" && (name == "b" || name == "bold"))
    || (dest == "em" && (name == "i" || name == "italic"))
  }

  lemma {:induction false} ListedIn(name: Name, table: seq<Tag>)
    ensures Listed(name, table).Some? ==> Tag(name, Listed(name, table).value) in table
    ensures (exists t :: t in table && t.src == name) ==> Listed(name, table).Some?
    decreases table
  {
    if table != [] && table[0].src != name {
      ListedIn(name, table[1..]);
      forall t | t in table && t.src == name ensures t in table[1..] {
      }
    }
  }

  lemma TableRow(i: nat)
    requires i < 24
    ensures |ALLOWED| == 24 && Becomes(ALLOWED[i].src, ALLOWED[i].dest)
  {
  }

  lemma BlockThere(name: Name)
    requires IsBlock(name)
    ensures exists t :: t in ALLOWED && t.src == name
  {
    assert ALLOWED[2].src == name || ALLOWED[5].src == name || ALLOWED[16].src == name || ALLOWED[17].src == name
      || ALLOWED[18].src == name || ALLOWED[19].src == name || ALLOWED[23].src == name || ALLOWED[13].src == name;
  }

  lemma HeadingThere(name: Name)
    requires IsHeading(name)
    ensures exists t :: t in ALLOWED && t.src == name
  {
    assert ALLOWED[7].src == name || ALLOWED[8].src == name || ALLOWED[9].src == name || ALLOWED[10].src == name
      || ALLOWED[11].src == name || ALLOWED[12].src == name;
  }

  lemma InlineThere(name: Name)
    requires IsInline(name)
    ensures exists t :: t in ALLOWED && t.src == name
  {
    assert ALLOWED[0].src == name || ALLOWED[4].src == name || ALLOWED[6].src == name || ALLOWED[20].src == name
      || ALLOWED[21].src == name || ALLOWED[22].src == name;
  }

  lemma OtherThere(name: Name)
    requires name == "b" || name == "bold" || name == "i" || name == "italic"
    ensures exists t :: t in ALLOWED && t.src == name
  {
    assert ALLOWED[1].src == name || ALLOWED[3].src == name || ALLOWED[14].src == name || ALLOWED[15].src == name;
  }

  lemma ListedBecomes(name: Name)
    requires Listed(name, ALLOWED).Some?
    ensures Becomes(name, Listed(name, ALLOWED).value)
  {
    hide Listed, Becomes;
    ListedIn(name, ALLOWED);
    var t := Tag(name, Listed(name, ALLOWED).value);
    var i :| 0 <= i < |ALLOWED| && ALLOWED[i] == t;
    TableLength();
    TableRow(i);
  }

  /** The table has those rows, and no others. */
  lemma TableIs(name: Name, dest: string)
    ensures Listed(name, ALLOWED) == Some(dest) <==> Becomes(name, dest)
  {
    hide Listed, Becomes;
    if Listed(name, ALLOWED).Some? { ListedBecomes(name); }
    if Becomes(name, dest) {
      BecomesListed(name, dest);
      BecomesOne(name, dest, Listed(name, ALLOWED).value);
    }
  }

  lemma BecomesOne(name: Name, d: string, e: string)
    requires Becomes(name, d) && Becomes(name, e)
    ensures d == e
  {
  }

  lemma BecomesListed(name: Name, dest: string)
    requires Becomes(name, dest)
    ensures Listed(name, ALLOWED).Some?
  {
    hide Listed, IsBlock, IsHeading, IsInline;
    ListedIn(name, ALLOWED);
    if IsBlock(name) { BlockThere(name); }
    else if IsHeading(name) { HeadingThere(name); }
    else if IsInline(name) { InlineThere(name); }
    else { OtherThere(name); }
  }

  lemma TableLength()
    ensures |ALLOWED| == 24
  {
  }

  /** A tag of that name begins at c: the name ends where it ends. */
  predicate TagAt(s: string, c: nat, name: string) {
    && c + 1 + |name| < |s| && s[c] == '<' && Same(s[c + 1..c + 1 + |name|], name)
    && (s[c + 1 + |name|] == ' ' || s[c + 1 + |name|] == '>' || s[c + 1 + |name|] == '/')
  }

  lemma TagStarts(s: string, c: nat, name: Name, e: char)
    requires c < |s| && Starts(s, c, "<" + name) && At(s, c + 1 + |name|) == e && (e == ' ' || e == '>' || e == '/')
    ensures TagAt(s, c, name)
  {
    var lit := "<" + name;
    StartsIff(s, c, lit);
    var t := s[c..c + |lit|];
    assert Cased(t[0], lit[0]);
    forall k | 0 <= k < |name|
      ensures Cased(s[c + 1..c + 1 + |name|][k], name[k])
    {
      assert Cased(t[k + 1], lit[k + 1]);
    }
  }

  lemma LitAt(s: string, i: nat, lit: string)
    requires i <= |s| && Starts(s, i, lit) && lit != "" && lit[0] != NUL && !('A' <= lit[0] <= 'Z')
    ensures Cased(At(s, i), lit[0])
  {
    StartsHead(s, i, lit);
    CasedLower(At(s, i), lit[0]);
  }

  lemma AllowedAt(s: string, c: nat, tags: seq<Tag>, t: Tag)
    requires c < |s| && AllowTag(s, c, tags, t).Some?
    ensures TagAt(s, c, t.src)
    ensures var st := AllowTag(s, c, tags, t).value;
      || st == Step([Lt], "<", tags, c + 1)
      || (st.out == [Open(t.dest)] && st.tags == [t] + tags)
      || st.out == [Empty(t.dest)]
  {
    var lit := "<" + t.src;
    var n := c + 1 + |t.src|;
    if Starts(s, c, lit + " ") {
      StartsLess(s, c, lit, " ");
      StartsInside(s, c, lit);
      LitAt(s, n, " ");
      TagStarts(s, c, t.src, ' ');
    } else {
      StartsInside(s, c, lit);
      if Starts(s, n, "/>") { LitAt(s, n, "/>"); }
      TagStarts(s, c, t.src, At(s, n));
    }
  }

  lemma {:induction false} FirstAt(s: string, c: nat, tags: seq<Tag>, table: seq<Tag>)
    requires c < |s| && FirstAllowed(s, c, tags, table).Some?
    ensures exists t :: t in table && AllowTag(s, c, tags, t) == FirstAllowed(s, c, tags, table)
    decreases table
  {
    if AllowTag(s, c, tags, table[0]).None? {
      FirstAt(s, c, tags, table[1..]);
      var t :| t in table[1..] && AllowTag(s, c, tags, t) == FirstAllowed(s, c, tags, table[1..]);
      assert t in table;
    }
  }

  /** What element a tag of that name may make. */
  predicate Makes(name: string, dest: string) {
    Becomes(name, dest) || (dest == "span" && (IsSpanName(name) || name == "font" || name == "body"))
      || (name == "body" && dest == "body")
  }

  lemma BreakAt(s: string, c: nat)
    requires c < |s| && IsBreak(s, c)
    ensures TagAt(s, c, "br") || TagAt(s, c, "hr")
  {
    assert "<" + "br" == "<br" && "<" + "hr" == "<hr";
    StartsInside(s, c, if Starts(s, c, "<br") then "<br" else "<hr");
    if Starts(s, c + 3, "/>") { LitAt(s, c + 3, "/>"); }
    if Starts(s, c + 3, " />") { LitAt(s, c + 3, " />"); }
    TagStarts(s, c, if Starts(s, c, "<br") then "br" else "hr", At(s, c + 3));
  }

  lemma BareAt(s: string, c: nat, name: Name)
    requires c < |s| && Starts(s, c, "<" + name + ">")
    ensures TagAt(s, c, name)
  {
    StartsLess(s, c, "<" + name, ">");
    StartsInside(s, c, "<" + name);
    LitAt(s, c + 1 + |name|, ">");
    TagStarts(s, c, name, '>');
  }

  lemma FontAt(s: string, c: nat)
    requires c < |s| && IsFont(s, c)
    ensures TagAt(s, c, "font")
  {
    assert "<" + "font" == "<font";
    TagStarts(s, c, "font", At(s, c + 5));
  }

  lemma BodyAt(s: string, c: nat)
    requires c < |s| && IsColouredBody(s, c)
    ensures TagAt(s, c, "body")
  {
    assert "<" + "body" == "<body" && "<body" + " " == "<body ";
    StartsLess(s, c, "<body", " ");
    StartsInside(s, c, "<body");
    LitAt(s, c + 5, " ");
    TagStarts(s, c, "body", ' ');
  }

  lemma SpanAt(s: string, c: nat)
    requires c < |s| && SpanName(s, c).Some?
    ensures TagAt(s, c, SpanName(s, c).value) && Makes(SpanName(s, c).value, "span")
  {
    hide TagAt, IsFont, IsColouredBody, Starts, Becomes;
    var name: Name := SpanName(s, c).value;
    assert "<" + "u" + ">" == "<u>" && "<" + "underline" + ">" == "<underline>" && "<" + "s" + ">" == "<s>";
    assert "<" + "strike" + ">" == "<strike>" && "<" + "sub" + ">" == "<sub>" && "<" + "sup" + ">" == "<sup>";
    if name == "font" { FontAt(s, c); } else if name == "body" { BodyAt(s, c); } else { BareAt(s, c, name); }
  }

  /** Nothing but a tag of one of the names is taken for one; what is not, and begins no comment, is escaped. */
  lemma OnlyTags(s: string, c: nat, tags: seq<Tag>)
    requires c < |s| && Terminated(s)
    ensures var st := OpenStep(s, c, tags);
      match st.out[0]
      case Open(d) => exists name: Name {:trigger TagAt(s, c, name)} ::
        TagAt(s, c, name) && Makes(name, d) && st.tags == [Tag(name, d)] + tags
      case Empty(d) => exists name: Name {:trigger TagAt(s, c, name)} :: TagAt(s, c, name) && Makes(name, d)
      case Break => TagAt(s, c, "br") || TagAt(s, c, "hr")
      case CommentStart => Reads(s, c, "<!--")
      case Lt => st.out == [Lt] && st.plain == "<" && st.tags == tags && st.next == c + 1
      case Char(_) => false
      case Close(_) => false
  {
    hide AllowTag, FirstAllowed, IsBreak, SpanName, Becomes, Terminated, TagAt;
    if FirstAllowed(s, c, tags, ALLOWED).Some? {
      FirstAt(s, c, tags, ALLOWED);
      var t :| t in ALLOWED && AllowTag(s, c, tags, t) == FirstAllowed(s, c, tags, ALLOWED);
      AllowedAt(s, c, tags, t);
      RowBecomes(t);
    } else if IsBreak(s, c) {
      BreakAt(s, c);
    } else if SpanName(s, c).Some? {
      SpanAt(s, c);
    } else if AllowTag(s, c, tags, BODY).Some? {
      AllowedAt(s, c, tags, BODY);
    } else {
      StartsIff(s, c, "<!--");
    }
  }

  lemma RowBecomes(t: Tag)
    requires t in ALLOWED
    ensures Becomes(t.src, t.dest)
  {
    hide Becomes;
    TableLength();
    var i :| 0 <= i < |ALLOWED| && ALLOWED[i] == t;
    TableRow(i);
  }

  lemma {:induction false} OccursIff(s: string, p: nat, lit: string)
    requires forall k :: 0 <= k < |lit| ==> lit[k] != NUL && !('A' <= lit[k] <= 'Z')
    ensures Occurs(s, p, lit) <==> exists i: nat :: p <= i < |s| && Reads(s, i, lit)
    decreases |s| - p
  {
    if p < |s| {
      StartsIff(s, p, lit);
      OccursIff(s, p + 1, lit);
    }
  }

  lemma NoTagThere(s: string, c: nat, name: Name)
    requires Reads(s, c, "<!--") && name != ""
    ensures !TagAt(s, c, name)
  {
    var t := s[c..c + 4];
    assert Cased(t[1], '!');
    var u := if c + 1 + |name| <= |s| then s[c + 1..c + 1 + |name|] else "";
    assert u != "" ==> u[0] == t[1];
  }

  /** A comment is opened if it is closed somewhere behind, and is escaped otherwise. */
  lemma Comment(s: string, c: nat, tags: seq<Tag>)
    requires c < |s| && Terminated(s) && Reads(s, c, "<!--")
    ensures OpenStep(s, c, tags) ==
      if exists i: nat :: c + 4 <= i < |s| && Reads(s, i, "-->") then Step([CommentStart], "", tags, c + 4)
      else Step([Lt], "<", tags, c + 1)
  {
    StartsIff(s, c, "<!--");
    OccursIff(s, c + 4, "-->");
    hide TagAt, Reads, AllowTag, FirstAllowed, IsBreak, SpanName, Starts, Occurs, Terminated;
    if FirstAllowed(s, c, tags, ALLOWED).Some? {
      FirstAt(s, c, tags, ALLOWED);
      var t :| t in ALLOWED && AllowTag(s, c, tags, t) == FirstAllowed(s, c, tags, ALLOWED);
      AllowedAt(s, c, tags, t);
      RowBecomes(t);
      BecomesNamed(t.src, t.dest);
      NoTagThere(s, c, t.src);
    }
    if IsBreak(s, c) {
      BreakAt(s, c);
      NoTagThere(s, c, "br");
      NoTagThere(s, c, "hr");
    }
    if SpanName(s, c).Some? {
      SpanAt(s, c);
      SpanNamed(s, c);
      NoTagThere(s, c, SpanName(s, c).value);
    }
    if AllowTag(s, c, tags, BODY).Some? {
      AllowedAt(s, c, tags, BODY);
      NoTagThere(s, c, "body");
    }
  }

  lemma SpanNamed(s: string, c: nat)
    requires SpanName(s, c).Some?
    ensures SpanName(s, c).value != ""
  {
    hide Starts, IsFont, IsColouredBody;
  }

  // ------------------------------------------------------------------- the tags there are

  /** A tag of the table, in any case: bare, closed by itself, or with attributes. */
  lemma AllowedTag(n: string, name: Name, dest: string, attrs: string)
    requires Becomes(name, dest) && Same(n, name) && NUL !in attrs && Quiet(attrs, NUL)
    ensures Opens("<" + n + ">", Tag(name, dest)) && Stands("<" + n + "/>", Empty(dest))
    ensures
      var o := "<" + n + (" " + attrs + ">");
      if attrs != "" && attrs[|attrs| - 1] == '/' then Stands(o, Empty(dest)) else Opens(o, Tag(name, dest))
  {
    hide Becomes, Same, Quiet, Opens, Stands, Listed;
    BecomesNamed(name, dest);
    TableIs(name, dest);
    AllowedTags(n, name, attrs);
  }

  lemma BecomesNamed(name: string, dest: string)
    requires Becomes(name, dest)
    ensures name != ""
  {
  }

  /** Attributes without quotes and without '<' and '>' are quiet. */
  lemma {:induction false} PlainQuiet(attrs: string)
    requires forall k | 0 <= k < |attrs| :: attrs[k] != '\"' && attrs[k] != '\'' && attrs[k] != '<' && attrs[k] != '>'
    ensures Quiet(attrs, NUL)
    decreases attrs
  {
    if attrs != "" {
      PlainQuiet(attrs[1..]);
    }
  }

  /** Between quotes of one kind there may be anything but such a quote. */
  lemma {:induction false} QuotedQuiet(a: string, q: char, v: string, b: string)
    requires Quiet(a, NUL) && (q == '\"' || q == '\'') && q !in v && Quiet(b, NUL)
    ensures Quiet(a + [q] + v + [q] + b, NUL)
  {
    QuoteEnds(q, v, b);
    var c := [q] + v + [q] + b;
    assert c[1..] == v + [q] + b;
    QuietThen(a, NUL, c);
    assert a + [q] + v + [q] + b == a + c;
  }

  lemma {:induction false} QuoteEnds(q: char, v: string, b: string)
    requires (q == '\"' || q == '\'') && q !in v && Quiet(b, NUL)
    ensures Quiet(v + [q] + b, q)
    decreases v
  {
    var c := v + [q] + b;
    if v == "" {
      assert c[1..] == b;
    } else {
      assert v[0] in v && c[1..] == v[1..] + [q] + b;
      QuoteEnds(q, v[1..], b);
    }
  }

  lemma {:induction false} QuietThen(a: string, q: char, b: string)
    requires Quiet(a, q) && Quiet(b, NUL)
    ensures Quiet(a + b, q)
    decreases a
  {
    if a == "" {
      assert a + b == b;
    } else {
      assert (a + b)[1..] == a[1..] + b;
      QuietThen(a[1..], if q == NUL && (a[0] == '\"' || a[0] == '\'') then a[0] else if a[0] == q then NUL else q, b);
    }
  }

  /** No quote, no '>', and no end of the string. */
  predicate Unquoted(attrs: string) {
    forall k | 0 <= k < |attrs| :: attrs[k] != '\"' && attrs[k] != '\'' && attrs[k] != '>' && attrs[k] != NUL
  }

  lemma {:induction false} ScanOpen(s: string, o: nat, attrs: string, lt: bool)
    requires o + |attrs| <= |s| && s[o..o + |attrs|] == attrs && Unquoted(attrs)
    ensures ScanAttrs(s, o, NUL, lt) == ScanAttrs(s, o + |attrs|, NUL, lt || '<' in attrs)
    decreases attrs
  {
    if attrs != "" {
      assert s[o] == s[o..o + |attrs|][0];
      assert s[o + 1..o + 1 + |attrs[1..]|] == s[o..o + |attrs|][1..] == attrs[1..];
      assert '<' in attrs <==> attrs[0] == '<' || '<' in attrs[1..];
      ScanOpen(s, o + 1, attrs[1..], lt || attrs[0] == '<');
    }
  }

  /** A tag of the table whose attributes have a '<' before their '>', or no '>', is escaped. */
  lemma NotATag(n: string, name: Name, dest: string, attrs: string, end: string)
    requires Becomes(name, dest) && Same(n, name) && Unquoted(attrs)
    requires (end == ">" && '<' in attrs) || end == ""
    ensures AllowTag("<" + n + (" " + attrs + end), 0, [], Tag(name, dest)) == Some(Step([Lt], "<", [], 1))
  {
    BecomesNamed(name, dest);
    var s := "<" + n + (" " + attrs + end);
    SpacedStarts(s, n, name, " " + attrs + end);
    assert s[1 + |n|..] == " " + attrs + end;
    ScanFails(s, 1 + |n|, attrs, end);
    hide ScanAttrs, Starts, Same, Becomes, Unquoted;
  }

  lemma ScanFails(s: string, o: nat, attrs: string, end: string)
    requires o <= |s| && s[o..] == " " + attrs + end && Unquoted(attrs)
    requires (end == ">" && '<' in attrs) || end == ""
    ensures var a := ScanAttrs(s, o, NUL, false); !a.found || a.lt
  {
    var all := " " + attrs;
    assert s[o..o + |all|] == all;
    assert Unquoted(all) && ('<' in all <==> '<' in attrs);
    ScanOpen(s, o, all, false);
    assert end == ">" ==> s[o..][|all|] == '>';
  }

  lemma SpacedStarts(s: string, n: string, name: Name, rest: string)
    requires s == "<" + n + rest && Same(n, name) && rest != "" && rest[0] == ' '
    ensures Starts(s, 0, "<" + name + " ")
  {
    var lit := "<" + name + " ";
    var t := s[0..|lit|];
    forall k | 0 <= k < |lit|
      ensures Cased(t[k], lit[k])
    {
      assert k == 0 || k == |lit| - 1 || (t[k] == n[k - 1] && lit[k] == name[k - 1]);
    }
    StartsIff(s, 0, lit);
  }

  /** A body tag is coloured if "bgcolor=" comes, in any case, before its '>'. */
  lemma {:induction false} BgcolorIff(s: string, p: nat)
    requires p <= |s|
    ensures HasBgcolor(s, p) <==> exists i: nat :: p <= i < |s| && Reads(s, i, "bgcolor=") && '>' !in s[p..i]
    decreases |s| - p
  {
    if p < |s| && s[p] != '>' {
      BgcolorIff(s, p + 1);
      StartsIff(s, p, "bgcolor=");
      forall i: nat | p < i < |s| ensures s[p..i] == [s[p]] + s[p + 1..i] {
      }
    }
  }

  // ------------------------------------------------------------------ what the outputs mean

  /** An element is closed by its own name, and what is not opened or closed changes nothing. */
  lemma Nesting(open: seq<string>, name: string, t: Token)
    ensures Applied(open, Open(name)) == Some([name] + open) && Applied([name] + open, Close(name)) == Some(open)
    ensures Applied([], Close(name)).None? && (open != [] && open[0] != name ==> Applied(open, Close(name)).None?)
    ensures !t.Open? && !t.Close? ==> Applied(open, t) == Some(open)
  {
    assert ([name] + open)[1..] == open;
  }

  /** Characters are their own text, an escaped '<' is one, a break is a line break unless a line break follows, and
      the rest says nothing. */
  lemma PlainText(out: seq<Token>, c: char, next: char, t: Token)
    ensures Text([], next) == "" && Text(out + [Char(c)], next) == Text(out, c) + [c]
    ensures Text(out + [Lt], next) == Text(out, NUL) + "<"
    ensures Text(out + [Break], next) == Text(out, NUL) + (if next == '\n' then "" else "\n")
    ensures t.Open? || t.Close? || t.Empty? || t.CommentStart? ==> Text(out + [t], next) == Text(out, NUL)
  {
    TextOne(out, Char(c), next);
    TextOne(out, Lt, next);
    TextOne(out, Break, next);
    TextOne(out, t, next);
  }

  const SAMPLE: string := "<B>x</b><BR>y"
  const MADE: seq<Token> := [Open("strong"), Char('x'), Close("strong"), Break, Char('y')]

  lemma MadeText()
    ensures Text(MADE, NUL) == "x\ny"
  {
    PlainText([], 'x', 'x', Open("strong"));
    hide Text;
    var a := [] + [Open("strong")];
    PlainText(a, 'x', NUL, Lt);
    var b := a + [Char('x')];
    PlainText(b, 'x', NUL, Close("strong"));
    var c := b + [Close("strong")];
    PlainText(c, 'x', 'y', Lt);
    PlainText(c + [Break], 'y', NUL, Lt);
    assert c + [Break] + [Char('y')] == MADE;
  }

  lemma SampleSource(d: Doc)
    requires d == Elem("<B>", Tag("b", "strong"), "b", Txt('x', End), Single("<BR>", Break, Txt('y', End)))
    ensures Source(d) == SAMPLE && Target(d) == MADE
  {
    var after := Single("<BR>", Break, Txt('y', End));
    assert Source(after) == "<BR>y" && Target(after) == [Break, Char('y')];
    assert Source(Txt('x', End)) == "x" && Target(Txt('x', End)) == [Char('x')];
  }

  /** A whole input: capitals, a name that changes, and a break. */
  lemma Sample()
    ensures Terminated(SAMPLE) && Outcome(SAMPLE) == Page(MADE, "x\ny", [])
  {
    hide Opens, Stands, Same, Terminated, Outcome, Text, Source, Target, Proper;
    var d := Elem("<B>", Tag("b", "strong"), "b", Txt('x', End), Single("<BR>", Break, Txt('y', End)));
    SampleOpen();
    SampleBreak();
    SampleProper(d);
    DocBalanced(d);
    SampleSource(d);
    MadeText();
  }

  lemma SampleOpen()
    ensures Opens("<B>", Tag("b", "strong")) && Same("b", "b")
  {
    hide Opens, Stands;
    assert Becomes("b", "strong");
    AllowedTag("B", "b", "strong", "");
    assert "<" + "B" + ">" == "<B>";
  }

  lemma SampleBreak()
    ensures Stands("<BR>", Break)
  {
    hide Stands;
    BreakTag("BR", "br", ">");
    assert "<" + "BR" + ">" == "<BR>";
  }

  lemma SampleProper(d: Doc)
    requires d == Elem("<B>", Tag("b", "strong"), "b", Txt('x', End), Single("<BR>", Break, Txt('y', End)))
    requires Opens("<B>", Tag("b", "strong")) && Same("b", "b") && Stands("<BR>", Break)
    ensures Proper(d)
  {
    hide Opens, Stands, Same;
    assert Proper(Txt('y', End)) && Proper(Txt('x', End));
  }
}
