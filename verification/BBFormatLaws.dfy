/** What the formatter does with the tokens it is given: each of them has one
    place in the tag tree, tags nest properly, and plain text passes through. */
module BBFormatLaws {
  import opened Basics
  import opened BBEscape
  import opened BBTokens
  import opened BBFormat

  // ------------------------------------------- every token in one place

  /** The tokens of a tag tree, in order. */
  function Flat(nodes: seq<Node>): seq<Token> {
    if nodes == [] then [] else FlatNode(nodes[0]) + Flat(nodes[1..])
  }

  function FlatNode(node: Node): seq<Token> {
    match node
    case Leaf(token) => [token]
    case Element(open, _, body, closer) => [open] + Flat(body) + closer
    case Raw(open, _, inner, closer) => [open] + inner + closer
  }

  lemma FlatFirst(node: Node, rest: seq<Node>)
    ensures Flat([node] + rest) == FlatNode(node) + Flat(rest)
  {
    assert ([node] + rest)[1..] == rest;
  }

  lemma TreeCases(g: Grammar, ts: seq<Token>) returns (end: nat, next: nat)
    requires Known(g, ts) && ts != []
    ensures Opens(g, ts[0]) ==>
      var tag := g.tags[ts[0].name];
      && end < next + 1 && 1 <= end <= next <= |ts|
      && ClosedAt(tag, ts[1..], end - 1) && next == AfterTag(tag, ts, end)
      && Known(g, ts[1..end]) && Known(g, ts[next..])
      && Tree(g, ts) == [TagNode(g, tag, ts[0], ts[1..end], ts[end..next])] + Tree(g, ts[next..])
    ensures !Opens(g, ts[0]) ==> Known(g, ts[1..]) && Tree(g, ts) == [Leaf(ts[0])] + Tree(g, ts[1..])
  {
    hide Known, Tree, TagNode;
    KnownHere(g, ts, 0);
    assert ts[0..] == ts;
    if Opens(g, ts[0]) {
      var tag := g.tags[ts[0].name];
      NothingCloses(tag, ts[1..]);
      ClosingCloses(tag, ts[1..], 0);
      end := Closing(tag, ts[1..], 0) + 1;
      next := AfterTag(tag, ts, end);
      TreeOfTag(g, ts, 0, end);
    } else {
      end, next := 0, 0;
      TreeOfLeaf(g, ts, 0);
    }
  }

  /** No token is lost, repeated or moved by the formatter. */
  lemma {:induction false} TreeKeepsTokens(g: Grammar, ts: seq<Token>)
    requires Known(g, ts)
    ensures Flat(Tree(g, ts)) == ts
    decreases |ts|
  {
    hide Known, Tree, Flat, ClosedAt, AfterTag;
    if ts == [] {
      EmptyTree(g);
    } else {
      KnownHere(g, ts, 0);
      var end, next := TreeCases(g, ts);
      if Opens(g, ts[0]) {
        var tag := g.tags[ts[0].name];
        TreeKeepsTokens(g, ts[1..end]);
        TreeKeepsTokens(g, ts[next..]);
        FlatFirst(TagNode(g, tag, ts[0], ts[1..end], ts[end..next]), Tree(g, ts[next..]));
        assert ts == [ts[0]] + ts[1..end] + ts[end..next] + ts[next..];
      } else {
        TreeKeepsTokens(g, ts[1..]);
        FlatFirst(Leaf(ts[0]), Tree(g, ts[1..]));
      }
    }
  }

  lemma EmptyTree(g: Grammar)
    ensures Known(g, []) && Tree(g, []) == [] && Flat([]) == []
  {
  }

  // ------------------------------------------------------ proper nesting

  /** The tag's inside holds nothing that closes it, and what follows closes it:
      the closing token and at most one line end, or nothing when the list ended
      or the same tag starts again. */
  predicate Nested(g: Grammar, nodes: seq<Node>) {
    nodes == [] || (NestedNode(g, nodes[0]) && Nested(g, nodes[1..]))
  }

  predicate NestedNode(g: Grammar, node: Node) {
    match node
    case Leaf(t) => t.TagStart? ==> t.name in g.tags && g.tags[t.name].standalone
    case Element(open, tag, body, closer) =>
      tag.renderEmbedded && TagOfNode(g, open, tag) && Enclosed(tag, Flat(body), closer) && Nested(g, body)
    case Raw(open, tag, inner, closer) =>
      !tag.renderEmbedded && TagOfNode(g, open, tag) && Enclosed(tag, inner, closer)
  }

  predicate TagOfNode(g: Grammar, open: Token, tag: TagOptions) {
    open.TagStart? && open.name in g.tags && tag == g.tags[open.name] && !tag.standalone
  }

  predicate Enclosed(tag: TagOptions, inner: seq<Token>, closer: seq<Token>) {
    && Unclosed(tag, inner, |inner|)
    && (closer != [] ==> !closer[0].TagStart? && Closes(tag, inner, closer[0]))
    && (|closer| > 1 ==> tag.swallowTrailingNewline && closer[1].NewLine?)
    && |closer| <= 2
  }

  lemma EnclosedByClosing(tag: TagOptions, ts: seq<Token>, end: nat, next: nat)
    requires 1 <= end <= next <= |ts|
    requires ClosedAt(tag, ts[1..], end - 1) && next == AfterTag(tag, ts, end)
    ensures Enclosed(tag, ts[1..end], ts[end..next])
  {
    hide Closes;
    var rest, inner := ts[1..], ts[1..end];
    assert rest[..end - 1] == inner;
    forall k | 0 <= k < |inner|
      ensures !Closes(tag, inner[..k], inner[k])
    {
      assert inner[..k] == rest[..k] && inner[k] == rest[k];
    }
  }

  lemma NestedFirst(g: Grammar, node: Node, rest: seq<Node>)
    requires NestedNode(g, node) && Nested(g, rest)
    ensures Nested(g, [node] + rest)
  {
    assert ([node] + rest)[1..] == rest;
  }

  lemma {:induction false} TreeIsNested(g: Grammar, ts: seq<Token>)
    requires Known(g, ts)
    ensures Nested(g, Tree(g, ts))
    decreases |ts|
  {
    hide Known, Tree, Flat, ClosedAt, AfterTag, Enclosed, Nested;
    if ts == [] {
      EmptyNested(g);
    } else {
      KnownHere(g, ts, 0);
      var end, next := TreeCases(g, ts);
      if Opens(g, ts[0]) {
        var tag := g.tags[ts[0].name];
        EnclosedByClosing(tag, ts, end, next);
        TreeIsNested(g, ts[1..end]);
        TreeKeepsTokens(g, ts[1..end]);
        TreeIsNested(g, ts[next..]);
        NestedFirst(g, TagNode(g, tag, ts[0], ts[1..end], ts[end..next]), Tree(g, ts[next..]));
      } else {
        TreeIsNested(g, ts[1..]);
        NestedFirst(g, Leaf(ts[0]), Tree(g, ts[1..]));
      }
    }
  }

  lemma EmptyNested(g: Grammar)
    ensures Known(g, []) && Nested(g, Tree(g, []))
  {
  }

  /** Starts and ends of a tag match inside `ts`. */
  predicate Balanced(tag: TagOptions, ts: seq<Token>) {
    && (forall k :: 0 <= k < |ts| && IsEnd(tag.tagName, ts[k]) ==>
         Ends(tag.tagName, ts[..k]) < Starts(tag, ts[..k]))
    && Ends(tag.tagName, ts) >= Starts(tag, ts)
  }

  /** A tag around a balanced text ends at its own end, not at an inner one. */
  lemma MatchingEnd(tag: TagOptions, body: seq<Token>, end: Token, after: seq<Token>)
    requires tag.renderEmbedded && !tag.newlineCloses && !tag.sameTagCloses
    requires Balanced(tag, body) && IsEnd(tag.tagName, end)
    ensures ClosedAt(tag, body + [end] + after, |body|)
  {
    hide Starts, Ends;
    var ts := body + [end] + after;
    assert ts[..|body|] == body;
    forall k | 0 <= k < |body|
      ensures !Closes(tag, ts[..k], ts[k])
    {
      assert ts[..k] == body[..k] && ts[k] == body[k];
    }
  }

  // ---------------------------------------------------------- plain text

  /** The data and, when wanted, the line ends. */
  function Stripped(ts: seq<Token>, stripNewlines: bool): string {
    if ts == [] then "" else Plain(ts[0], stripNewlines) + Stripped(ts[1..], stripNewlines)
  }

  function Plain(t: Token, stripNewlines: bool): string {
    if t.Data? then t.text else if t.NewLine? && !stripNewlines then "\n" else ""
  }

  lemma Regroup(x: string, y: string, z: string)
    ensures x + (y + z) == (x + y) + z
  {
  }

  lemma {:induction false} StrippedJoin(a: seq<Token>, b: seq<Token>, stripNewlines: bool)
    ensures Stripped(a + b, stripNewlines) == Stripped(a, stripNewlines) + Stripped(b, stripNewlines)
  {
    if a == [] {
      assert a + b == b;
    } else {
      hide Plain;
      StrippedJoin(a[1..], b, stripNewlines);
      assert (a + b)[1..] == a[1..] + b && (a + b)[0] == a[0];
      Regroup(Plain(a[0], stripNewlines), Stripped(a[1..], stripNewlines), Stripped(b, stripNewlines));
    }
  }

  /** `strip`. */
  method Strip(g: Grammar, data: string, normalizeNewlines: bool, stripNewlines: bool) returns (text: string)
    ensures text == Stripped(Tokens(g, if normalizeNewlines then NormalNewlines(data) else data), stripNewlines)
  {
    hide TokensFrom, Stripped, NormalNewlines;
    var tokens := Tokenize(g, data, normalizeNewlines);
    text := "";
    assert tokens[..0] == [];
    StrippedNothing(stripNewlines);
    for k := 0 to |tokens|
      invariant text == Stripped(tokens[..k], stripNewlines)
    {
      StrippedNext(tokens, k, stripNewlines);
      if tokens[k].Data? {
        text := text + tokens[k].text;
      } else if tokens[k].NewLine? && !stripNewlines {
        text := text + TextOf(tokens[k]);
      }
    }
    assert tokens[..|tokens|] == tokens;
  }

  lemma StrippedNothing(stripNewlines: bool)
    ensures Stripped([], stripNewlines) == ""
  {
  }

  lemma StrippedNext(ts: seq<Token>, k: nat, stripNewlines: bool)
    requires k < |ts|
    ensures Stripped(ts[..k + 1], stripNewlines) == Stripped(ts[..k], stripNewlines) + Plain(ts[k], stripNewlines)
  {
    assert ts[..k + 1] == ts[..k] + [ts[k]];
    StrippedJoin(ts[..k], [ts[k]], stripNewlines);
    assert [ts[k]][1..] == [];
    assert Stripped([ts[k]], stripNewlines) == Plain(ts[k], stripNewlines) + "";
  }

  /** A renderer that adds nothing: text and line ends as they are, a tag is its
      inside and a standalone tag nothing. */
  ghost predicate Inert(r: Renderer) {
    && r.newline == "\n"
    && (forall s, e, l, c :: r.transform(s, e, l, c) == s)
    && (forall name, options, parent :: r.render(name, None, options, parent) == "")
    && (forall name, s, options, parent :: r.render(name, Some(s), options, parent) == s)
  }

  /** A tag that keeps all of its inside. */
  predicate KeepsInside(tag: TagOptions) {
    tag.renderEmbedded && !tag.newlineCloses && !tag.strip && !tag.swallowTrailingNewline
  }

  lemma {:induction false} NewlineForNewline(s: string)
    ensures Replace(s, "\n", "\n") == s
  {
    if s != "" {
      NewlineForNewline(s[1..]);
      assert s[..1] == "\n" ==> s == "\n" + s[1..];
    }
  }

  lemma InertTag(r: Renderer, open: Token, tag: TagOptions, inner: string, parent: Option<TagOptions>)
    requires Inert(r) && KeepsInside(tag)
    ensures Finish(r, open, tag, inner, parent) == inner
  {
    NewlineForNewline(inner);
  }

  lemma InertLeaf(r: Renderer, t: Token, parent: Option<TagOptions>)
    requires Inert(r)
    ensures RenderToken(r, t, parent) == Plain(t, false)
  {
  }

  lemma CloserIsSilent(tag: TagOptions, inner: seq<Token>, closer: seq<Token>)
    requires KeepsInside(tag) && Enclosed(tag, inner, closer)
    ensures Stripped(closer, false) == ""
  {
    if closer != [] {
      assert closer == [closer[0]] && closer[1..] == [];
    }
  }

  /** With an inert renderer the formatter and `strip` agree. */
  lemma {:induction false} InertIsStrip(r: Renderer, g: Grammar, nodes: seq<Node>, parent: Option<TagOptions>)
    requires Inert(r) && Nested(g, nodes)
    requires forall name :: name in g.tags ==> KeepsInside(g.tags[name])
    ensures RenderAll(r, nodes, parent) == Stripped(Flat(nodes), false)
    decreases nodes
  {
    hide Inert, Stripped;
    if nodes == [] {
      StrippedNothing(false);
    } else {
      InertNodeIsStrip(r, g, nodes[0], parent);
      InertIsStrip(r, g, nodes[1..], parent);
      StrippedJoin(FlatNode(nodes[0]), Flat(nodes[1..]), false);
    }
  }

  lemma {:induction false} InertNodeIsStrip(r: Renderer, g: Grammar, node: Node, parent: Option<TagOptions>)
    requires Inert(r) && NestedNode(g, node)
    requires forall name :: name in g.tags ==> KeepsInside(g.tags[name])
    ensures RenderNode(r, node, parent) == Stripped(FlatNode(node), false)
    decreases node
  {
    hide Inert, Stripped, Finish, Enclosed, KeepsInside, RenderToken;
    if node.Element? {
      InertIsStrip(r, g, node.body, Some(node.tag));
      InertTag(r, node.open, node.tag, RenderAll(r, node.body, Some(node.tag)), parent);
      CloserIsSilent(node.tag, Flat(node.body), node.closer);
      StrippedJoin([node.open] + Flat(node.body), node.closer, false);
      StrippedJoin([node.open], Flat(node.body), false);
      StrippedOne(node.open);
    } else if node.Leaf? {
      InertLeaf(r, node.token, parent);
      StrippedOne(node.token);
    } else {
      NeverRaw(node.tag);
    }
  }

  lemma NeverRaw(tag: TagOptions)
    ensures KeepsInside(tag) ==> tag.renderEmbedded
  {
  }

  lemma StrippedOne(t: Token)
    ensures Stripped([t], false) == Plain(t, false)
  {
    assert [t][1..] == [];
    assert Plain(t, false) + "" == Plain(t, false);
  }

  // ------------------------------------------------------- small texts

  /** Two lines of text, as tokens. */
  function TwoLines(a: string, b: string): seq<Token> {
    [Data(a), NewLine, Data(b)]
  }

  lemma TwoLinesHaveNoTag(tag: TagOptions, a: string, b: string, n: nat)
    requires n <= 3
    ensures Starts(tag, TwoLines(a, b)[..n]) == 0 && Ends(tag.tagName, TwoLines(a, b)[..n]) == 0
  {
    if n > 0 {
      TwoLinesHaveNoTag(tag, a, b, n - 1);
      CountNext(tag, TwoLines(a, b), n - 1);
    }
  }

  lemma TwoLinesClosed(tag: TagOptions, a: string, b: string, end: Token, tail: seq<Token>)
    requires !tag.newlineCloses && IsEnd(tag.tagName, end)
    ensures ClosedAt(tag, TwoLines(a, b) + [end] + tail, 3)
  {
    hide Starts, Ends;
    var body, ts := TwoLines(a, b), TwoLines(a, b) + [end] + tail;
    assert ts[..3] == body && body[..3] == body;
    TwoLinesHaveNoTag(tag, a, b, 3);
    forall k | 0 <= k < 3
      ensures !Closes(tag, ts[..k], ts[k])
    {
      assert ts[k] == body[k];
    }
  }

  lemma TwoLinesRendered(r: Renderer, g: Grammar, a: string, b: string, parent: Option<TagOptions>)
    ensures Known(g, TwoLines(a, b))
    ensures RenderAll(r, Tree(g, TwoLines(a, b)), parent) ==
            RenderToken(r, Data(a), parent) + RenderToken(r, NewLine, parent) + RenderToken(r, Data(b), parent)
  {
    var ts := TwoLines(a, b);
    EmptyTree(g);
    TreeOfLeaf(g, ts, 0);
    TreeOfLeaf(g, ts, 1);
    TreeOfLeaf(g, ts, 2);
    assert ts[0..] == ts && ts[3..] == [];
    hide Tree, RenderToken, RenderAll;
    NothingShown(r, g, parent);
    LeavesJoin(r, ts, Tree(g, ts[1..]), Tree(g, ts[2..]), Tree(g, ts[3..]), parent);
  }

  lemma NothingShown(r: Renderer, g: Grammar, parent: Option<TagOptions>)
    ensures RenderAll(r, Tree(g, []), parent) == ""
  {
  }

  lemma LeavesJoin(r: Renderer, ts: seq<Token>, after0: seq<Node>, after1: seq<Node>, after2: seq<Node>, parent: Option<TagOptions>)
    requires |ts| == 3 && after0 == [Leaf(ts[1])] + after1 && after1 == [Leaf(ts[2])] + after2
    requires RenderAll(r, after2, parent) == ""
    ensures RenderAll(r, [Leaf(ts[0])] + after0, parent) ==
            RenderToken(r, ts[0], parent) + RenderToken(r, ts[1], parent) + RenderToken(r, ts[2], parent)
  {
    hide RenderToken, RenderAll;
    var first := RenderToken(r, ts[0], parent);
    var both := first + RenderToken(r, ts[1], parent);
    RenderFirst(r, Leaf(ts[0]), after0, parent, "");
    RenderFirst(r, Leaf(ts[1]), after1, parent, first);
    RenderFirst(r, Leaf(ts[2]), after2, parent, both);
    assert "" + RenderAll(r, [Leaf(ts[0])] + after0, parent) == RenderAll(r, [Leaf(ts[0])] + after0, parent);
    assert "" + first == first;
  }

  lemma TwoLinesJoined(a: string, b: string)
    ensures Joined(TwoLines(a, b)) == a + "\n" + b
  {
    var ts := TwoLines(a, b);
    assert ts[1..] == [NewLine, Data(b)] && [NewLine, Data(b)][1..] == [Data(b)] && [Data(b)][1..] == [];
    assert Joined([Data(b)]) == b + "" == b;
    assert Joined([NewLine, Data(b)]) == "\n" + b;
    assert Joined(ts) == a + ("\n" + b);
  }

  /** Outside of tags text is transformed with the settings of the formatter and a
      line end becomes its line break. */
  lemma PlainTextRendered(r: Renderer, g: Grammar, a: string, b: string)
    ensures Known(g, TwoLines(a, b))
    ensures RenderAll(r, Tree(g, TwoLines(a, b)), None) ==
            r.transform(a, r.escapeHtml, r.replaceLinks, r.replaceCosmetic) + r.newline +
            r.transform(b, r.escapeHtml, r.replaceLinks, r.replaceCosmetic)
  {
    hide Tree, RenderAll, Known;
    TwoLinesRendered(r, g, a, b, None);
  }

  /** A text in a tag is transformed with the settings of the tag, line by line or,
      if the tag renders nothing inside, at once; then stripped and its line ends
      replaced if the tag asks for it, and handed to its render function once.  A
      line end right after the tag is shown unless the tag swallows it. */
  lemma OneTagRendered(r: Renderer, g: Grammar, open: Token, end: Token, a: string, b: string, tail: seq<Token>)
    requires tail == [] || tail == [NewLine]
    requires open.TagStart? && open.name in g.tags && IsEnd(open.name, end)
    requires var tag := g.tags[open.name]; tag.tagName == open.name && !tag.standalone && !tag.newlineCloses
    ensures var ts, tag := [open] + TwoLines(a, b) + [end] + tail, g.tags[open.name];
      var shown := (s: string) => r.transform(s, tag.escapeHtml, tag.replaceLinks, tag.replaceCosmetic);
      var inner := if tag.renderEmbedded then shown(a) + "\n" + shown(b) else shown(a + "\n" + b);
      var kept := if tag.strip then r.strip(inner) else inner;
      var value := if tag.transformNewlines then Replace(kept, "\n", r.newline) else kept;
      && Known(g, ts)
      && RenderAll(r, Tree(g, ts), None) ==
         r.render(open.name, Some(value), open.options, None) +
         if tail == [] || tag.swallowTrailingNewline then "" else r.newline
  {
    hide ClosedAt, Tree, Starts, Ends, Joined, Replace, RenderAll, Known, TagNode;
    var ts, tag, body := [open] + TwoLines(a, b) + [end] + tail, g.tags[open.name], TwoLines(a, b);
    TwoLinesClosed(tag, a, b, end, tail);
    TwoLinesJoined(a, b);
    TwoLinesRendered(r, g, a, b, Some(tag));
    var closer, rest := OneTagCut(g, open, end, body, tail);
    TreeOfFirst(g, ts, 3, body, closer, rest);
    var node := TagNode(g, tag, open, body, closer);
    RenderFirst(r, node, Tree(g, rest), None, "");
    TagShown(r, g, tag, open, body, closer, None);
    TailRendered(r, g, rest);
    assert "" + RenderAll(r, Tree(g, ts), None) == RenderAll(r, Tree(g, ts), None);
    assert "" + RenderNode(r, node, None) == RenderNode(r, node, None);
  }

  lemma TailRendered(r: Renderer, g: Grammar, tail: seq<Token>)
    requires tail == [] || tail == [NewLine]
    ensures Known(g, tail) && RenderAll(r, Tree(g, tail), None) == if tail == [] then "" else r.newline
  {
    if tail != [] {
      assert tail[0..] == tail && tail[1..] == [];
      TreeOfLeaf(g, tail, 0);
      hide Tree;
      NothingShown(r, g, None);
      RenderFirst(r, Leaf(NewLine), Tree(g, []), None, "");
    }
  }

  /** Where a tag around three tokens ends. */
  lemma OneTagCut(g: Grammar, open: Token, end: Token, body: seq<Token>, tail: seq<Token>)
    returns (closer: seq<Token>, rest: seq<Token>)
    requires open.TagStart? && open.name in g.tags && !end.NewLine? && !end.TagStart? && |body| == 3
    requires (forall t :: t in body ==> !t.TagStart?) && (tail == [] || tail == [NewLine])
    requires ClosedAt(g.tags[open.name], body + [end] + tail, 3)
    ensures var ts := [open] + body + [end] + tail;
      && Known(g, ts) && CutAt(g.tags[open.name], ts, 3, body, closer, rest)
      && rest == if g.tags[open.name].swallowTrailingNewline then [] else tail
  {
    hide ClosedAt;
    var ts, tokens := [open] + body + [end] + tail, body + [end] + tail;
    assert ts[1..] == tokens;
    assert tokens[..3] == body && tokens[3] == end && tokens[4..] == tail && tokens[|tokens|..] == [];
    closer := tokens[3..AfterTag(g.tags[open.name], tokens, 3)];
    rest := if g.tags[open.name].swallowTrailingNewline then [] else tail;
  }

  /** What a node shows, whether its inside is rendered or not. */
  lemma TagShown(r: Renderer, g: Grammar, tag: TagOptions, open: Token, inner: seq<Token>, closer: seq<Token>,
                 parent: Option<TagOptions>)
    requires Known(g, inner)
    ensures RenderNode(r, TagNode(g, tag, open, inner, closer), parent) ==
            Finish(r, open, tag,
                   if tag.renderEmbedded then RenderAll(r, Tree(g, inner), Some(tag))
                   else r.transform(Joined(inner), tag.escapeHtml, tag.replaceLinks, tag.replaceCosmetic), parent)
  {
    hide Finish, Known;
  }

  /** A standalone tag is handed to its render function without a text. */
  lemma StandaloneRendered(r: Renderer, g: Grammar, open: Token)
    requires open.TagStart? && open.name in g.tags && g.tags[open.name].standalone
    ensures Known(g, [open]) && RenderAll(r, Tree(g, [open]), None) == r.render(open.name, None, open.options, None)
  {
    var ts := [open];
    assert ts[0..] == ts && ts[1..] == [];
    TreeOfLeaf(g, ts, 0);
    hide Tree;
    NothingShown(r, g, None);
    RenderFirst(r, Leaf(open), Tree(g, []), None, "");
  }

  // -------------------------------------------------- the whole pipeline

  lemma PlainKnown(g: Grammar, s: string)
    ensures Known(g, NewlineTokens(s))
  {
    hide NewlineTokens;
    NewlineTokensCanonical(s);
  }

  lemma KnownThree(g: Grammar, a: seq<Token>, b: seq<Token>, c: seq<Token>, all: seq<Token>)
    requires Known(g, a) && Known(g, b) && Known(g, c)
    requires [] + all == ([] + a + b) + c
    ensures Known(g, all)
  {
    assert [] + all == all;
  }

  /** The formatter finds every tag it is given in its table. */
  lemma {:induction false} TokensKnown(g: Grammar, s: string, pos: nat)
    requires pos <= |s|
    ensures Known(g, TokensFrom(g, s, pos))
    decreases |s| - pos
  {
    hide NewlineTokens, Find, TagOf, Known, TokensFrom, Before, Bracketed;
    EmptyTree(g);
    if pos == |s| {
      NoTokensLeft(g, s);
    } else if Find(s, '[', pos) < 0 {
      StepPlain(g, s, pos);
      PlainKnown(g, s[pos..]);
    } else {
      var start := Find(s, '[', pos);
      var end, newCheck := Find(s, ']', start), Find(s, '[', start + 1);
      var before, all := Before(s, pos, start), TokensFrom(g, s, pos);
      BeforeKnown(g, s, pos, start);
      if 0 < newCheck < end {
        PlainKnown(g, s[start..newCheck]);
        TokensKnown(g, s, newCheck);
        StepOpened(g, s, pos, []);
        KnownThree(g, before, NewlineTokens(s[start..newCheck]), TokensFrom(g, s, newCheck), all);
      } else if end > start {
        BracketedKnown(g, s[start..end + 1]);
        TokensKnown(g, s, end + 1);
        StepBracketed(g, s, pos, []);
        KnownThree(g, before, Bracketed(g, s[start..end + 1]), TokensFrom(g, s, end + 1), all);
      } else {
        PlainKnown(g, s[pos..]);
        StepUnmatched(g, s, pos, []);
        KnownThree(g, before, NewlineTokens(s[pos..]), [], all);
      }
    }
  }

  lemma BeforeKnown(g: Grammar, s: string, pos: nat, start: nat)
    requires pos <= start <= |s|
    ensures Known(g, Before(s, pos, start))
  {
    hide NewlineTokens;
    PlainKnown(g, s[pos..start]);
  }

  lemma BracketedKnown(g: Grammar, tag: string)
    requires |tag| >= 2
    ensures Known(g, Bracketed(g, tag))
  {
    hide NewlineTokens, TagOf;
    PlainKnown(g, tag);
  }

  /** `format`. */
  method Format(r: Renderer, g: Grammar, data: string, normalizeNewlines: bool) returns (html: string)
    ensures var tokens := Tokens(g, if normalizeNewlines then NormalNewlines(data) else data);
      Known(g, tokens) && html == RenderAll(r, Tree(g, tokens), None)
  {
    hide TokensFrom, Tree, RenderAll, Known, NormalNewlines;
    var tokens := Tokenize(g, data, normalizeNewlines);
    TokensKnown(g, if normalizeNewlines then NormalNewlines(data) else data, 0);
    html := FormatTokens(r, g, tokens, None);
  }

  /** With an inert renderer formatting a text is stripping it. */
  lemma InertFormatIsStrip(r: Renderer, g: Grammar, s: string)
    requires Inert(r)
    requires forall name :: name in g.tags ==> KeepsInside(g.tags[name])
    ensures Known(g, Tokens(g, s))
    ensures RenderAll(r, Tree(g, Tokens(g, s)), None) == Stripped(Tokens(g, s), false)
  {
    hide TokensFrom, Tree, RenderAll, Known, Inert, Stripped, Flat, Nested;
    TokensKnown(g, s, 0);
    TreeIsNested(g, Tokens(g, s));
    TreeKeepsTokens(g, Tokens(g, s));
    InertIsStrip(r, g, Tree(g, Tokens(g, s)), None);
  }
}
