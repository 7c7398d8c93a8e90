/** The forum markup formatter (frontend/bbcode.py): the search for the closing
    token of a tag and the recursive rendering. */
module BBFormat {
  import opened Basics
  import opened BBEscape
  import opened BBTokens

  /** What the formatter is given: its settings, `_transform`, `str.strip` and
      the render functions of the tags. */
  datatype Renderer = Renderer(
    newline: string,
    escapeHtml: bool,
    replaceLinks: bool,
    replaceCosmetic: bool,
    transform: (string, bool, bool, bool) -> string,
    strip: string -> string,
    render: (string, Option<string>, Options, Option<TagOptions>) -> string)

  predicate Known(g: Grammar, ts: seq<Token>) {
    forall t :: t in ts && t.TagStart? ==> t.name in g.tags
  }

  // -------------------------------------------------- the closing token

  /** The starts of a tag that need an end of their own. */
  function Starts(tag: TagOptions, ts: seq<Token>): nat {
    if ts == [] || !tag.renderEmbedded then 0
    else Starts(tag, ts[..|ts| - 1]) + if IsStart(tag.tagName, ts[|ts| - 1]) then 1 else 0
  }

  function Ends(name: string, ts: seq<Token>): nat {
    if ts == [] then 0
    else Ends(name, ts[..|ts| - 1]) + if IsEnd(name, ts[|ts| - 1]) then 1 else 0
  }

  predicate IsStart(name: string, t: Token) {
    t.TagStart? && t.name == name
  }

  predicate IsEnd(name: string, t: Token) {
    t.TagEnd? && t.name == name
  }

  /** `t` closes the tag that was opened before `body`. */
  predicate Closes(tag: TagOptions, body: seq<Token>, t: Token) {
    || (t.NewLine? && tag.newlineCloses)
    || (IsStart(tag.tagName, t) && tag.sameTagCloses)
    || (IsEnd(tag.tagName, t) && Ends(tag.tagName, body) >= Starts(tag, body))
  }

  /** None of the first `n` tokens closes the tag that was opened before them. */
  predicate Unclosed(tag: TagOptions, ts: seq<Token>, n: nat)
    requires n <= |ts|
  {
    forall k :: 0 <= k < n ==> !Closes(tag, ts[..k], ts[k])
  }

  /** The tag opened before `ts` is closed at `end`, or by the end of the list. */
  predicate ClosedAt(tag: TagOptions, ts: seq<Token>, end: nat) {
    && end <= |ts|
    && Unclosed(tag, ts, end)
    && (end < |ts| ==> Closes(tag, ts[..end], ts[end]))
  }

  lemma ClosedAtUnique(tag: TagOptions, ts: seq<Token>, i: nat, j: nat)
    requires ClosedAt(tag, ts, i) && ClosedAt(tag, ts, j)
    ensures i == j
  {
    hide Closes;
  }

  function Closing(tag: TagOptions, ts: seq<Token>, from: nat): (end: nat)
    requires from <= |ts|
    ensures from <= end <= |ts|
    decreases |ts| - from
  {
    if from == |ts| || Closes(tag, ts[..from], ts[from]) then from else Closing(tag, ts, from + 1)
  }

  lemma {:induction false} ClosingCloses(tag: TagOptions, ts: seq<Token>, from: nat)
    requires from <= |ts| && Unclosed(tag, ts, from)
    ensures ClosedAt(tag, ts, Closing(tag, ts, from))
    decreases |ts| - from
  {
    hide Closes;
    if from < |ts| && !Closes(tag, ts[..from], ts[from]) {
      ClosingCloses(tag, ts, from + 1);
    }
  }

  lemma CountNext(tag: TagOptions, ts: seq<Token>, k: nat)
    requires k < |ts|
    ensures Starts(tag, ts[..k + 1]) ==
            Starts(tag, ts[..k]) + if tag.renderEmbedded && IsStart(tag.tagName, ts[k]) then 1 else 0
    ensures Ends(tag.tagName, ts[..k + 1]) == Ends(tag.tagName, ts[..k]) + if IsEnd(tag.tagName, ts[k]) then 1 else 0
  {
    assert ts[..k + 1][..k] == ts[..k] && ts[..k + 1][k] == ts[k];
  }

  /** `_find_closing_token`: the first closing token from `start` on, and whether
      it goes with the tag. */
  method FindClosingToken(tag: TagOptions, tokens: seq<Token>, start: nat)
    returns (end: nat, consume: bool)
    requires start <= |tokens|
    ensures start <= end <= |tokens|
    ensures ClosedAt(tag, tokens[start..], end - start)
    ensures consume <==> end == |tokens| || !tokens[end].TagStart?
  {
    var embedCount: nat := 0;
    var pos := start;
    ghost var ts := tokens[start..];
    assert ts[..0] == [];
    while pos < |tokens|
      invariant start <= pos <= |tokens|
      invariant Unclosed(tag, ts, pos - start)
      invariant embedCount == Starts(tag, ts[..pos - start]) - Ends(tag.tagName, ts[..pos - start])
    {
      var token := tokens[pos];
      assert token == ts[pos - start];
      CountNext(tag, ts, pos - start);
      if token.NewLine? && tag.newlineCloses {
        return pos, true;
      } else if token.TagStart? && token.name == tag.tagName {
        if tag.sameTagCloses {
          return pos, false;
        }
        if tag.renderEmbedded {
          embedCount := embedCount + 1;
        }
      } else if token.TagEnd? && token.name == tag.tagName {
        if embedCount > 0 {
          embedCount := embedCount - 1;
        } else {
          return pos, true;
        }
      }
      pos := pos + 1;
    }
    return pos, true;
  }

  // ------------------------------------------------------ the tag tree

  /** A text as the formatter reads it. `closer` holds the tokens that end a tag
      and are not rendered: none, the closing token, or it and a line end. */
  datatype Node =
    | Leaf(token: Token)
    | Element(open: Token, tag: TagOptions, body: seq<Node>, closer: seq<Token>)
    | Raw(open: Token, tag: TagOptions, inner: seq<Token>, closer: seq<Token>)

  /** Where the tokens after a tag start; `end` is the position of its closing token. */
  function AfterTag(tag: TagOptions, ts: seq<Token>, end: nat): (next: nat)
    requires end <= |ts|
    ensures end <= next <= |ts|
  {
    if end == |ts| || ts[end].TagStart? then end
    else if tag.swallowTrailingNewline && end + 1 < |ts| && ts[end + 1].NewLine? then end + 2
    else end + 1
  }

  predicate Opens(g: Grammar, t: Token)
    requires t.TagStart? ==> t.name in g.tags
  {
    t.TagStart? && !g.tags[t.name].standalone
  }

  function Tree(g: Grammar, ts: seq<Token>): seq<Node>
    requires Known(g, ts)
    decreases |ts|, 0
  {
    if ts == [] then []
    else if Opens(g, ts[0]) then
      var tag := g.tags[ts[0].name];
      var rest := ts[1..];
      var end := Closing(tag, rest, 0);
      var next := AfterTag(tag, rest, end);
      [TagNode(g, tag, ts[0], rest[..end], rest[end..next])] + Tree(g, rest[next..])
    else
      [Leaf(ts[0])] + Tree(g, ts[1..])
  }

  function TagNode(g: Grammar, tag: TagOptions, open: Token, inner: seq<Token>, closer: seq<Token>): Node
    requires Known(g, inner)
    decreases |inner|, 1
  {
    if tag.renderEmbedded then Element(open, tag, Tree(g, inner), closer) else Raw(open, tag, inner, closer)
  }

  function RenderAll(r: Renderer, nodes: seq<Node>, parent: Option<TagOptions>): string {
    if nodes == [] then "" else RenderNode(r, nodes[0], parent) + RenderAll(r, nodes[1..], parent)
  }

  function RenderNode(r: Renderer, node: Node, parent: Option<TagOptions>): string {
    match node
    case Leaf(token) => RenderToken(r, token, parent)
    case Element(open, tag, body, _) => Finish(r, open, tag, RenderAll(r, body, Some(tag)), parent)
    case Raw(open, tag, inner, _) =>
      Finish(r, open, tag, r.transform(Joined(inner), tag.escapeHtml, tag.replaceLinks, tag.replaceCosmetic), parent)
  }

  function RenderToken(r: Renderer, t: Token, parent: Option<TagOptions>): string {
    match t
    case TagStart(name, options, _) => r.render(name, None, options, parent)
    case TagEnd(_, _) => ""
    case NewLine => if parent.None? then r.newline else "\n"
    case Data(text) =>
      if parent.None? then r.transform(text, r.escapeHtml, r.replaceLinks, r.replaceCosmetic)
      else r.transform(text, parent.value.escapeHtml, parent.value.replaceLinks, parent.value.replaceCosmetic)
  }

  /** What happens to the inside of a tag once it is rendered. */
  function Finish(r: Renderer, open: Token, tag: TagOptions, inner: string, parent: Option<TagOptions>): string {
    var stripped := if tag.strip then r.strip(inner) else inner;
    var value := if tag.transformNewlines then Replace(stripped, "\n", r.newline) else stripped;
    if open.TagStart? then r.render(open.name, Some(value), open.options, parent) else value
  }

  /** The tokens from `idx` on; the formatter steps one past the end after a tag
      that the end of the list closed. */
  function From(ts: seq<Token>, idx: nat): seq<Token> {
    if idx <= |ts| then ts[idx..] else []
  }

  lemma KnownFrom(g: Grammar, ts: seq<Token>, i: nat, j: nat)
    requires Known(g, ts) && i <= j <= |ts|
    ensures Known(g, ts[i..j]) && Known(g, From(ts, i))
  {
    assert forall t :: t in ts[i..j] ==> t in ts;
    assert forall t :: t in ts[i..] ==> t in ts;
  }

  /** One unfolding of the tree of a list that starts with a tag. */
  lemma TreeUnfolds(g: Grammar, ts: seq<Token>)
    requires Known(g, ts) && ts != [] && Opens(g, ts[0])
    ensures var tag, rest := g.tags[ts[0].name], ts[1..];
      var end := Closing(tag, rest, 0);
      var next := AfterTag(tag, rest, end);
      Known(g, rest[..end]) && Known(g, rest[next..]) &&
      Tree(g, ts) == [TagNode(g, tag, ts[0], rest[..end], rest[end..next])] + Tree(g, rest[next..])
  {
    hide TagNode, AfterTag, Closing;
  }

  /** A list that starts with a tag, cut at the tag's end. */
  ghost predicate CutAt(tag: TagOptions, ts: seq<Token>, k: nat, inner: seq<Token>, closer: seq<Token>, tail: seq<Token>) {
    && 1 + k <= |ts| && ClosedAt(tag, ts[1..], k)
    && var next := AfterTag(tag, ts[1..], k);
       inner == ts[1..][..k] && closer == ts[1..][k..next] && tail == ts[1..][next..]
  }

  lemma TreeOfFirst(g: Grammar, ts: seq<Token>, k: nat, inner: seq<Token>, closer: seq<Token>, tail: seq<Token>)
    requires Known(g, ts) && ts != [] && Opens(g, ts[0])
    requires CutAt(g.tags[ts[0].name], ts, k, inner, closer, tail)
    ensures Known(g, inner) && Known(g, tail)
    ensures Tree(g, ts) == [TagNode(g, g.tags[ts[0].name], ts[0], inner, closer)] + Tree(g, tail)
  {
    hide ClosedAt, TagNode, AfterTag, Tree, Closing;
    var tag := g.tags[ts[0].name];
    NothingCloses(tag, ts[1..]);
    ClosingCloses(tag, ts[1..], 0);
    ClosedAtUnique(tag, ts[1..], k, Closing(tag, ts[1..], 0));
    TreeUnfolds(g, ts);
  }

  lemma CutFrom(tag: TagOptions, ts: seq<Token>, idx: nat, end: nat)
    requires idx < end <= |ts| && ClosedAt(tag, ts[idx + 1..], end - idx - 1)
    ensures var next := AfterTag(tag, ts, end);
      CutAt(tag, ts[idx..], end - idx - 1, ts[idx + 1..end], ts[end..next], ts[next..])
  {
    hide ClosedAt;
    var rest, k, next := ts[idx + 1..], end - idx - 1, AfterTag(tag, ts, end);
    assert ts[idx..][1..] == rest;
    assert AfterTag(tag, rest, k) == next - idx - 1;
    assert rest[..k] == ts[idx + 1..end] && rest[k..next - idx - 1] == ts[end..next] && rest[next - idx - 1..] == ts[next..];
  }

  lemma TreeOfTag(g: Grammar, ts: seq<Token>, idx: nat, end: nat)
    requires Known(g, ts) && idx < |ts| && Opens(g, ts[idx])
    requires idx < end <= |ts| && ClosedAt(g.tags[ts[idx].name], ts[idx + 1..], end - idx - 1)
    ensures var tag := g.tags[ts[idx].name];
      var next := AfterTag(tag, ts, end);
      Known(g, ts[idx..]) && Known(g, ts[idx + 1..end]) && Known(g, ts[next..]) &&
      Tree(g, ts[idx..]) == [TagNode(g, tag, ts[idx], ts[idx + 1..end], ts[end..next])] + Tree(g, ts[next..])
  {
    KnownHere(g, ts, idx);
    hide ClosedAt, TagNode, Known, AfterTag, Tree, Closing, Opens, From, CutAt;
    var tag := g.tags[ts[idx].name];
    var next := AfterTag(tag, ts, end);
    KnownFrom(g, ts, idx, |ts|);
    assert ts[idx..|ts|] == ts[idx..] && ts[idx..][0] == ts[idx];
    CutFrom(tag, ts, idx, end);
    TreeOfFirst(g, ts[idx..], end - idx - 1, ts[idx + 1..end], ts[end..next], ts[next..]);
  }

  lemma NothingCloses(tag: TagOptions, ts: seq<Token>)
    ensures Unclosed(tag, ts, 0)
  {
  }

  lemma TreeOfLeaf(g: Grammar, ts: seq<Token>, idx: nat)
    requires Known(g, ts) && idx < |ts| && !Opens(g, ts[idx])
    ensures Known(g, ts[idx..]) && Known(g, ts[idx + 1..])
    ensures Tree(g, ts[idx..]) == [Leaf(ts[idx])] + Tree(g, ts[idx + 1..])
  {
    hide Known;
    KnownFrom(g, ts, idx, |ts|);
    KnownFrom(g, ts, idx + 1, |ts|);
    assert ts[idx..][1..] == ts[idx + 1..];
  }

  lemma RenderFirst(r: Renderer, node: Node, rest: seq<Node>, parent: Option<TagOptions>, done: string)
    ensures done + RenderAll(r, [node] + rest, parent) ==
            (done + RenderNode(r, node, parent)) + RenderAll(r, rest, parent)
  {
    assert ([node] + rest)[1..] == rest;
  }

  /** `_format_tokens`. */
  method FormatTokens(r: Renderer, g: Grammar, tokens: seq<Token>, parent: Option<TagOptions>)
    returns (formatted: string)
    requires Known(g, tokens)
    ensures formatted == RenderAll(r, Tree(g, tokens), parent)
    decreases |tokens|
  {
    hide Tree, RenderAll, Known, Replace, Joined, ClosedAt, TagNode, RenderNode, From;
    var idx := 0;
    formatted := "";
    KnownFrom(g, tokens, 0, |tokens|);
    FromNext(tokens, 0, 0);
    assert tokens[0..] == tokens;
    while idx < |tokens|
      invariant Known(g, From(tokens, idx))
      invariant formatted + RenderAll(r, Tree(g, From(tokens, idx)), parent) == RenderAll(r, Tree(g, tokens), parent)
      decreases |tokens| - idx
    {
      var token := tokens[idx];
      ghost var done := formatted;
      KnownHere(g, tokens, idx);
      FromNext(tokens, idx, idx);
      if token.TagStart? && !g.tags[token.name].standalone {
        var tag := g.tags[token.name];
        var end, consume := FindClosingToken(tag, tokens, idx + 1);
        var subtokens := tokens[idx + 1..end];
        TreeOfTag(g, tokens, idx, end);
        ghost var next := AfterTag(tag, tokens, end);
        ghost var node := TagNode(g, tag, token, subtokens, tokens[end..next]);
        RenderFirst(r, node, Tree(g, tokens[next..]), parent, formatted);
        TagRendered(r, g, tag, token, subtokens, tokens[end..next], parent);
        if !consume {
          end := end - 1;
        }
        var inner;
        if tag.renderEmbedded {
          inner := FormatTokens(r, g, subtokens, Some(tag));
        } else {
          inner := r.transform(Joined(subtokens), tag.escapeHtml, tag.replaceLinks, tag.replaceCosmetic);
        }
        if tag.strip {
          inner := r.strip(inner);
        }
        if tag.transformNewlines {
          inner := Replace(inner, "\n", r.newline);
        }
        formatted := formatted + r.render(token.name, Some(inner), token.options, parent);
        assert formatted == done + RenderNode(r, node, parent);
        if tag.swallowTrailingNewline && end + 1 < |tokens| && tokens[end + 1].NewLine? {
          end := end + 1;
        }
        idx := end;
        FromNext(tokens, idx + 1, next);
      } else {
        TreeOfLeaf(g, tokens, idx);
        RenderFirst(r, Leaf(token), Tree(g, tokens[idx + 1..]), parent, formatted);
        LeafRendered(r, token, parent);
        FromNext(tokens, idx + 1, idx + 1);
        if token.TagStart? {
          formatted := formatted + r.render(token.name, None, token.options, parent);
        } else if token.NewLine? {
          formatted := formatted + if parent.None? then r.newline else TextOf(token);
        } else if token.Data? {
          var escape := if parent.None? then r.escapeHtml else parent.value.escapeHtml;
          var links := if parent.None? then r.replaceLinks else parent.value.replaceLinks;
          var cosmetic := if parent.None? then r.replaceCosmetic else parent.value.replaceCosmetic;
          formatted := formatted + r.transform(token.text, escape, links, cosmetic);
        }
        assert formatted == done + RenderToken(r, token, parent);
      }
      idx := idx + 1;
    }
    NothingRendered(r, g, tokens, idx, parent);
  }

  lemma KnownHere(g: Grammar, ts: seq<Token>, idx: nat)
    requires Known(g, ts) && idx < |ts|
    ensures ts[idx].TagStart? ==> ts[idx].name in g.tags
  {
  }

  lemma LeafRendered(r: Renderer, t: Token, parent: Option<TagOptions>)
    ensures RenderNode(r, Leaf(t), parent) == RenderToken(r, t, parent)
  {
  }

  lemma TagRendered(r: Renderer, g: Grammar, tag: TagOptions, open: Token, inner: seq<Token>, closer: seq<Token>,
                    parent: Option<TagOptions>)
    requires Known(g, inner)
    ensures RenderNode(r, TagNode(g, tag, open, inner, closer), parent) ==
            Finish(r, open, tag,
                   if tag.renderEmbedded then RenderAll(r, Tree(g, inner), Some(tag))
                   else r.transform(Joined(inner), tag.escapeHtml, tag.replaceLinks, tag.replaceCosmetic), parent)
  {
    hide Tree, RenderAll, Known, Finish, Joined;
  }

  lemma FromNext(ts: seq<Token>, idx: nat, next: nat)
    requires next <= |ts|
    requires idx == next || (next == |ts| && idx == next + 1)
    ensures From(ts, idx) == ts[next..]
  {
  }

  lemma NothingRendered(r: Renderer, g: Grammar, ts: seq<Token>, idx: nat, parent: Option<TagOptions>)
    requires idx >= |ts| && Known(g, From(ts, idx))
    ensures RenderAll(r, Tree(g, From(ts, idx)), parent) == ""
  {
  }
}
