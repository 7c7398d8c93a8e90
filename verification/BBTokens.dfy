/** The forum markup tokenizer (frontend/bbcode.py), for the default one-character
    tag delimiters. */
module BBTokens {
  import opened BBEscape

  type Options = map<string, string>

  datatype TagOptions = TagOptions(
    tagName: string,
    newlineCloses: bool,
    sameTagCloses: bool,
    standalone: bool,
    renderEmbedded: bool,
    transformNewlines: bool,
    escapeHtml: bool,
    replaceLinks: bool,
    replaceCosmetic: bool,
    strip: bool,
    swallowTrailingNewline: bool)

  /** The recognized tags, and the string routines whose details play no part here. */
  datatype Grammar = Grammar(
    tags: map<string, TagOptions>,
    strip: string -> string,
    lower: string -> string,
    parseOptions: string -> (string, Options))

  datatype Token =
    | TagStart(name: string, options: Options, text: string)
    | TagEnd(name: string, text: string)
    | NewLine
    | Data(text: string)

  function TextOf(t: Token): string {
    if t.NewLine? then "\n" else t.text
  }

  function Joined(ts: seq<Token>): string {
    if ts == [] then "" else TextOf(ts[0]) + Joined(ts[1..])
  }

  lemma {:induction false} JoinedJoins(a: seq<Token>, b: seq<Token>)
    ensures Joined(a + b) == Joined(a) + Joined(b)
  {
    if a == [] {
      assert a + b == b;
    } else {
      hide TextOf;
      JoinedJoins(a[1..], b);
      assert (a + b)[1..] == a[1..] + b && (a + b)[0] == a[0];
      assert TextOf(a[0]) + (Joined(a[1..]) + Joined(b)) == (TextOf(a[0]) + Joined(a[1..])) + Joined(b);
    }
  }

  /** `str.find` for one character: -1 when it does not occur from there on. */
  function Find(s: string, c: char, from: nat): (r: int)
    requires from <= |s|
    ensures r == -1 || (from <= r < |s| && s[r] == c)
    ensures forall i :: from <= i < (if r < 0 then |s| else r) ==> s[i] != c
    decreases |s| - from
  {
    if from == |s| then -1 else if s[from] == c then from else Find(s, c, from + 1)
  }

  /** The last occurrence before `to`. */
  function FindLast(s: string, c: char, to: nat): (r: int)
    requires to <= |s|
    ensures r == -1 || (0 <= r < to && s[r] == c)
    ensures forall i :: r < i < to ==> 0 <= i && s[i] != c
  {
    if to == 0 then -1 else if s[to - 1] == c then to - 1 else FindLast(s, c, to - 1)
  }

  // ------------------------------------------------- text without tags

  /** `str.split` at the line ends. */
  function Lines(s: string): (parts: seq<string>)
    ensures |parts| > 0
    decreases |s|
  {
    var i := Find(s, '\n', 0);
    if i < 0 then [s] else [s[..i]] + Lines(s[i + 1..])
  }

  function Piece(s: string): seq<Token> {
    if s != "" then [Data(s)] else []
  }

  function LineTokens(parts: seq<string>): seq<Token> {
    if parts == [] then []
    else Piece(parts[0]) + (if |parts| > 1 then [NewLine] else []) + LineTokens(parts[1..])
  }

  function NewlineTokens(s: string): seq<Token> {
    LineTokens(Lines(s))
  }

  lemma LineTokensSplit(parts: seq<string>, k: nat, done: seq<Token>)
    requires k < |parts|
    ensures var end: seq<Token> := if k < |parts| - 1 then [NewLine] else [];
      done + LineTokens(parts[k..]) == (done + Piece(parts[k]) + end) + LineTokens(parts[k + 1..])
  {
    hide Piece;
    assert parts[k..][1..] == parts[k + 1..];
  }

  /** `_newline_tokenize`. */
  method NewlineTokenize(data: string) returns (tokens: seq<Token>)
    ensures tokens == NewlineTokens(data)
  {
    var parts := Lines(data);
    tokens := [];
    hide Lines, LineTokens;
    for num := 0 to |parts|
      invariant tokens + LineTokens(parts[num..]) == LineTokens(parts)
    {
      ghost var done := tokens;
      LineTokensSplit(parts, num, done);
      if parts[num] != "" {
        tokens := tokens + [Data(parts[num])];
      }
      assert tokens == done + Piece(parts[num]);
      if num < |parts| - 1 {
        tokens := tokens + [NewLine];
      }
    }
    NoLines(parts);
  }

  lemma NoLines(parts: seq<string>)
    ensures LineTokens(parts[|parts|..]) == []
  {
  }

  lemma NewlineTokensStep(s: string)
    ensures var i := Find(s, '\n', 0);
      NewlineTokens(s) == if i < 0 then Piece(s) else Piece(s[..i]) + [NewLine] + NewlineTokens(s[i + 1..])
  {
    hide Find;
    var i := Find(s, '\n', 0);
    if i < 0 {
      assert [s][1..] == [];
      assert Piece(s) + [] + LineTokens([]) == Piece(s);
    } else {
      assert ([s[..i]] + Lines(s[i + 1..]))[1..] == Lines(s[i + 1..]);
    }
  }

  /** Line ends and non-empty pieces of lines, no two pieces side by side. */
  predicate Canonical(ts: seq<Token>) {
    && (forall t :: t in ts ==> t.NewLine? || (t.Data? && t.text != "" && '\n' !in t.text))
    && (forall i :: 0 < i < |ts| ==> ts[i - 1].NewLine? || ts[i].NewLine?)
  }

  lemma CanonicalJoin(d: string, rest: seq<Token>)
    requires '\n' !in d && Canonical(rest)
    ensures Canonical(Piece(d))
    ensures Canonical(Piece(d) + [NewLine] + rest)
    ensures Joined(Piece(d)) == d
    ensures Joined(Piece(d) + [NewLine] + rest) == d + "\n" + Joined(rest)
  {
    JoinedJoins(Piece(d) + [NewLine], rest);
    JoinedJoins(Piece(d), [NewLine]);
    assert Joined([NewLine]) == "\n" && Joined(Piece(d)) == d;
  }

  /** The text is kept, and cut at every line end and nowhere else. */
  lemma {:induction false} NewlineTokensCanonical(s: string)
    ensures Canonical(NewlineTokens(s))
    ensures Joined(NewlineTokens(s)) == s
    decreases |s|
  {
    hide NewlineTokens, Canonical, Joined, Piece;
    var i := Find(s, '\n', 0);
    NewlineTokensStep(s);
    if i < 0 {
      NothingCanonical();
      CanonicalJoin(s, []);
    } else {
      NewlineTokensCanonical(s[i + 1..]);
      CanonicalJoin(s[..i], NewlineTokens(s[i + 1..]));
      assert s == s[..i] + "\n" + s[i + 1..];
    }
  }

  lemma NothingCanonical()
    ensures Canonical([])
  {
  }

  lemma CanonicalTail(ts: seq<Token>, i: nat)
    requires Canonical(ts) && i <= |ts|
    ensures Canonical(ts[i..])
  {
    assert forall t :: t in ts[i..] ==> t in ts;
    forall j | 0 < j < |ts[i..]|
      ensures ts[i..][j - 1].NewLine? || ts[i..][j].NewLine?
    {
      assert ts[i..][j] == ts[i + j] && ts[i..][j - 1] == ts[i + j - 1];
    }
  }

  /** The first line of a canonical list, and what follows its line end. */
  lemma FirstLine(ts: seq<Token>) returns (d: string, rest: seq<Token>)
    requires Canonical(ts)
    ensures '\n' !in d
    ensures ts == Piece(d) || (|rest| < |ts| && Canonical(rest) && ts == Piece(d) + [NewLine] + rest)
  {
    d, rest := "", [];
    if ts != [] {
      assert ts[0] in ts;
      if ts[0].NewLine? {
        rest := ts[1..];
        CanonicalTail(ts, 1);
      } else {
        d := ts[0].text;
        if |ts| > 1 {
          assert ts[1].NewLine?;
          rest := ts[2..];
          CanonicalTail(ts, 2);
        }
      }
    }
  }

  /** There is no other canonical token list with that text. */
  lemma {:induction false} NewlineTokensUnique(ts: seq<Token>)
    requires Canonical(ts)
    ensures ts == NewlineTokens(Joined(ts))
    decreases |ts|
  {
    hide NewlineTokens, Canonical, Joined, Piece, Find;
    var d, rest := FirstLine(ts);
    NewlineTokensStep(Joined(ts));
    if ts == Piece(d) {
      NothingCanonical();
      CanonicalJoin(d, []);
    } else {
      CanonicalJoin(d, rest);
      NewlineTokensUnique(rest);
      FindAfter(d, Joined(rest));
    }
  }

  lemma FindAfter(d: string, rest: string)
    requires '\n' !in d
    ensures var s := d + "\n" + rest;
      Find(s, '\n', 0) == |d| && s[..|d|] == d && s[|d| + 1..] == rest
  {
    hide Find;
    var s := d + "\n" + rest;
    assert s[|d|] == '\n';
    assert forall i :: 0 <= i < |d| ==> s[i] == d[i] && d[i] in d;
  }

  // ------------------------------------------------------ whole texts

  /** `_parse_tag` followed by the lookup: the token of a text in brackets, if it
      is a recognized tag. */
  function TagOf(g: Grammar, tag: string): (t: Token)
    requires |tag| >= 2
    ensures t.TagStart? || t.TagEnd? || t == Data(tag)
    ensures !t.NewLine? && t.text == tag
    ensures !t.Data? ==> t.name in g.tags && '\n' !in tag
  {
    var inner := g.strip(tag[1..|tag| - 1]);
    if '\n' in tag || '\r' in tag || inner == "" then Data(tag)
    else if inner[0] == '/' then
      var name := g.lower(g.strip(inner[1..]));
      if name in g.tags then TagEnd(name, tag) else Data(tag)
    else
      var parsed := if '=' in inner || ' ' in inner then g.parseOptions(inner) else (inner, map[]);
      var name := g.lower(g.strip(parsed.0));
      if name in g.tags then TagStart(name, parsed.1, tag) else Data(tag)
  }

  /** A plain name in brackets is the start of that tag, and with a slash its end,
      exactly when the name is in the table; otherwise it is text. */
  lemma NamesInBrackets(g: Grammar, name: string)
    requires name != "" && name[0] != '/'
    requires '\n' !in name && '\r' !in name && '=' !in name && ' ' !in name
    requires g.strip(name) == name && g.strip("/" + name) == "/" + name && g.lower(name) == name
    ensures TagOf(g, "[" + name + "]") ==
            if name in g.tags then TagStart(name, map[], "[" + name + "]") else Data("[" + name + "]")
    ensures TagOf(g, "[/" + name + "]") ==
            if name in g.tags then TagEnd(name, "[/" + name + "]") else Data("[/" + name + "]")
  {
    var open, close := "[" + name + "]", "[/" + name + "]";
    assert open[1..|open| - 1] == name;
    assert close[1..|close| - 1] == "/" + name && ("/" + name)[1..] == name;
  }

  function Bracketed(g: Grammar, tag: string): seq<Token>
    requires |tag| >= 2
  {
    var t := TagOf(g, tag);
    if t.Data? then NewlineTokens(tag) else [t]
  }

  function Before(data: string, pos: nat, start: nat): seq<Token>
    requires pos <= start <= |data|
  {
    if start > pos then NewlineTokens(data[pos..start]) else []
  }

  /** The tokens still to come when the loop of `tokenize` stands at `pos`. */
  function TokensFrom(g: Grammar, data: string, pos: nat): seq<Token>
    requires pos <= |data|
    decreases |data| - pos
  {
    if pos == |data| then []
    else
      var start := Find(data, '[', pos);
      if start < 0 then NewlineTokens(data[pos..])
      else
        var before := Before(data, pos, start);
        var end := Find(data, ']', start);
        var newCheck := Find(data, '[', start + 1);
        if 0 < newCheck < end then
          before + NewlineTokens(data[start..newCheck]) + TokensFrom(g, data, newCheck)
        else if end > start then
          before + Bracketed(g, data[start..end + 1]) + TokensFrom(g, data, end + 1)
        else
          before + NewlineTokens(data[pos..])
  }

  function Tokens(g: Grammar, data: string): seq<Token> {
    TokensFrom(g, data, 0)
  }

  lemma StepPlain(g: Grammar, data: string, pos: nat)
    requires pos < |data| && Find(data, '[', pos) < 0
    ensures TokensFrom(g, data, pos) == NewlineTokens(data[pos..])
  {
  }

  lemma NoTokensLeft(g: Grammar, data: string)
    ensures TokensFrom(g, data, |data|) == []
  {
  }

  /** The first branch of the loop: another tag opens before this one closes. */
  lemma StepOpened(g: Grammar, data: string, pos: nat, done: seq<Token>)
    requires pos < |data| && Find(data, '[', pos) >= 0
    requires 0 < Find(data, '[', Find(data, '[', pos) + 1) < Find(data, ']', Find(data, '[', pos))
    ensures var start := Find(data, '[', pos);
      var newCheck := Find(data, '[', start + 1);
      done + TokensFrom(g, data, pos) ==
      (done + Before(data, pos, start) + NewlineTokens(data[start..newCheck])) + TokensFrom(g, data, newCheck)
  {
    hide Find, NewlineTokens, Before, Bracketed;
  }

  /** The second branch: a text in brackets. */
  lemma StepBracketed(g: Grammar, data: string, pos: nat, done: seq<Token>)
    requires pos < |data| && Find(data, '[', pos) >= 0
    requires !(0 < Find(data, '[', Find(data, '[', pos) + 1) < Find(data, ']', Find(data, '[', pos)))
    requires Find(data, ']', Find(data, '[', pos)) > Find(data, '[', pos)
    ensures var start := Find(data, '[', pos);
      var end := Find(data, ']', start);
      done + TokensFrom(g, data, pos) ==
      (done + Before(data, pos, start) + Bracketed(g, data[start..end + 1])) + TokensFrom(g, data, end + 1)
  {
    hide Find, NewlineTokens, Before, Bracketed;
  }

  /** The third: an unmatched opener, after which the loop is left. */
  lemma StepUnmatched(g: Grammar, data: string, pos: nat, done: seq<Token>)
    requires pos < |data| && Find(data, '[', pos) >= 0
    requires Find(data, ']', Find(data, '[', pos)) < 0
    ensures done + TokensFrom(g, data, pos) ==
      done + Before(data, pos, Find(data, '[', pos)) + NewlineTokens(data[pos..])
  {
    hide Find, NewlineTokens, Before, Bracketed;
  }

  /** `tokenize`. */
  method Tokenize(g: Grammar, data: string, normalizeNewlines: bool) returns (tokens: seq<Token>)
    ensures tokens == Tokens(g, if normalizeNewlines then NormalNewlines(data) else data)
  {
    hide NewlineTokens, Find, NormalNewlines, TagOf, TokensFrom;
    var text := if normalizeNewlines then NormalNewlines(data) else data;
    var pos, start, end := 0, 0, 0;
    tokens := [];
    while pos < |text|
      invariant 0 <= pos <= |text|
      invariant tokens + TokensFrom(g, text, pos) == Tokens(g, text)
      decreases |text| - pos
    {
      ghost var done := tokens;
      start := Find(text, '[', pos);
      if start >= pos {
        if start > pos {
          var tl := NewlineTokenize(text[pos..start]);
          tokens := tokens + tl;
        }
        assert tokens == done + Before(text, pos, start);
        end := Find(text, ']', start);
        var newCheck := Find(text, '[', start + 1);
        if newCheck > 0 && newCheck < end {
          var tl := NewlineTokenize(text[start..newCheck]);
          tokens := tokens + tl;
          StepOpened(g, text, pos, done);
          pos := newCheck;
        } else if end > start {
          var tag := text[start..end + 1];
          var token := TagOf(g, tag);
          if !token.Data? {
            tokens := tokens + [token];
          } else {
            var tl := NewlineTokenize(tag);
            tokens := tokens + tl;
          }
          StepBracketed(g, text, pos, done);
          pos := end + 1;
        } else {
          StepUnmatched(g, text, pos, done);
          break;
        }
      } else {
        StepPlain(g, text, pos);
        break;
      }
    }
    NoTokensLeft(g, text);
    if pos < |text| {
      var tl := NewlineTokenize(text[pos..]);
      tokens := tokens + tl;
    }
  }
}
