/** String replacement in the forum markup (frontend/bbcode.py): the five HTML
    escapes and the two newline replacements, each done one after the other. */
module BBEscape {
  /** `str.replace`: every occurrence from left to right, none overlapping. */
  function Replace(s: string, find: string, repl: string): string
    requires find != ""
  {
    if |s| < |find| then s
    else if s[..|find|] == find then repl + Replace(s[|find|..], find, repl)
    else [s[0]] + Replace(s[1..], find, repl)
  }

  predicate Patterns(rs: seq<(string, string)>) {
    forall r :: r in rs ==> r.0 != ""
  }

  function ReplaceEach(s: string, rs: seq<(string, string)>): string
    requires Patterns(rs)
    decreases |rs|
  {
    if rs == [] then s else ReplaceEach(Replace(s, rs[0].0, rs[0].1), rs[1..])
  }

  lemma {:induction false} ReplaceEachSplit(s: string, rs: seq<(string, string)>, k: nat)
    requires Patterns(rs) && k < |rs|
    ensures ReplaceEach(s, rs[..k + 1]) == Replace(ReplaceEach(s, rs[..k]), rs[k].0, rs[k].1)
    decreases k
  {
    if k > 0 {
      ReplaceEachSplit(Replace(s, rs[0].0, rs[0].1), rs[1..], k - 1);
      assert rs[..k + 1][1..] == rs[1..][..k] && rs[..k][1..] == rs[1..][..k - 1];
    } else {
      assert rs[..1][1..] == [];
    }
  }

  /** `_replace`. */
  method ReplaceAll(data: string, replacements: seq<(string, string)>) returns (result: string)
    requires Patterns(replacements)
    ensures result == ReplaceEach(data, replacements)
  {
    result := data;
    for k := 0 to |replacements|
      invariant result == ReplaceEach(data, replacements[..k])
    {
      result := Replace(result, replacements[k].0, replacements[k].1);
      ReplaceEachSplit(data, replacements, k);
    }
    assert replacements[..|replacements|] == replacements;
  }

  const REPLACE_ESCAPE: seq<(string, string)> :=
    [("&", "&amp;"), ("<", "&lt;"), (">", "&gt;"), ("\"", "&quot;"), ("'", "&#39;")]

  // -------------------------------------- one substitution per character

  /** What becomes of one character when only the first `k` escapes are done. */
  function Entity(k: nat, c: char): string {
    if c == '&' && k > 0 then "&amp;"
    else if c == '<' && k > 1 then "&lt;"
    else if c == '>' && k > 2 then "&gt;"
    else if c == '"' && k > 3 then "&quot;"
    else if c == '\'' && k > 4 then "&#39;"
    else [c]
  }

  function Substituted(k: nat, s: string): string {
    if s == "" then "" else Entity(k, s[0]) + Substituted(k, s[1..])
  }

  /** The escaped text, character by character. */
  function Escape(s: string): string {
    Substituted(5, s)
  }

  lemma {:induction false} ReplaceJoins(a: string, b: string, c: char, repl: string)
    ensures Replace(a + b, [c], repl) == Replace(a, [c], repl) + Replace(b, [c], repl)
  {
    if a == "" {
      assert a + b == b;
    } else {
      ReplaceJoins(a[1..], b, c, repl);
      assert (a + b)[1..] == a[1..] + b;
      assert (a + b)[..1] == a[..1] == [a[0]];
      var head := if a[0] == c then repl else [a[0]];
      assert (head + Replace(a[1..], [c], repl)) + Replace(b, [c], repl)
          == head + (Replace(a[1..], [c], repl) + Replace(b, [c], repl));
    }
  }

  lemma {:induction false} ReplaceAbsent(s: string, c: char, repl: string)
    requires c !in s
    ensures Replace(s, [c], repl) == s
  {
    if s != "" {
      assert s[..1] == [s[0]];
      ReplaceAbsent(s[1..], c, repl);
    }
  }

  lemma EscapeStep(k: nat, c: char)
    requires k < 5
    ensures Replace(Entity(k, c), REPLACE_ESCAPE[k].0, REPLACE_ESCAPE[k].1) == Entity(k + 1, c)
  {
    var find := REPLACE_ESCAPE[k].0[0];
    assert REPLACE_ESCAPE[k].0 == [find];
    if find in Entity(k, c) {
      assert Entity(k, c) == [find] == [c];
      assert [c][..1] == [c] && [c][1..] == "";
      assert Replace("", [c], REPLACE_ESCAPE[k].1) == "";
    } else {
      ReplaceAbsent(Entity(k, c), find, REPLACE_ESCAPE[k].1);
    }
  }

  lemma {:induction false} SubstitutedStep(k: nat, s: string)
    requires k < 5
    ensures Replace(Substituted(k, s), REPLACE_ESCAPE[k].0, REPLACE_ESCAPE[k].1) == Substituted(k + 1, s)
  {
    if s != "" {
      EscapeStep(k, s[0]);
      SubstitutedStep(k, s[1..]);
      assert REPLACE_ESCAPE[k].0 == [REPLACE_ESCAPE[k].0[0]];
      ReplaceJoins(Entity(k, s[0]), Substituted(k, s[1..]), REPLACE_ESCAPE[k].0[0], REPLACE_ESCAPE[k].1);
    }
  }

  lemma {:induction false} SubstitutedNothing(s: string)
    ensures Substituted(0, s) == s
  {
    if s != "" {
      SubstitutedNothing(s[1..]);
    }
  }

  lemma {:induction false} EscapesDone(s: string, k: nat)
    requires k <= 5
    ensures Patterns(REPLACE_ESCAPE[..k])
    ensures ReplaceEach(s, REPLACE_ESCAPE[..k]) == Substituted(k, s)
  {
    hide Substituted, Entity, Replace;
    assert forall i :: 0 <= i < 5 ==> REPLACE_ESCAPE[i].0 != "";
    if k == 0 {
      SubstitutedNothing(s);
    } else {
      EscapesDone(s, k - 1);
      SubstitutedStep(k - 1, s);
      ReplaceEachSplit(s, REPLACE_ESCAPE, k - 1);
    }
  }

  /** The five replacements in sequence amount to one pass over the characters. */
  lemma EscapeInOnePass(s: string)
    ensures Patterns(REPLACE_ESCAPE)
    ensures ReplaceEach(s, REPLACE_ESCAPE) == Escape(s)
  {
    hide Substituted, Entity, Replace, ReplaceEach;
    EscapesDone(s, 5);
    assert REPLACE_ESCAPE[..5] == REPLACE_ESCAPE;
  }

  // --------------------------------------------------------- properties

  predicate Markup(c: char) {
    c == '<' || c == '>' || c == '"' || c == '\''
  }

  /** Nothing in the result can open or close a tag or an attribute. */
  lemma {:induction false} EscapeLeavesNoMarkup(s: string)
    ensures forall c :: c in Escape(s) ==> !Markup(c)
  {
    if s != "" {
      EscapeLeavesNoMarkup(s[1..]);
      assert forall c :: c in Entity(5, s[0]) ==> !Markup(c);
    }
  }

  /** The text is returned unchanged exactly when it has none of the five. */
  lemma {:induction false} EscapeUnchangedIff(s: string)
    ensures |Escape(s)| >= |s|
    ensures Escape(s) == s <==> forall c :: c in s ==> c != '&' && !Markup(c)
  {
    if s != "" {
      EscapeUnchangedIff(s[1..]);
      var e := Entity(5, s[0]);
      assert Escape(s) == e + Escape(s[1..]);
      if s[0] == '&' || Markup(s[0]) {
        assert |e| > 1 && |Escape(s)| > |s|;
        assert s[0] in s;
      } else {
        assert e == [s[0]];
        assert Escape(s)[1..] == Escape(s[1..]);
        assert s == [s[0]] + s[1..];
        assert forall c :: c in s <==> c == s[0] || c in s[1..];
      }
    }
  }

  /** Reads the entities back. */
  function Unescape(s: string): string {
    if s == "" then ""
    else if "&amp;" <= s then "&" + Unescape(s[5..])
    else if "&lt;" <= s then "<" + Unescape(s[4..])
    else if "&gt;" <= s then ">" + Unescape(s[4..])
    else if "&quot;" <= s then "\"" + Unescape(s[6..])
    else if "&#39;" <= s then "'" + Unescape(s[5..])
    else [s[0]] + Unescape(s[1..])
  }

  lemma UnescapeFirst(c: char, rest: string)
    ensures Unescape(Entity(5, c) + rest) == [c] + Unescape(rest)
  {
    var e := Entity(5, c);
    var s := e + rest;
    assert e <= s && s[|e|..] == rest;
    if c == '&' || Markup(c) {
      assert s[1] == e[1] && s[2] == e[2];
    } else {
      assert s[0] == c;
    }
  }

  /** Escaping loses nothing: it can be undone, so it is injective. */
  lemma {:induction false} UnescapeAfterEscape(s: string)
    ensures Unescape(Escape(s)) == s
  {
    if s != "" {
      UnescapeAfterEscape(s[1..]);
      UnescapeFirst(s[0], Escape(s[1..]));
    }
  }

  lemma EscapeInjective(s: string, t: string)
    requires Escape(s) == Escape(t)
    ensures s == t
  {
    UnescapeAfterEscape(s);
    UnescapeAfterEscape(t);
  }

  // ----------------------------------------------------------- newlines

  /** The two replacements at the start of `tokenize`. */
  function NormalNewlines(s: string): string {
    Replace(Replace(s, "\r\n", "\n"), "\r", "\n")
  }

  /** Each of "\r\n", "\r" and "\n" is one line end. */
  function LineEnds(s: string): string {
    if s == "" then ""
    else if "\r\n" <= s then "\n" + LineEnds(s[2..])
    else if s[0] == '\r' then "\n" + LineEnds(s[1..])
    else [s[0]] + LineEnds(s[1..])
  }

  lemma ReplaceFirst(c: char, rest: string, find: char, repl: string)
    ensures Replace([c] + rest, [find], repl) == (if c == find then repl else [c]) + Replace(rest, [find], repl)
  {
    assert ([c] + rest)[1..] == rest && ([c] + rest)[..1] == [c];
  }

  /** The two passes agree with reading the line ends one by one. */
  lemma {:induction false} NormalNewlinesIsLineEnds(s: string)
    ensures NormalNewlines(s) == LineEnds(s)
  {
    if s != "" {
      var inner := Replace(s, "\r\n", "\n");
      if "\r\n" <= s {
        assert s[..2] == "\r\n";
        NormalNewlinesIsLineEnds(s[2..]);
        ReplaceFirst('\n', Replace(s[2..], "\r\n", "\n"), '\r', "\n");
      } else {
        NormalNewlinesIsLineEnds(s[1..]);
        if |s| == 1 {
          assert s[1..] == "" && inner == s == [s[0]] + "";
        } else {
          assert s[..2] != "\r\n";
        }
        assert inner == [s[0]] + Replace(s[1..], "\r\n", "\n");
        ReplaceFirst(s[0], Replace(s[1..], "\r\n", "\n"), '\r', "\n");
      }
    }
  }

  /** No carriage return is left, and a second normalisation changes nothing. */
  lemma {:induction false} LineEndsClean(s: string)
    ensures '\r' !in LineEnds(s)
    ensures LineEnds(s) == s <==> '\r' !in s
  {
    if s != "" {
      if "\r\n" <= s {
        LineEndsClean(s[2..]);
        assert LineEnds(s) == "\n" + LineEnds(s[2..]);
        assert s[0] == '\r' && LineEnds(s)[0] == '\n';
      } else {
        LineEndsClean(s[1..]);
        assert LineEnds(s)[1..] == LineEnds(s[1..]);
        assert s == [s[0]] + s[1..];
      }
    }
  }

  lemma NormaliseTwice(s: string)
    ensures NormalNewlines(NormalNewlines(s)) == NormalNewlines(s)
  {
    NormalNewlinesIsLineEnds(s);
    NormalNewlinesIsLineEnds(LineEnds(s));
    LineEndsClean(s);
    LineEndsClean(LineEnds(s));
  }
}
