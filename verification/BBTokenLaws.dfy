/** What the tokenizer keeps of a text: which tags it reports, and when the
    texts of its tokens make up the input again. */
module BBTokenLaws {
  import opened BBTokens

  // ------------------------------------------------ the tags of a text

  /** The pieces in brackets without a bracket inside, in order; `open` is the
      last opener not yet closed, or -1. One character at a time. */
  function Brackets(s: string, i: nat, open: int): (pieces: seq<string>)
    requires open < i <= |s|
    ensures forall p :: p in pieces ==> |p| >= 2
    decreases |s| - i
  {
    if i == |s| then []
    else if s[i] == '[' then Brackets(s, i + 1, i)
    else if s[i] == ']' then (if open >= 0 then [s[open..i + 1]] else []) + Brackets(s, i + 1, -1)
    else Brackets(s, i + 1, open)
  }

  /** The tag tokens among `ts`. */
  function TagTokens(ts: seq<Token>): seq<Token> {
    if ts == [] then []
    else IfTag(ts[0]) + TagTokens(ts[1..])
  }

  function IfTag(t: Token): seq<Token> {
    if t.TagStart? || t.TagEnd? then [t] else []
  }

  /** The tokens of the pieces that are recognized tags. */
  function Recognized(g: Grammar, pieces: seq<string>): seq<Token>
    requires forall p :: p in pieces ==> |p| >= 2
  {
    if pieces == [] then [] else IfTag(TagOf(g, pieces[0])) + Recognized(g, pieces[1..])
  }

  lemma {:induction false} TagTokensJoin(a: seq<Token>, b: seq<Token>)
    ensures TagTokens(a + b) == TagTokens(a) + TagTokens(b)
  {
    if a == [] {
      assert a + b == b;
    } else {
      hide IfTag;
      TagTokensJoin(a[1..], b);
      assert (a + b)[1..] == a[1..] + b && (a + b)[0] == a[0];
      assert IfTag(a[0]) + (TagTokens(a[1..]) + TagTokens(b)) == (IfTag(a[0]) + TagTokens(a[1..])) + TagTokens(b);
    }
  }

  lemma {:induction false} NoTagTokens(ts: seq<Token>)
    requires forall t :: t in ts ==> t.NewLine? || t.Data?
    ensures TagTokens(ts) == []
  {
    if ts != [] {
      assert ts[0] in ts;
      NoTagTokens(ts[1..]);
    }
  }

  lemma PlainTextHasNoTags(s: string)
    ensures TagTokens(NewlineTokens(s)) == []
  {
    NewlineTokensCanonical(s);
    NoTagTokens(NewlineTokens(s));
  }

  lemma BracketedTags(g: Grammar, tag: string)
    requires |tag| >= 2
    ensures TagTokens(Bracketed(g, tag)) == IfTag(TagOf(g, tag))
  {
    hide NewlineTokens;
    PlainTextHasNoTags(tag);
  }

  /** Text without brackets moves the scan forward. */
  lemma {:induction false} BracketsSkip(s: string, i: nat, j: nat, open: int)
    requires open < i <= j <= |s|
    requires forall k :: i <= k < j ==> s[k] != '[' && (open >= 0 ==> s[k] != ']')
    requires open < 0 ==> open == -1
    ensures Brackets(s, i, open) == Brackets(s, j, open)
    decreases j - i
  {
    if i < j {
      BracketsSkip(s, i + 1, j, open);
      assert [] + Brackets(s, i + 1, -1) == Brackets(s, i + 1, -1);
    }
  }

  lemma {:induction false} BracketsWithoutCloser(s: string, i: nat, open: int)
    requires open < i <= |s|
    requires forall k :: i <= k < |s| ==> s[k] != ']'
    ensures Brackets(s, i, open) == []
    decreases |s| - i
  {
    if i < |s| {
      BracketsWithoutCloser(s, i + 1, if s[i] == '[' then i else open);
    }
  }

  predicate Reported(g: Grammar, s: string, pos: nat)
    requires pos <= |s|
  {
    TagTokens(TokensFrom(g, s, pos)) == Recognized(g, Brackets(s, pos, -1))
  }

  /** The tags are reported from any loop position on. */
  lemma {:induction false} TagsFrom(g: Grammar, s: string, pos: nat)
    requires pos <= |s|
    ensures Reported(g, s, pos)
    decreases |s| - pos
  {
    hide NewlineTokens, Find, TagOf, Bracketed;
    if pos < |s| {
      var start := Find(s, '[', pos);
      if start < 0 {
        BracketsSkip(s, pos, |s|, -1);
        PlainTextHasNoTags(s[pos..]);
      } else {
        hide Reported;
        var end := Find(s, ']', start);
        var newCheck := Find(s, '[', start + 1);
        if 0 < newCheck < end {
          TagsFrom(g, s, newCheck);
          ReportedOpened(g, s, pos);
        } else if end > start {
          TagsFrom(g, s, end + 1);
          ReportedBracketed(g, s, pos);
        } else {
          ReportedUnmatched(g, s, pos);
        }
      }
    }
  }

  lemma ReportedOpened(g: Grammar, s: string, pos: nat)
    requires pos < |s| && Find(s, '[', pos) >= 0
    requires 0 < Find(s, '[', Find(s, '[', pos) + 1) < Find(s, ']', Find(s, '[', pos))
    requires Reported(g, s, Find(s, '[', Find(s, '[', pos) + 1))
    ensures Reported(g, s, pos)
  {
    hide NewlineTokens, Find, TokensFrom, Brackets, TagTokens, Before, Recognized;
    var start := Find(s, '[', pos);
    var newCheck := Find(s, '[', start + 1);
    BracketsSkip(s, pos, start, -1);
    OpenerNoted(s, start, -1);
    BracketsSkip(s, start + 1, newCheck, start);
    OpenerNoted(s, newCheck, start);
    OpenerNoted(s, newCheck, -1);
    NothingBefore(s, pos, start);
    PlainTextHasNoTags(s[start..newCheck]);
    StepOpened(g, s, pos, []);
    TagsOfThree(Before(s, pos, start), NewlineTokens(s[start..newCheck]), TokensFrom(g, s, newCheck), TokensFrom(g, s, pos));
  }

  lemma ReportedBracketed(g: Grammar, s: string, pos: nat)
    requires pos < |s| && Find(s, '[', pos) >= 0
    requires !(0 < Find(s, '[', Find(s, '[', pos) + 1) < Find(s, ']', Find(s, '[', pos)))
    requires Find(s, ']', Find(s, '[', pos)) > Find(s, '[', pos)
    requires Reported(g, s, Find(s, ']', Find(s, '[', pos)) + 1)
    ensures Reported(g, s, pos)
  {
    hide NewlineTokens, Find, TokensFrom, Brackets, TagTokens, Before, Bracketed, TagOf, IfTag;
    var start := Find(s, '[', pos);
    var end := Find(s, ']', start);
    var tag := s[start..end + 1];
    BracketsSkip(s, pos, start, -1);
    OpenerNoted(s, start, -1);
    BracketsSkip(s, start + 1, end, start);
    CloserReports(s, end, start);
    NothingBefore(s, pos, start);
    BracketedTags(g, tag);
    StepBracketed(g, s, pos, []);
    TagsOfThree(Before(s, pos, start), Bracketed(g, tag), TokensFrom(g, s, end + 1), TokensFrom(g, s, pos));
  }

  lemma ReportedUnmatched(g: Grammar, s: string, pos: nat)
    requires pos < |s| && Find(s, '[', pos) >= 0
    requires Find(s, ']', Find(s, '[', pos)) < 0
    ensures Reported(g, s, pos)
  {
    hide NewlineTokens, Find, TokensFrom, Brackets, TagTokens, Before, Bracketed;
    var start := Find(s, '[', pos);
    BracketsSkip(s, pos, start, -1);
    BracketsWithoutCloser(s, start, -1);
    NothingBefore(s, pos, start);
    PlainTextHasNoTags(s[pos..]);
    StepUnmatched(g, s, pos, []);
    TagsOfThree(Before(s, pos, start), NewlineTokens(s[pos..]), [], TokensFrom(g, s, pos));
    NoTagTokens([]);
  }

  lemma NothingBefore(s: string, pos: nat, start: nat)
    requires pos <= start <= |s|
    ensures TagTokens(Before(s, pos, start)) == []
  {
    hide NewlineTokens;
    PlainTextHasNoTags(s[pos..start]);
  }

  lemma TagsOfThree(a: seq<Token>, b: seq<Token>, c: seq<Token>, all: seq<Token>)
    requires [] + all == ([] + a + b) + c
    ensures TagTokens(all) == TagTokens(a) + TagTokens(b) + TagTokens(c)
  {
    assert [] + all == all && [] + a == a;
    TagTokensJoin(a + b, c);
    TagTokensJoin(a, b);
  }

  lemma OpenerNoted(s: string, i: nat, open: int)
    requires -1 <= open < i < |s| && s[i] == '['
    ensures Brackets(s, i, open) == Brackets(s, i + 1, i)
  {
  }

  lemma CloserReports(s: string, i: nat, open: int)
    requires 0 <= open < i < |s| && s[i] == ']'
    ensures Brackets(s, i, open) == [s[open..i + 1]] + Brackets(s, i + 1, -1)
  {
  }

  /** `tokenize` reports exactly the recognized tags among the innermost
      brackets of the text, in their order. */
  lemma TagsAreTheBrackets(g: Grammar, s: string)
    ensures TagTokens(Tokens(g, s)) == Recognized(g, Brackets(s, 0, -1))
  {
    TagsFrom(g, s, 0);
  }
  // -------------------------------------------- the texts joined again

  /** The first opener after the last closer, or -1. */
  function Dangling(s: string): int {
    Find(s, '[', FindLast(s, ']', |s|) + 1)
  }

  /** The end of the last tag before an opener at `d`: just after the closer that
      follows the opener before it. */
  function TagEndBefore(s: string, d: nat): nat
    requires d <= |s|
  {
    var p := FindLast(s, '[', d);
    if p < 0 then 0 else Find(s, ']', p) + 1
  }

  /** The positions where an iteration of the loop can start. */
  predicate LoopPosition(s: string, pos: nat)
    requires pos <= |s|
  {
    || pos == 0
    || (pos < |s| && s[pos] == '[' && Find(s, ']', pos) >= 0)
    || (FindLast(s, '[', pos) >= 0 && Find(s, ']', FindLast(s, '[', pos)) == pos - 1)
  }

  /** What the tokens from a position on read, joined. */
  function Remaining(s: string, pos: nat): string
    requires pos <= |s|
  {
    var d := Dangling(s);
    if d < 0 then s[pos..] else if pos <= d && TagEndBefore(s, d) <= |s| then s[pos..d] + s[TagEndBefore(s, d)..] else ""
  }

  lemma BeforeDangling(s: string, pos: nat)
    requires pos <= |s| && LoopPosition(s, pos) && Dangling(s) >= 0
    ensures pos <= Dangling(s)
    ensures TagEndBefore(s, Dangling(s)) <= Dangling(s)
  {
    hide Find, FindLast;
  }

  lemma NoOpenerLeft(s: string, pos: nat)
    requires pos <= |s| && LoopPosition(s, pos) && Find(s, '[', pos) < 0
    ensures Dangling(s) < 0
  {
    hide Find, FindLast;
    if Dangling(s) >= 0 {
      BeforeDangling(s, pos);
    }
  }

  lemma UnmatchedIsDangling(s: string, pos: nat)
    requires pos <= |s| && LoopPosition(s, pos)
    requires Find(s, '[', pos) >= 0 && Find(s, ']', Find(s, '[', pos)) < 0
    ensures Dangling(s) == Find(s, '[', pos)
    ensures TagEndBefore(s, Dangling(s)) == pos
  {
    hide Find, FindLast;
    var start := Find(s, '[', pos);
    assert FindLast(s, ']', |s|) < start;
    BeforeDangling(s, pos);
    LastOpener(s, pos, start);
  }

  lemma LastOpener(s: string, i: nat, j: nat)
    requires i <= j <= |s| && forall k :: i <= k < j ==> s[k] != '['
    ensures FindLast(s, '[', j) == FindLast(s, '[', i)
    decreases j
  {
    if i < j {
      LastOpener(s, i, j - 1);
    }
  }

  lemma NextPositions(s: string, start: nat)
    requires start < |s| && s[start] == '['
    ensures var end, newCheck := Find(s, ']', start), Find(s, '[', start + 1);
      if 0 < newCheck < end then LoopPosition(s, newCheck)
      else end > start ==> LoopPosition(s, end + 1)
  {
    hide Find;
    var end, newCheck := Find(s, ']', start), Find(s, '[', start + 1);
    if !(0 < newCheck < end) && end > start {
      LastOpener(s, start + 1, end + 1);
    }
  }

  lemma BracketedJoined(g: Grammar, tag: string)
    requires |tag| >= 2
    ensures Joined(Bracketed(g, tag)) == tag
  {
    hide NewlineTokens, TagOf;
    NewlineTokensCanonical(tag);
  }

  lemma JoinedThree(s: string, pos: nat, start: nat, mid: seq<Token>, k: nat, rest: seq<Token>, all: seq<Token>)
    requires pos <= start <= k <= |s| && Joined(mid) == s[start..k]
    requires [] + all == ([] + Before(s, pos, start) + mid) + rest
    ensures Joined(all) == s[pos..k] + Joined(rest)
  {
    hide Before, Joined;
    var before := Before(s, pos, start);
    BeforeJoined(s, pos, start);
    assert [] + all == all && [] + before == before;
    JoinedJoins(before + mid, rest);
    JoinedJoins(before, mid);
    assert s[pos..start] + s[start..k] == s[pos..k];
  }

  lemma BeforeJoined(s: string, pos: nat, start: nat)
    requires pos <= start <= |s|
    ensures Joined(Before(s, pos, start)) == s[pos..start]
  {
    hide NewlineTokens;
    NewlineTokensCanonical(s[pos..start]);
  }

  lemma NothingJoined()
    ensures Joined([]) == ""
  {
  }

  lemma RemainingStep(s: string, pos: nat, k: nat)
    requires pos <= k <= |s| && LoopPosition(s, k)
    ensures s[pos..k] + Remaining(s, k) == Remaining(s, pos)
  {
    hide Find, FindLast, Dangling, TagEndBefore, LoopPosition;
    var d := Dangling(s);
    if d >= 0 {
      BeforeDangling(s, k);
      DanglingInside(s);
      assert s[pos..k] + s[k..d] == s[pos..d];
    }
  }

  lemma {:induction false} JoinedFrom(g: Grammar, s: string, pos: nat)
    requires pos <= |s| && LoopPosition(s, pos)
    ensures Joined(TokensFrom(g, s, pos)) == Remaining(s, pos)
    decreases |s| - pos
  {
    hide NewlineTokens, Find, TagOf, Bracketed, Before, Remaining, LoopPosition, TokensFrom, Joined;
    if pos == |s| {
      NoTokensLeft(g, s);
      NothingJoined();
      NothingRemains(s);
    } else {
      var start := Find(s, '[', pos);
      if start < 0 {
        StepPlain(g, s, pos);
        NewlineTokensCanonical(s[pos..]);
        NoOpenerLeft(s, pos);
        PlainRemains(s, pos);
      } else {
        var end, newCheck := Find(s, ']', start), Find(s, '[', start + 1);
        NextPositions(s, start);
        if 0 < newCheck < end {
          JoinedFrom(g, s, newCheck);
          StepOpened(g, s, pos, []);
          NewlineTokensCanonical(s[start..newCheck]);
          JoinedThree(s, pos, start, NewlineTokens(s[start..newCheck]), newCheck, TokensFrom(g, s, newCheck), TokensFrom(g, s, pos));
          RemainingStep(s, pos, newCheck);
        } else if end > start {
          JoinedFrom(g, s, end + 1);
          StepBracketed(g, s, pos, []);
          BracketedJoined(g, s[start..end + 1]);
          JoinedThree(s, pos, start, Bracketed(g, s[start..end + 1]), end + 1, TokensFrom(g, s, end + 1), TokensFrom(g, s, pos));
          RemainingStep(s, pos, end + 1);
        } else {
          JoinedUnmatched(g, s, pos);
        }
      }
    }
  }

  lemma NothingRemains(s: string)
    requires LoopPosition(s, |s|)
    ensures Remaining(s, |s|) == ""
  {
    hide Find, FindLast, Dangling, TagEndBefore, LoopPosition;
    if Dangling(s) >= 0 {
      BeforeDangling(s, |s|);
      DanglingInside(s);
    }
  }

  lemma DanglingInside(s: string)
    ensures Dangling(s) < |s|
  {
  }

  lemma PlainRemains(s: string, pos: nat)
    requires pos <= |s| && Dangling(s) < 0
    ensures Remaining(s, pos) == s[pos..]
  {
  }

  lemma JoinedUnmatched(g: Grammar, s: string, pos: nat)
    requires pos < |s| && LoopPosition(s, pos)
    requires Find(s, '[', pos) >= 0 && Find(s, ']', Find(s, '[', pos)) < 0
    ensures Joined(TokensFrom(g, s, pos)) == Remaining(s, pos)
  {
    hide Find, FindLast, Dangling, TagEndBefore, LoopPosition, TokensFrom, NewlineTokens, Joined, Before;
    var start := Find(s, '[', pos);
    UnmatchedIsDangling(s, pos);
    StepUnmatched(g, s, pos, []);
    NewlineTokensCanonical(s[pos..]);
    NothingJoined();
    assert [] + Before(s, pos, start) + [] == [] + Before(s, pos, start);
    JoinedThree(s, pos, start, [], start, NewlineTokens(s[pos..]), TokensFrom(g, s, pos));
  }

  /** The texts of the tokens, joined, are the input; but when an opener is left
      without a closer, the text between the last tag and it comes twice. */
  lemma JoinedTokens(g: Grammar, s: string)
    ensures var d := Dangling(s);
      if d < 0 then Joined(Tokens(g, s)) == s
      else TagEndBefore(s, d) <= d && Joined(Tokens(g, s)) == s[..d] + s[TagEndBefore(s, d)..]
  {
    hide Find, FindLast, Dangling, TagEndBefore, TokensFrom, Joined;
    JoinedFrom(g, s, 0);
    assert s[0..] == s;
    DanglingInside(s);
    if Dangling(s) >= 0 {
      BeforeDangling(s, 0);
    }
  }

  /** No text is lost or repeated exactly when no opener is left dangling, or
      the first such opener directly follows the last tag or starts the text. */
  lemma LosslessIff(g: Grammar, s: string)
    ensures Joined(Tokens(g, s)) == s <==> (Dangling(s) < 0 || TagEndBefore(s, Dangling(s)) == Dangling(s))
  {
    hide Find, FindLast, Dangling, TagEndBefore, TokensFrom, Joined;
    JoinedTokens(g, s);
    DanglingInside(s);
    var d := Dangling(s);
    if d >= 0 {
      assert |s[..d] + s[TagEndBefore(s, d)..]| == |s| + d - TagEndBefore(s, d);
      assert s[..d] + s[d..] == s;
    }
  }

  /** In particular nothing is lost when a closer follows the last opener. */
  lemma LosslessWhenClosed(g: Grammar, s: string)
    requires forall i :: 0 <= i < |s| && s[i] == '[' ==> exists j :: i < j < |s| && s[j] == ']'
    ensures Joined(Tokens(g, s)) == s
  {
    hide FindLast, TagEndBefore, TokensFrom, Joined;
    LosslessIff(g, s);
  }

  /** A text that is changed: its first character is read twice. */
  lemma RepeatedText(g: Grammar)
    ensures Joined(Tokens(g, "a[")) == "aa["
  {
    hide TokensFrom, Joined, Find, FindLast;
    var s := "a[";
    JoinedTokens(g, s);
    assert s[0] == 'a' && s[1] == '[';
    assert FindLast(s, ']', 2) == -1;
    assert Find(s, '[', 0) == 1 && FindLast(s, '[', 1) == -1;
    assert s[..1] == "a" && s[0..] == s;
  }
}
