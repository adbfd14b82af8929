/**
 * `extractCodeBlocks`: the scan of an assistant reply for fenced code blocks
 * with the global regular expression /```(\w+)\n([\s\S]*?)```/g. Each match
 * becomes a code block (its language tag and its trimmed body) and is written
 * back into the text in a normalised form; the text around the matches is
 * copied as it is.
 */
module CodeBlocks {
  import opened Wrappers
  import opened Text
  import opened Types

  /**
   * One match of the expression, by its positions: the opening fence starts at
   * `start`, the line feed after the language tag is at `langEnd` and the
   * closing fence starts at `bodyEnd`.
   */
  datatype Match = Match(start: nat, langEnd: nat, bodyEnd: nat) {
    /** One past the closing fence, where the next `exec` resumes. */
    function End(): nat { bodyEnd + 3 }
  }

  /** The positions of `m` are in order and inside `s`. */
  predicate Placed(s: string, m: Match) {
    m.start + 3 <= m.langEnd && m.langEnd + 1 <= m.bodyEnd && m.bodyEnd + 3 <= |s|
  }

  /** The `(\w+)` group of the match. */
  function Language(s: string, m: Match): string
    requires Placed(s, m)
  {
    s[m.start + 3..m.langEnd]
  }

  /** The lazy `([\s\S]*?)` group of the match. */
  function Body(s: string, m: Match): string
    requires Placed(s, m)
  {
    s[m.langEnd + 1..m.bodyEnd]
  }

  /**
   * The grammar of a match, stated declaratively: a fence, a non-empty run of
   * word characters, a line feed, the body, and a fence; the body is the
   * shortest one, so no triple backtick starts inside it.
   */
  ghost predicate IsMatch(s: string, m: Match) {
    && Placed(s, m)
    && FenceAt(s, m.start)
    && m.start + 3 < m.langEnd
    && (forall k :: m.start + 3 <= k < m.langEnd ==> IsWordChar(s[k]))
    && s[m.langEnd] == '\n'
    && FenceAt(s, m.bodyEnd)
    && (forall j :: m.langEnd + 1 <= j < m.bodyEnd ==> !FenceAt(s, j))
  }

  /** The length of the run of word characters starting at `i` (greedy `\w+`). */
  function WordRun(s: string, i: nat): (n: nat)
    requires i <= |s|
    decreases |s| - i
    ensures i + n <= |s|
  {
    if i < |s| && IsWordChar(s[i]) then 1 + WordRun(s, i + 1) else 0
  }

  /** The run is made of word characters and cannot be extended. */
  lemma {:induction false} WordRunMaximal(s: string, i: nat)
    requires i <= |s|
    ensures forall k :: i <= k < i + WordRun(s, i) ==> IsWordChar(s[k])
    ensures i + WordRun(s, i) == |s| || !IsWordChar(s[i + WordRun(s, i)])
    decreases |s| - i
  {
    if i < |s| && IsWordChar(s[i]) {
      WordRunMaximal(s, i + 1);
    }
  }

  /** A run of word characters that cannot be extended is what `WordRun` finds. */
  lemma {:induction false} WordRunExact(s: string, i: nat, n: nat)
    requires i + n <= |s|
    requires forall k :: i <= k < i + n ==> IsWordChar(s[k])
    requires i + n == |s| || !IsWordChar(s[i + n])
    ensures WordRun(s, i) == n
    decreases n
  {
    if n > 0 {
      WordRunExact(s, i + 1, n - 1);
    }
  }

  /**
   * The match the expression finds when it is tried at position `p`. Since `\w`
   * excludes the line feed, the greedy `\w+` can only be followed by the line
   * feed if it takes the whole run; the lazy body stops at the first fence.
   */
  function MatchAt(s: string, p: nat): (r: Option<Match>)
    ensures r.Some? ==> r.value.start == p && Placed(s, r.value)
  {
    if !FenceAt(s, p) then None
    else
      var langEnd := p + 3 + WordRun(s, p + 3);
      if langEnd == p + 3 || langEnd >= |s| || s[langEnd] != '\n' then None
      else
        match FirstFence(s, langEnd + 1)
        case None => None
        case Some(j) => Some(Match(p, langEnd, j))
  }

  /** What `MatchAt` finds is an instance of the grammar. */
  lemma MatchAtSound(s: string, p: nat)
    requires MatchAt(s, p).Some?
    ensures IsMatch(s, MatchAt(s, p).value)
  {
    WordRunMaximal(s, p + 3);
  }

  /** Every instance of the grammar is found where it starts. */
  lemma MatchAtComplete(s: string, m: Match)
    requires IsMatch(s, m)
    ensures MatchAt(s, m.start) == Some(m)
  {
    WordRunExact(s, m.start + 3, m.langEnd - (m.start + 3));
    assert FirstFence(s, m.langEnd + 1) == Some(m.bodyEnd);
  }

  /** There is no match at a fence that is not followed by a word character, as in "``` js". */
  lemma MissingLanguageRejected(s: string, p: nat)
    requires p + 3 == |s| || (p + 3 < |s| && !IsWordChar(s[p + 3]))
    ensures MatchAt(s, p).None?
  {
  }

  /**
   * There is no match at a fence whose run of word characters ends in anything
   * other than a line feed, as in "```c++".
   */
  lemma LanguageMustEndAtNewline(s: string, p: nat, n: nat)
    requires p + 3 + n < |s|
    requires forall k :: p + 3 <= k < p + 3 + n ==> IsWordChar(s[k])
    requires !IsWordChar(s[p + 3 + n]) && s[p + 3 + n] != '\n'
    ensures MatchAt(s, p).None?
  {
    if FenceAt(s, p) {
      WordRunExact(s, p + 3, n);
    }
  }

  /** The expression matches at no position in `[lo, hi)`. */
  predicate NoMatchIn(s: string, lo: nat, hi: int) {
    forall p: nat :: lo <= p < hi ==> MatchAt(s, p).None?
  }

  /** The leftmost match starting at or after `from`: what one call of `exec` returns. */
  function NextMatch(s: string, from: nat): (r: Option<Match>)
    decreases |s| - from
    ensures r.Some? ==> from <= r.value.start && MatchAt(s, r.value.start) == r
  {
    if from >= |s| then None
    else
      match MatchAt(s, from)
      case Some(m) => Some(m)
      case None => NextMatch(s, from + 1)
  }

  /** `NextMatch` finds the leftmost match: none starts before it, and none at all when it finds nothing. */
  lemma {:induction false} NextMatchLeftmost(s: string, from: nat)
    ensures NextMatch(s, from).Some? ==> NoMatchIn(s, from, NextMatch(s, from).value.start)
    ensures NextMatch(s, from).None? ==> NoMatchIn(s, from, |s|)
    decreases |s| - from
  {
    if from < |s| && MatchAt(s, from).None? {
      NextMatchLeftmost(s, from + 1);
      var r := NextMatch(s, from + 1);
      assert NextMatch(s, from) == r;
      var hi := if r.Some? then r.value.start else |s|;
      forall p: nat | from <= p < hi ensures MatchAt(s, p).None? {
        if p > from {
          assert from + 1 <= p < hi;
        }
      }
    }
  }

  /** An instance of the grammar with no match before it is the one `NextMatch` finds. */
  lemma {:induction false} NextMatchIs(s: string, from: nat, m: Match)
    requires IsMatch(s, m) && from <= m.start && NoMatchIn(s, from, m.start)
    ensures NextMatch(s, from) == Some(m)
    decreases m.start - from
  {
    MatchAtComplete(s, m);
    if from < m.start {
      assert MatchAt(s, from).None?;
      NextMatchIs(s, from + 1, m);
    }
  }

  /** All the matches the global expression finds in `s` once it resumes at `from`, in order. */
  function Matches(s: string, from: nat): (ms: seq<Match>)
    decreases |s| - from
    ensures forall i :: 0 <= i < |ms| ==> Placed(s, ms[i])
  {
    match NextMatch(s, from)
    case None => []
    case Some(m) => [m] + Matches(s, m.End())
  }

  /** How a match is written back into the text: the tag, a line feed, the trimmed body, a line feed. */
  function Normalised(s: string, m: Match): string
    requires Placed(s, m)
  {
    Fence + Language(s, m) + "\n" + Trim(Body(s, m)) + "\n" + Fence
  }

  /** The text `extractCodeBlocks` builds from `s[from..]`. */
  function Rebuilt(s: string, from: nat): string
    requires from <= |s|
    decreases |s| - from
  {
    match NextMatch(s, from)
    case None => s[from..]
    case Some(m) => s[from..m.start] + Normalised(s, m) + Rebuilt(s, m.End())
  }

  /** The code block made of match `m`, with identifier `id` and no execution status. */
  function BlockOf(s: string, m: Match, id: string): CodeBlock
    requires Placed(s, m)
  {
    CodeBlock(id, Language(s, m), Trim(Body(s, m)), None, None, None)
  }

  /**
   * One block per match, in the order of the matches: the `i`-th takes the
   * identifier `idOf(i)`, the language tag and the trimmed body of the `i`-th
   * match, and carries no execution status.
   */
  function BlocksOf(s: string, ms: seq<Match>, idOf: nat -> string): (r: seq<CodeBlock>)
    requires forall i :: 0 <= i < |ms| ==> Placed(s, ms[i])
    ensures |r| == |ms|
    ensures forall i :: 0 <= i < |ms| ==> r[i] == BlockOf(s, ms[i], idOf(i))
  {
    seq(|ms|, i requires 0 <= i < |ms| => BlockOf(s, ms[i], idOf(i)))
  }

  /** One step of the scan: the first match found from `from` and what follows it. */
  lemma MatchStep(s: string, from: nat)
    requires from <= |s| && NextMatch(s, from).Some?
    ensures var m := NextMatch(s, from).value;
      && from <= m.start < m.End() <= |s|
      && Matches(s, from) == [m] + Matches(s, m.End())
      && Rebuilt(s, from) == s[from..m.start] + Normalised(s, m) + Rebuilt(s, m.End())
  {
  }

  /** Concatenation is associative. */
  lemma ConcatAssoc<T>(a: seq<T>, b: seq<T>, c: seq<T>)
    ensures (a + b) + c == a + (b + c)
  {
  }

  /** Adding a match adds its block at the end. */
  lemma BlocksOfSnoc(s: string, ms: seq<Match>, m: Match, idOf: nat -> string)
    requires forall i :: 0 <= i < |ms| ==> Placed(s, ms[i])
    requires Placed(s, m)
    ensures BlocksOf(s, ms + [m], idOf) == BlocksOf(s, ms, idOf) + [BlockOf(s, m, idOf(|ms|))]
  {
    var longer := BlocksOf(s, ms + [m], idOf);
    var snoc := BlocksOf(s, ms, idOf) + [BlockOf(s, m, idOf(|ms|))];
    forall i | 0 <= i < |longer| ensures longer[i] == snoc[i] {
      if i < |ms| {
        assert (ms + [m])[i] == ms[i];
      }
    }
  }

  /** What the scan has built once it resumes at `lastIndex`, having found the matches `done`. */
  ghost predicate ScanState(s: string, idOf: nat -> string, lastIndex: nat, done: seq<Match>,
                            text: string, blocks: seq<CodeBlock>)
  {
    && lastIndex <= |s|
    && Matches(s, 0) == done + Matches(s, lastIndex)
    && (forall i :: 0 <= i < |done| ==> Placed(s, done[i]))
    && text + Rebuilt(s, lastIndex) == Rebuilt(s, 0)
    && blocks == BlocksOf(s, done, idOf)
  }

  /** The text part of one turn: the gap and the normalised match move from the rest to the text. */
  lemma ScanText(s: string, lastIndex: nat, text: string)
    requires lastIndex <= |s| && NextMatch(s, lastIndex).Some?
    requires text + Rebuilt(s, lastIndex) == Rebuilt(s, 0)
    ensures var m := NextMatch(s, lastIndex).value;
      text + s[lastIndex..m.start] + Normalised(s, m) + Rebuilt(s, m.End()) == Rebuilt(s, 0)
  {
    var m := NextMatch(s, lastIndex).value;
    MatchStep(s, lastIndex);
    var piece := s[lastIndex..m.start] + Normalised(s, m);
    var rest := Rebuilt(s, m.End());
    assert Rebuilt(s, lastIndex) == piece + rest;
    ConcatAssoc(text, piece, rest);
    ConcatAssoc(text, s[lastIndex..m.start], Normalised(s, m));
  }

  /** The match part of one turn: the match found moves from the rest to the matches done. */
  lemma ScanMatches(s: string, lastIndex: nat, done: seq<Match>)
    requires lastIndex <= |s| && NextMatch(s, lastIndex).Some?
    requires Matches(s, 0) == done + Matches(s, lastIndex)
    ensures var m := NextMatch(s, lastIndex).value;
      Matches(s, 0) == done + [m] + Matches(s, m.End())
  {
    var m := NextMatch(s, lastIndex).value;
    MatchStep(s, lastIndex);
    ConcatAssoc(done, [m], Matches(s, m.End()));
  }

  /** One turn of the loop of `extractCodeBlocks` keeps `ScanState`. */
  lemma ScanStep(s: string, idOf: nat -> string, lastIndex: nat, done: seq<Match>,
                 text: string, blocks: seq<CodeBlock>)
    requires ScanState(s, idOf, lastIndex, done, text, blocks)
    requires NextMatch(s, lastIndex).Some?
    ensures var m := NextMatch(s, lastIndex).value;
      ScanState(s, idOf, m.End(), done + [m],
        text + s[lastIndex..m.start] + (Fence + Language(s, m) + "\n" + Trim(Body(s, m)) + "\n" + Fence),
        blocks + [CodeBlock(idOf(|blocks|), Language(s, m), Trim(Body(s, m)), None, None, None)])
  {
    var m := NextMatch(s, lastIndex).value;
    ScanText(s, lastIndex, text);
    ScanMatches(s, lastIndex, done);
    BlocksOfSnoc(s, done, m, idOf);
  }

  /**
   * `extractCodeBlocks`. The random identifier of the `i`-th block is `idOf(i)`.
   * The text is the input with every match replaced by its normalised form and
   * the blocks are those of the matches, in order.
   */
  method ExtractCodeBlocks(content: string, idOf: nat -> string)
    returns (text: string, blocks: seq<CodeBlock>)
    ensures text == Rebuilt(content, 0)
    ensures blocks == BlocksOf(content, Matches(content, 0), idOf)
  {
    blocks := [];
    var lastIndex: nat := 0;
    text := "";
    ghost var done: seq<Match> := [];
    var found := NextMatch(content, lastIndex);
    while found.Some?
      invariant found == NextMatch(content, lastIndex)
      invariant ScanState(content, idOf, lastIndex, done, text, blocks)
      decreases |content| - lastIndex
    {
      var m := found.value;
      ScanStep(content, idOf, lastIndex, done, text, blocks);
      text := text + content[lastIndex..m.start];
      var language := content[m.start + 3..m.langEnd];
      var code := Trim(content[m.langEnd + 1..m.bodyEnd]);
      blocks := blocks + [CodeBlock(idOf(|blocks|), language, code, None, None, None)];
      text := text + (Fence + language + "\n" + code + "\n" + Fence);
      lastIndex := m.End();
      done := done + [m];
      found := NextMatch(content, lastIndex);
    }
    text := text + content[lastIndex..];
  }

  /** The matches are found left to right without overlap, each where `MatchAt` finds it. */
  lemma {:induction false} MatchesOrdered(s: string, from: nat)
    ensures forall i :: 0 <= i < |Matches(s, from)| ==>
      MatchAt(s, Matches(s, from)[i].start) == Some(Matches(s, from)[i]) && from <= Matches(s, from)[i].start
    ensures forall i :: 0 <= i < |Matches(s, from)| - 1 ==> Matches(s, from)[i].End() <= Matches(s, from)[i + 1].start
    decreases |s| - from
  {
    var next := NextMatch(s, from);
    if next.Some? {
      var m := next.value;
      assert MatchAt(s, m.start) == Some(m);
      MatchesOrdered(s, m.End());
      var ms := Matches(s, from);
      var rest := Matches(s, m.End());
      assert ms == [m] + rest;
      forall i | 0 <= i < |ms| ensures MatchAt(s, ms[i].start) == Some(ms[i]) && from <= ms[i].start {
        if i > 0 {
          var x := rest[i - 1];
          assert ms[i] == x;
          assert MatchAt(s, x.start) == Some(x);
          assert m.End() <= x.start;
        }
      }
      forall i | 0 <= i < |ms| - 1 ensures ms[i].End() <= ms[i + 1].start {
        assert ms[i + 1] == rest[i];
        if i > 0 {
          assert ms[i] == rest[i - 1];
        }
      }
    }
  }

  /** Hence every match is an instance of the grammar. */
  lemma MatchesSound(s: string, from: nat, i: nat)
    requires i < |Matches(s, from)|
    ensures IsMatch(s, Matches(s, from)[i])
  {
    MatchesOrdered(s, from);
    MatchAtSound(s, Matches(s, from)[i].start);
  }

  /**
   * Every match is the leftmost one: no match starts between `from` and the
   * first match, between two consecutive matches, or after the last one.
   */
  lemma {:induction false} MatchesLeftmost(s: string, from: nat)
    ensures var ms := Matches(s, from);
      && NoMatchIn(s, from, if ms == [] then |s| else ms[0].start)
      && (forall i :: 0 <= i < |ms| - 1 ==> NoMatchIn(s, ms[i].End(), ms[i + 1].start))
      && (ms != [] ==> NoMatchIn(s, ms[|ms| - 1].End(), |s|))
    decreases |s| - from
  {
    NextMatchLeftmost(s, from);
    match NextMatch(s, from)
    case None =>
    case Some(m) =>
      MatchesLeftmost(s, m.End());
      var rest := Matches(s, m.End());
      assert Matches(s, from) == [m] + rest;
  }

  /** A reply in which the expression matches nowhere is copied as it is and yields no block. */
  lemma NoMatchIdentity(s: string, idOf: nat -> string)
    requires NoMatchIn(s, 0, |s|)
    ensures Rebuilt(s, 0) == s
    ensures BlocksOf(s, Matches(s, 0), idOf) == []
  {
  }

  /** In particular a reply without any triple backtick is left as it is and yields no block. */
  lemma NoFenceIdentity(s: string, idOf: nat -> string)
    requires forall p :: 0 <= p < |s| ==> !FenceAt(s, p)
    ensures Rebuilt(s, 0) == s
    ensures BlocksOf(s, Matches(s, 0), idOf) == []
  {
    NoMatchIdentity(s, idOf);
  }
}
