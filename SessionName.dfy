/**
 * The display name a session takes from its first user message: fenced code is
 * removed, the first line is trimmed and cut to forty characters, and an empty
 * result falls back to the default name.
 */
module SessionName {
  import opened Wrappers
  import opened Text

  /** The name of a session that has not been named. */
  const DefaultName: string := "New Chat"

  /** The number of characters of the first line a name keeps. */
  const MaxNameLength: nat := 40

  /** The marker appended to a name that was cut. */
  const Ellipsis: string := "..."

  /**
   * A code fence pair starts at `p`: a triple backtick there, and another one
   * at or after `p + 3` (the lazy `[\s\S]*?` may match the empty string).
   */
  predicate FencePairAt(s: string, p: nat) {
    FenceAt(s, p) && FirstFence(s, p + 3).Some?
  }

  /**
   * What `s.replace(/```[\s\S]*?```/g, '')` leaves of `s[i..]` when the
   * global match resumes at `i`: at each position the leftmost match is tried,
   * and a pair runs from a fence to the nearest fence after it.
   */
  function StripFencedFrom(s: string, i: nat): (r: string)
    decreases |s| - i
    ensures |r| <= if i <= |s| then |s| - i else 0
  {
    if i >= |s| then ""
    else if FencePairAt(s, i) then StripFencedFrom(s, FirstFence(s, i + 3).value + 3)
    else [s[i]] + StripFencedFrom(s, i + 1)
  }

  /** `message.replace(/```[\s\S]*?```/g, '')`. */
  function StripFenced(s: string): (r: string)
    ensures |r| <= |s|
  {
    StripFencedFrom(s, 0)
  }

  /** `s.split('\n')[0]`: the text before the first line feed, or all of `s`. */
  function FirstLine(s: string): (r: string)
    ensures '\n' !in r
    ensures |r| <= |s| && r == s[..|r|]
    ensures |r| == |s| || s[|r|] == '\n'
  {
    if s == [] || s[0] == '\n' then "" else [s[0]] + FirstLine(s[1..])
  }

  /**
   * The name made of an already trimmed line: the line itself when it has at
   * most forty characters, its first forty followed by the ellipsis when it is
   * longer, and the default name when it is empty.
   */
  function NameOfLine(line: string): (r: string)
    ensures r != [] && |r| <= MaxNameLength + |Ellipsis|
    ensures line == [] ==> r == DefaultName
    ensures 0 < |line| <= MaxNameLength ==> r == line
    ensures |line| > MaxNameLength ==> r == line[..MaxNameLength] + Ellipsis
    ensures '\n' !in line ==> '\n' !in r
  {
    var name := line[..if |line| < MaxNameLength then |line| else MaxNameLength]
                + (if |line| > MaxNameLength then Ellipsis else "");
    assert line != [] ==> name[0] == line[0];
    if name == "" then DefaultName else name
  }

  /**
   * `generateSessionName`: the name of the trimmed first line of the message
   * once its code fences are removed. The name is never empty, never longer
   * than 43 characters and never holds a line feed.
   */
  function GenerateSessionName(message: string): (r: string)
    ensures r != [] && |r| <= MaxNameLength + |Ellipsis| && '\n' !in r
    ensures var line := Trim(FirstLine(StripFenced(message)));
      && (line == [] ==> r == DefaultName)
      && (0 < |line| <= MaxNameLength ==> r == line)
      && (|line| > MaxNameLength ==> r == line[..MaxNameLength] + Ellipsis)
  {
    var firstLine := FirstLine(StripFenced(message));
    TrimCharsFromInput(firstLine);
    NameOfLine(Trim(firstLine))
  }

  /** Text holding no fence pair at or after `i` comes through the removal unchanged. */
  lemma {:induction false} StripFencedFromNoPair(s: string, i: nat)
    requires i <= |s|
    requires forall p :: i <= p < |s| ==> !FencePairAt(s, p)
    ensures StripFencedFrom(s, i) == s[i..]
    decreases |s| - i
  {
    if i < |s| {
      StripFencedFromNoPair(s, i + 1);
      assert s[i..] == [s[i]] + s[i + 1..];
    }
  }

  /**
   * Without a fence pair the message is left as it is; in particular an
   * unpaired (trailing) fence stays in place.
   */
  lemma NoFencePairUnchanged(s: string)
    requires forall p :: 0 <= p < |s| ==> !FencePairAt(s, p)
    ensures StripFenced(s) == s
  {
    StripFencedFromNoPair(s, 0);
  }

  /**
   * The leftmost pair is removed: the text before it is kept and the removal
   * resumes just after its closing fence.
   */
  lemma {:induction false} StripFencedFromLeftmostPair(s: string, i: nat, p: nat)
    requires i <= p < |s| && FencePairAt(s, p)
    requires forall q :: i <= q < p ==> !FencePairAt(s, q)
    ensures StripFencedFrom(s, i) == s[i..p] + StripFencedFrom(s, FirstFence(s, p + 3).value + 3)
    decreases p - i
  {
    var rest := StripFencedFrom(s, FirstFence(s, p + 3).value + 3);
    if i < p {
      StripFencedFromLeftmostPair(s, i + 1, p);
      assert !FencePairAt(s, i);
      assert StripFencedFrom(s, i) == [s[i]] + (s[i + 1..p] + rest);
      assert s[i..p] == [s[i]] + s[i + 1..p];
    } else {
      assert s[i..p] == [];
    }
  }

  /**
   * A message that opens with a fenced block (holding no backtick) directly
   * followed by a line feed is named `New Chat`: once the block is removed the
   * text starts with the line feed, so the first line is empty.
   */
  lemma FencedOpeningGivesDefault(block: string, rest: string)
    requires '`' !in block
    ensures GenerateSessionName(Fence + block + Fence + "\n" + rest) == DefaultName
  {
    var s := Fence + block + Fence + "\n" + rest;
    var close := 3 + |block|;
    assert FenceAt(s, 0);
    assert FenceAt(s, close);
    forall j | 3 <= j < close ensures !FenceAt(s, j) {
      assert s[j] == block[j - 3];
    }
    assert FirstFence(s, 3) == Some(close);
    assert FencePairAt(s, 0);
    assert s[close + 3] == '\n';
    var stripped := StripFenced(s);
    assert stripped == StripFencedFrom(s, close + 3);
    assert !FenceAt(s, close + 3);
    assert stripped == [s[close + 3]] + StripFencedFrom(s, close + 4);
    assert FirstLine(stripped) == "";
  }

  /**
   * The worked example of a message that opens with a fenced snippet and goes
   * on with a long line: the code gives the default name, not the cut line.
   */
  lemma FencedSnippetExample()
    ensures GenerateSessionName(Fence + "js\ncode\n" + Fence + "\n"
      + "Hello world this is a fairly long opening line that exceeds forty characters")
      == DefaultName
  {
    FencedOpeningGivesDefault("js\ncode\n",
      "Hello world this is a fairly long opening line that exceeds forty characters");
  }

  /**
   * A message of one line, without backticks and without surrounding
   * whitespace, is its own name when it has at most forty characters and is
   * cut to forty plus the ellipsis otherwise.
   */
  lemma PlainLineName(s: string)
    requires s != [] && '`' !in s && '\n' !in s
    requires !IsJsWhitespace(s[0]) && !IsJsWhitespace(s[|s| - 1])
    ensures |s| <= MaxNameLength ==> GenerateSessionName(s) == s
    ensures |s| > MaxNameLength ==> GenerateSessionName(s) == s[..MaxNameLength] + Ellipsis
  {
    forall p | 0 <= p < |s| ensures !FencePairAt(s, p) {
    }
    NoFencePairUnchanged(s);
    assert FirstLine(s) == s;
    TrimOfTrimmed(s);
  }
}
