/**
 * The placeholder scanner of boostbuild/utils.py: `find_variables_in(content)` is
 * `re.findall("(?<={)(.*?)(?=})", content)`. A match starts right after a `{`, takes as
 * few characters as it can (none of them a newline, since `.` does not match one) and
 * stops in front of the next `}`, which it does not consume. Matches are found left to
 * right and never overlap. After an empty match, Python's `findall` does not accept a
 * second empty match at the same place, but it does accept a non-empty one there, which
 * is why `"{}}"` yields `["", "}"]`; this model follows that rule.
 */
module Scanner {
  import opened Text

  /** The first index at or after `i` holding `}` or a newline, or `|s|` if there is none. */
  function StopAt(s: string, i: nat): (j: nat)
    requires i <= |s|
    ensures i <= j <= |s|
    ensures j < |s| ==> s[j] == '}' || s[j] == '\n'
    ensures forall k :: i <= k < j ==> s[k] != '}' && s[k] != '\n'
    decreases |s| - i
  {
    if i == |s| || s[i] == '}' || s[i] == '\n' then i else StopAt(s, i + 1)
  }

  /** The end (the index of the closing `}`) of the match that starts at `p`, if the
      pattern matches there; `nonEmpty` is set right after an empty match at `p`. */
  function MatchEnd(s: string, p: nat, nonEmpty: bool): Option<nat>
    requires p <= |s|
  {
    if p == 0 || s[p - 1] != '{' then None
    else if !nonEmpty then
      var j := StopAt(s, p);
      if j < |s| && s[j] == '}' then Some(j) else None
    else if p < |s| && s[p] != '\n' then
      var j := StopAt(s, p + 1);
      if j < |s| && s[j] == '}' then Some(j) else None
    else None
  }

  /** `s[b..e]` is a placeholder body: a `{` right before it, a `}` right after it, no
      newline inside, and no `}` inside except possibly as its first character. */
  ghost predicate IsMatch(s: string, b: int, e: int)
  {
    && 1 <= b <= e < |s|
    && s[b - 1] == '{' && s[e] == '}'
    && (forall k :: b <= k < e ==> s[k] != '\n')
    && (forall k :: b < k < e ==> s[k] != '}')
  }

  /** The spans `(start, end)` of the matches found by scanning from `p` onwards. */
  function Spans(s: string, p: nat, nonEmpty: bool): (r: seq<(nat, nat)>)
    requires p <= |s|
    ensures forall i :: 0 <= i < |r| ==> p <= r[i].0 <= r[i].1 < |s|
    decreases |s| - p, if nonEmpty then 0 else 1
  {
    if p == |s| then []
    else match MatchEnd(s, p, nonEmpty)
      case Some(e) => [(p, e)] + Spans(s, e, e == p)
      case None => Spans(s, p + 1, false)
  }

  /** Every span is a placeholder body, the spans come left to right without overlapping,
      and right after an empty match the next match, if it starts at the same place, is
      not empty. */
  lemma {:induction false} SpansAreMatches(s: string, p: nat, nonEmpty: bool)
    requires p <= |s|
    ensures forall i :: 0 <= i < |Spans(s, p, nonEmpty)| ==> IsMatch(s, Spans(s, p, nonEmpty)[i].0, Spans(s, p, nonEmpty)[i].1)
    ensures forall i, j :: 0 <= i < j < |Spans(s, p, nonEmpty)| ==> Spans(s, p, nonEmpty)[i].1 <= Spans(s, p, nonEmpty)[j].0
    ensures nonEmpty && |Spans(s, p, nonEmpty)| > 0 && Spans(s, p, nonEmpty)[0].0 == p ==>
      Spans(s, p, nonEmpty)[0].0 < Spans(s, p, nonEmpty)[0].1
    decreases |s| - p, if nonEmpty then 0 else 1
  {
    if p < |s| {
      match MatchEnd(s, p, nonEmpty)
      case Some(e) =>
        SpansAreMatches(s, e, e == p);
      case None =>
        SpansAreMatches(s, p + 1, false);
    }
  }

  /** The text of each span, in order. */
  function Bodies(s: string, sp: seq<(nat, nat)>): (names: seq<string>)
    requires forall i :: 0 <= i < |sp| ==> sp[i].0 <= sp[i].1 <= |s|
    ensures |names| == |sp|
    ensures forall i :: 0 <= i < |sp| ==> names[i] == s[sp[i].0..sp[i].1]
  {
    if sp == [] then [] else [s[sp[0].0..sp[0].1]] + Bodies(s, sp[1..])
  }

  /** `find_variables_in(content)`: the placeholder bodies, in left-to-right order. */
  function FindVariablesIn(content: string): seq<string>
  {
    Bodies(content, Spans(content, 0, false))
  }

  /** Every placeholder body, wrapped in braces, occurs in the text it came from, and
      holds no line break. */
  lemma PlaceholdersOccur(content: string)
    ensures forall i :: 0 <= i < |FindVariablesIn(content)| ==>
      Occurs("{" + FindVariablesIn(content)[i] + "}", content)
    ensures forall i :: 0 <= i < |FindVariablesIn(content)| ==> '\n' !in FindVariablesIn(content)[i]
  {
    var sp := Spans(content, 0, false);
    var names := FindVariablesIn(content);
    SpansAreMatches(content, 0, false);
    forall i | 0 <= i < |names|
      ensures OccursAt(content, "{" + names[i] + "}", sp[i].0 - 1)
      ensures '\n' !in names[i]
    {
      var b, e := sp[i].0, sp[i].1;
      assert IsMatch(content, b, e);
      assert content[b - 1..e + 1] == [content[b - 1]] + content[b..e] + [content[e]];
    }
  }

  /** Text without any `{` holds no placeholder. */
  lemma NoOpenBraceNoVariables(content: string)
    requires '{' !in content
    ensures FindVariablesIn(content) == []
  {
    SpansAreMatches(content, 0, false);
  }

  /** Each placeholder body, wrapped in braces, is found by `str.index` in the text it
      came from; the validator relies on this when it computes a caret position. */
  lemma PlaceholderIsIndexable(content: string, name: string)
    requires name in FindVariablesIn(content)
    ensures IndexOf(content, "{" + name + "}").Some?
  {
    PlaceholdersOccur(content);
  }

  /** Scanning over positions not preceded by `{` finds nothing. */
  lemma {:induction false} SkipPlain(s: string, p: nat, q: nat)
    requires p <= q <= |s|
    requires forall k :: 0 <= k && p <= k + 1 < q ==> s[k] != '{'
    ensures Spans(s, p, false) == Spans(s, q, false)
    decreases q - p
  {
    if p < q {
      SkipPlain(s, p + 1, q);
    }
  }

  lemma {:induction false} StopAtIs(s: string, i: nat, e: nat)
    requires i <= e < |s| && (s[e] == '}' || s[e] == '\n')
    requires forall k :: i <= k < e ==> s[k] != '}' && s[k] != '\n'
    ensures StopAt(s, i) == e
    decreases e - i
  {
    if i < e {
      StopAtIs(s, i + 1, e);
    }
  }

  /** A `{` at `p - 1` and the next `}` at `e`, with no newline in between, give one match. */
  lemma MatchHere(s: string, p: nat, e: nat)
    requires 1 <= p <= e < |s| && s[p - 1] == '{' && s[e] == '}'
    requires forall k :: p <= k < e ==> s[k] != '}' && s[k] != '\n'
    ensures Spans(s, p, false) == [(p, e)] + Spans(s, e, e == p)
  {
    StopAtIs(s, p, e);
  }

  // The examples of tests/test_utils.py. Each text is a parameter so that the proof
  // steps through the scan instead of unfolding it on a literal.

  lemma ExampleTwoPlaceholders(a: string)
    requires a == "hey im a {example} with other {examples}"
    ensures FindVariablesIn(a) == ["example", "examples"]
  {
    ExampleTwoPlaceholdersSpans(a);
    assert a[10..17] == "example" by {
      assert a[10] == 'e' && a[11] == 'x' && a[12] == 'a' && a[13] == 'm' && a[14] == 'p' && a[15] == 'l' && a[16] == 'e';
    }
    assert a[31..39] == "examples" by {
      assert a[31] == 'e' && a[32] == 'x' && a[33] == 'a' && a[34] == 'm' && a[35] == 'p' && a[36] == 'l' && a[37] == 'e';
      assert a[38] == 's';
    }
  }

  lemma ExampleTwoPlaceholdersSpans(a: string)
    requires a == "hey im a {example} with other {examples}"
    ensures Spans(a, 0, false) == [(10, 17), (31, 39)]
  {
    SkipPlain(a, 0, 10);
    MatchHere(a, 10, 17);
    ExampleSecondPlaceholderSpans(a);
  }

  lemma ExampleSecondPlaceholderSpans(a: string)
    requires a == "hey im a {example} with other {examples}"
    ensures Spans(a, 17, false) == [(31, 39)]
  {
    SkipPlain(a, 17, 31);
    MatchHere(a, 31, 39);
    SkipPlain(a, 39, 40);
  }

  lemma ExamplePlaceholderAtEnd(b: string)
    requires b == "another one {coming}"
    ensures FindVariablesIn(b) == ["coming"]
  {
    SkipPlain(b, 0, 13); MatchHere(b, 13, 19); SkipPlain(b, 19, 20);
    assert Spans(b, 0, false) == [(13, 19)];
    assert b[13] == 'c' && b[14] == 'o' && b[15] == 'm' && b[16] == 'i' && b[17] == 'n' && b[18] == 'g';
    assert b[13..19] == "coming";
  }

  lemma ExampleTextAfterPlaceholder(c: string)
    requires c == "im the last{one}l"
    ensures FindVariablesIn(c) == ["one"]
  {
    SkipPlain(c, 0, 12); MatchHere(c, 12, 15); SkipPlain(c, 15, 17);
    assert Spans(c, 0, false) == [(12, 15)];
    assert c[12] == 'o' && c[13] == 'n' && c[14] == 'e';
    assert c[12..15] == "one";
  }

  lemma ExampleEmptyPlaceholder(d: string)
    requires d == "kidding {}"
    ensures FindVariablesIn(d) == [""]
  {
    SkipPlain(d, 0, 9); MatchHere(d, 9, 9);
    assert MatchEnd(d, 9, true) == None;
    assert Spans(d, 0, false) == [(9, 9)];
  }

  /** Python's empty-match rule: a non-empty match may start where an empty one did. */
  lemma ExampleEmptyThenBrace(a: string)
    requires a == "{}}"
    ensures FindVariablesIn(a) == ["", "}"]
  {
    MatchHere(a, 1, 1);
    StopAtIs(a, 2, 2);
    assert MatchEnd(a, 1, true) == Some(2);
    assert Spans(a, 2, false) == Spans(a, 3, false);
    assert Spans(a, 0, false) == [(1, 1), (1, 2)];
    assert a[1..2] == "}";
  }

  /** A placeholder used twice is reported twice. */
  lemma ExampleRepeated(b: string)
    requires b == "{a} {a}"
    ensures FindVariablesIn(b) == ["a", "a"]
  {
    MatchHere(b, 1, 2); SkipPlain(b, 2, 5); MatchHere(b, 5, 6); SkipPlain(b, 6, 7);
    assert Spans(b, 0, false) == [(1, 2), (5, 6)];
    assert b[1..2] == "a" && b[5..6] == "a";
  }

  /** No placeholder spans a line break. */
  lemma ExampleNewline(c: string)
    requires c == "{a\nb}"
    ensures FindVariablesIn(c) == []
  {
    SkipPlain(c, 0, 1);
    StopAtIs(c, 1, 2);
    assert MatchEnd(c, 1, false) == None;
    SkipPlain(c, 2, 5);
    assert Spans(c, 0, false) == [];
  }
}
