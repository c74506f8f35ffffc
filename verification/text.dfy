/** String primitives the engine relies on: JavaScript's `String.prototype.trim` and the
    split of received text on runs of CR/LF (`str.split(/[\r\n]+/)`). */
module Text {

  /** ECMAScript WhiteSpace and LineTerminator code points: what `trim` removes. */
  predicate IsSpace(c: char) {
    || c == '\t' || c == '\n' || c == '\U{000B}' || c == '\U{000C}' || c == '\r'
    || c == ' ' || c == '\U{00A0}' || c == '\U{1680}'
    || ('\U{2000}' <= c <= '\U{200A}')
    || c == '\U{2028}' || c == '\U{2029}' || c == '\U{202F}' || c == '\U{205F}'
    || c == '\U{3000}' || c == '\U{FEFF}'
  }

  predicate AllSpace(s: string) {
    forall i :: 0 <= i < |s| ==> IsSpace(s[i])
  }

  /** Leading white space removed. */
  function TrimStart(s: string): (r: string)
    ensures |r| <= |s| && r == s[|s| - |r|..]
    ensures AllSpace(s[..|s| - |r|])
    ensures r == "" || !IsSpace(r[0])
  {
    if |s| > 0 && IsSpace(s[0]) then TrimStart(s[1..]) else s
  }

  /** Trailing white space removed. */
  function TrimEnd(s: string): (r: string)
    ensures |r| <= |s| && r == s[..|r|]
    ensures AllSpace(s[|r|..])
    ensures r == "" || !IsSpace(r[|r| - 1])
  {
    if |s| > 0 && IsSpace(s[|s| - 1]) then
      var r := TrimEnd(s[..|s| - 1]);
      assert s[|r|..] == s[..|s| - 1][|r|..] + [s[|s| - 1]];
      r
    else s
  }

  /** `s.trim()` */
  function Trim(s: string): string {
    TrimEnd(TrimStart(s))
  }

  /** A string of white space trims away completely. */
  lemma {:induction false} AllSpaceTrimsAway(s: string)
    requires AllSpace(s)
    ensures TrimStart(s) == ""
    decreases |s|
  {
    if |s| > 0 {
      AllSpaceTrimsAway(s[1..]);
    }
  }

  /** A character that is not white space survives left-trimming. */
  lemma {:induction false} NonSpaceSurvivesTrimStart(s: string, i: nat)
    requires i < |s| && !IsSpace(s[i])
    ensures TrimStart(s) != ""
    decreases |s|
  {
    if IsSpace(s[0]) {
      NonSpaceSurvivesTrimStart(s[1..], i - 1);
    }
  }

  /** A character that is not white space survives right-trimming. */
  lemma {:induction false} NonSpaceSurvivesTrimEnd(s: string, i: nat)
    requires i < |s| && !IsSpace(s[i])
    ensures TrimEnd(s) != ""
    decreases |s|
  {
    if IsSpace(s[|s| - 1]) {
      NonSpaceSurvivesTrimEnd(s[..|s| - 1], i);
    }
  }

  /** Trimming leaves nothing exactly when the string is all white space. */
  lemma TrimEmptyIffAllSpace(s: string)
    ensures Trim(s) == "" <==> AllSpace(s)
  {
    if AllSpace(s) {
      AllSpaceTrimsAway(s);
    } else {
      var i :| 0 <= i < |s| && !IsSpace(s[i]);
      NonSpaceSurvivesTrimStart(s, i);
      NonSpaceSurvivesTrimEnd(TrimStart(s), 0);
    }
  }

  /** Appending one character to a string changes its left-trimmed form predictably:
      a blank prefix is dropped entirely, otherwise the character is simply appended. */
  lemma {:induction false} TrimStartSnoc(s: string, x: char)
    ensures TrimStart(s + [x]) == if TrimStart(s) == "" then TrimStart([x]) else TrimStart(s) + [x]
    decreases |s|
  {
    if |s| == 0 {
      assert s + [x] == [x];
    } else if IsSpace(s[0]) {
      assert (s + [x])[1..] == s[1..] + [x];
      TrimStartSnoc(s[1..], x);
    } else {
      assert (s + [x])[0] == s[0];
    }
  }

  /** Trimming both ends depends only on the left-trimmed form. */
  lemma TrimThroughTrimStart(s: string)
    ensures Trim(s) == TrimEnd(TrimStart(s))
    ensures TrimStart(TrimStart(s)) == TrimStart(s)
  {
  }

  /** The line-break characters of the receive-side split, `/[\r\n]+/`. */
  predicate IsBreak(c: char) {
    c == '\r' || c == '\n'
  }

  predicate NoBreak(s: string) {
    forall i :: 0 <= i < |s| ==> !IsBreak(s[i])
  }

  predicate StartsWithBreak(s: string) {
    |s| > 0 && IsBreak(s[0])
  }

  /** `s.split(/[\r\n]+/)`: the fragments of `s` between maximal runs of CR/LF. A run at
      the very start yields a leading empty fragment and a run at the very end a trailing
      one, so there is always at least one fragment. */
  function Split(s: string): (r: seq<string>)
    ensures |r| >= 1
    ensures forall i :: 0 <= i < |r| ==> NoBreak(r[i])
    ensures StartsWithBreak(s) ==> |r| >= 2 && r[0] == ""
    ensures NoBreak(s) ==> r == [s]
    decreases |s|
  {
    if |s| == 0 then [""]
    else if !IsBreak(s[0]) then
      var rest := Split(s[1..]);
      ConsNoBreak(s[0], rest[0]);
      TailNoBreak(s);
      assert [s[0]] + s[1..] == s;
      [[s[0]] + rest[0]] + rest[1..]
    else if StartsWithBreak(s[1..]) then Split(s[1..])
    else [""] + Split(s[1..])
  }

  lemma ConsNoBreak(c: char, t: string)
    requires !IsBreak(c) && NoBreak(t)
    ensures NoBreak([c] + t)
  {
    forall i | 1 <= i < |t| + 1 ensures !IsBreak(([c] + t)[i]) {
      assert ([c] + t)[i] == t[i - 1];
    }
  }

  lemma TailNoBreak(s: string)
    requires |s| > 0
    ensures NoBreak(s) ==> NoBreak(s[1..])
  {
    if NoBreak(s) {
      forall i | 0 <= i < |s| - 1 ensures !IsBreak(s[1..][i]) {
        assert s[1..][i] == s[i + 1];
      }
    }
  }

  /** A prefix without line breaks is glued onto the first fragment of what follows. */
  lemma {:induction false} SplitAfterPlainPrefix(a: string, b: string)
    requires NoBreak(a)
    ensures Split(a + b) == [a + Split(b)[0]] + Split(b)[1..]
    decreases |a|
  {
    if |a| > 0 {
      var a' := a[1..];
      assert (a + b)[0] == a[0];
      assert (a + b)[1..] == a' + b;
      SplitAfterPlainPrefix(a', b);
      assert [a[0]] + (a' + Split(b)[0]) == a + Split(b)[0];
    } else {
      assert a + b == b;
      assert a + Split(b)[0] == Split(b)[0];
      assert Split(b) == [Split(b)[0]] + Split(b)[1..];
    }
  }
}
