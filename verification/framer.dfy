/** The receive-side line framer of `_setupSerial` (src/tinyg-controller.js:540-562).
    Each read is appended to the carried-over buffer and split on runs of CR/LF; the
    fragment after the last break is carried over unless it is blank, and every complete
    fragment is trimmed and delivered only if something is left.

    The partner of the framer is `Reference`, a one-character-at-a-time framer that is
    obviously insensitive to how the stream is cut into reads. The lemmas show that the
    split-based framer delivers exactly the reference's lines, and from that, that the
    lines delivered depend only on the concatenation of all reads. */
module Framer {
  import opened Text

  /** The lines delivered for one read, and the buffer carried over to the next. */
  datatype Framed = Framed(lines: seq<string>, rest: string)

  /** A line as the handler loop sees it: trimmed, and skipped when nothing is left. */
  function Emit(fragment: string): (r: seq<string>)
    ensures |r| <= 1
    ensures |r| == 1 ==> r[0] == Trim(fragment) && r[0] != ""
    ensures |r| == 0 <==> AllSpace(fragment)
  {
    TrimEmptyIffAllSpace(fragment);
    if Trim(fragment) == "" then [] else [Trim(fragment)]
  }

  /** The trimmed, non-blank fragments in order. */
  function Clean(fragments: seq<string>): (r: seq<string>)
    ensures |r| <= |fragments|
    ensures forall i :: 0 <= i < |r| ==> r[i] != ""
    decreases |fragments|
  {
    if |fragments| == 0 then [] else Emit(fragments[0]) + Clean(fragments[1..])
  }

  predicate WellFormedBuffer(buf: string) {
    NoBreak(buf) && (buf == "" || !AllSpace(buf))
  }

  /** The `data` handler's framing of one read `chunk` given the carried-over `buf`. */
  function FrameChunk(buf: string, chunk: string): (r: Framed)
    ensures WellFormedBuffer(r.rest)
    ensures forall i :: 0 <= i < |r.lines| ==> r.lines[i] != ""
  {
    var fragments := Split(buf + chunk);
    var last := fragments[|fragments| - 1];
    TrimEmptyIffAllSpace(last);
    if Trim(last) == "" then Framed(Clean(fragments[..|fragments| - 1]), "")
    else Framed(Clean(fragments[..|fragments| - 1]), last)
  }

  /** Framing a sequence of reads one after another. */
  function FrameAll(buf: string, chunks: seq<string>): (r: Framed)
    ensures forall i :: 0 <= i < |r.lines| ==> r.lines[i] != ""
    ensures |chunks| == 0 ==> r == Framed([], buf)
    ensures |chunks| > 0 ==> WellFormedBuffer(r.rest)
    decreases |chunks|
  {
    if |chunks| == 0 then Framed([], buf)
    else
      var first := FrameChunk(buf, chunks[0]);
      var more := FrameAll(first.rest, chunks[1..]);
      Framed(first.lines + more.lines, more.rest)
  }

  function Concat(chunks: seq<string>): string
    decreases |chunks|
  {
    if |chunks| == 0 then "" else chunks[0] + Concat(chunks[1..])
  }

  /** The reference framer: characters are consumed one at a time; a line break closes
      the current line, any other character extends it. */
  function Reference(current: string, s: string): (r: Framed)
    decreases |s|
  {
    if |s| == 0 then Framed([], current)
    else if IsBreak(s[0]) then
      var more := Reference("", s[1..]);
      Framed(Emit(current) + more.lines, more.rest)
    else Reference(current + [s[0]], s[1..])
  }

  /** Characters without a line break only extend the current line. */
  lemma {:induction false} ReferenceAfterPlain(current: string, s: string, t: string)
    requires NoBreak(s)
    ensures Reference(current, s + t) == Reference(current + s, t)
    decreases |s|
  {
    if |s| == 0 {
      assert s + t == t && current + s == current;
    } else {
      assert (s + t)[0] == s[0] && (s + t)[1..] == s[1..] + t;
      TailNoBreak(s);
      ReferenceAfterPlain(current + [s[0]], s[1..], t);
      assert current + [s[0]] + s[1..] == current + s;
    }
  }

  /** A read holding one line and its newline, with nothing carried over, delivers that
      line trimmed and carries nothing over. */
  lemma OneLineRead(line: string)
    requires NoBreak(line) && !AllSpace(line)
    ensures FrameChunk("", line + "\n") == Framed([Trim(line)], "")
  {
    FrameChunkIsReference("", line + "\n");
    ReferenceAfterPlain("", line, "\n");
    assert "" + line == line;
    assert Reference("", "") == Framed([], "");
  }

  lemma {:induction false} CleanAppend(a: seq<string>, b: seq<string>)
    ensures Clean(a + b) == Clean(a) + Clean(b)
    decreases |a|
  {
    if |a| == 0 {
      assert a + b == b;
    } else {
      assert (a + b)[1..] == a[1..] + b;
      CleanAppend(a[1..], b);
    }
  }

  /** A framer started on `current` that has read text split into `fragments`: it has
      delivered every fragment but the last (the first one prefixed by `current`), and
      the last is still pending. */
  function View(current: string, fragments: seq<string>): Framed
    requires |fragments| >= 1
  {
    var joined := [current + fragments[0]] + fragments[1..];
    Framed(Clean(joined[..|joined| - 1]), joined[|joined| - 1])
  }

  function SplitView(current: string, s: string): Framed {
    View(current, Split(s))
  }

  lemma SplitViewPlain(current: string, s: string)
    requires |s| > 0 && !IsBreak(s[0])
    ensures SplitView(current, s) == SplitView(current + [s[0]], s[1..])
  {
    var g := Split(s[1..]);
    assert Split(s) == [[s[0]] + g[0]] + g[1..];
    assert (current + [s[0]]) + g[0] == current + ([s[0]] + g[0]);
  }

  /** A fragment boundary right after `current` delivers it. */
  lemma ViewAfterBoundary(current: string, g: seq<string>)
    requires |g| >= 1
    ensures View(current, [""] + g) == Framed(Emit(current) + View("", g).lines, View("", g).rest)
  {
    var front := g[..|g| - 1];
    JoinedAfterBoundary(current, g);
    JoinedFromEmpty(g);
    CleanAppend([current], front);
    CleanSingle(current);
  }

  /** The fragment list a framer on `current` sees after a boundary: `current` itself,
      then the fragments of `g`. */
  lemma JoinedAfterBoundary(current: string, g: seq<string>)
    requires |g| >= 1
    ensures var f := [""] + g;
            var joined := [current + f[0]] + f[1..];
            joined[..|joined| - 1] == [current] + g[..|g| - 1] && joined[|joined| - 1] == g[|g| - 1]
  {
    var f := [""] + g;
    assert current + f[0] == current;
    assert f[1..] == g;
  }

  /** Starting from an empty pending line changes nothing about the fragments. */
  lemma JoinedFromEmpty(g: seq<string>)
    requires |g| >= 1
    ensures var joined := [("" + g[0])] + g[1..];
            joined[..|joined| - 1] == g[..|g| - 1] && joined[|joined| - 1] == g[|g| - 1]
  {
    assert "" + g[0] == g[0];
    assert [g[0]] + g[1..] == g;
  }

  lemma CleanSingle(fragment: string)
    ensures Clean([fragment]) == Emit(fragment)
  {
    assert [fragment][1..] == [];
  }

  lemma SplitViewBreak(current: string, s: string)
    requires StartsWithBreak(s)
    ensures var more := SplitView("", s[1..]);
            SplitView(current, s) == Framed(Emit(current) + more.lines, more.rest)
  {
    var g := Split(s[1..]);
    if StartsWithBreak(s[1..]) {
      assert Split(s) == g;
      var h := g[1..];
      assert g == [""] + h;
      ViewAfterBoundary(current, h);
      ViewAfterBoundary("", h);
      assert Emit("") == [];
      assert Emit("") + View("", h).lines == View("", h).lines;
    } else {
      assert Split(s) == [""] + g;
      ViewAfterBoundary(current, g);
    }
  }

  /** The reference framer agrees with the split-based description of the stream. */
  lemma {:induction false} ReferenceIsSplit(current: string, s: string)
    ensures Reference(current, s) == SplitView(current, s)
    decreases |s|
  {
    if |s| == 0 {
      assert Split(s) == [""];
      assert current + Split(s)[0] == current;
      assert [current + Split(s)[0]] + Split(s)[1..] == [current];
    } else if !IsBreak(s[0]) {
      ReferenceIsSplit(current + [s[0]], s[1..]);
      SplitViewPlain(current, s);
    } else {
      ReferenceIsSplit("", s[1..]);
      SplitViewBreak(current, s);
    }
  }

  /** The split-based framer delivers exactly the reference framer's lines; the buffer
      it carries over is the reference's pending line, dropped when blank. */
  lemma FrameChunkIsReference(buf: string, chunk: string)
    requires NoBreak(buf)
    ensures FrameChunk(buf, chunk).lines == Reference(buf, chunk).lines
    ensures FrameChunk(buf, chunk).rest
            == if AllSpace(Reference(buf, chunk).rest) then "" else Reference(buf, chunk).rest
  {
    SplitAfterPlainPrefix(buf, chunk);
    ReferenceIsSplit(buf, chunk);
    var f := Split(buf + chunk);
    TrimEmptyIffAllSpace(f[|f| - 1]);
  }

  /** Reading `a` then `b` is reading `a + b`, for the reference framer. */
  lemma {:induction false} ReferenceConcat(current: string, a: string, b: string)
    ensures var r1 := Reference(current, a);
            var r2 := Reference(r1.rest, b);
            Reference(current, a + b) == Framed(r1.lines + r2.lines, r2.rest)
    decreases |a|
  {
    if |a| == 0 {
      assert a + b == b;
    } else if IsBreak(a[0]) {
      ReferenceConcat("", a[1..], b);
      ConcatAfterBreak(current, a, b);
    } else {
      ReferenceConcat(current + [a[0]], a[1..], b);
      ConcatAfterPlain(current, a, b);
    }
  }

  /** The step of `ReferenceConcat` at a line break, given the claim for what follows it. */
  lemma ConcatAfterBreak(current: string, a: string, b: string)
    requires |a| > 0 && IsBreak(a[0])
    requires Reference("", a[1..] + b)
             == Framed(Reference("", a[1..]).lines + Reference(Reference("", a[1..]).rest, b).lines,
                       Reference(Reference("", a[1..]).rest, b).rest)
    ensures var r1 := Reference(current, a);
            var r2 := Reference(r1.rest, b);
            Reference(current, a + b) == Framed(r1.lines + r2.lines, r2.rest)
  {
    assert (a + b)[0] == a[0];
    assert (a + b)[1..] == a[1..] + b;
    ReferenceAtBreak(current, a);
    ReferenceAtBreak(current, a + b);
    var m1 := Reference("", a[1..]);
    var m2 := Reference(m1.rest, b);
    LinesAssoc(Emit(current), m1.lines, m2.lines);
  }

  /** One step of the reference framer at a line break. */
  lemma ReferenceAtBreak(current: string, s: string)
    requires |s| > 0 && IsBreak(s[0])
    ensures Reference(current, s)
            == Framed(Emit(current) + Reference("", s[1..]).lines, Reference("", s[1..]).rest)
  {
  }

  lemma LinesAssoc(x: seq<string>, y: seq<string>, z: seq<string>)
    ensures x + (y + z) == (x + y) + z
  {
  }

  /** The step of `ReferenceConcat` at an ordinary character, given the claim for what
      follows it. */
  lemma ConcatAfterPlain(current: string, a: string, b: string)
    requires |a| > 0 && !IsBreak(a[0])
    requires var r1 := Reference(current + [a[0]], a[1..]);
             Reference(current + [a[0]], a[1..] + b)
             == Framed(r1.lines + Reference(r1.rest, b).lines, Reference(r1.rest, b).rest)
    ensures var r1 := Reference(current, a);
            var r2 := Reference(r1.rest, b);
            Reference(current, a + b) == Framed(r1.lines + r2.lines, r2.rest)
  {
    assert (a + b)[0] == a[0];
    assert (a + b)[1..] == a[1..] + b;
  }

  /** Pending lines that agree once their leading white space is dropped frame the rest
      of the stream identically. */
  lemma {:induction false} ReferenceRespectsLeadingSpace(c1: string, c2: string, s: string)
    requires TrimStart(c1) == TrimStart(c2)
    ensures Reference(c1, s).lines == Reference(c2, s).lines
    ensures TrimStart(Reference(c1, s).rest) == TrimStart(Reference(c2, s).rest)
    decreases |s|
  {
    if |s| > 0 {
      if IsBreak(s[0]) {
        assert Trim(c1) == Trim(c2);
      } else {
        TrimStartSnoc(c1, s[0]);
        TrimStartSnoc(c2, s[0]);
        ReferenceRespectsLeadingSpace(c1 + [s[0]], c2 + [s[0]], s[1..]);
      }
    }
  }

  /** However the byte stream is cut into reads, the framer delivers the same lines as
      the reference framer run over the whole stream, and holds an equivalent pending
      line: no partial line is ever delivered and none is lost. */
  lemma {:induction false} FrameAllIsReference(buf: string, chunks: seq<string>)
    requires NoBreak(buf)
    ensures FrameAll(buf, chunks).lines == Reference(buf, Concat(chunks)).lines
    ensures TrimStart(FrameAll(buf, chunks).rest) == TrimStart(Reference(buf, Concat(chunks)).rest)
    decreases |chunks|
  {
    if |chunks| > 0 {
      var first := FrameChunk(buf, chunks[0]);
      var ref1 := Reference(buf, chunks[0]);
      FrameChunkIsReference(buf, chunks[0]);
      FrameAllIsReference(first.rest, chunks[1..]);
      ReferenceConcat(buf, chunks[0], Concat(chunks[1..]));
      assert TrimStart(first.rest) == TrimStart(ref1.rest) by {
        if AllSpace(ref1.rest) {
          AllSpaceTrimsAway(ref1.rest);
        }
      }
      ReferenceRespectsLeadingSpace(first.rest, ref1.rest, Concat(chunks[1..]));
    }
  }

  /** Two ways of cutting the same stream into reads deliver the same lines. */
  lemma ChunkingIsInvisible(chunks1: seq<string>, chunks2: seq<string>)
    requires Concat(chunks1) == Concat(chunks2)
    ensures FrameAll("", chunks1).lines == FrameAll("", chunks2).lines
  {
    FrameAllIsReference("", chunks1);
    FrameAllIsReference("", chunks2);
  }
}
