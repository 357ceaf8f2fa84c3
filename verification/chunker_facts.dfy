/** What `splitResponse` guarantees: at least one chunk, no text lost, the
    closing and reopening of code blocks at a cut, and a length bound. */
module ChunkerFacts {
  import opened Common
  import opened Text
  import opened Chunker

  /** The chunks glued back together, as a reader of consecutive messages
      sees them. */
  function Concat(cs: seq<string>): string
    decreases |cs|
  {
    if |cs| == 0 then "" else Concat(cs[..|cs| - 1]) + Last(cs)
  }

  /** Each line followed by a line break, which is what every loop iteration
      contributes. */
  function Terminated(ls: seq<string>): string
    decreases |ls|
  {
    if |ls| == 0 then "" else Terminated(ls[..|ls| - 1]) + Last(ls) + "\n"
  }

  /** The text of every line after a misplaced fence has been moved. */
  function Texts(lines: seq<string>, v: Variant): (ts: seq<string>)
    ensures |ts| == |lines|
  {
    seq(|lines|, i requires 0 <= i < |lines| => LineText(lines[i], v))
  }

  // ---------------------------------------------------------------------
  // Undoing the synthetic fences
  // ---------------------------------------------------------------------

  /** A chunk that was cut inside a code block and closed by the chunker.
      Every other chunk is empty or ends with a line break. */
  predicate IsClosed(c: string) {
    |c| >= 4 && c[|c| - 4..] == CloseFence
  }

  /** Removes the first line, that is the reopening fence of a chunk that
      follows a closed one. */
  function DropHeader(c: string): string {
    match IndexOf(c, "\n")
    case None => c
    case Some(i) => c[i + 1..]
  }

  /** A chunk with its synthetic fences removed: the reopening line when the
      chunk before it was closed, and its own closing fence. */
  function Piece(afterClose: bool, c: string): string {
    var d := if afterClose then DropHeader(c) else c;
    if IsClosed(d) then d[..|d| - 4] else d
  }

  /** The chunks glued back together with every synthetic fence removed. */
  function Unwrap(cs: seq<string>): string
    decreases |cs|
  {
    if |cs| == 0 then ""
    else Unwrap(cs[..|cs| - 1]) + Piece(|cs| >= 2 && IsClosed(cs[|cs| - 2]), Last(cs))
  }

  lemma UnwrapSnoc(cs: seq<string>, x: string)
    ensures Unwrap(cs + [x]) == Unwrap(cs) + Piece(|cs| > 0 && IsClosed(Last(cs)), x)
  {
    assert (cs + [x])[..|cs|] == cs;
  }

  /** A chunk that is empty or ends with a line break. */
  predicate Open(c: string) {
    c == "" || EndsLine(c)
  }

  lemma OpenNotClosed(c: string)
    requires Open(c)
    ensures !IsClosed(c)
  {
    if |c| >= 4 {
      assert c[|c| - 4..][3] == c[|c| - 1];
    }
  }

  lemma DropHeaderAppend(c: string, s: string)
    requires IndexOf(c, "\n").Some?
    ensures DropHeader(c + s) == DropHeader(c) + s
    ensures EndsLine(c) ==> Open(DropHeader(c))
  {
    IndexOfAppend(c, "\n", s);
    var i := IndexOf(c, "\n").value;
    assert (c + s)[i + 1..] == c[i + 1..] + s;
  }

  lemma PieceAppend(ac: bool, c: string, s: string)
    requires Open(c) && EndsLine(s)
    requires ac ==> IndexOf(c, "\n").Some?
    ensures Piece(ac, c + s) == Piece(ac, c) + s
  {
    var d := if ac then DropHeader(c) else c;
    if ac {
      DropHeaderAppend(c, s);
    }
    OpenNotClosed(d);
    assert EndsLine(d + s);
    OpenNotClosed(d + s);
  }

  lemma PieceClose(ac: bool, c: string)
    requires Open(c)
    requires ac ==> IndexOf(c, "\n").Some?
    ensures Piece(ac, c + CloseFence) == Piece(ac, c)
  {
    var d := if ac then DropHeader(c) else c;
    if ac {
      DropHeaderAppend(c, CloseFence);
    }
    assert (d + CloseFence)[..|d + CloseFence| - 4] == d;
  }

  lemma PieceReopened(language: string, t: string)
    requires NoTerminator(language)
    ensures Piece(true, Fence + language + "\n" + t + "\n") == t + "\n"
    ensures IndexOf(Fence + language + "\n" + t + "\n", "\n").Some?
    ensures EndsLine(Fence + language + "\n" + t + "\n")
  {
    var c := Fence + language + "\n" + t + "\n";
    var i := 3 + |language|;
    assert c[i..i + 1] == "\n";
    forall j | 0 <= j < i
      ensures !OccursAt(c, "\n", j)
    {
      assert c[j..j + 1] == [c[j]];
      if j >= 3 {
        assert c[j] == language[j - 3];
      }
    }
    IndexOfIsFirst(c, "\n", i);
    assert c[i + 1..] == t + "\n";
    OpenNotClosed(t + "\n");
  }

  /** What the loop keeps true of its state for the lossless theorem: the
      chunk being filled is empty or ends a line; after a closed chunk it
      holds the reopening line; the language has no line break. */
  predicate Inv(f: Fold) {
    && Open(f.chunk)
    && (|f.chunks| > 0 && IsClosed(Last(f.chunks)) ==> IndexOf(f.chunk, "\n").Some?)
    && NoTerminator(f.language)
  }

  function Glued(f: Fold): string {
    Unwrap(f.chunks + [f.chunk])
  }

  /** Regrouping a concatenation, stated once so that proofs need not search
      for it. */
  lemma Assoc(x: string, p: string, t: string)
    ensures x + (p + t) == x + p + t
  {
  }

  lemma AppendGlued(cs: seq<string>, c: string, t: string)
    requires Open(c) && EndsLine(t)
    requires |cs| > 0 && IsClosed(Last(cs)) ==> IndexOf(c, "\n").Some?
    ensures Unwrap(cs + [c + t]) == Unwrap(cs + [c]) + t
  {
    var ac := |cs| > 0 && IsClosed(Last(cs));
    UnwrapSnoc(cs, c);
    UnwrapSnoc(cs, c + t);
    PieceAppend(ac, c, t);
    Assoc(Unwrap(cs), Piece(ac, c), t);
  }

  lemma AppendKeeps(f: Fold, text: string, g: Fold)
    requires Inv(f) && NoTerminator(g.language)
    requires g.chunks == f.chunks && g.chunk == f.chunk + text + "\n"
    ensures Inv(g) && Glued(g) == Glued(f) + text + "\n"
  {
    var t := text + "\n";
    assert g.chunk == f.chunk + t;
    AppendGlued(f.chunks, f.chunk, t);
    if |f.chunks| > 0 && IsClosed(Last(f.chunks)) {
      IndexOfAppend(f.chunk, "\n", t);
    }
  }

  lemma FlushKeeps(f: Fold, text: string, g: Fold)
    requires Inv(f) && NoTerminator(g.language)
    requires g.chunks == f.chunks + [f.chunk] && g.chunk == text + "\n"
    ensures Inv(g) && Glued(g) == Glued(f) + text + "\n"
  {
    UnwrapSnoc(g.chunks, g.chunk);
    OpenNotClosed(f.chunk);
    OpenNotClosed(g.chunk);
  }

  lemma CloseGlued(cs: seq<string>, c: string)
    requires Open(c)
    requires |cs| > 0 && IsClosed(Last(cs)) ==> IndexOf(c, "\n").Some?
    ensures Unwrap(cs + [c + CloseFence]) == Unwrap(cs + [c])
    ensures IsClosed(c + CloseFence)
  {
    var ac := |cs| > 0 && IsClosed(Last(cs));
    UnwrapSnoc(cs, c);
    UnwrapSnoc(cs, c + CloseFence);
    PieceClose(ac, c);
    assert (c + CloseFence)[|c + CloseFence| - 4..] == CloseFence;
  }

  lemma ReopenKeeps(f: Fold, text: string, g: Fold)
    requires Inv(f) && NoTerminator(g.language)
    requires g.chunks == f.chunks + [f.chunk + CloseFence]
    requires g.chunk == Fence + g.language + "\n" + text + "\n"
    ensures Inv(g) && Glued(g) == Glued(f) + text + "\n"
  {
    var c := f.chunk + CloseFence;
    CloseGlued(f.chunks, f.chunk);
    assert Unwrap(g.chunks) == Glued(f) && Last(g.chunks) == c && IsClosed(c);
    UnwrapSnoc(g.chunks, g.chunk);
    assert Glued(g) == Unwrap(g.chunks) + Piece(true, g.chunk);
    PieceReopened(g.language, text);
    assert Piece(true, g.chunk) == text + "\n";
    Assoc(Glued(f), text, "\n");
  }

  lemma StepKeeps(f: Fold, line: string, limit: nat, v: Variant)
    requires Inv(f)
    ensures Inv(Step(f, line, limit, v))
    ensures Glued(Step(f, line, limit, v)) == Glued(f) + LineText(line, v) + "\n"
  {
    var g := Step(f, line, limit, v);
    var text := LineText(line, v);
    assert NoTerminator(g.language);
    if |f.chunk + text| >= limit {
      if g.open {
        ReopenKeeps(f, text, g);
      } else {
        FlushKeeps(f, text, g);
      }
    } else {
      AppendKeeps(f, text, g);
    }
  }

  /** The loop invariant behind the lossless theorem: gluing the chunks so
      far and the chunk being filled, without synthetic fences, gives the
      lines read so far, each followed by a line break. */
  lemma {:induction false} RunUnwraps(lines: seq<string>, limit: nat, v: Variant)
    ensures Inv(Run(lines, limit, v))
    ensures Glued(Run(lines, limit, v)) == Terminated(Texts(lines, v))
    decreases |lines|
  {
    if |lines| == 0 {
      assert Unwrap([""]) == Unwrap([]) + Piece(false, "");
    } else {
      var init := lines[..|lines| - 1];
      var f := Run(init, limit, v);
      RunUnwraps(init, limit, v);
      assert Run(lines, limit, v) == Step(f, Last(lines), limit, v);
      StepKeeps(f, Last(lines), limit, v);
      TextsSnoc(lines, v);
    }
  }

  /** The last line adds its text and a line break. */
  lemma TextsSnoc(lines: seq<string>, v: Variant)
    requires |lines| > 0
    ensures Terminated(Texts(lines, v))
         == Terminated(Texts(lines[..|lines| - 1], v)) + LineText(Last(lines), v) + "\n"
  {
    var ts := Texts(lines, v);
    assert ts[..|lines| - 1] == Texts(lines[..|lines| - 1], v);
    assert Last(ts) == LineText(Last(lines), v);
  }

  /** Removing the fences the chunker adds at a cut inside a code block, the
      chunks spell out every line of the reply (after any misplaced fence
      was moved), each followed by a line break. */
  lemma SplitUnwraps(content: string, limit: nat, v: Variant)
    ensures Unwrap(Split(content, limit, v)) == Terminated(Texts(Lines(content), v))
  {
    var lines := Lines(content);
    RunUnwraps(lines, limit, v);
    RunChunkEndsLine(lines, limit, v);
  }

  // ---------------------------------------------------------------------
  // From lines back to the reply
  // ---------------------------------------------------------------------

  lemma {:induction false} TerminatedCons(a: string, ls: seq<string>)
    ensures Terminated([a] + ls) == a + "\n" + Terminated(ls)
    decreases |ls|
  {
    if |ls| > 0 {
      var init := ls[..|ls| - 1];
      assert ([a] + ls)[..|ls|] == [a] + init;
      TerminatedCons(a, init);
    } else {
      assert ([a] + ls)[..0] == [];
    }
  }

  lemma {:induction false} TerminatedJoin(ls: seq<string>)
    requires |ls| >= 1
    ensures Terminated(ls) == Join(ls, "\n") + "\n"
    decreases |ls|
  {
    if |ls| == 1 {
      assert ls[..0] == [];
    } else {
      assert ls == [ls[0]] + ls[1..];
      TerminatedCons(ls[0], ls[1..]);
      TerminatedJoin(ls[1..]);
    }
  }

  /** The lines of the reply, each followed by a line break, are the reply
      followed by a line break. */
  lemma LinesTerminated(content: string)
    ensures Terminated(Lines(content)) == content + "\n"
  {
    TerminatedJoin(Lines(content));
    JoinSplit(content, "\n");
  }

  /** A line in which every fence starts the line. */
  predicate FenceLeads(line: string) {
    match MatchFence(line)
    case None => true
    case Some(h) => h.at == 0
  }

  /** When every fence starts its line, removing the synthetic fences gives
      back exactly the reply followed by a line break. */
  lemma LosslessWhenFencesLead(content: string, limit: nat, v: Variant)
    requires forall k :: 0 <= k < |Lines(content)| ==> FenceLeads(Lines(content)[k])
    ensures Unwrap(Split(content, limit, v)) == content + "\n"
  {
    var lines := Lines(content);
    forall k | 0 <= k < |lines|
      ensures Texts(lines, v)[k] == lines[k]
    {
      match MatchFence(lines[k])
      case None =>
      case Some(h) => RewriteShape(lines[k], h, v);
    }
    assert Texts(lines, v) == lines;
    SplitUnwraps(content, limit, v);
    LinesTerminated(content);
  }

  // ---------------------------------------------------------------------
  // Replies without any fence
  // ---------------------------------------------------------------------

  lemma SliceOccurrence(s: string, pat: string, a: nat, b: nat, j: int)
    requires a <= b <= |s|
    requires OccursAt(s[a..b], pat, j)
    ensures OccursAt(s, pat, a + j)
  {
    assert j + |pat| <= b - a;
    var u := s[a..b][j..j + |pat|];
    var w := s[a + j..a + j + |pat|];
    forall q | 0 <= q < |pat|
      ensures u[q] == w[q]
    {
    }
    assert u == w;
  }

  /** Text without a fence has none before or after a separator. */
  lemma NoFenceAround(s: string, sep: string, i: nat)
    requires IndexOf(s, sep) == Some(i)
    requires IndexOf(s, Fence).None?
    ensures IndexOf(s[..i], Fence).None?
    ensures IndexOf(s[i + |sep|..], Fence).None?
  {
    var tail := s[i + |sep|..];
    if IndexOf(s[..i], Fence).Some? {
      SliceOccurrence(s, Fence, 0, i, IndexOf(s[..i], Fence).value);
    }
    assert tail == s[i + |sep|..|s|];
    if IndexOf(tail, Fence).Some? {
      SliceOccurrence(s, Fence, i + |sep|, |s|, IndexOf(tail, Fence).value);
    }
  }

  /** A reply without a fence has no line with a fence. */
  lemma {:induction false} NoFenceInPieces(s: string, sep: string)
    requires |sep| > 0
    requires IndexOf(s, Fence).None?
    ensures forall k :: 0 <= k < |SplitOn(s, sep)| ==> IndexOf(SplitOn(s, sep)[k], Fence).None?
    decreases |s|
  {
    match IndexOf(s, sep)
    case None =>
    case Some(i) =>
      var tail := s[i + |sep|..];
      NoFenceAround(s, sep, i);
      NoFenceInPieces(tail, sep);
      assert SplitOn(s, sep) == [s[..i]] + SplitOn(tail, sep);
      NoFenceCons(s[..i], SplitOn(tail, sep));
  }

  lemma NoFenceCons(head: string, parts: seq<string>)
    requires IndexOf(head, Fence).None?
    requires forall k :: 0 <= k < |parts| ==> IndexOf(parts[k], Fence).None?
    ensures forall k :: 0 <= k < |[head] + parts| ==> IndexOf(([head] + parts)[k], Fence).None?
  {
    forall k | 0 <= k < |[head] + parts|
      ensures IndexOf(([head] + parts)[k], Fence).None?
    {
      if k > 0 {
        assert ([head] + parts)[k] == parts[k - 1];
      }
    }
  }

  /** Gluing chunks none of which was closed by the chunker undoes nothing. */
  lemma {:induction false} UnwrapPlain(cs: seq<string>)
    requires forall k :: 0 <= k < |cs| ==> !IsClosed(cs[k])
    ensures Unwrap(cs) == Concat(cs)
    decreases |cs|
  {
    if |cs| > 0 {
      UnwrapPlain(cs[..|cs| - 1]);
    }
  }

  lemma {:induction false} RunPlain(lines: seq<string>, limit: nat, v: Variant)
    requires forall k :: 0 <= k < |lines| ==> IndexOf(lines[k], Fence).None?
    ensures !Run(lines, limit, v).open
    ensures forall k :: 0 <= k < |Run(lines, limit, v).chunks| ==> !IsClosed(Run(lines, limit, v).chunks[k])
    ensures Open(Run(lines, limit, v).chunk)
    decreases |lines|
  {
    if |lines| > 0 {
      RunPlain(lines[..|lines| - 1], limit, v);
    }
  }

  /** For a reply without any fence, the chunks glued together are exactly
      the reply followed by a line break. */
  lemma NoFenceLossless(content: string, limit: nat, v: Variant)
    requires IndexOf(content, Fence).None?
    ensures Concat(Split(content, limit, v)) == content + "\n"
  {
    var lines := Lines(content);
    NoFenceInPieces(content, "\n");
    RunPlain(lines, limit, v);
    RunChunkEndsLine(lines, limit, v);
    var cs := Split(content, limit, v);
    assert forall k :: 0 <= k < |cs| ==> !IsClosed(cs[k]);
    UnwrapPlain(cs);
    forall k | 0 <= k < |lines|
      ensures FenceLeads(lines[k])
    {
    }
    LosslessWhenFencesLead(content, limit, v);
  }

  // ---------------------------------------------------------------------
  // Length
  // ---------------------------------------------------------------------

  /** A line is appended only while the chunk plus the line stays under the
      limit, so an append never takes the chunk past the limit; at a cut the
      chunk is pushed (closed by a fence when a code block is open) and the
      next chunk starts with the line, after a fence that reopens the block
      with the same language. */
  lemma StepCut(f: Fold, line: string, limit: nat, v: Variant)
    ensures var g := Step(f, line, limit, v); var t := LineText(line, v);
      && (|f.chunk + t| < limit ==> g.chunks == f.chunks && g.chunk == f.chunk + t + "\n" && |g.chunk| <= limit)
      && (|f.chunk + t| >= limit && g.open ==>
            g.chunks == f.chunks + [f.chunk + CloseFence] && g.chunk == Fence + g.language + "\n" + t + "\n")
      && (|f.chunk + t| >= limit && !g.open ==> g.chunks == f.chunks + [f.chunk] && g.chunk == t + "\n")
  {
  }

  /** A line with a fence sets the block open exactly when text follows the
      fence, and records that text as the language, so a bare fence leaves
      the block closed; a line without a fence changes neither. */
  lemma StepFenceState(f: Fold, line: string, limit: nat, v: Variant)
    ensures var g := Step(f, line, limit, v);
      match MatchFence(line)
      case None => g.open == f.open && g.language == f.language
      case Some(h) => g.open == (h.tag != "") && g.language == h.tag
  {
  }

  /** Moving a fence never lengthens a line by more than the inserted break,
      and the language after a fence is shorter than the line by the fence. */
  lemma LineTextLength(line: string, v: Variant)
    ensures |LineText(line, v)| <= |line| + 1
    ensures MatchFence(line).Some? ==> |MatchFence(line).value.tag| + 3 <= |line|
  {
    match MatchFence(line)
    case None =>
    case Some(h) => RewriteShape(line, h, v);
  }

  /** Chunk lengths while every line read so far is at most `m` long. */
  predicate Bounded(f: Fold, limit: nat, m: nat) {
    && |f.chunk| <= limit
    && (forall k :: 0 <= k < |f.chunks| ==> |f.chunks[k]| <= limit + |CloseFence|)
    && (f.open ==> |f.language| + 3 <= m)
  }

  lemma StepBounded(f: Fold, line: string, limit: nat, v: Variant, m: nat)
    requires Bounded(f, limit, m)
    requires |line| <= m && 2 * m + 3 <= limit
    ensures Bounded(Step(f, line, limit, v), limit, m)
  {
    LineTextLength(line, v);
  }

  lemma {:induction false} RunBounded(lines: seq<string>, limit: nat, v: Variant, m: nat)
    requires forall k :: 0 <= k < |lines| ==> |lines[k]| <= m
    requires 2 * m + 3 <= limit
    ensures Bounded(Run(lines, limit, v), limit, m)
    decreases |lines|
  {
    if |lines| > 0 {
      RunBounded(lines[..|lines| - 1], limit, v, m);
      StepBounded(Run(lines[..|lines| - 1], limit, v), Last(lines), limit, v, m);
    }
  }

  /** When no line of the reply is longer than `m` and the limit leaves room
      for two such lines, no chunk is longer than the limit plus the closing
      fence. (A longer line is emitted whole, so some bound on the lines is
      needed.) */
  lemma ChunkBound(content: string, limit: nat, v: Variant, m: nat)
    requires forall k :: 0 <= k < |Lines(content)| ==> |Lines(content)[k]| <= m
    requires 2 * m + 3 <= limit
    ensures forall k :: 0 <= k < |Split(content, limit, v)| ==> |Split(content, limit, v)[k]| <= limit + 4
  {
    RunBounded(Lines(content), limit, v, m);
  }

  /** Shorter lines alone do not bound the chunks: after a cut inside a
      block the reopening fence line is added to the next chunk, so a block
      opened by ```x followed by a line one short of the limit gives a
      chunk of `limit + 9` characters. */
  lemma ReopenedChunkOverflows(b: string, c: string, limit: nat, v: Variant)
    requires limit > 4 && Plain(b) && Plain(c) && |b| == limit - 1 && |c| < limit
    ensures var content := Fence + "x" + "\n" + b + "\n" + c;
      && (forall k :: 0 <= k < |Lines(content)| ==> |Lines(content)[k]| < limit)
      && |Split(content, limit, v)| == 3
      && |Split(content, limit, v)[1]| == limit + 9
  {
    var head := Fence + "x";
    FenceNoBreak("", "x");
    assert "" + Fence + "x" == head;
    LinesOfThree(head, b, c);
    ReopenSplit("x", b, c, limit, v);
  }

  lemma ReopenSplit(tag: string, b: string, c: string, limit: nat, v: Variant)
    requires tag != "" && NoTerminator(tag) && |Fence + tag| < limit
    requires Plain(b) && Plain(c) && |Fence + tag| + 1 + |b| >= limit
    ensures var head := Fence + tag;
      Split(head + "\n" + b + "\n" + c, limit, v)
      == [head + "\n" + CloseFence, head + "\n" + b + "\n" + CloseFence, head + "\n" + c + "\n"]
  {
    var head := Fence + tag;
    FenceNoBreak("", tag);
    assert "" + Fence + tag == head;
    SplitThree(head, b, c, limit, v);
    ReopenSteps(tag, b, c, limit, v);
  }

  /** The three iterations behind `ReopenSplit`. */
  lemma ReopenSteps(tag: string, b: string, c: string, limit: nat, v: Variant)
    requires tag != "" && NoTerminator(tag) && |Fence + tag| < limit
    requires Plain(b) && Plain(c) && |Fence + tag| + 1 + |b| >= limit
    ensures var head := Fence + tag;
      Step(Step(Step(Start, head, limit, v), b, limit, v), c, limit, v)
      == Fold([head + "\n" + CloseFence, head + "\n" + b + "\n" + CloseFence], head + "\n" + c + "\n", true, tag)
  {
    var head := Fence + tag;
    StepFenceLine(Start, tag, limit, v);
    assert Start.chunk + head == head;
    var f1 := Fold([], head + "\n", true, tag);
    StepCutOpen(f1, b, limit, v);
    assert [] + [f1.chunk + CloseFence] == [head + "\n" + CloseFence];
    var f2 := Fold([head + "\n" + CloseFence], head + "\n" + b + "\n", true, tag);
    StepCutOpen(f2, c, limit, v);
  }

  // ---------------------------------------------------------------------
  // The misplaced-fence rewrite (README "## Findings")
  // ---------------------------------------------------------------------

  /** As written, moving a fence that does not start its line deletes the
      fence and its language: the line loses the matched text and gains only
      the break. */
  lemma RewriteLosesFence(line: string)
    requires MatchFence(line).Some? && MatchFence(line).value.at > 0
    ensures var h := MatchFence(line).value;
      LineText(line, AsWritten) == line[..h.at] + "\n" + line[h.at + |Matched(h)|..]
    ensures |LineText(line, AsWritten)| + |Matched(MatchFence(line).value)| == |line| + 1
  {
    RewriteShape(line, MatchFence(line).value, AsWritten);
  }

  /** With the repair, the fence is moved and nothing is lost: the rewritten
      line has a break where the fence was, the fence after it, and removing
      the break gives back the line. */
  lemma RewriteKeepsFence(line: string)
    requires MatchFence(line).Some? && MatchFence(line).value.at > 0
    ensures var h := MatchFence(line).value; var t := LineText(line, Intended);
      && |t| == |line| + 1
      && t[h.at] == '\n'
      && t[..h.at] + t[h.at + 1..] == line
      && OccursAt(t, Fence, h.at + 1)
  {
    var h := MatchFence(line).value;
    RewriteShape(line, h, Intended);
    var t := LineText(line, Intended);
    assert t[..h.at] == line[..h.at];
    assert t[h.at + 1..] == line[h.at..];
    assert t[h.at + 1..h.at + 4] == line[h.at..h.at + 3];
  }

  // ---------------------------------------------------------------------
  // Worked examples
  // ---------------------------------------------------------------------

  /** Text without a line break. */
  predicate NoBreak(s: string) {
    forall j :: 0 <= j < |s| ==> s[j] != '\n'
  }

  /** Text without line breaks or backticks: a plain line. */
  predicate Plain(s: string) {
    forall j :: 0 <= j < |s| ==> s[j] != '\n' && s[j] != '`'
  }

  lemma FirstChar(s: string, c: char, i: nat)
    requires i < |s| && s[i] == c
    requires forall j :: 0 <= j < i ==> s[j] != c
    ensures IndexOf(s, [c]) == Some(i)
  {
    assert s[i..i + 1] == [c];
    forall j | 0 <= j < i
      ensures !OccursAt(s, [c], j)
    {
      assert s[j..j + 1] == [s[j]];
    }
    IndexOfIsFirst(s, [c], i);
  }

  lemma NoChar(s: string, c: char)
    requires forall j :: 0 <= j < |s| ==> s[j] != c
    ensures IndexOf(s, [c]).None?
  {
    forall j | 0 <= j
      ensures !OccursAt(s, [c], j)
    {
      if j + 1 <= |s| {
        assert s[j..j + 1] == [s[j]];
      }
    }
  }

  lemma NoFence(s: string)
    requires forall j :: 0 <= j < |s| ==> s[j] != '`'
    ensures MatchFence(s).None?
  {
    forall j | 0 <= j
      ensures !OccursAt(s, Fence, j)
    {
      if j + 3 <= |s| {
        assert s[j..j + 3][0] == s[j];
      }
    }
  }

  lemma OneLine(s: string)
    requires NoBreak(s)
    ensures Lines(s) == [s]
  {
    NoChar(s, '\n');
  }

  lemma LinesOfTwo(a: string, b: string)
    requires NoBreak(a) && NoBreak(b)
    ensures Lines(a + "\n" + b) == [a, b]
  {
    var s := a + "\n" + b;
    FirstChar(s, '\n', |a|);
    assert s[..|a|] == a && s[|a| + 1..] == b;
    OneLine(b);
    assert SplitOn(s, "\n") == [a] + SplitOn(b, "\n");
  }

  lemma LinesOfThree(a: string, b: string, c: string)
    requires NoBreak(a) && NoBreak(b) && NoBreak(c)
    ensures Lines(a + "\n" + b + "\n" + c) == [a, b, c]
  {
    var rest := b + "\n" + c;
    var s := a + "\n" + rest;
    assert a + "\n" + b + "\n" + c == s;
    FirstChar(s, '\n', |a|);
    assert s[..|a|] == a && s[|a| + 1..] == rest;
    LinesOfTwo(b, c);
    assert SplitOn(s, "\n") == [a] + SplitOn(rest, "\n");
  }

  lemma RunOne(line: string, limit: nat, v: Variant)
    ensures Run([line], limit, v) == Step(Start, line, limit, v)
  {
    assert [line][..0] == [];
  }

  lemma RunMore(lines: seq<string>, line: string, limit: nat, v: Variant)
    ensures Run(lines + [line], limit, v) == Step(Run(lines, limit, v), line, limit, v)
  {
    assert (lines + [line])[..|lines|] == lines;
  }

  /** A reply of one line is a single iteration of the loop. */
  lemma SplitOne(a: string, limit: nat, v: Variant)
    requires NoBreak(a)
    ensures Split(a, limit, v) == Flush(Step(Start, a, limit, v))
  {
    OneLine(a);
    RunOne(a, limit, v);
  }

  /** A reply of two lines is two iterations of the loop. */
  lemma SplitTwo(a: string, b: string, limit: nat, v: Variant)
    requires NoBreak(a) && NoBreak(b)
    ensures Split(a + "\n" + b, limit, v) == Flush(Step(Step(Start, a, limit, v), b, limit, v))
  {
    LinesOfTwo(a, b);
    RunOne(a, limit, v);
    RunMore([a], b, limit, v);
    assert [a, b] == [a] + [b];
  }

  /** A reply of three lines is three iterations of the loop. */
  lemma SplitThree(a: string, b: string, c: string, limit: nat, v: Variant)
    requires NoBreak(a) && NoBreak(b) && NoBreak(c)
    ensures Split(a + "\n" + b + "\n" + c, limit, v)
         == Flush(Step(Step(Step(Start, a, limit, v), b, limit, v), c, limit, v))
  {
    LinesOfThree(a, b, c);
    RunOne(a, limit, v);
    RunMore([a], b, limit, v);
    assert [a, b] == [a] + [b];
    RunMore([a, b], c, limit, v);
    assert [a, b, c] == [a, b] + [c];
  }

  /** A line without a fence: the block state is carried over unchanged. */
  lemma StepPlain(f: Fold, line: string, limit: nat, v: Variant)
    requires MatchFence(line).None?
    ensures Step(f, line, limit, v) ==
      if |f.chunk + line| >= limit then
        if f.open then Fold(f.chunks + [f.chunk + CloseFence], Fence + f.language + "\n" + line + "\n", true, f.language)
        else Fold(f.chunks + [f.chunk], line + "\n", false, f.language)
      else Fold(f.chunks, f.chunk + line + "\n", f.open, f.language)
  {
  }

  lemma {:induction false} TagRunWhole(s: string)
    requires NoTerminator(s)
    ensures TagRun(s) == s
    decreases |s|
  {
    if |s| > 0 {
      TagRunWhole(s[1..]);
      assert s == [s[0]] + s[1..];
    }
  }

  lemma MatchAtStart(line: string, tag: string)
    requires line == Fence + tag && NoTerminator(tag)
    ensures MatchFence(line) == Some(FenceHit(0, tag))
    ensures LineText(line, AsWritten) == line && LineText(line, Intended) == line
  {
    assert OccursAt(line, Fence, 0);
    IndexOfIsFirst(line, Fence, 0);
    assert line[3..] == tag;
    TagRunWhole(tag);
    RewriteShape(line, FenceHit(0, tag), AsWritten);
    RewriteShape(line, FenceHit(0, tag), Intended);
  }

  /** A line that starts with a fence opens a block exactly when a language
      follows the fence. */
  lemma StepFenceLine(f: Fold, tag: string, limit: nat, v: Variant)
    requires NoTerminator(tag)
    ensures var line := Fence + tag;
      Step(f, line, limit, v) ==
      if |f.chunk + line| >= limit then
        if tag != "" then Fold(f.chunks + [f.chunk + CloseFence], Fence + tag + "\n" + line + "\n", true, tag)
        else Fold(f.chunks + [f.chunk], line + "\n", false, tag)
      else Fold(f.chunks, f.chunk + line + "\n", tag != "", tag)
  {
    MatchAtStart(Fence + tag, tag);
  }

  /** A fence followed by a language is one line. */
  lemma FenceNoBreak(x: string, language: string)
    requires NoBreak(x) && NoTerminator(language)
    ensures NoBreak(x + Fence + language)
  {
    var line := x + Fence + language;
    forall j | 0 <= j < |line|
      ensures line[j] != '\n'
    {
      if j >= |x| + 3 {
        assert line[j] == language[j - |x| - 3];
      } else if j < |x| {
        assert line[j] == x[j];
      }
    }
  }

  /** A short reply on one line fits in one chunk. */
  lemma ShortReply(line: string, limit: nat, v: Variant)
    requires Plain(line) && |line| < limit
    ensures Split(line, limit, v) == [line + "\n"]
  {
    SplitOne(line, limit, v);
    NoFence(line);
    StepPlain(Start, line, limit, v);
    assert "" + line == line && "" + line + "\n" == line + "\n";
  }

  /** A first line at or over the limit is emitted whole, preceded by an
      empty chunk. */
  lemma OverlongFirstLine(line: string, limit: nat, v: Variant)
    requires Plain(line) && |line| >= limit
    ensures Split(line, limit, v) == ["", line + "\n"]
  {
    SplitOne(line, limit, v);
    assert Start.chunk + line == line;
    StepCutPlain(Start, line, limit, v);
    assert [] + [Start.chunk] == [""];
  }

  /** A line one short of the limit followed by an empty line gives two
      chunks: the empty line meets the limit (`>=`) once the first line's
      break is counted. */
  lemma FullLineThenEmptyLine(line: string, limit: nat, v: Variant)
    requires Plain(line) && |line| + 1 == limit
    ensures Split(line + "\n", limit, v) == [line + "\n", "\n"]
  {
    SplitTwo(line, "", limit, v);
    assert line + "\n" + "" == line + "\n";
    FullLineSteps(line, limit, v);
  }

  /** The two iterations behind `FullLineThenEmptyLine`. */
  lemma FullLineSteps(line: string, limit: nat, v: Variant)
    requires Plain(line) && |line| + 1 == limit
    ensures Step(Step(Start, line, limit, v), "", limit, v) == Fold([line + "\n"], "\n", false, "")
  {
    NoFence(line);
    StepPlain(Start, line, limit, v);
    var f1 := Fold([], line + "\n", false, "");
    assert "" + line == line && "" + line + "\n" == line + "\n";
    assert Step(Start, line, limit, v) == f1;
    assert f1.chunk + "" == f1.chunk;
    StepCutPlain(f1, "", limit, v);
  }

  /** A plain line that does not fit, outside a block, starts a new chunk. */
  lemma StepCutPlain(f: Fold, line: string, limit: nat, v: Variant)
    requires Plain(line) && !f.open && |f.chunk + line| >= limit
    ensures Step(f, line, limit, v) == Fold(f.chunks + [f.chunk], line + "\n", false, f.language)
  {
    NoFence(line);
    StepPlain(f, line, limit, v);
  }

  lemma StepCutOpen(f: Fold, line: string, limit: nat, v: Variant)
    requires Plain(line) && f.open && |f.chunk + line| >= limit
    ensures Step(f, line, limit, v)
         == Fold(f.chunks + [f.chunk + CloseFence], Fence + f.language + "\n" + line + "\n", true, f.language)
  {
    NoFence(line);
    StepPlain(f, line, limit, v);
  }

  /** The loop over three equal lines each one short of the limit. */
  lemma ThreeEqualSteps(line: string, limit: nat, v: Variant)
    requires Plain(line) && |line| + 1 == limit
    ensures Step(Step(Step(Start, line, limit, v), line, limit, v), line, limit, v)
         == Fold([line + "\n", line + "\n"], line + "\n", false, "")
  {
    var t := line + "\n";
    NoFence(line);
    StepPlain(Start, line, limit, v);
    assert "" + line == line && "" + line + "\n" == t;
    var f1 := Fold([], t, false, "");
    assert Step(Start, line, limit, v) == f1;
    StepCutPlain(f1, line, limit, v);
    StepCutPlain(Fold([t], t, false, ""), line, limit, v);
  }

  /** Three equal lines each one short of the limit give three equal
      chunks. */
  lemma ThreeEqualLines(line: string, limit: nat, v: Variant)
    requires Plain(line) && |line| + 1 == limit
    ensures Split(line + "\n" + line + "\n" + line, limit, v) == [line + "\n", line + "\n", line + "\n"]
  {
    SplitThree(line, line, line, limit, v);
    ThreeEqualSteps(line, limit, v);
  }

  /** The first two lines of a block that fit in one chunk. */
  lemma BlockStart(language: string, a: string, limit: nat, v: Variant)
    requires language != "" && NoTerminator(language) && Plain(a)
    requires |Fence + language + "\n" + a| < limit
    ensures Step(Step(Start, Fence + language, limit, v), a, limit, v)
         == Fold([], Fence + language + "\n" + a + "\n", true, language)
  {
    var head := Fence + language;
    StepFenceLine(Start, language, limit, v);
    assert "" + head == head && |head| < limit;
    var f1 := Fold([], head + "\n", true, language);
    assert Step(Start, head, limit, v) == f1;
    NoFence(a);
    StepPlain(f1, a, limit, v);
  }

  /** A cut inside a block closes the chunk with a fence and reopens the
      block, with its language, at the head of the next chunk. */
  lemma CutInsideBlock(language: string, a: string, b: string, limit: nat, v: Variant)
    requires language != "" && NoTerminator(language)
    requires Plain(a) && Plain(b)
    requires |Fence + language + "\n" + a| < limit <= |Fence + language + "\n" + a + "\n" + b|
    ensures Split(Fence + language + "\n" + a + "\n" + b, limit, v)
         == [Fence + language + "\n" + a + "\n" + CloseFence, Fence + language + "\n" + b + "\n"]
  {
    var head := Fence + language;
    FenceNoBreak("", language);
    assert "" + Fence + language == head;
    SplitThree(head, a, b, limit, v);
    BlockStart(language, a, limit, v);
    var f2 := Fold([], head + "\n" + a + "\n", true, language);
    assert f2.chunk + b == head + "\n" + a + "\n" + b;
    StepCutOpen(f2, b, limit, v);
    assert [] + [f2.chunk + CloseFence] == [head + "\n" + a + "\n" + CloseFence];
  }

  /** A closing fence that lands on a cut reads as a bare fence, so the
      block counts as closed: the chunk before the cut is pushed without a
      closing fence and the fence starts the next chunk. Chunks are
      therefore not always balanced. */
  lemma ClosingFenceAtCut(language: string, a: string, limit: nat, v: Variant)
    requires language != "" && NoTerminator(language)
    requires Plain(a)
    requires |Fence + language + "\n" + a| < limit <= |Fence + language + "\n" + a + "\n" + Fence|
    ensures Split(Fence + language + "\n" + a + "\n" + Fence, limit, v)
         == [Fence + language + "\n" + a + "\n", Fence + "\n"]
  {
    var head := Fence + language;
    FenceNoBreak("", language);
    assert "" + Fence + language == head;
    FenceNoBreak("", "");
    assert "" + Fence + "" == Fence;
    SplitThree(head, a, Fence, limit, v);
    BlockStart(language, a, limit, v);
    var f2 := Fold([], head + "\n" + a + "\n", true, language);
    StepFenceLine(f2, "", limit, v);
    assert Fence + "" == Fence;
    assert Step(f2, Fence, limit, v) == Fold([head + "\n" + a + "\n"], Fence + "\n", false, "");
  }

  lemma MatchInside(x: string, language: string)
    requires x != "" && Plain(x) && NoTerminator(language)
    ensures MatchFence(x + Fence + language) == Some(FenceHit(|x|, language))
  {
    var line := x + Fence + language;
    assert line[|x|..|x| + 3] == Fence;
    forall j | 0 <= j < |x|
      ensures !OccursAt(line, Fence, j)
    {
      assert line[j..j + 3][0] == x[j];
    }
    IndexOfIsFirst(line, Fence, |x|);
    assert line[|x| + 3..] == language;
    TagRunWhole(language);
  }

  /** What a line with a fence after other text contributes, in each
      variant. */
  lemma InsideText(x: string, language: string)
    requires x != "" && Plain(x) && NoTerminator(language)
    ensures LineText(x + Fence + language, AsWritten) == x + "\n"
    ensures LineText(x + Fence + language, Intended) == x + "\n" + Fence + language
  {
    var line := x + Fence + language;
    var h := FenceHit(|x|, language);
    MatchInside(x, language);
    RewriteShape(line, h, AsWritten);
    RewriteShape(line, h, Intended);
    assert line[..|x|] == x && line[|x| + 3 + |language|..] == "" && line[|x|..] == Fence + language;
  }

  /** The first iteration over a line with a fence after other text. */
  lemma StepInside(x: string, language: string, limit: nat, v: Variant)
    requires x != "" && Plain(x) && NoTerminator(language)
    requires |LineText(x + Fence + language, v)| < limit
    ensures Step(Start, x + Fence + language, limit, v)
         == Fold([], LineText(x + Fence + language, v) + "\n", language != "", language)
  {
    MatchInside(x, language);
    assert "" + LineText(x + Fence + language, v) == LineText(x + Fence + language, v);
  }

  /** As written, a fence after other text on its line disappears together
      with its language: the one chunk holds no fence although the chunker
      now counts a block as open. */
  lemma FenceDroppedAsWritten(x: string, language: string, limit: nat)
    requires x != "" && Plain(x) && language != "" && NoTerminator(language)
    requires |x| + 1 < limit
    ensures Split(x + Fence + language, limit, AsWritten) == [x + "\n\n"]
    ensures Run(Lines(x + Fence + language), limit, AsWritten).open
  {
    var line := x + Fence + language;
    FenceNoBreak(x, language);
    SplitOne(line, limit, AsWritten);
    OneLine(line);
    RunOne(line, limit, AsWritten);
    InsideText(x, language);
    StepInside(x, language, limit, AsWritten);
    assert x + "\n" + "\n" == x + "\n\n";
  }

  /** With the repair the fence survives, on a line of its own. */
  lemma FenceKeptIntended(x: string, language: string, limit: nat)
    requires x != "" && Plain(x) && NoTerminator(language)
    requires |x + "\n" + Fence + language| < limit
    ensures Split(x + Fence + language, limit, Intended) == [x + "\n" + Fence + language + "\n"]
  {
    var line := x + Fence + language;
    var t := x + "\n" + Fence + language;
    FenceNoBreak(x, language);
    SplitOne(line, limit, Intended);
    InsideText(x, language);
    StepInside(x, language, limit, Intended);
  }
}
