/** `GPT.splitResponse` (src/interactions/gpt.ts): cuts a model reply into
    message-sized chunks, line by line, closing and reopening a fenced code
    block when a cut falls inside one. */
module Chunker {
  import opened Common
  import opened Text

  /** The default `limit` argument. */
  const DefaultLimit: nat := 1950

  const Fence: string := "```"

  /** What is appended to a chunk cut inside an open code block. */
  const CloseFence: string := "\n```"

  /** The state of the loop: the chunks pushed so far, the chunk being
      filled, and the `codeBlock` record `{open, language}`. `language`
      starts as `null` in the code; it is only read while `open` holds, and
      `open` only becomes true together with a non-empty `language`, so the
      empty string stands in for `null` here. */
  datatype Fold = Fold(chunks: seq<string>, chunk: string, open: bool, language: string)

  const Start: Fold := Fold([], "", false, "")

  /** The characters that the regular-expression `.` does not match. */
  predicate IsLineTerminator(c: char) {
    c == '\n' || c == '\r' || c == '\U{2028}' || c == '\U{2029}'
  }

  predicate NoTerminator(s: string) {
    forall k :: 0 <= k < |s| ==> !IsLineTerminator(s[k])
  }

  /** The greedy `(.*)`: the longest prefix of `s` free of line terminators. */
  function TagRun(s: string): (t: string)
    ensures |t| <= |s| && t == s[..|t|]
    ensures NoTerminator(t)
    ensures |t| < |s| ==> IsLineTerminator(s[|t|])
  {
    if |s| == 0 || IsLineTerminator(s[0]) then "" else [s[0]] + TagRun(s[1..])
  }

  /** A successful `line.match(/```(.*)/)`: where the fence starts, and the
      captured text after it. */
  datatype FenceHit = FenceHit(at: nat, tag: string)

  /** `codeMatch[0]`, the whole matched text. */
  function Matched(h: FenceHit): string {
    Fence + h.tag
  }

  /** `line.match(/```(.*)/)`: the leftmost fence and the greedy capture after
      it; `None` for `null`. */
  function MatchFence(line: string): (r: Option<FenceHit>)
    ensures r.None? <==> IndexOf(line, Fence).None?
    ensures r.Some? ==> OccursAt(line, Matched(r.value), r.value.at)
    ensures r.Some? ==> r.value.at + |Matched(r.value)| <= |line|
    ensures r.Some? ==> NoTerminator(r.value.tag)
    ensures r.Some? ==> var end := r.value.at + |Matched(r.value)|;
      end == |line| || IsLineTerminator(line[end])
    ensures r.Some? ==> forall j :: 0 <= j < r.value.at ==> !OccursAt(line, Fence, j)
  {
    match IndexOf(line, Fence)
    case None => None
    case Some(i) =>
      var tag := TagRun(line[i + 3..]);
      assert line[i..i + 3 + |tag|] == Fence + tag by {
        assert line[i + 3..][..|tag|] == line[i + 3..i + 3 + |tag|];
        assert line[i..i + 3 + |tag|] == line[i..i + 3] + line[i + 3..i + 3 + |tag|];
      }
      Some(FenceHit(i, tag))
  }

  /** The matched text is found by `line.indexOf(codeMatch[0])` where the
      fence itself was found, since it begins with the fence. */
  lemma MatchedIndex(line: string, h: FenceHit)
    requires MatchFence(line) == Some(h)
    ensures IndexOf(line, Matched(h)) == Some(h.at)
  {
    forall j | 0 <= j < h.at
      ensures !OccursAt(line, Matched(h), j)
    {
      if OccursAt(line, Matched(h), j) {
        assert line[j..j + 3] == line[j..j + |Matched(h)|][..3];
        assert OccursAt(line, Fence, j);
      }
    }
    IndexOfIsFirst(line, Matched(h), h.at);
  }

  /** Lines 237-241: a fence that does not start its line is moved onto a new
      line. As written the replacement is
      `split(m)[0] + '\n' + split(m).slice(1).join(m)`, which leaves the
      matched text `m` itself out; the intended form puts `m` back after the
      new line break. */
  function Rewrite(line: string, h: FenceHit, v: Variant): string {
    var m := Matched(h);
    if IndexOf(line, m) == Some(0) then line
    else
      var parts := SplitOn(line, m);
      match v
      case AsWritten => parts[0] + "\n" + Join(parts[1..], m)
      case Intended => parts[0] + "\n" + m + Join(parts[1..], m)
  }

  /** What the rewrite means: a fence at column 0 leaves the line alone; one
      further right puts a line break before it, and as written also deletes
      the matched text. */
  lemma RewriteShape(line: string, h: FenceHit, v: Variant)
    requires MatchFence(line) == Some(h)
    ensures h.at == 0 ==> Rewrite(line, h, v) == line
    ensures h.at > 0 && v == AsWritten ==>
      Rewrite(line, h, v) == line[..h.at] + "\n" + line[h.at + |Matched(h)|..]
    ensures h.at > 0 && v == Intended ==>
      Rewrite(line, h, v) == line[..h.at] + "\n" + line[h.at..]
  {
    MatchedIndex(line, h);
    if h.at > 0 {
      SplitAtFirst(line, Matched(h), h.at);
      assert line[h.at..] == Matched(h) + line[h.at + |Matched(h)|..];
    }
  }

  /** The text a line contributes once any misplaced fence has been moved. */
  function LineText(line: string, v: Variant): string {
    match MatchFence(line)
    case None => line
    case Some(h) => Rewrite(line, h, v)
  }

  /** One iteration of the loop (lines 233-256). */
  function Step(f: Fold, line: string, limit: nat, v: Variant): Fold {
    var open := match MatchFence(line) case None => f.open case Some(h) => h.tag != "";
    var language := match MatchFence(line) case None => f.language case Some(h) => h.tag;
    var text := LineText(line, v);
    if |f.chunk + text| >= limit then
      if open then Fold(f.chunks + [f.chunk + CloseFence], Fence + language + "\n" + text + "\n", open, language)
      else Fold(f.chunks + [f.chunk], text + "\n", open, language)
    else Fold(f.chunks, f.chunk + text + "\n", open, language)
  }

  /** The loop over `lines`, from the first line to the last. */
  function Run(lines: seq<string>, limit: nat, v: Variant): (f: Fold)
    ensures NoTerminator(f.language)
    ensures f.open ==> f.language != ""
    decreases |lines|
  {
    if |lines| == 0 then Start
    else Step(Run(lines[..|lines| - 1], limit, v), Last(lines), limit, v)
  }

  /** Line 259: the last chunk is pushed only when it is not empty. */
  function Flush(f: Fold): seq<string> {
    if f.chunk != "" then f.chunks + [f.chunk] else f.chunks
  }

  /** `content.split('\n')`. */
  function Lines(content: string): (ls: seq<string>)
    ensures |ls| >= 1
  {
    SplitOn(content, "\n")
  }

  /** `splitResponse(content, limit)`. */
  function Split(content: string, limit: nat, v: Variant): (chunks: seq<string>)
    ensures |chunks| >= 1
  {
    var f := Run(Lines(content), limit, v);
    RunChunkEndsLine(Lines(content), limit, v);
    Flush(f)
  }

  /** After at least one line the chunk being filled ends with a line break. */
  lemma RunChunkEndsLine(lines: seq<string>, limit: nat, v: Variant)
    requires |lines| > 0
    ensures EndsLine(Run(lines, limit, v).chunk)
  {
  }

  predicate EndsLine(c: string) {
    |c| > 0 && c[|c| - 1] == '\n'
  }
}
