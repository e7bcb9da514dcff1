/** Markdown chunking (src/indexing/chunking.py): heading recognition, the
    overlapping window split of long sections, and the chunker that walks
    the lines keeping a heading stack and a section buffer. */
module Chunking {
  import opened Text
  import opened Values

  /** A chunk: its id, its text, the enclosing headings and its metadata. */
  datatype Chunk = Chunk(chunkId: string, text: string, headings: seq<string>, metadata: Dict)

  /** _is_heading: after leading whitespace, a "#" that is alone or followed
      by a space, a tab or another "#". */
  predicate IsHeading(line: string) {
    var s := LStrip(line);
    |s| > 0 && s[0] == '#' && (|s| == 1 || s[1] == ' ' || s[1] == '\t' || s[1] == '#')
  }

  predicate IsHash(c: char) {
    c == '#'
  }

  /** The length of the run of "#" a string starts with. */
  function HashRun(s: string): (n: nat)
    ensures n <= |s|
    ensures forall k :: 0 <= k < n ==> s[k] == '#'
    ensures n < |s| ==> s[n] != '#'
  {
    if |s| > 0 && s[0] == '#' then 1 + HashRun(s[1..]) else 0
  }

  /** The level of a heading line: its leading "#" count after leading
      whitespace, clamped to [1, 6]. */
  function LevelOf(line: string): (n: int)
    ensures 1 <= n <= 6
  {
    var h := HashRun(LStrip(line));
    if h < 1 then 1 else if h > 6 then 6 else h
  }

  /** _heading_level: counts the leading "#"s of the stripped line. */
  method HeadingLevel(line: string) returns (level: int)
    ensures level == LevelOf(line)
    ensures 1 <= level <= 6
  {
    var s := LStrip(line);
    var n := 0;
    while n < |s|
      invariant 0 <= n <= |s|
      invariant forall k :: 0 <= k < n ==> s[k] == '#'
    {
      if s[n] == '#' {
        n := n + 1;
      } else {
        break;
      }
    }
    HashRunIs(s, n);
    level := if n < 1 then 1 else if n > 6 then 6 else n;
  }

  /** _heading_text: the line without leading whitespace and "#"s, stripped. */
  function HeadingText(line: string): (r: string)
    ensures r == [] || (!IsSpace(r[0]) && !IsSpace(r[|r| - 1]))
  {
    var rest := LStripBy(LStrip(line), IsHash);
    StripFacts(rest);
    Strip(rest)
  }

  function Hashes(n: nat): (r: string)
    ensures |r| == n && forall k :: 0 <= k < n ==> r[k] == '#'
  {
    if n == 0 then "" else "#" + Hashes(n - 1)
  }

  /** A run of "#" followed by something else (or the end) is the hash run. */
  lemma {:induction false} HashRunIs(s: string, m: nat)
    requires m <= |s| && (forall k :: 0 <= k < m ==> s[k] == '#')
    requires m < |s| ==> s[m] != '#'
    ensures HashRun(s) == m
  {
    if m > 0 {
      assert forall k :: 0 <= k < m - 1 ==> s[1..][k] == s[k + 1];
      HashRunIs(s[1..], m - 1);
    }
  }

  /** Stripping a string that starts with a space strips its tail. */
  lemma StripSpaceCons(t: string)
    ensures Strip(" " + t) == Strip(t)
  {
    assert (" " + t)[1..] == t;
  }

  /** A heading written as level "#"s, a space and a title is recognised,
      and its level and title are read back. */
  lemma HeadingRoundTrip(level: nat, title: string)
    requires 1 <= level
    requires title == [] || (!IsSpace(title[0]) && !IsSpace(title[|title| - 1]))
    ensures IsHeading(Hashes(level) + " " + title)
    ensures HashRun(LStrip(Hashes(level) + " " + title)) == level
    ensures HeadingText(Hashes(level) + " " + title) == title
  {
    var line := Hashes(level) + " " + title;
    assert line[level] == ' ';
    assert forall k :: 0 <= k < level ==> line[k] == '#';
    assert LStrip(line) == line;
    HashRunIs(line, level);
    LStripByIs(line, IsHash, level);
    assert LStripBy(line, IsHash) == " " + title;
    StripSpaceCons(title);
    StripOfStripped(title);
  }

  function Min(a: nat, b: nat): nat {
    if a <= b then a else b
  }

  /** max(0, x) */
  function Max0(x: int): nat {
    if x >= 0 then x else 0
  }

  /** The windows [start, end) _split_with_overlap cuts from a text of n
      characters, starting at `start`: each at most maxChars long, each next
      one starting overlap characters before the previous end. */
  function Windows(n: nat, maxChars: int, overlap: int, start: nat): seq<(nat, nat)>
    requires 0 < maxChars && overlap < maxChars
    decreases n - start
  {
    if start >= n then []
    else
      var end := Min(n, start + maxChars);
      if end >= n then [(start, end)]
      else [(start, end)] + Windows(n, maxChars, overlap, Max0(end - overlap))
  }

  /** The windows lie within a text of n characters. */
  predicate Inside(ws: seq<(nat, nat)>, n: nat) {
    forall k :: 0 <= k < |ws| ==> ws[k].0 <= ws[k].1 <= n
  }

  /** text[start:end].strip() */
  function Piece(t: string, w: (nat, nat)): string
    requires w.0 <= w.1 <= |t|
  {
    Strip(t[w.0..w.1])
  }

  /** Every window is a non-empty slice of the text, at most maxChars long,
      starting at or after `start`. */
  lemma {:induction false} WindowsBounds(n: nat, maxChars: int, overlap: int, start: nat)
    requires 0 < maxChars && overlap < maxChars
    ensures var w := Windows(n, maxChars, overlap, start);
      Inside(w, n) && forall k :: 0 <= k < |w| ==> start <= w[k].0 < w[k].1 && w[k].1 - w[k].0 <= maxChars
    decreases n - start
  {
    if start < n {
      var end := Min(n, start + maxChars);
      if end < n {
        WindowsBounds(n, maxChars, overlap, Max0(end - overlap));
      }
    }
  }

  /** The stripped text of each window (a window outside the text, which
      Windows never produces, gives ""). */
  function WindowTexts(t: string, ws: seq<(nat, nat)>): (r: seq<string>)
    ensures |r| == |ws|
  {
    if |ws| == 0 then []
    else [if ws[0].0 <= ws[0].1 <= |t| then Piece(t, ws[0]) else ""] + WindowTexts(t, ws[1..])
  }

  /** [p for p in parts if p] */
  function NonEmptyOnly(parts: seq<string>): (r: seq<string>)
    ensures forall p :: p in r <==> p in parts && p != ""
  {
    if |parts| == 0 then []
    else (if parts[0] == "" then [] else [parts[0]]) + NonEmptyOnly(parts[1..])
  }

  /** What _split_with_overlap must be given to terminate: a text that fits,
      or a positive window longer than the overlap. */
  predicate SplitTerminates(text: string, maxChars: int, overlap: int) {
    |Strip(text)| <= maxChars || (0 < maxChars && overlap < maxChars)
  }

  /** The pieces _split_with_overlap returns. */
  function SplitPieces(text: string, maxChars: int, overlap: int): seq<string>
    requires SplitTerminates(text, maxChars, overlap)
  {
    var t := Strip(text);
    if t == "" then []
    else if |t| <= maxChars then [t]
    else
      WindowsBounds(|t|, maxChars, overlap, 0);
      NonEmptyOnly(WindowTexts(t, Windows(|t|, maxChars, overlap, 0)))
  }

  /** _split_with_overlap */
  method SplitWithOverlap(text: string, maxChars: int, overlap: int) returns (parts: seq<string>)
    requires SplitTerminates(text, maxChars, overlap)
    ensures parts == SplitPieces(text, maxChars, overlap)
  {
    var t := Strip(text);
    if t == "" {
      return [];
    }
    if |t| <= maxChars {
      return [t];
    }
    var all := CutWindows(t, maxChars, overlap);
    parts := NonEmptyOnly(all);
  }

  /** The window loop of _split_with_overlap on the stripped text. */
  method CutWindows(t: string, maxChars: int, overlap: int) returns (all: seq<string>)
    requires 0 < maxChars < |t| && overlap < maxChars
    ensures all == WindowTexts(t, Windows(|t|, maxChars, overlap, 0))
  {
    all := [];
    var start: nat := 0;
    while start < |t|
      invariant all + WindowTexts(t, Windows(|t|, maxChars, overlap, start))
             == WindowTexts(t, Windows(|t|, maxChars, overlap, 0))
      decreases |t| - start
    {
      var end := Min(|t|, start + maxChars);
      var piece := Piece(t, (start, end));
      if end >= |t| {
        LastWindow(t, maxChars, overlap, start, all);
        all := all + [piece];
        return;
      }
      var next := Max0(end - overlap);
      WindowStep(t, maxChars, overlap, start, next, all);
      all := all + [piece];
      start := next;
    }
  }

  /** The last turn of the window loop: the window reaches the end of the
      text and its stripped text is the last piece. */
  lemma LastWindow(t: string, maxChars: int, overlap: int, start: nat, all: seq<string>)
    requires 0 < maxChars && overlap < maxChars && start < |t| <= start + maxChars
    ensures all + WindowTexts(t, Windows(|t|, maxChars, overlap, start)) == all + [Piece(t, (start, |t|))]
  {
    var w: (nat, nat) := (start, |t|);
    assert Windows(|t|, maxChars, overlap, start) == [w];
    assert WindowTexts(t, [w]) == [Piece(t, w)];
  }

  /** A turn of the window loop that does not reach the end: it cuts
      [start, start + maxChars), appends its stripped text and goes on
      overlap characters before the window's end. */
  lemma WindowStep(t: string, maxChars: int, overlap: int, start: nat, next: nat, all: seq<string>)
    requires 0 < maxChars && overlap < maxChars && start + maxChars < |t|
    requires next == Max0(start + maxChars - overlap)
    ensures all + WindowTexts(t, Windows(|t|, maxChars, overlap, start))
            == (all + [Piece(t, (start, start + maxChars))]) + WindowTexts(t, Windows(|t|, maxChars, overlap, next))
  {
    var w: (nat, nat) := (start, start + maxChars);
    var rest := Windows(|t|, maxChars, overlap, next);
    assert Windows(|t|, maxChars, overlap, start) == [w] + rest;
    assert ([w] + rest)[1..] == rest;
    assert WindowTexts(t, [w] + rest) == [Piece(t, w)] + WindowTexts(t, rest);
    AppendAssoc(all, [Piece(t, w)], WindowTexts(t, rest));
  }

  lemma AppendAssoc<T>(a: seq<T>, b: seq<T>, c: seq<T>)
    ensures a + (b + c) == (a + b) + c
  {
  }

  lemma {:induction false} WindowTextsBounded(t: string, ws: seq<(nat, nat)>, maxChars: int)
    requires Inside(ws, |t|) && forall k :: 0 <= k < |ws| ==> ws[k].1 - ws[k].0 <= maxChars
    ensures forall p :: p in WindowTexts(t, ws) ==> |p| <= maxChars
    decreases |ws|
  {
    if |ws| > 0 {
      WindowTextsBounded(t, ws[1..], maxChars);
    }
  }

  /** Every piece is non-empty and at most maxChars long. */
  lemma SplitPiecesBounded(text: string, maxChars: int, overlap: int)
    requires SplitTerminates(text, maxChars, overlap)
    ensures forall p :: p in SplitPieces(text, maxChars, overlap) ==> p != "" && |p| <= maxChars
  {
    var t := Strip(text);
    if t != "" && |t| > maxChars {
      WindowsBounds(|t|, maxChars, overlap, 0);
      WindowTextsBounded(t, Windows(|t|, maxChars, overlap, 0), maxChars);
    }
  }

  /** A blank text gives no pieces and a text that fits gives itself, stripped. */
  lemma SplitPiecesShort(text: string, maxChars: int, overlap: int)
    requires |Strip(text)| <= maxChars
    ensures IsBlank(text) ==> SplitPieces(text, maxChars, overlap) == []
    ensures !IsBlank(text) ==> SplitPieces(text, maxChars, overlap) == [Strip(text)]
  {
    StripFacts(text);
  }

  /** Each window but the last is maxChars long, and the next one starts
      overlap characters before its end. */
  predicate Chained(w: seq<(nat, nat)>, maxChars: int, overlap: int) {
    forall k :: 0 <= k && k + 1 < |w| ==> w[k].1 as int - w[k].0 == maxChars && w[k + 1].0 == Max0(w[k].1 - overlap)
  }

  /** A window of maxChars put before a chain that starts overlap
      characters before its end is a chain. */
  lemma ChainedCons(head: (nat, nat), rest: seq<(nat, nat)>, maxChars: int, overlap: int)
    requires Chained(rest, maxChars, overlap) && |rest| > 0
    requires head.1 as int - head.0 == maxChars && rest[0].0 == Max0(head.1 - overlap)
    ensures Chained([head] + rest, maxChars, overlap)
  {
    var w := [head] + rest;
    forall k | 0 <= k && k + 1 < |w|
      ensures w[k].1 as int - w[k].0 == maxChars && w[k + 1].0 == Max0(w[k].1 - overlap)
    {
      if k > 0 {
        assert w[k] == rest[k - 1] && w[k + 1] == rest[k];
      }
    }
  }

  /** The windows start at 0, end at the end of the text, are maxChars long
      except the last, and each next one starts overlap characters before
      the previous end. */
  lemma {:induction false} WindowsChain(n: nat, maxChars: int, overlap: int, start: nat)
    requires 0 <= overlap < maxChars && start < n
    ensures var w := Windows(n, maxChars, overlap, start);
      |w| > 0 && w[0].0 == start && w[|w| - 1].1 == n && Inside(w, n) && Chained(w, maxChars, overlap)
    decreases n - start
  {
    WindowsBounds(n, maxChars, overlap, start);
    var end := Min(n, start + maxChars);
    if end < n {
      var next := Max0(end - overlap);
      WindowsChain(n, maxChars, overlap, next);
      var rest := Windows(n, maxChars, overlap, next);
      assert Windows(n, maxChars, overlap, start) == [(start, end)] + rest;
      ChainedCons((start, end), rest, maxChars, overlap);
    }
  }

  /** f"c{chunk_idx:06d}" */
  function ChunkId(k: nat): (r: string)
    ensures |r| >= 7 && r[0] == 'c'
  {
    "c" + ZeroPad(k, 6)
  }

  /** Distinct counters give distinct ids. */
  lemma ChunkIdInjective(i: nat, j: nat)
    requires ChunkId(i) == ChunkId(j)
    ensures i == j
  {
    assert ZeroPad(i, 6) == ChunkId(i)[1..] == ChunkId(j)[1..] == ZeroPad(j, 6);
    ZeroPadValue(i, 6);
    ZeroPadValue(j, 6);
  }

  function HeadingValues(hs: seq<string>): seq<Value> {
    seq(|hs|, k requires 0 <= k < |hs| => VStr(hs[k]))
  }

  /** dict(base_metadata) with chunk_id and headings set. */
  function ChunkMetadata(base: Dict, id: string, headings: seq<string>): Dict {
    base["chunk_id" := VStr(id)]["headings" := VList(HeadingValues(headings))]
  }

  /** The metadata keeps every base key, overriding only chunk_id and
      headings. */
  lemma ChunkMetadataFacts(base: Dict, id: string, headings: seq<string>)
    ensures ChunkMetadata(base, id, headings).Keys == base.Keys + {"chunk_id", "headings"}
    ensures forall k :: k in base && k != "chunk_id" && k != "headings" ==> ChunkMetadata(base, id, headings)[k] == base[k]
    ensures ChunkMetadata(base, id, headings)["chunk_id"] == VStr(id)
    ensures ChunkMetadata(base, id, headings)["headings"] == VList(HeadingValues(headings))
  {
  }

  /** The heading stack: (level, title) pairs. */
  predicate StrictlyNested(stack: seq<(int, string)>) {
    forall i, j :: 0 <= i < j < |stack| ==> stack[i].0 < stack[j].0
  }

  function Titles(stack: seq<(int, string)>): (r: seq<string>)
    ensures |r| == |stack|
  {
    seq(|stack|, k requires 0 <= k < |stack| => stack[k].1)
  }

  /** How many headings stay on the stack when one of `level` arrives:
      the pops stop at the first shallower heading from the top. */
  function Kept(stack: seq<(int, string)>, level: int): (n: nat)
    ensures n <= |stack|
  {
    if |stack| > 0 && stack[|stack| - 1].0 >= level then Kept(stack[..|stack| - 1], level) else |stack|
  }

  /** The heading stack after a heading of `level` and `title`. */
  function Push(stack: seq<(int, string)>, level: int, title: string): seq<(int, string)> {
    stack[..Kept(stack, level)] + [(level, title)]
  }

  /** The pops remove exactly the top headings of the same or a deeper
      level. */
  lemma {:induction false} KeptFacts(stack: seq<(int, string)>, level: int)
    ensures forall k :: Kept(stack, level) <= k < |stack| ==> stack[k].0 >= level
    ensures Kept(stack, level) > 0 ==> stack[Kept(stack, level) - 1].0 < level
  {
    if |stack| > 0 && stack[|stack| - 1].0 >= level {
      KeptFacts(stack[..|stack| - 1], level);
    }
  }

  /** The while/pop/append of chunk_markdown on the heading stack. */
  method PushHeading(stack: seq<(int, string)>, level: int, title: string) returns (r: seq<(int, string)>)
    ensures r == Push(stack, level, title)
  {
    var n := |stack|;
    assert stack[..n] == stack;
    while n > 0 && stack[n - 1].0 >= level
      invariant 0 <= n <= |stack|
      invariant Kept(stack[..n], level) == Kept(stack, level)
    {
      assert stack[..n][..n - 1] == stack[..n - 1];
      n := n - 1;
    }
    r := stack[..n] + [(level, title)];
  }

  /** Pushing keeps the stack strictly nested, puts the new heading on top
      and keeps beneath it exactly the shallower headings, in order. */
  lemma PushFacts(stack: seq<(int, string)>, level: int, title: string)
    requires StrictlyNested(stack)
    ensures var r := Push(stack, level, title);
      && StrictlyNested(r)
      && 0 < |r| <= |stack| + 1 && r[|r| - 1] == (level, title)
      && r[..|r| - 1] == stack[..|r| - 1]
      && forall e :: e in stack ==> (e in r[..|r| - 1] <==> e.0 < level)
  {
    var n := Kept(stack, level);
    KeptFacts(stack, level);
    PoppedBelow(stack, n, level);
    var r := Push(stack, level, title);
    assert r[..|r| - 1] == stack[..n];
  }

  /** After the pops the kept headings are exactly the shallower ones. */
  lemma PoppedBelow(stack: seq<(int, string)>, n: nat, level: int)
    requires StrictlyNested(stack) && n <= |stack|
    requires forall k :: n <= k < |stack| ==> stack[k].0 >= level
    requires n > 0 ==> stack[n - 1].0 < level
    ensures forall k :: 0 <= k < n ==> stack[k].0 < level
    ensures forall e :: e in stack ==> (e in stack[..n] <==> e.0 < level)
  {
    forall k | 0 <= k < n - 1
      ensures stack[k].0 < level
    {
      assert stack[k].0 < stack[n - 1].0;
    }
    forall e | e in stack
      ensures e in stack[..n] <==> e.0 < level
    {
      var k :| 0 <= k < |stack| && stack[k] == e;
      if k < n {
        assert stack[..n][k] == e;
      }
    }
  }

  /** A section buffer as chunk_markdown keeps it: no heading lines, no
      leading blank line, blank lines stored as "" and never two in a row. */
  predicate SectionShape(buf: seq<string>) {
    (forall k :: 0 <= k < |buf| ==> !IsHeading(buf[k]))
    && (|buf| > 0 ==> !IsBlank(buf[0]))
    && (forall k :: 0 <= k < |buf| && IsBlank(buf[k]) ==> buf[k] == "")
    && (forall k :: 0 <= k < |buf| - 1 && IsBlank(buf[k]) ==> !IsBlank(buf[k + 1]))
  }

  /** The pieces of one flushed section. */
  function SectionPieces(buf: seq<string>, maxChars: int, overlap: int): seq<string>
    requires 0 < maxChars && overlap < maxChars
  {
    SplitPieces(Join(buf, "\n"), maxChars, overlap)
  }

  /** The pieces of every flushed section, in order. */
  function AllPieces(sections: seq<seq<string>>, maxChars: int, overlap: int): seq<string>
    requires 0 < maxChars && overlap < maxChars
  {
    if |sections| == 0 then []
    else AllPieces(sections[..|sections| - 1], maxChars, overlap) + SectionPieces(sections[|sections| - 1], maxChars, overlap)
  }

  function Texts(chunks: seq<Chunk>): (r: seq<string>)
    ensures |r| == |chunks|
  {
    seq(|chunks|, k requires 0 <= k < |chunks| => chunks[k].text)
  }

  /** The chunk numbered k: its id, its text, the heading titles and the
      base metadata with the id and headings set. */
  function MakeChunk(k: nat, text: string, headings: seq<string>, base: Dict): Chunk {
    Chunk(ChunkId(k), text, headings, ChunkMetadata(base, ChunkId(k), headings))
  }

  /** The chunks one flush appends, numbered from `from`. */
  function NewChunks(pieces: seq<string>, from: nat, headings: seq<string>, base: Dict): (r: seq<Chunk>)
    ensures |r| == |pieces|
  {
    seq(|pieces|, k requires 0 <= k < |pieces| => MakeChunk(from + k, pieces[k], headings, base))
  }

  /** One more piece appends one more chunk, numbered next. */
  lemma NewChunksSnoc(pieces: seq<string>, p: string, from: nat, headings: seq<string>, base: Dict)
    ensures NewChunks(pieces + [p], from, headings, base)
         == NewChunks(pieces, from, headings, base) + [MakeChunk(from + |pieces|, p, headings, base)]
  {
    var a := NewChunks(pieces + [p], from, headings, base);
    var b := NewChunks(pieces, from, headings, base) + [MakeChunk(from + |pieces|, p, headings, base)];
    forall k | 0 <= k < |a|
      ensures a[k] == b[k]
    {
      if k < |pieces| {
        assert (pieces + [p])[k] == pieces[k];
      }
    }
  }

  /** The chunks so far are numbered consecutively from 0, carry the base
      metadata with their id and headings, and are non-empty and within
      maxChars. */
  predicate WellNumbered(chunks: seq<Chunk>, base: Dict, maxChars: int) {
    forall k :: 0 <= k < |chunks| ==>
      chunks[k].chunkId == ChunkId(k)
      && chunks[k].metadata == ChunkMetadata(base, ChunkId(k), chunks[k].headings)
      && chunks[k].text != "" && |chunks[k].text| <= maxChars
  }

  /** flush(): splits the joined buffer and appends one chunk per piece. */
  method Flush(buf: seq<string>, stack: seq<(int, string)>, maxChars: int, overlap: int, base: Dict,
               chunks: seq<Chunk>, chunkIdx: nat)
    returns (out: seq<Chunk>, nextIdx: nat)
    requires 0 < maxChars && overlap < maxChars
    requires chunkIdx == |chunks|
    ensures out == chunks + NewChunks(SectionPieces(buf, maxChars, overlap), chunkIdx, Titles(stack), base)
    ensures nextIdx == |out|
  {
    out, nextIdx := chunks, chunkIdx;
    var text := Strip(Join(buf, "\n"));
    StripIdempotent(Join(buf, "\n"));
    if text == "" {
      return;
    }
    var pieces := SplitWithOverlap(text, maxChars, overlap);
    out, nextIdx := AppendChunks(chunks, chunkIdx, pieces, Titles(stack), base);
  }

  /** The loop of flush(): one chunk per piece, numbered on from chunkIdx. */
  method AppendChunks(chunks: seq<Chunk>, chunkIdx: nat, pieces: seq<string>, headings: seq<string>, base: Dict)
    returns (out: seq<Chunk>, nextIdx: nat)
    requires chunkIdx == |chunks|
    ensures out == chunks + NewChunks(pieces, chunkIdx, headings, base)
    ensures nextIdx == |out|
  {
    out, nextIdx := chunks, chunkIdx;
    var i := 0;
    while i < |pieces|
      invariant 0 <= i <= |pieces|
      invariant out == chunks + NewChunks(pieces[..i], chunkIdx, headings, base)
      invariant nextIdx == chunkIdx + i
    {
      var id := ChunkId(nextIdx);
      var chunk := Chunk(id, pieces[i], headings, ChunkMetadata(base, id, headings));
      assert chunk == MakeChunk(chunkIdx + i, pieces[i], headings, base);
      NewChunksSnoc(pieces[..i], pieces[i], chunkIdx, headings, base);
      assert pieces[..i + 1] == pieces[..i] + [pieces[i]];
      nextIdx := nextIdx + 1;
      out := out + [chunk];
      i := i + 1;
    }
    assert pieces[..i] == pieces;
  }

  /** Appending a flush keeps the chunks well numbered. */
  lemma FlushKeepsNumbering(chunks: seq<Chunk>, buf: seq<string>, stack: seq<(int, string)>, maxChars: int, overlap: int, base: Dict)
    requires 0 < maxChars && overlap < maxChars
    requires WellNumbered(chunks, base, maxChars)
    ensures WellNumbered(chunks + NewChunks(SectionPieces(buf, maxChars, overlap), |chunks|, Titles(stack), base), base, maxChars)
    ensures Texts(chunks + NewChunks(SectionPieces(buf, maxChars, overlap), |chunks|, Titles(stack), base))
         == Texts(chunks) + SectionPieces(buf, maxChars, overlap)
  {
    SplitPiecesBounded(Join(buf, "\n"), maxChars, overlap);
    AppendKeepsNumbering(chunks, SectionPieces(buf, maxChars, overlap), Titles(stack), base, maxChars);
  }

  lemma AppendKeepsNumbering(chunks: seq<Chunk>, pieces: seq<string>, headings: seq<string>, base: Dict, maxChars: int)
    requires WellNumbered(chunks, base, maxChars)
    requires forall p :: p in pieces ==> p != "" && |p| <= maxChars
    ensures WellNumbered(chunks + NewChunks(pieces, |chunks|, headings, base), base, maxChars)
    ensures Texts(chunks + NewChunks(pieces, |chunks|, headings, base)) == Texts(chunks) + pieces
  {
    var added := NewChunks(pieces, |chunks|, headings, base);
    var out := chunks + added;
    NewChunksFacts(pieces, |chunks|, headings, base);
    forall k | 0 <= k < |out|
      ensures out[k].chunkId == ChunkId(k)
      ensures out[k].metadata == ChunkMetadata(base, ChunkId(k), out[k].headings)
      ensures out[k].text != "" && |out[k].text| <= maxChars
    {
      if k < |chunks| {
        assert out[k] == chunks[k];
      } else {
        var j := k - |chunks|;
        ConcatRight(chunks, added, k);
        assert pieces[j] in pieces;
      }
    }
    AppendTexts(chunks, added, pieces);
  }

  lemma ConcatRight<T>(a: seq<T>, b: seq<T>, k: int)
    requires |a| <= k < |a| + |b|
    ensures (a + b)[k] == b[k - |a|]
  {
  }

  /** The fields of the chunks one flush appends. */
  lemma NewChunksFacts(pieces: seq<string>, from: nat, headings: seq<string>, base: Dict)
    ensures var added := NewChunks(pieces, from, headings, base);
      forall j :: 0 <= j < |added| ==>
        added[j].chunkId == ChunkId(from + j) && added[j].text == pieces[j] &&
        added[j].metadata == ChunkMetadata(base, ChunkId(from + j), added[j].headings)
  {
  }

  lemma AppendTexts(chunks: seq<Chunk>, added: seq<Chunk>, pieces: seq<string>)
    requires |added| == |pieces| && forall j :: 0 <= j < |added| ==> added[j].text == pieces[j]
    ensures Texts(chunks + added) == Texts(chunks) + pieces
  {
    assert forall k :: |chunks| <= k < |chunks| + |added| ==> (chunks + added)[k] == added[k - |chunks|];
  }

  /** What chunk_markdown's loop keeps between lines: the sections flushed
      so far with the heading titles each was flushed under, the heading
      stack and the current buffer. */
  datatype ScanState = ScanState(sections: seq<seq<string>>, titles: seq<seq<string>>, stack: seq<(int, string)>, buf: seq<string>)

  /** One line of chunk_markdown's loop: a heading flushes the buffer and
      is pushed; a blank line is kept as "" only after a non-blank one; any
      other line is buffered. */
  function ScanLine(st: ScanState, line: string): (r: ScanState)
    ensures IsHeading(line) ==> r.sections == st.sections + [st.buf] && r.titles == st.titles + [Titles(st.stack)] && r.buf == []
    ensures !IsHeading(line) ==> r.sections == st.sections && r.titles == st.titles && r.stack == st.stack
    ensures !IsHeading(line) ==> r.buf == st.buf || r.buf == st.buf + [if IsBlank(line) then "" else line]
  {
    if IsHeading(line) then
      ScanState(st.sections + [st.buf], st.titles + [Titles(st.stack)], Push(st.stack, LevelOf(line), HeadingText(line)), [])
    else if IsBlank(line) then
      if |st.buf| > 0 && !IsBlank(st.buf[|st.buf| - 1]) then st.(buf := st.buf + [""]) else st
    else
      st.(buf := st.buf + [line])
  }

  function ScanLines(lines: seq<string>): (r: ScanState)
    ensures |r.titles| == |r.sections|
  {
    if |lines| == 0 then ScanState([], [], [], [])
    else ScanLine(ScanLines(lines[..|lines| - 1]), lines[|lines| - 1])
  }

  /** The sections chunk_markdown flushes: one before each heading and the
      final buffer. */
  function Sections(lines: seq<string>): seq<seq<string>> {
    ScanLines(lines).sections + [ScanLines(lines).buf]
  }

  /** The heading titles each section is flushed under: the titles of the
      heading stack when its flush runs. */
  function SectionTitles(lines: seq<string>): (r: seq<seq<string>>)
    ensures |r| == |Sections(lines)|
  {
    ScanLines(lines).titles + [Titles(ScanLines(lines).stack)]
  }

  /** The chunks of the flushed sections, each flush numbering on from the
      chunks before it and giving its chunks the section's titles. */
  function AllChunks(sections: seq<seq<string>>, titles: seq<seq<string>>, maxChars: int, overlap: int, base: Dict): seq<Chunk>
    requires 0 < maxChars && overlap < maxChars && |titles| == |sections|
  {
    if |sections| == 0 then []
    else
      var pre := AllChunks(sections[..|sections| - 1], titles[..|sections| - 1], maxChars, overlap, base);
      pre + NewChunks(SectionPieces(sections[|sections| - 1], maxChars, overlap), |pre|, titles[|sections| - 1], base)
  }

  /** The chunks chunk_markdown returns for a text. */
  function MarkdownChunks(mdText: string, maxChars: int, overlap: int, base: Dict): seq<Chunk>
    requires 0 < maxChars && overlap < maxChars
  {
    AllChunks(Sections(SplitLines(mdText)), SectionTitles(SplitLines(mdText)), maxChars, overlap, base)
  }

  /** One more flushed section appends its chunks. */
  lemma AllChunksSnoc(sections: seq<seq<string>>, titles: seq<seq<string>>, sec: seq<string>, t: seq<string>,
                      maxChars: int, overlap: int, base: Dict)
    requires 0 < maxChars && overlap < maxChars && |titles| == |sections|
    ensures var pre := AllChunks(sections, titles, maxChars, overlap, base);
      AllChunks(sections + [sec], titles + [t], maxChars, overlap, base)
      == pre + NewChunks(SectionPieces(sec, maxChars, overlap), |pre|, t, base)
  {
    assert (sections + [sec])[..|sections|] == sections;
    assert (titles + [t])[..|sections|] == titles;
  }

  /** The chunks of the sections are numbered consecutively from 0, carry
      the base metadata with their id and headings, and their texts are the
      pieces of the sections, in order. */
  lemma {:induction false} AllChunksFacts(sections: seq<seq<string>>, titles: seq<seq<string>>, maxChars: int, overlap: int, base: Dict)
    requires 0 < maxChars && overlap < maxChars && |titles| == |sections|
    ensures WellNumbered(AllChunks(sections, titles, maxChars, overlap, base), base, maxChars)
    ensures Texts(AllChunks(sections, titles, maxChars, overlap, base)) == AllPieces(sections, maxChars, overlap)
  {
    if |sections| > 0 {
      var n := |sections| - 1;
      AllChunksFacts(sections[..n], titles[..n], maxChars, overlap, base);
      var pre := AllChunks(sections[..n], titles[..n], maxChars, overlap, base);
      var pieces := SectionPieces(sections[n], maxChars, overlap);
      assert AllChunks(sections, titles, maxChars, overlap, base) == pre + NewChunks(pieces, |pre|, titles[n], base);
      assert AllPieces(sections, maxChars, overlap) == AllPieces(sections[..n], maxChars, overlap) + pieces;
      SplitPiecesBounded(Join(sections[n], "\n"), maxChars, overlap);
      AppendKeepsNumbering(pre, pieces, titles[n], base, maxChars);
    }
  }

  /** Chunk c was cut from section j under that section's titles. */
  predicate CutFrom(c: Chunk, sections: seq<seq<string>>, titles: seq<seq<string>>, j: int, maxChars: int, overlap: int)
    requires 0 < maxChars && overlap < maxChars && |titles| == |sections|
  {
    0 <= j < |sections| && c.headings == titles[j] && c.text in SectionPieces(sections[j], maxChars, overlap)
  }

  /** Chunk c was cut from one of the sections under its titles. */
  ghost predicate CutFromSome(c: Chunk, sections: seq<seq<string>>, titles: seq<seq<string>>, maxChars: int, overlap: int)
    requires 0 < maxChars && overlap < maxChars && |titles| == |sections|
  {
    exists j :: CutFrom(c, sections, titles, j, maxChars, overlap)
  }

  /** Every chunk carries the titles of the section it was cut from, and
      its text is one of that section's pieces. */
  lemma {:induction false} AllChunksHeadings(sections: seq<seq<string>>, titles: seq<seq<string>>, maxChars: int, overlap: int, base: Dict)
    requires 0 < maxChars && overlap < maxChars && |titles| == |sections|
    ensures forall k :: 0 <= k < |AllChunks(sections, titles, maxChars, overlap, base)| ==>
      CutFromSome(AllChunks(sections, titles, maxChars, overlap, base)[k], sections, titles, maxChars, overlap)
  {
    if |sections| > 0 {
      var n := |sections| - 1;
      var sec, tit := sections[..n], titles[..n];
      AllChunksHeadings(sec, tit, maxChars, overlap, base);
      var pre := AllChunks(sec, tit, maxChars, overlap, base);
      var pieces := SectionPieces(sections[n], maxChars, overlap);
      var added := NewChunks(pieces, |pre|, titles[n], base);
      var chunks := AllChunks(sections, titles, maxChars, overlap, base);
      assert chunks == pre + added;
      forall k | 0 <= k < |chunks|
        ensures CutFromSome(chunks[k], sections, titles, maxChars, overlap)
      {
        if k < |pre| {
          assert chunks[k] == pre[k];
          assert CutFromSome(pre[k], sec, tit, maxChars, overlap);
          var j :| CutFrom(pre[k], sec, tit, j, maxChars, overlap);
          assert sec[j] == sections[j] && tit[j] == titles[j];
          assert CutFrom(chunks[k], sections, titles, j, maxChars, overlap);
        } else {
          ConcatRight(pre, added, k);
          assert chunks[k].text == pieces[k - |pre|];
          assert CutFrom(chunks[k], sections, titles, n, maxChars, overlap);
        }
      }
    }
  }

  /** One line of chunk_markdown's loop, flushing when it meets a heading. */
  method Feed(line: string, chunks: seq<Chunk>, chunkIdx: nat, ghost sections: seq<seq<string>>, ghost titles: seq<seq<string>>,
              stack: seq<(int, string)>, buf: seq<string>, maxChars: int, overlap: int, meta: Dict)
    returns (chunks': seq<Chunk>, chunkIdx': nat, ghost sections': seq<seq<string>>, ghost titles': seq<seq<string>>,
             stack': seq<(int, string)>, buf': seq<string>)
    requires 0 < maxChars && overlap < maxChars && |titles| == |sections|
    requires chunkIdx == |chunks| && chunks == AllChunks(sections, titles, maxChars, overlap, meta)
    ensures ScanState(sections', titles', stack', buf') == ScanLine(ScanState(sections, titles, stack, buf), line)
    ensures chunkIdx' == |chunks'| && chunks' == AllChunks(sections', titles', maxChars, overlap, meta)
  {
    chunks', chunkIdx', sections', titles', stack', buf' := chunks, chunkIdx, sections, titles, stack, buf;
    if IsHeading(line) {
      chunks', chunkIdx' := Flush(buf, stack, maxChars, overlap, meta, chunks, chunkIdx);
      AllChunksSnoc(sections, titles, buf, Titles(stack), maxChars, overlap, meta);
      sections' := sections + [buf];
      titles' := titles + [Titles(stack)];
      buf' := [];
      var level := HeadingLevel(line);
      var title := HeadingText(line);
      stack' := PushHeading(stack, level, title);
    } else if IsBlank(line) {
      if |buf| > 0 && !IsBlank(buf[|buf| - 1]) {
        buf' := buf + [""];
      }
    } else {
      buf' := buf + [line];
    }
  }

  /** chunk_markdown, with `base` the base metadata (None for none). The
      chunks are those of the sections the scan of the lines flushes, each
      under the titles of the heading stack at its flush; they are numbered
      consecutively and their texts are the pieces of the sections. */
  method ChunkMarkdown(mdText: string, maxChars: int, overlap: int, base: Option<Dict>)
    returns (chunks: seq<Chunk>, ghost sections: seq<seq<string>>)
    requires 0 < maxChars && overlap < maxChars
    ensures sections == Sections(SplitLines(mdText))
    ensures chunks == MarkdownChunks(mdText, maxChars, overlap, if base.Some? then base.value else map[])
    ensures WellNumbered(chunks, if base.Some? then base.value else map[], maxChars)
    ensures Texts(chunks) == AllPieces(sections, maxChars, overlap)
  {
    var meta := if base.Some? then base.value else map[];
    var lines := SplitLines(mdText);
    chunks := [];
    sections := [];
    ghost var titles: seq<seq<string>> := [];
    var stack: seq<(int, string)> := [];
    var buf: seq<string> := [];
    var chunkIdx := 0;
    var i := 0;
    while i < |lines|
      invariant 0 <= i <= |lines| && |titles| == |sections|
      invariant chunkIdx == |chunks| && chunks == AllChunks(sections, titles, maxChars, overlap, meta)
      invariant ScanState(sections, titles, stack, buf) == ScanLines(lines[..i])
    {
      assert lines[..i + 1][..i] == lines[..i];
      chunks, chunkIdx, sections, titles, stack, buf := Feed(lines[i], chunks, chunkIdx, sections, titles, stack, buf, maxChars, overlap, meta);
      i := i + 1;
    }
    assert lines[..i] == lines;
    chunks, chunkIdx := Flush(buf, stack, maxChars, overlap, meta, chunks, chunkIdx);
    AllChunksSnoc(sections, titles, buf, Titles(stack), maxChars, overlap, meta);
    sections := sections + [buf];
    titles := titles + [Titles(stack)];
    AllChunksFacts(sections, titles, maxChars, overlap, meta);
  }

  /** A scan state as chunk_markdown keeps it: every buffer in shape and
      the heading stack strictly nested. */
  predicate ScanShape(st: ScanState) {
    (forall k :: 0 <= k < |st.sections| ==> SectionShape(st.sections[k]))
    && SectionShape(st.buf) && StrictlyNested(st.stack)
  }

  lemma ScanLineShape(st: ScanState, line: string)
    requires ScanShape(st)
    ensures ScanShape(ScanLine(st, line))
  {
    if IsHeading(line) {
      PushFacts(st.stack, LevelOf(line), HeadingText(line));
    } else if IsBlank(line) {
      assert LStrip("") == "";
    }
  }

  /** Heading lines never reach a section, blank lines are kept only as a
      single "" after a non-blank line, and the heading stack stays strictly
      nested. */
  lemma {:induction false} ScanLinesShape(lines: seq<string>)
    ensures ScanShape(ScanLines(lines))
    ensures forall s :: s in Sections(lines) ==> SectionShape(s)
  {
    if |lines| > 0 {
      ScanLinesShape(lines[..|lines| - 1]);
      ScanLineShape(ScanLines(lines[..|lines| - 1]), lines[|lines| - 1]);
    }
    var st := ScanLines(lines);
    assert forall k :: 0 <= k < |Sections(lines)| ==> Sections(lines)[k] == if k < |st.sections| then st.sections[k] else st.buf;
  }

  /** The lines that are neither headings nor blank, in order. */
  function BodyLines(lines: seq<string>): seq<string> {
    if |lines| == 0 then []
    else
      var line := lines[|lines| - 1];
      BodyLines(lines[..|lines| - 1]) + (if IsHeading(line) || IsBlank(line) then [] else [line])
  }

  function NonBlank(xs: seq<string>): seq<string> {
    if |xs| == 0 then []
    else NonBlank(xs[..|xs| - 1]) + (if IsBlank(xs[|xs| - 1]) then [] else [xs[|xs| - 1]])
  }

  lemma {:induction false} NonBlankAppend(a: seq<string>, b: seq<string>)
    ensures NonBlank(a + b) == NonBlank(a) + NonBlank(b)
    decreases |b|
  {
    if |b| > 0 {
      assert (a + b)[..|a + b| - 1] == a + b[..|b| - 1];
      NonBlankAppend(a, b[..|b| - 1]);
    } else {
      assert a + b == a;
    }
  }

  function Flatten(sections: seq<seq<string>>): seq<string> {
    if |sections| == 0 then [] else Flatten(sections[..|sections| - 1]) + sections[|sections| - 1]
  }

  lemma ScanLineText(st: ScanState, line: string)
    ensures var r := ScanLine(st, line);
      NonBlank(Flatten(r.sections) + r.buf)
      == NonBlank(Flatten(st.sections) + st.buf) + (if IsHeading(line) || IsBlank(line) then [] else [line])
  {
    var r := ScanLine(st, line);
    if IsHeading(line) {
      assert (st.sections + [st.buf])[..|st.sections|] == st.sections;
      assert Flatten(r.sections) + r.buf == Flatten(st.sections) + st.buf;
    } else if IsBlank(line) {
      if |st.buf| > 0 && !IsBlank(st.buf[|st.buf| - 1]) {
        assert Flatten(r.sections) + r.buf == (Flatten(st.sections) + st.buf) + [""];
        NonBlankAppend(Flatten(st.sections) + st.buf, [""]);
        assert NonBlank([""]) == [];
      }
    } else {
      assert Flatten(r.sections) + r.buf == (Flatten(st.sections) + st.buf) + [line];
      NonBlankAppend(Flatten(st.sections) + st.buf, [line]);
      assert NonBlank([line]) == [line];
    }
  }

  /** No text is lost or reordered: the non-blank lines of the flushed
      sections are exactly the lines that are neither headings nor blank. */
  lemma {:induction false} ScanKeepsText(lines: seq<string>)
    ensures NonBlank(Flatten(Sections(lines))) == BodyLines(lines)
  {
    ScanTextSoFar(lines);
    var st := ScanLines(lines);
    assert Sections(lines)[..|st.sections|] == st.sections;
  }

  lemma {:induction false} ScanTextSoFar(lines: seq<string>)
    ensures NonBlank(Flatten(ScanLines(lines).sections) + ScanLines(lines).buf) == BodyLines(lines)
  {
    if |lines| > 0 {
      ScanTextSoFar(lines[..|lines| - 1]);
      ScanLineText(ScanLines(lines[..|lines| - 1]), lines[|lines| - 1]);
    }
  }

  /** meta.setdefault("source_path", str(md_path)) on a copy of the base metadata. */
  function FileMetadata(base: Option<Dict>, mdPath: string): (m: Dict)
    ensures base.Some? && "source_path" in base.value ==> m == base.value
    ensures (base.None? || "source_path" !in base.value) ==> "source_path" in m && m["source_path"] == VStr(mdPath)
    ensures base.Some? ==> base.value.Keys <= m.Keys && forall k :: k in base.value ==> m[k] == base.value[k]
  {
    var b := if base.Some? then base.value else map[];
    if "source_path" in b then b else b["source_path" := VStr(mdPath)]
  }

  /** chunks_from_markdown_file, with `text` the file's content: the chunks
      of chunk_markdown over a copy of the base metadata. Every chunk names
      its source: the base metadata's source_path when it has one, else the
      file's path. */
  method ChunksFromMarkdownFile(text: string, mdPath: string, maxChars: int, overlap: int, base: Option<Dict>)
    returns (chunks: seq<Chunk>)
    requires 0 < maxChars && overlap < maxChars
    ensures chunks == MarkdownChunks(text, maxChars, overlap, FileMetadata(base, mdPath))
    ensures forall k :: 0 <= k < |chunks| ==> "source_path" in chunks[k].metadata
    ensures forall k :: 0 <= k < |chunks| ==>
      chunks[k].metadata["source_path"] == (if base.Some? && "source_path" in base.value then base.value["source_path"] else VStr(mdPath))
    ensures forall k :: 0 <= k < |chunks| ==> chunks[k].chunkId == ChunkId(k)
  {
    var meta := FileMetadata(base, mdPath);
    ghost var sections;
    chunks, sections := ChunkMarkdown(text, maxChars, overlap, Some(meta));
    forall k | 0 <= k < |chunks|
      ensures "source_path" in chunks[k].metadata
      ensures chunks[k].metadata["source_path"] == meta["source_path"]
    {
      ChunkMetadataFacts(meta, ChunkId(k), chunks[k].headings);
    }
  }
}
