/** MinerU content-list blocks as search evidence
    (src/indexing/mineru_blocks.py): flat document metadata, the
    normalised text of a block, the block text index and its lookup by
    position, the enrichment of chunks with the blocks they came from, and
    the table-row, table-cell and image-evidence documents. HTML parsing is
    a parameter. */
module Blocks {
  import opened Text
  import opened Values
  import Chunking

  // ---------------------------------------------------------------
  // Document metadata

  /** The values a flat metadata dict may hold: isinstance(v, (str, int,
      float)) or None (a bool is an int). */
  predicate Scalar(v: Value) {
    v.VNone? || v.VBool? || v.VInt? || v.VFloat? || v.VStr?
  }

  /** str(x) of each item. */
  function Strs(items: seq<Value>): (r: seq<string>)
    ensures |r| == |items| && forall i :: 0 <= i < |items| ==> r[i] == Str(items[i])
  {
    seq(|items|, i requires 0 <= i < |items| => Str(items[i]))
  }

  /** One entry of _flatten_metadata. */
  function FlattenValue(k: string, v: Value): (r: Value)
    ensures Scalar(r)
    ensures Scalar(v) ==> r == v
  {
    if Scalar(v) then v
    else if k == "headings" && v.VList? then
      var parts := StrippedNonBlank(Strs(v.items));
      if parts == [] then VNone else VStr(Join(parts, " / "))
    else if v.VList? then VStr(Join(Strs(v.items), ", "))
    else VStr(Str(v))
  }

  /** _flatten_metadata: the same keys, every value a scalar, scalars kept. */
  function FlattenMetadata(meta: Dict): (r: Dict)
    ensures r.Keys == meta.Keys
    ensures forall k :: k in r ==> Scalar(r[k])
    ensures forall k :: k in meta && Scalar(meta[k]) ==> r[k] == meta[k]
  {
    map k | k in meta :: FlattenValue(k, meta[k])
  }

  /** Flattening flat metadata changes nothing. */
  lemma FlattenIdempotent(meta: Dict)
    ensures FlattenMetadata(FlattenMetadata(meta)) == FlattenMetadata(meta)
  {
    var f := FlattenMetadata(meta);
    assert forall k :: k in f ==> FlattenValue(k, f[k]) == f[k];
  }

  /** Headings whose items are all blank flatten to None. */
  lemma FlattenBlankHeadings(items: seq<Value>)
    requires forall i :: 0 <= i < |items| ==> IsBlank(Str(items[i]))
    ensures FlattenValue("headings", VList(items)) == VNone
  {
    BlankDropped(Strs(items));
  }

  /** Headings with a non-blank item flatten to the non-blank stripped
      items joined by " / ". */
  lemma FlattenHeadings(items: seq<Value>, i: nat)
    requires i < |items| && !IsBlank(Str(items[i]))
    ensures FlattenValue("headings", VList(items)) == VStr(Join(StrippedNonBlank(Strs(items)), " / "))
  {
    NonBlankKept(Strs(items), i);
  }

  lemma {:induction false} BlankDropped(parts: seq<string>)
    requires forall i :: 0 <= i < |parts| ==> IsBlank(parts[i])
    ensures StrippedNonBlank(parts) == []
  {
    if |parts| > 0 {
      StripFacts(parts[0]);
      BlankDropped(parts[1..]);
    }
  }

  lemma {:induction false} NonBlankKept(parts: seq<string>, i: nat)
    requires i < |parts| && !IsBlank(parts[i])
    ensures StrippedNonBlank(parts) != []
  {
    StripFacts(parts[0]);
    if i > 0 && Strip(parts[0]) == "" {
      NonBlankKept(parts[1..], i - 1);
    }
  }

  const ExcludedMetadataKeys: seq<string> := ["auto_dir", "markdown_path", "pdf_path", "source_path", "headings", "img_paths", "bbox"]

  /** A document handed to the index: its text and its flat metadata. */
  datatype Document = Document(text: string, metadata: Dict, excludedKeys: seq<string>)

  /** make_document */
  function MakeDocument(text: string, meta: Dict): (d: Document)
    ensures d.text == text && d.metadata.Keys == meta.Keys && forall k :: k in d.metadata ==> Scalar(d.metadata[k])
  {
    Document(text, FlattenMetadata(meta), ExcludedMetadataKeys)
  }

  /** chunks_to_documents: one document per chunk, in order. */
  function ChunksToDocuments(chunks: seq<Chunking.Chunk>): (r: seq<Document>)
    ensures |r| == |chunks|
    ensures forall k :: 0 <= k < |chunks| ==> r[k] == MakeDocument(chunks[k].text, chunks[k].metadata)
  {
    seq(|chunks|, k requires 0 <= k < |chunks| => MakeDocument(chunks[k].text, chunks[k].metadata))
  }

  /** The documents of chunked markdown keep each chunk's text and id, and
      every metadata value is flat. */
  lemma ChunkDocumentsKeepIds(chunks: seq<Chunking.Chunk>, base: Dict, maxChars: int)
    requires Chunking.WellNumbered(chunks, base, maxChars)
    ensures var r := ChunksToDocuments(chunks);
      forall k :: 0 <= k < |chunks| ==>
        r[k].text == chunks[k].text && r[k].text != ""
        && "chunk_id" in r[k].metadata && r[k].metadata["chunk_id"] == VStr(Chunking.ChunkId(k))
        && forall key :: key in r[k].metadata ==> Scalar(r[k].metadata[key])
  {
    var r := ChunksToDocuments(chunks);
    forall k | 0 <= k < |chunks|
      ensures "chunk_id" in r[k].metadata && r[k].metadata["chunk_id"] == VStr(Chunking.ChunkId(k))
    {
      Chunking.ChunkMetadataFacts(base, Chunking.ChunkId(k), chunks[k].headings);
      assert Scalar(chunks[k].metadata["chunk_id"]);
    }
  }

  /** The dict items of a JSON list, in order. */
  function DictItems(items: seq<Value>): (r: seq<Dict>)
    ensures |r| <= |items|
  {
    if |items| == 0 then []
    else
      var prev := DictItems(items[..|items| - 1]);
      match items[|items| - 1]
      case VDict(d) => prev + [d]
      case _ => prev
  }

  /** Exactly the dict items are kept. */
  lemma {:induction false} DictItemsExactly(items: seq<Value>)
    ensures forall d :: d in DictItems(items) <==> VDict(d) in items
  {
    if |items| > 0 {
      var init := items[..|items| - 1];
      DictItemsExactly(init);
      assert items == init + [items[|items| - 1]];
    }
  }

  /** load_content_list_blocks: `json` is the content-list file
      find_auto_output found and `read` reads and parses a file (an error
      for one that cannot be read or parsed). */
  function LoadContentListBlocks(json: Option<string>, read: string -> Result<Value, string>): (r: seq<Dict>)
    ensures json.None? || json.value == "" ==> r == []
    ensures r != [] ==> read(json.value).Ok? && read(json.value).value.VList?
    ensures json.Some? && json.value != "" && read(json.value).Ok? && read(json.value).value.VList? ==>
      forall d :: d in r <==> VDict(d) in read(json.value).value.items
  {
    if json.None? || json.value == "" then []
    else match read(json.value)
      case Ok(VList(items)) =>
        DictItemsExactly(items);
        DictItems(items)
      case _ => []
  }

  // ---------------------------------------------------------------
  // Normalised text

  const Nbsp: char := '\U{a0}'

  /** Characters that normalised text can hold besides the single
      spaces between words. */
  predicate Folded(c: char) {
    !('A' <= c <= 'Z') && c != Nbsp
  }

  /** s.replace(" ", " ") */
  function ReplaceNbsp(s: string): (r: string)
    ensures |r| == |s|
    ensures forall i :: 0 <= i < |s| ==> r[i] == (if s[i] == Nbsp then ' ' else s[i])
  {
    seq(|s|, i requires 0 <= i < |s| => if s[i] == Nbsp then ' ' else s[i])
  }

  /** Text whose characters are all folded. */
  predicate FoldedText(s: string) {
    forall i :: 0 <= i < |s| ==> Folded(s[i])
  }

  /** A word of normalised text: folded characters and no whitespace. */
  predicate FoldedWord(w: string) {
    forall i :: 0 <= i < |w| ==> Folded(w[i]) && !IsSpace(w[i])
  }

  /** Normalised text: folded characters, and the only whitespace is the
      plain space. */
  predicate NormalText(r: string) {
    forall i :: 0 <= i < |r| ==> Folded(r[i]) && (IsSpace(r[i]) ==> r[i] == ' ')
  }

  /** _norm_text: lower-cased, non-breaking spaces made spaces, whitespace
      runs collapsed to one space and the ends trimmed; this is the words
      of the lower-cased text joined by single spaces. The result is
      folded and its only whitespace is the plain space. */
  function NormText(s: string): (r: string)
    ensures NormalText(r)
  {
    var t := ReplaceNbsp(Lower(s));
    assert FoldedText(t);
    WordsKeep(t);
    JoinKeep(Words(t));
    Join(Words(t), " ")
  }

  /** The words of a text keep the properties of its characters. */
  lemma {:induction false} WordsKeep(s: string)
    requires FoldedText(s)
    ensures forall k :: 0 <= k < |Words(s)| ==> FoldedWord(Words(s)[k])
    decreases |s|
  {
    if |s| > 0 {
      if IsSpace(s[0]) {
        assert FoldedText(s[1..]) by {
          forall i | 0 <= i < |s[1..]| ensures Folded(s[1..][i]) {
            assert s[1..][i] == s[i + 1];
          }
        }
        WordsKeep(s[1..]);
      } else {
        var n := NonSpacePrefix(s);
        assert FoldedText(s[n..]) by {
          forall i | 0 <= i < |s[n..]| ensures Folded(s[n..][i]) {
            assert s[n..][i] == s[i + n];
          }
        }
        WordsKeep(s[n..]);
        var w := Words(s);
        assert w == [s[..n]] + Words(s[n..]);
        assert FoldedWord(s[..n]) by {
          forall i | 0 <= i < n ensures Folded(s[..n][i]) && !IsSpace(s[..n][i]) {
            assert s[..n][i] == s[i];
          }
        }
        forall k | 0 <= k < |w| ensures FoldedWord(w[k]) {
          if k > 0 {
            assert w[k] == Words(s[n..])[k - 1];
          }
        }
      }
    }
  }

  /** Folded words joined with single spaces make normalised text. */
  lemma {:induction false} JoinKeep(ws: seq<string>)
    requires forall k :: 0 <= k < |ws| ==> FoldedWord(ws[k])
    ensures NormalText(Join(ws, " "))
  {
    if |ws| > 1 {
      JoinKeep(ws[1..]);
      var rest := Join(ws[1..], " ");
      var r := Join(ws, " ");
      assert r == ws[0] + " " + rest;
      assert FoldedWord(ws[0]);
      forall i | 0 <= i < |r| ensures Folded(r[i]) && (IsSpace(r[i]) ==> r[i] == ' ') {
        if i < |ws[0]| {
          assert r[i] == ws[0][i];
        } else if i == |ws[0]| {
          assert r[i] == ' ';
        } else {
          assert r[i] == rest[i - |ws[0]| - 1];
        }
      }
    } else if |ws| == 1 {
      assert Join(ws, " ") == ws[0];
      assert FoldedWord(ws[0]);
    }
  }

  /** The words of words joined by single spaces are those words. */
  lemma {:induction false} WordsOfJoin(ws: seq<string>)
    requires forall k :: 0 <= k < |ws| ==> |ws[k]| > 0 && !HasSpace(ws[k])
    ensures Words(Join(ws, " ")) == ws
  {
    if |ws| == 1 {
      WordsOfWord(ws[0], "");
      assert ws[0] + "" == ws[0];
    } else if |ws| > 1 {
      var tail := ws[1..];
      assert forall k :: 0 <= k < |tail| ==> tail[k] == ws[k + 1];
      var rest := Join(tail, " ");
      WordsOfJoin(tail);
      var spaced := " " + rest;
      assert Join(ws, " ") == ws[0] + spaced;
      WordsOfWord(ws[0], spaced);
      assert spaced[1..] == rest;
      WordsSkipSpace(spaced);
      assert [ws[0]] + tail == ws;
    }
  }

  /** Leading whitespace is skipped. */
  lemma WordsSkipSpace(s: string)
    requires |s| > 0 && IsSpace(s[0])
    ensures Words(s) == Words(s[1..])
  {
  }

  /** A word followed by whitespace (or nothing) is split off whole. */
  lemma WordsOfWord(w: string, tail: string)
    requires |w| > 0 && !HasSpace(w)
    requires tail == [] || IsSpace(tail[0])
    ensures Words(w + tail) == [w] + Words(tail)
  {
    var s := w + tail;
    PrefixLength(w, tail);
    assert s[..|w|] == w && s[|w|..] == tail;
  }

  lemma {:induction false} PrefixLength(w: string, tail: string)
    requires !HasSpace(w)
    requires tail == [] || IsSpace(tail[0])
    ensures NonSpacePrefix(w + tail) == |w|
  {
    if |w| > 0 {
      assert (w + tail)[1..] == w[1..] + tail;
      assert !IsSpace(w[0]);
      assert !HasSpace(w[1..]) by {
        forall i | 0 <= i < |w[1..]| ensures !IsSpace(w[1..][i]) {
          assert w[1..][i] == w[i + 1];
        }
      }
      PrefixLength(w[1..], tail);
    } else {
      assert w + tail == tail;
    }
  }

  /** Normalising normalised text changes nothing. */
  lemma NormTextIdempotent(s: string)
    ensures NormText(NormText(s)) == NormText(s)
  {
    var r := NormText(s);
    var ws := Words(ReplaceNbsp(Lower(s)));
    assert r == Join(ws, " ");
    assert Lower(r) == r by {
      assert forall i :: 0 <= i < |r| ==> LowerChar(r[i]) == r[i];
    }
    assert ReplaceNbsp(r) == r;
    WordsOfJoin(ws);
  }

  // ---------------------------------------------------------------
  // Block text and the block text index

  /** str(block.get(key) or "") */
  function Field(block: Dict, key: string): string {
    StrOr(block, key)
  }

  /** str(block.get("type") or "").strip().lower() */
  function TypeOf(block: Dict): string {
    Lower(Strip(Field(block, "type")))
  }

  /** b.get("page_idx") when it is an int (a bool is one), else None. */
  function PageOf(block: Dict): (r: Value)
    ensures r == VNone || (IsInt(r) && r == Get(block, "page_idx", VNone))
  {
    var v := Get(block, "page_idx", VNone);
    if IsInt(v) then v else VNone
  }

  /** b.get("bbox") when it is a list, else None. */
  function BboxOf(block: Dict): (r: Value)
    ensures r == VNone || (r.VList? && r == Get(block, "bbox", VNone))
  {
    var v := Get(block, "bbox", VNone);
    if v.VList? then v else VNone
  }

  /** _html_to_text: blank HTML has no text; otherwise `html` stands for
      the HTML parser's text extraction. */
  function HtmlToText(raw: string, html: string -> string): (r: string)
    ensures IsBlank(raw) ==> r == ""
  {
    if IsBlank(raw) then "" else html(raw)
  }

  /** _block_to_text: the text of a text block, the HTML text of a table's
      body, and the HTML text of any other block's text or else caption. */
  function BlockToText(block: Dict, html: string -> string): string {
    var t := TypeOf(block);
    if t == "text" then Field(block, "text")
    else if t == "table" then HtmlToText(Field(block, "table_body"), html)
    else HtmlToText(if Field(block, "text") != "" then Field(block, "text") else Field(block, "caption"), html)
  }

  /** The normalised text of a block. */
  function BlockText(block: Dict, html: string -> string): string {
    NormText(BlockToText(block, html))
  }

  /** The normalised texts of the blocks, one per block. */
  function BlockTexts(blocks: seq<Dict>, html: string -> string): (r: seq<string>)
    ensures |r| == |blocks|
  {
    seq(|blocks|, k requires 0 <= k < |blocks| => BlockText(blocks[k], html))
  }

  /** Where part i starts in the parts joined by newlines. */
  function Offset(parts: seq<string>, i: nat): nat
    requires i <= |parts|
  {
    if i == 0 then 0 else Offset(parts, i - 1) + |parts[i - 1]| + 1
  }

  lemma {:induction false} OffsetPrefix(parts: seq<string>, more: seq<string>, i: nat)
    requires i <= |parts|
    ensures Offset(parts + more, i) == Offset(parts, i)
  {
    if i > 0 {
      OffsetPrefix(parts, more, i - 1);
      assert (parts + more)[i - 1] == parts[i - 1];
    }
  }

  /** Appending a part moves no offset and puts the new part one past
      the end of the last. */
  lemma OffsetsExtend(parts: seq<string>, txt: string)
    ensures forall k :: 0 <= k <= |parts| ==> Offset(parts + [txt], k) == Offset(parts, k)
  {
    forall k | 0 <= k <= |parts| ensures Offset(parts + [txt], k) == Offset(parts, k) {
      OffsetPrefix(parts, [txt], k);
    }
  }

  lemma {:induction false} OffsetFront(parts: seq<string>, i: nat)
    requires 1 <= i <= |parts|
    ensures Offset(parts, i) == |parts[0]| + 1 + Offset(parts[1..], i - 1)
  {
    if i > 1 {
      OffsetFront(parts, i - 1);
      assert parts[1..][i - 2] == parts[i - 1];
    }
  }

  lemma ConcatSlice(a: string, b: string, lo: nat, hi: nat)
    requires lo <= hi <= |b|
    ensures (a + b)[|a| + lo..|a| + hi] == b[lo..hi]
  {
  }

  /** Each part sits at its offset in the joined text. */
  lemma {:induction false} PartAtOffset(parts: seq<string>, i: nat)
    requires i < |parts|
    ensures Offset(parts, i) + |parts[i]| <= |Join(parts, "\n")|
    ensures Join(parts, "\n")[Offset(parts, i)..Offset(parts, i) + |parts[i]|] == parts[i]
  {
    if |parts| > 1 {
      var head := parts[0] + "\n";
      var rest := Join(parts[1..], "\n");
      assert Join(parts, "\n") == head + rest;
      if i == 0 {
        assert (head + rest)[..|parts[0]|] == parts[0];
      } else {
        OffsetFront(parts, i);
        PartAtOffset(parts[1..], i - 1);
        assert parts[1..][i - 1] == parts[i];
        var o := Offset(parts[1..], i - 1);
        ConcatSlice(head, rest, o, o + |parts[i]|);
      }
    }
  }

  /** Offsets strictly increase. */
  lemma OffsetsIncrease(parts: seq<string>, i: nat, j: nat)
    requires i < j <= |parts|
    ensures Offset(parts, i) < Offset(parts, j)
    decreases j
  {
    if i < j - 1 {
      OffsetsIncrease(parts, i, j - 1);
    }
  }

  predicate Increasing(xs: seq<int>) {
    forall i, j :: 0 <= i < j < |xs| ==> xs[i] < xs[j]
  }

  /** The offsets of all parts. */
  function Starts(parts: seq<string>): (r: seq<int>)
    ensures |r| == |parts|
    ensures forall k :: 0 <= k < |r| ==> r[k] == Offset(parts, k)
  {
    seq(|parts|, k requires 0 <= k < |parts| => Offset(parts, k) as int)
  }

  /** The starts of the parts increase. */
  lemma StartsIncrease(parts: seq<string>)
    ensures Increasing(Starts(parts))
  {
    forall i, j | 0 <= i < j < |parts| ensures Offset(parts, i) < Offset(parts, j) {
      OffsetsIncrease(parts, i, j);
    }
  }

  /** The bookkeeping of the block text index over the parts so far:
      where each part starts and the next free position. */
  predicate Indexed(parts: seq<string>, starts: seq<int>, pos: int) {
    && |starts| == |parts| && pos == Offset(parts, |parts|)
    && forall k :: 0 <= k < |parts| ==> starts[k] == Offset(parts, k)
  }

  /** Each span runs from its part's start over the part's text. */
  predicate Spanned(parts: seq<string>, starts: seq<int>, spans: seq<(int, int)>)
    requires |starts| == |parts|
  {
    |spans| == |parts| && forall k :: 0 <= k < |parts| ==> spans[k].0 == starts[k] && spans[k].1 == starts[k] + |parts[k]|
  }

  /** One more part keeps the starts. */
  lemma IndexedStep(parts: seq<string>, starts: seq<int>, pos: int, txt: string)
    requires Indexed(parts, starts, pos)
    ensures Indexed(parts + [txt], starts + [pos], pos + |txt| + 1)
  {
    var parts', starts' := parts + [txt], starts + [pos];
    forall k | 0 <= k < |parts'| ensures starts'[k] == Offset(parts', k) {
      OffsetPrefix(parts, [txt], k);
      if k < |parts| {
        assert starts'[k] == starts[k];
      }
    }
    OffsetPrefix(parts, [txt], |parts|);
  }

  /** One more part keeps the spans. */
  lemma SpannedStep(parts: seq<string>, starts: seq<int>, spans: seq<(int, int)>, pos: int, txt: string)
    requires |starts| == |parts| && Spanned(parts, starts, spans)
    ensures Spanned(parts + [txt], starts + [pos], spans + [(pos, pos + |txt|)])
  {
    var parts', starts', spans' := parts + [txt], starts + [pos], spans + [(pos, pos + |txt|)];
    forall k | 0 <= k < |parts'|
      ensures spans'[k].0 == starts'[k] && spans'[k].1 == starts'[k] + |parts'[k]|
    {
      if k < |parts| {
        assert parts'[k] == parts[k] && starts'[k] == starts[k] && spans'[k] == spans[k];
      }
    }
  }

  /** The loop of _build_block_text_index, for any text extraction
      `textOf`: each block's text is appended at `pos`, its start and span
      recorded, and `pos` moved one past the newline that follows it. */
  method IndexTexts(blocks: seq<Dict>, textOf: Dict -> string)
    returns (docText: string, starts: seq<int>, spans: seq<(int, int)>)
    ensures var texts := seq(|blocks|, k requires 0 <= k < |blocks| => textOf(blocks[k]));
      docText == Join(texts, "\n") && starts == Starts(texts) && Spanned(texts, starts, spans)
  {
    var parts: seq<string> := [];
    starts := [];
    spans := [];
    var pos := 0;
    var i := 0;
    while i < |blocks|
      invariant 0 <= i <= |blocks| && |parts| == i
      invariant Indexed(parts, starts, pos) && Spanned(parts, starts, spans)
      invariant forall k :: 0 <= k < i ==> parts[k] == textOf(blocks[k])
    {
      ghost var before := (parts, starts, spans, pos);
      var txt := textOf(blocks[i]);
      starts := starts + [pos];
      parts := parts + [txt];
      pos := pos + |txt|;
      spans := spans + [(starts[|starts| - 1], pos)];
      pos := pos + 1;
      IndexedStep(before.0, before.1, before.3, txt);
      SpannedStep(before.0, before.1, before.2, before.3, txt);
      forall k | 0 <= k <= i ensures parts[k] == textOf(blocks[k]) {
        if k < i {
          assert parts[k] == before.0[k];
        }
      }
      i := i + 1;
    }
    ghost var texts := seq(|blocks|, k requires 0 <= k < |blocks| => textOf(blocks[k]));
    assert parts == texts;
    docText := Join(parts, "\n");
  }

  /** _build_block_text_index: the normalised block texts joined by
      newlines, where each block starts, and the span of its text. */
  method BuildBlockTextIndex(blocks: seq<Dict>, html: string -> string)
    returns (docText: string, starts: seq<int>, spans: seq<(int, int)>)
    ensures docText == Join(BlockTexts(blocks, html), "\n")
    ensures starts == Starts(BlockTexts(blocks, html))
    ensures Spanned(BlockTexts(blocks, html), starts, spans)
  {
    docText, starts, spans := IndexTexts(blocks, b => BlockText(b, html));
    assert seq(|blocks|, k requires 0 <= k < |blocks| => (b => BlockText(b, html))(blocks[k])) == BlockTexts(blocks, html);
  }

  /** What the index promises: each block's span in the joined text holds
      its normalised text, the next block starts one past the end of the
      span, and the starts increase. */
  lemma IndexFacts(blocks: seq<Dict>, html: string -> string, k: nat)
    requires k < |blocks|
    ensures var texts := BlockTexts(blocks, html);
      var d := Join(texts, "\n");
      && Offset(texts, k) + |texts[k]| <= |d|
      && d[Offset(texts, k)..Offset(texts, k) + |texts[k]|] == texts[k]
      && (k + 1 < |blocks| ==> Offset(texts, k + 1) == Offset(texts, k) + |texts[k]| + 1)
  {
    PartAtOffset(BlockTexts(blocks, html), k);
  }

  /** bisect.bisect_right(a, x) on a sorted list: the binary search for
      the first position holding an element greater than x. */
  method BisectRight(a: seq<int>, x: int) returns (lo: nat)
    requires forall i, j :: 0 <= i < j < |a| ==> a[i] <= a[j]
    ensures lo <= |a|
    ensures forall k :: 0 <= k < lo ==> a[k] <= x
    ensures forall k :: lo <= k < |a| ==> x < a[k]
  {
    lo := 0;
    var hi := |a|;
    while lo < hi
      invariant 0 <= lo <= hi <= |a|
      invariant forall k :: 0 <= k < lo ==> a[k] <= x
      invariant forall k :: hi <= k < |a| ==> x < a[k]
      decreases hi - lo
    {
      var mid := (lo + hi) / 2;
      if x < a[mid] {
        hi := mid;
      } else {
        lo := mid + 1;
      }
    }
  }

  /** The last block starting at or before position i. */
  function BlockAt(i: int, starts: seq<int>): (r: Option<nat>)
    ensures r.Some? ==> r.value < |starts|
  {
    if i < 0 || |starts| == 0 then None
    else if starts[|starts| - 1] <= i then Some(|starts| - 1)
    else BlockAt(i, starts[..|starts| - 1])
  }

  /** The block found is the last one starting at or before i; none is
      found for a negative i or when every block starts after i. */
  lemma {:induction false} BlockAtGreatest(i: int, starts: seq<int>)
    ensures var r := BlockAt(i, starts);
      && (r.Some? ==> starts[r.value] <= i && forall k :: r.value < k < |starts| ==> i < starts[k])
      && (r.None? ==> i < 0 || forall k :: 0 <= k < |starts| ==> i < starts[k])
  {
    if i >= 0 && |starts| > 0 && starts[|starts| - 1] > i {
      BlockAtGreatest(i, starts[..|starts| - 1]);
    }
  }

  /** _index_to_block_idx: None for a negative position or no blocks;
      otherwise the greatest j with starts[j] <= i, found by bisection. */
  method IndexToBlockIdx(i: int, starts: seq<int>) returns (r: Option<nat>)
    requires Increasing(starts)
    ensures r == BlockAt(i, starts)
  {
    if i < 0 || |starts| == 0 {
      return None;
    }
    var j := BisectRight(starts, i);
    if j == 0 {
      BlockAtNone(i, starts);
      return None;
    }
    BlockAtIs(i, starts, j - 1);
    r := Some(j - 1);
  }

  lemma {:induction false} BlockAtIs(i: int, starts: seq<int>, j: nat)
    requires i >= 0 && j < |starts| && starts[j] <= i
    requires forall k :: j < k < |starts| ==> i < starts[k]
    ensures BlockAt(i, starts) == Some(j)
  {
    if j < |starts| - 1 {
      BlockAtIs(i, starts[..|starts| - 1], j);
    }
  }

  lemma {:induction false} BlockAtNone(i: int, starts: seq<int>)
    requires forall k :: 0 <= k < |starts| ==> i < starts[k]
    ensures BlockAt(i, starts) == None
  {
    if |starts| > 0 {
      BlockAtNone(i, starts[..|starts| - 1]);
    }
  }

  /** A position inside a part's span maps back to that part. */
  lemma BlockAtSpan(parts: seq<string>, k: nat, i: int)
    requires k < |parts| && Offset(parts, k) <= i <= Offset(parts, k) + |parts[k]|
    ensures BlockAt(i, Starts(parts)) == Some(k)
  {
    var starts := Starts(parts);
    forall m | k < m < |starts| ensures i < starts[m] {
      if m > k + 1 {
        OffsetsIncrease(parts, k + 1, m);
      }
    }
    BlockAtIs(i, starts, k);
  }

  // ---------------------------------------------------------------
  // Enriching chunks with their blocks

  /** str.find as Python returns it: -1 when absent. */
  function FindOr(s: string, sub: string): int {
    match Find(s, sub)
    case Some(p) => p
    case None => -1
  }

  /** str.rfind as Python returns it: -1 when absent. */
  function RFindOr(s: string, sub: string): int {
    match RFind(s, sub)
    case Some(p) => p
    case None => -1
  }

  const ProbeLength: nat := 200
  const MinProbe: nat := 30

  /** ch[:200] */
  function FirstProbe(ch: string): (p: string)
    ensures |p| == (if |ch| < ProbeLength then |ch| else ProbeLength)
  {
    if |ch| < ProbeLength then ch else ch[..ProbeLength]
  }

  /** ch[-200:] */
  function LastProbe(ch: string): (p: string)
    ensures |p| == (if |ch| < ProbeLength then |ch| else ProbeLength)
  {
    if |ch| < ProbeLength then ch else ch[|ch| - ProbeLength..]
  }

  /** Where a probe is found, or -1 for a probe shorter than 30
      characters, which is never searched. */
  function ProbeAt(docText: string, probe: string, last: bool): int {
    if |probe| < MinProbe then -1
    else if last then RFindOr(docText, probe)
    else FindOr(docText, probe)
  }

  /** The block of a found position; none for -1. */
  function BlockOfPos(pos: int, starts: seq<int>): Option<nat> {
    if pos >= 0 then BlockAt(pos, starts) else None
  }

  /** The integer page_idx values of blocks lo..hi-1, in order (a bool
      is an int here). */
  function PageNumbers(bs: seq<Dict>, lo: nat, hi: nat): (r: seq<int>)
    requires lo <= hi <= |bs|
    ensures |r| <= hi - lo
    decreases hi - lo
  {
    if lo == hi then []
    else
      var v := Get(bs[hi - 1], "page_idx", VNone);
      PageNumbers(bs, lo, hi - 1) + (if IsInt(v) then [AsInt(v)] else [])
  }

  function MinOf(xs: seq<int>): (m: int)
    requires |xs| > 0
    ensures m in xs && forall x :: x in xs ==> m <= x
  {
    if |xs| == 1 then xs[0]
    else
      var t := MinOf(xs[1..]);
      assert forall x :: x in xs ==> x == xs[0] || x in xs[1..];
      if xs[0] <= t then xs[0] else t
  }

  function MaxOf(xs: seq<int>): (m: int)
    requires |xs| > 0
    ensures m in xs && forall x :: x in xs ==> x <= m
  {
    if |xs| == 1 then xs[0]
    else
      var t := MaxOf(xs[1..]);
      assert forall x :: x in xs ==> x == xs[0] || x in xs[1..];
      if xs[0] >= t then xs[0] else t
  }

  /** The stripped, lower-cased type of every block of lo..hi-1 whose
      type is truthy. */
  function BlockTypes(bs: seq<Dict>, lo: nat, hi: nat): seq<string>
    requires lo <= hi <= |bs|
    decreases hi - lo
  {
    if lo == hi then []
    else
      var b := bs[hi - 1];
      BlockTypes(bs, lo, hi - 1) + (if Truthy(Get(b, "type", VNone)) then [TypeOf(b)] else [])
  }

  /** A block's img_path when it is a string that is not blank, stripped. */
  function ImageOf(b: Dict): (r: seq<string>)
    ensures |r| <= 1 && forall k :: 0 <= k < |r| ==> r[k] != "" && Strip(r[k]) == r[k]
  {
    match Get(b, "img_path", VNone)
    case VStr(p) =>
      StripFacts(p);
      StripIdempotent(p);
      if Strip(p) != "" then [Strip(p)] else []
    case _ => []
  }

  /** The stripped image paths of blocks lo..hi-1, in order. */
  function ImagePaths(bs: seq<Dict>, lo: nat, hi: nat): (r: seq<string>)
    requires lo <= hi <= |bs|
    ensures forall k :: 0 <= k < |r| ==> r[k] != "" && Strip(r[k]) == r[k]
    decreases hi - lo
  {
    if lo == hi then [] else ImagePaths(bs, lo, hi - 1) + ImageOf(bs[hi - 1])
  }

  /** The loop of enrich_chunks_with_blocks that gathers the image paths
      of blocks lo..hi-1. */
  method CollectImagePaths(bs: seq<Dict>, lo: nat, hi: nat) returns (paths: seq<string>)
    requires lo <= hi <= |bs|
    ensures paths == ImagePaths(bs, lo, hi)
  {
    paths := [];
    for i := lo to hi
      invariant paths == ImagePaths(bs, lo, i)
    {
      assert ImagePaths(bs, lo, i + 1) == paths + ImageOf(bs[i]);
      match Get(bs[i], "img_path", VNone) {
        case VStr(p) =>
          if Strip(p) != "" {
            paths := paths + [Strip(p)];
          }
        case _ =>
      }
    }
  }

  function StrList(xs: seq<string>): (r: seq<Value>)
    ensures |r| == |xs| && forall i :: 0 <= i < |xs| ==> r[i] == VStr(xs[i])
  {
    seq(|xs|, i requires 0 <= i < |xs| => VStr(xs[i]))
  }

  /** The keys enrichment always writes. */
  const EnrichKeys: set<string> := {"block_start", "block_end", "page_start", "page_end", "block_types"}

  /** The metadata of a chunk found in blocks lo..hi, given the integer
      pages, the types and the image paths of those blocks. */
  function BlockMeta(meta: Dict, lo: nat, hi: nat, pages: seq<int>, types: seq<string>, imgs: seq<string>): Dict {
    var m := meta["block_start" := VInt(lo)]["block_end" := VInt(hi)]
      ["page_start" := if pages == [] then VNone else VInt(MinOf(pages))]
      ["page_end" := if pages == [] then VNone else VInt(MaxOf(pages))]
      ["block_types" := VList(StrList(SortedUnique(types)))];
    if imgs == [] then m else m["img_paths" := VList(StrList(SortedUnique(imgs)))]
  }

  /** The metadata of a chunk found in blocks lo..hi. */
  function EnrichedMeta(meta: Dict, lo: nat, hi: nat, blocks: seq<Dict>): Dict
    requires lo <= hi < |blocks|
  {
    BlockMeta(meta, lo, hi, PageNumbers(blocks, lo, hi + 1), BlockTypes(blocks, lo, hi + 1), ImagePaths(blocks, lo, hi + 1))
  }

  /** What enrichment writes: the block bounds, and the image paths only
      when there are any. Every other entry is kept. */
  lemma BlockMetaKeys(meta: Dict, lo: nat, hi: nat, pages: seq<int>, types: seq<string>, imgs: seq<string>)
    ensures var r := BlockMeta(meta, lo, hi, pages, types, imgs);
      && r.Keys == meta.Keys + EnrichKeys + (if imgs == [] then {} else {"img_paths"})
      && (forall k :: k in meta && k !in EnrichKeys && (k != "img_paths" || imgs == []) ==> r[k] == meta[k])
      && r["block_start"] == VInt(lo) && r["block_end"] == VInt(hi)
  {
  }

  /** page_start and page_end are the least and greatest integer page,
      or both None when there is none. */
  lemma BlockMetaPages(meta: Dict, lo: nat, hi: nat, pages: seq<int>, types: seq<string>, imgs: seq<string>)
    ensures var r := BlockMeta(meta, lo, hi, pages, types, imgs);
      && (pages == [] ==> r["page_start"] == VNone && r["page_end"] == VNone)
      && (pages != [] ==>
           && r["page_start"].VInt? && r["page_start"].i in pages
           && r["page_end"].VInt? && r["page_end"].i in pages
           && forall p :: p in pages ==> r["page_start"].i <= p <= r["page_end"].i)
  {
  }

  /** block_types holds the distinct types in sorted order, and
      img_paths, when written, the distinct image paths in sorted order. */
  lemma BlockMetaLists(meta: Dict, lo: nat, hi: nat, pages: seq<int>, types: seq<string>, imgs: seq<string>)
    ensures var r := BlockMeta(meta, lo, hi, pages, types, imgs);
      && (exists ts :: r["block_types"] == VList(StrList(ts)) && StrictlySorted(ts) && forall t :: t in ts <==> t in types)
      && (imgs != [] ==>
           exists ps :: r["img_paths"] == VList(StrList(ps)) && StrictlySorted(ps) && forall p :: p in ps <==> p in imgs)
  {
    var r := BlockMeta(meta, lo, hi, pages, types, imgs);
    var ts := SortedUnique(types);
    assert r["block_types"] == VList(StrList(ts));
    if imgs != [] {
      var ps := SortedUnique(imgs);
      assert r["img_paths"] == VList(StrList(ps));
    }
  }

  /** The metadata writes of enrich_chunks_with_blocks for blocks lo..hi. */
  method WriteBlockMeta(meta: Dict, lo: nat, hi: nat, blocks: seq<Dict>) returns (r: Dict)
    requires lo <= hi < |blocks|
    ensures r == EnrichedMeta(meta, lo, hi, blocks)
  {
    var pages := PageNumbers(blocks, lo, hi + 1);
    var types := BlockTypes(blocks, lo, hi + 1);
    var imgs := CollectImagePaths(blocks, lo, hi + 1);
    r := meta["block_start" := VInt(lo)]["block_end" := VInt(hi)]
      ["page_start" := if pages == [] then VNone else VInt(MinOf(pages))]
      ["page_end" := if pages == [] then VNone else VInt(MaxOf(pages))]
      ["block_types" := VList(StrList(SortedUnique(types)))];
    if imgs != [] {
      r := r["img_paths" := VList(StrList(SortedUnique(imgs)))];
    }
  }

  /** A range of blocks, lo..hi inclusive. */
  datatype BlockRange = BlockRange(lo: nat, hi: nat)

  /** The blocks a normalised chunk text's probes fall in, lowest first;
      none when neither probe is found. */
  function ProbeRange(ch: string, docText: string, starts: seq<int>): (r: Option<BlockRange>)
    ensures r.Some? ==> r.value.lo <= r.value.hi < |starts|
  {
    var ia := BlockOfPos(ProbeAt(docText, FirstProbe(ch), false), starts);
    var ib := BlockOfPos(ProbeAt(docText, LastProbe(ch), true), starts);
    if ia.None? && ib.None? then None
    else
      var a := if ia.Some? then ia.value else ib.value;
      var b := if ib.Some? then ib.value else ia.value;
      Some(if a <= b then BlockRange(a, b) else BlockRange(b, a))
  }

  /** The blocks a chunk text was found in; none for a chunk whose
      normalised text is empty. */
  function ChunkRange(text: string, docText: string, starts: seq<int>): (r: Option<BlockRange>)
    ensures r.Some? ==> r.value.lo <= r.value.hi < |starts|
  {
    var ch := NormText(text);
    if ch == "" then None else ProbeRange(ch, docText, starts)
  }

  /** A chunk after enrichment against the block text index. */
  function Enriched(c: Chunking.Chunk, blocks: seq<Dict>, docText: string, starts: seq<int>): (r: Chunking.Chunk)
    requires |starts| == |blocks|
  {
    var g := ChunkRange(c.text, docText, starts);
    if g.None? then c
    else c.(metadata := EnrichedMeta(c.metadata, g.value.lo, g.value.hi, blocks))
  }

  /** The probe search of enrich_chunks_with_blocks for one chunk. */
  method FindChunkRange(text: string, docText: string, starts: seq<int>) returns (r: Option<BlockRange>)
    requires Increasing(starts)
    ensures r == ChunkRange(text, docText, starts)
  {
    var ch := NormText(text);
    if ch == "" {
      return None;
    }
    var probeA := FirstProbe(ch);
    var probeB := LastProbe(ch);
    var posA := if |probeA| >= MinProbe then FindOr(docText, probeA) else -1;
    var posB := if |probeB| >= MinProbe then RFindOr(docText, probeB) else -1;
    var ia: Option<nat> := None;
    if posA >= 0 {
      ia := IndexToBlockIdx(posA, starts);
    }
    var ib: Option<nat> := None;
    if posB >= 0 {
      ib := IndexToBlockIdx(posB, starts);
    }
    if ia.None? && ib.None? {
      return None;
    }
    if ia.None? {
      ia := ib;
    }
    if ib.None? {
      ib := ia;
    }
    var lo := if ia.value <= ib.value then ia.value else ib.value;
    var hi := if ia.value <= ib.value then ib.value else ia.value;
    r := Some(BlockRange(lo, hi));
  }

  lemma EnrichedFound(c: Chunking.Chunk, blocks: seq<Dict>, docText: string, starts: seq<int>, g: BlockRange)
    requires |starts| == |blocks| && ChunkRange(c.text, docText, starts) == Some(g)
    ensures g.lo <= g.hi < |blocks|
    ensures Enriched(c, blocks, docText, starts) == c.(metadata := EnrichedMeta(c.metadata, g.lo, g.hi, blocks))
  {
  }

  /** One chunk of enrich_chunks_with_blocks: its metadata rewritten
      when it was found in the blocks. */
  method EnrichChunk(c: Chunking.Chunk, blocks: seq<Dict>, docText: string, starts: seq<int>) returns (r: Chunking.Chunk)
    requires |starts| == |blocks| && Increasing(starts)
    ensures r == Enriched(c, blocks, docText, starts)
  {
    var g := FindChunkRange(c.text, docText, starts);
    if g.None? {
      return c;
    }
    var lo, hi := g.value.lo, g.value.hi;
    var meta := WriteBlockMeta(c.metadata, lo, hi, blocks);
    r := c.(metadata := meta);
    EnrichedFound(c, blocks, docText, starts, g.value);
  }

  /** A chunk whose normalised text is shorter than 30 characters has
      probes too short to search, and is left as it is. */
  lemma ShortChunkUntouched(c: Chunking.Chunk, blocks: seq<Dict>, docText: string, starts: seq<int>)
    requires |starts| == |blocks| && |NormText(c.text)| < MinProbe
    ensures Enriched(c, blocks, docText, starts) == c
  {
  }

  /** A chunk neither of whose probes occurs in the block text is left as
      it is. */
  lemma UnfoundChunkUntouched(c: Chunking.Chunk, blocks: seq<Dict>, docText: string, starts: seq<int>)
    requires |starts| == |blocks|
    requires Find(docText, FirstProbe(NormText(c.text))).None? && RFind(docText, LastProbe(NormText(c.text))).None?
    ensures Enriched(c, blocks, docText, starts) == c
  {
  }

  /** Only a chunk's metadata changes; a chunk that is changed gets the
      block range it was found in, block_start <= block_end, both blocks
      of the document. */
  lemma EnrichedRange(c: Chunking.Chunk, blocks: seq<Dict>, docText: string, starts: seq<int>)
    requires |starts| == |blocks|
    ensures var r := Enriched(c, blocks, docText, starts);
      r.chunkId == c.chunkId && r.text == c.text && r.headings == c.headings
    ensures var m := Enriched(c, blocks, docText, starts).metadata;
      Enriched(c, blocks, docText, starts) != c ==>
        && "block_start" in m && "block_end" in m && m["block_start"].VInt? && m["block_end"].VInt?
        && m["block_start"].i <= m["block_end"].i < |blocks|
  {
    var g := ChunkRange(c.text, docText, starts);
    if g.Some? {
      var lo, hi := g.value.lo, g.value.hi;
      BlockMetaKeys(c.metadata, lo, hi, PageNumbers(blocks, lo, hi + 1), BlockTypes(blocks, lo, hi + 1), ImagePaths(blocks, lo, hi + 1));
    }
  }

  /** The chunk loop of enrich_chunks_with_blocks over a built index;
      `want` is what enrichment makes of one chunk. */
  method EnrichEach(chunks: array<Chunking.Chunk>, blocks: seq<Dict>, docText: string, starts: seq<int>,
                    want: Chunking.Chunk -> Chunking.Chunk)
    requires |starts| == |blocks| && Increasing(starts)
    requires forall c {:trigger Enriched(c, blocks, docText, starts)} :: want(c) == Enriched(c, blocks, docText, starts)
    modifies chunks
    ensures forall k :: 0 <= k < chunks.Length ==> chunks[k] == want(old(chunks[k]))
  {
    for i := 0 to chunks.Length
      invariant forall k :: 0 <= k < i ==> chunks[k] == want(old(chunks[k]))
      invariant forall k :: i <= k < chunks.Length ==> chunks[k] == old(chunks[k])
    {
      ghost var prev := chunks[..];
      var c := EnrichChunk(chunks[i], blocks, docText, starts);
      chunks[i] := c;
      forall k | 0 <= k <= i ensures chunks[k] == want(old(chunks[k])) {
        if k < i {
          assert chunks[k] == prev[k];
        }
      }
    }
  }

  /** enrich_chunks_with_blocks: nothing happens without blocks;
      otherwise every chunk is enriched against the index of the
      blocks. */
  method EnrichChunksWithBlocks(chunks: array<Chunking.Chunk>, blocks: seq<Dict>, html: string -> string)
    modifies chunks
    ensures |blocks| == 0 ==> chunks[..] == old(chunks[..])
    ensures |blocks| > 0 ==> forall k :: 0 <= k < chunks.Length ==>
      chunks[k] == Enriched(old(chunks[k]), blocks, Join(BlockTexts(blocks, html), "\n"), Starts(BlockTexts(blocks, html)))
  {
    if chunks.Length == 0 || |blocks| == 0 {
      return;
    }
    var docText, starts, spans := BuildBlockTextIndex(blocks, html);
    StartsIncrease(BlockTexts(blocks, html));
    EnrichEach(chunks, blocks, docText, starts, c => Enriched(c, blocks, docText, starts));
  }
}
