/** The image-evidence documents of src/indexing/mineru_blocks.py
    (image_documents_from_blocks): for each block with an image path, a
    document made of its caption, its footnote and the text blocks next
    to it on the same page. */
module BlockImages {
  import opened Text
  import opened Values
  import opened Blocks

  const ImagePrefix: string := "IMAGE EVIDENCE\n"

  /** How far a neighbouring text block may be from the image. */
  const Reach: nat := 2

  /** The block's img_path when it is a str that is not blank. */
  function ImagePathOf(block: Dict): (r: Option<string>)
    ensures r.Some? ==> Get(block, "img_path", VNone) == VStr(r.value) && Strip(r.value) != ""
  {
    match Get(block, "img_path", VNone)
    case VStr(p) => if Strip(p) != "" then Some(p) else None
    case _ => None
  }

  /** " ".join of the non-blank items of a caption or footnote list,
      stripped; empty when the value is not a list. */
  function NoteText(v: Value): string {
    if v.VList? then Join(StrippedNonBlank(Strs(v.items)), " ") else ""
  }

  /** Python's `v == page` for an int page (a bool compares as 0 or 1,
      a float by its value). */
  predicate SamePage(v: Value, page: Value)
    requires IsInt(page)
  {
    match v
    case VInt(i) => i == AsInt(page)
    case VBool(_) => AsInt(v) == AsInt(page)
    case VFloat(x, _) => x == AsInt(page) as real
    case _ => false
  }

  /** Block j is a neighbour of the image in block i: another block,
      on the image's page when that is known, of type text and with
      text that is not blank. */
  predicate Neighbour(blocks: seq<Dict>, i: nat, page: Value, j: nat)
    requires j < |blocks| && (page == VNone || IsInt(page))
  {
    && j != i
    && (page == VNone || SamePage(Get(blocks[j], "page_idx", VNone), page))
    && TypeOf(blocks[j]) == "text"
    && Strip(Field(blocks[j], "text")) != ""
  }

  /** The stripped texts of the neighbours among blocks lo..hi-1, in
      order. */
  function NeighbourTexts(blocks: seq<Dict>, i: nat, page: Value, lo: nat, hi: nat): seq<string>
    requires lo <= hi <= |blocks| && (page == VNone || IsInt(page))
    decreases hi - lo
  {
    if lo == hi then []
    else
      NeighbourTexts(blocks, i, page, lo, hi - 1)
      + (if Neighbour(blocks, i, page, hi - 1) then [Strip(Field(blocks[hi - 1], "text"))] else [])
  }

  /** The neighbour texts grow by block hi's text when it is a neighbour. */
  lemma NeighbourTextsNext(blocks: seq<Dict>, i: nat, page: Value, lo: nat, hi: nat, keep: bool, t: string)
    requires lo <= hi < |blocks| && (page == VNone || IsInt(page))
    requires keep == Neighbour(blocks, i, page, hi) && t == Strip(Field(blocks[hi], "text"))
    ensures NeighbourTexts(blocks, i, page, lo, hi + 1) == NeighbourTexts(blocks, i, page, lo, hi) + (if keep then [t] else [])
  {
  }

  /** The window around block i: max(0, i - 2) .. min(len, i + 3). */
  function WindowLo(i: nat): nat {
    if i >= Reach then i - Reach else 0
  }

  function WindowHi(blocks: seq<Dict>, i: nat): nat {
    if |blocks| < i + Reach + 1 then |blocks| else i + Reach + 1
  }

  /** The parts of the context that are not blank, joined by newlines,
      stripped. */
  function Context(cap: string, foot: string, neigh: seq<string>): string {
    var parts := [cap, foot, Join(neigh, "\n")];
    Strip(Join(NonBlankParts(parts), "\n"))
  }

  function NonBlankParts(parts: seq<string>): (r: seq<string>)
    ensures forall x :: x in r <==> x in parts && !IsBlank(x)
  {
    if |parts| == 0 then []
    else (if !IsBlank(parts[0]) then [parts[0]] else []) + NonBlankParts(parts[1..])
  }

  /** The context of the image in block i. */
  function ImageContext(blocks: seq<Dict>, i: nat): string
    requires i < |blocks|
  {
    var b := blocks[i];
    var page := PageOf(b);
    var neigh := NeighbourTexts(blocks, i, page, WindowLo(i), WindowHi(blocks, i));
    Context(NoteText(Get(b, "table_caption", VNone)), NoteText(Get(b, "table_footnote", VNone)), neigh)
  }

  function ImageMeta(base: Dict, i: nat, b: Dict, path: string): Dict {
    base + map[
      "source_kind" := VStr("mineru_image_evidence"), "block_index" := VInt(i), "block_type" := VStr(TypeOf(b)),
      "page_idx" := PageOf(b), "bbox" := BboxOf(b), "img_path" := VStr(Strip(path))]
  }

  /** The document of block i, if any; `make` is make_document over the
      Document class. */
  function ImageDoc(blocks: seq<Dict>, base: Dict, make: (string, Dict) -> Document, i: nat): Option<Document>
    requires i < |blocks|
  {
    match ImagePathOf(blocks[i])
    case None => None
    case Some(path) =>
      var ctx := ImageContext(blocks, i);
      if ctx == "" then None else Some(make(ImagePrefix + ctx, ImageMeta(base, i, blocks[i], path)))
  }

  /** The document of each block, or none. */
  function ImageDocFn(blocks: seq<Dict>, base: Dict, make: (string, Dict) -> Document): nat -> Option<Document> {
    (i: nat) => if i < |blocks| then ImageDoc(blocks, base, make, i) else None
  }

  /** The documents f gives for 0..n-1, in order. */
  function Somes(f: nat -> Option<Document>, n: nat): (r: seq<Document>)
    ensures |r| <= n
  {
    if n == 0 then []
    else Somes(f, n - 1) + (match f(n - 1) case None => [] case Some(d) => [d])
  }

  /** The documents of blocks 0..n-1, in order. */
  function ImageDocs(blocks: seq<Dict>, base: Dict, make: (string, Dict) -> Document, n: nat): (r: seq<Document>)
    requires n <= |blocks|
  {
    Somes(ImageDocFn(blocks, base, make), n)
  }

  /** image_documents_from_blocks. */
  function ImageDocuments(blocks: seq<Dict>, base: Dict): seq<Document> {
    ImageDocs(blocks, base, MakeDocument, |blocks|)
  }

  // ---------------------------------------------------------------
  // The loops

  /** The neighbour loop for the image in block i. */
  method CollectNeighbours(blocks: seq<Dict>, i: nat, page: Value) returns (neigh: seq<string>)
    requires i < |blocks| && (page == VNone || IsInt(page))
    ensures neigh == NeighbourTexts(blocks, i, page, WindowLo(i), WindowHi(blocks, i))
  {
    var lo := if i >= 2 then i - 2 else 0;
    var hi := if |blocks| < i + 3 then |blocks| else i + 3;
    neigh := [];
    for j := lo to hi
      invariant neigh == NeighbourTexts(blocks, i, page, lo, j)
    {
      var keep, t := CheckNeighbour(blocks, i, page, j);
      NeighbourTextsNext(blocks, i, page, lo, j, keep, t);
      if keep {
        neigh := neigh + [t];
      }
    }
  }

  /** The tests of one turn of the neighbour loop: block j is skipped when
      it is the image itself, on another page, not text, or blank. */
  method CheckNeighbour(blocks: seq<Dict>, i: nat, page: Value, j: nat) returns (keep: bool, t: string)
    requires j < |blocks| && (page == VNone || IsInt(page))
    ensures keep == Neighbour(blocks, i, page, j)
    ensures t == Strip(Field(blocks[j], "text"))
  {
    t := Strip(Field(blocks[j], "text"));
    keep := false;
    if j == i {
      return;
    }
    var bj := blocks[j];
    if page != VNone && !SamePage(Get(bj, "page_idx", VNone), page) {
      return;
    }
    if TypeOf(bj) != "text" {
      return;
    }
    keep := t != "";
  }

  /** One block of the loop of image_documents_from_blocks. */
  method EmitImage(blocks: seq<Dict>, base: Dict, make: (string, Dict) -> Document, i: nat)
    returns (r: Option<Document>)
    requires i < |blocks|
    ensures r == ImageDoc(blocks, base, make, i)
  {
    var b := blocks[i];
    var path := Get(b, "img_path", VNone);
    if !path.VStr? || Strip(path.s) == "" {
      return None;
    }
    var page := PageOf(b);
    var capText := NoteText(Get(b, "table_caption", VNone));
    var footText := NoteText(Get(b, "table_footnote", VNone));
    var neigh := CollectNeighbours(blocks, i, page);
    var ctx := Strip(Join(NonBlankParts([capText, footText, Join(neigh, "\n")]), "\n"));
    if ctx == "" {
      return None;
    }
    r := Some(make(ImagePrefix + ctx, ImageMeta(base, i, b, path.s)));
  }

  /** image_documents_from_blocks with a given make_document; `want`
      is the document of each block. */
  method ImageDocumentsWith(blocks: seq<Dict>, base: Dict, make: (string, Dict) -> Document,
                            want: nat -> Option<Document>)
    returns (docs: seq<Document>)
    requires forall i: nat {:trigger ImageDoc(blocks, base, make, i)} :: i < |blocks| ==> want(i) == ImageDoc(blocks, base, make, i)
    ensures docs == Somes(want, |blocks|)
  {
    docs := [];
    for i := 0 to |blocks|
      invariant docs == Somes(want, i)
    {
      var d := EmitImage(blocks, base, make, i);
      if d.Some? {
        docs := docs + [d.value];
      }
    }
  }

  /** image_documents_from_blocks. */
  method ImageDocumentsFromBlocks(blocks: seq<Dict>, base: Dict) returns (docs: seq<Document>)
    ensures docs == ImageDocuments(blocks, base)
  {
    docs := ImageDocumentsWith(blocks, base, MakeDocument, ImageDocFn(blocks, base, MakeDocument));
  }

  // ---------------------------------------------------------------
  // Properties

  /** The neighbour texts are exactly the stripped texts of the
      neighbours in the range. */
  lemma {:induction false} NeighbourTextsExactly(blocks: seq<Dict>, i: nat, page: Value, lo: nat, hi: nat, t: string)
    requires lo <= hi <= |blocks| && (page == VNone || IsInt(page))
    ensures t in NeighbourTexts(blocks, i, page, lo, hi) <==>
      exists j :: lo <= j < hi && Neighbour(blocks, i, page, j) && Strip(Field(blocks[j], "text")) == t
    decreases hi - lo
  {
    if lo < hi {
      var n := hi - 1;
      NeighbourTextsExactly(blocks, i, page, lo, n, t);
      var pre := NeighbourTexts(blocks, i, page, lo, n);
      var isNeighbour := Neighbour(blocks, i, page, n);
      var text := Strip(Field(blocks[n], "text"));
      var all := pre + (if isNeighbour then [text] else []);
      assert NeighbourTexts(blocks, i, page, lo, hi) == all;
      if t in all && t !in pre {
        assert isNeighbour && text == t;
      }
      if exists j :: lo <= j < hi && Neighbour(blocks, i, page, j) && Strip(Field(blocks[j], "text")) == t {
        var j :| lo <= j < hi && Neighbour(blocks, i, page, j) && Strip(Field(blocks[j], "text")) == t;
        if j == n {
          assert all[|pre|] == t;
        } else {
          assert t in pre;
        }
      }
    }
  }

  /** A neighbour is at most two blocks from the image and is not the
      image's own block. */
  lemma WindowReach(blocks: seq<Dict>, i: nat, j: nat)
    requires i < |blocks| && WindowLo(i) <= j < WindowHi(blocks, i) && j != i
    ensures j < |blocks| && (i - Reach <= j <= i + Reach)
  {
  }

  /** The window holds every block within two of the image. */
  lemma WindowCovers(blocks: seq<Dict>, i: nat, j: nat)
    requires i < |blocks| && j < |blocks| && i - Reach <= j <= i + Reach
    ensures WindowLo(i) <= j < WindowHi(blocks, i)
  {
  }

  /** A document comes only from a block whose img_path is a non-blank
      str; its text is the image marker and a non-empty context, and its
      metadata points back to the block and the stripped path. */
  lemma ImageDocFacts(blocks: seq<Dict>, base: Dict, i: nat)
    requires i < |blocks| && ImageDoc(blocks, base, MakeDocument, i).Some?
    ensures Get(blocks[i], "img_path", VNone).VStr?
    ensures Strip(Get(blocks[i], "img_path", VNone).s) != ""
    ensures var d := ImageDoc(blocks, base, MakeDocument, i).value;
      && d.text == ImagePrefix + ImageContext(blocks, i)
      && ImageContext(blocks, i) != ""
      && d.metadata["block_index"] == VInt(i)
      && d.metadata["source_kind"] == VStr("mineru_image_evidence")
      && d.metadata["img_path"] == VStr(Strip(Get(blocks[i], "img_path", VNone).s))
  {
    var path := ImagePathOf(blocks[i]).value;
    var m := ImageMeta(base, i, blocks[i], path);
    assert m["block_index"] == VInt(i) && m["img_path"] == VStr(Strip(path));
    assert m["source_kind"] == VStr("mineru_image_evidence");
  }

  /** A block without a usable image path, or whose context is empty,
      gives no document. */
  lemma NoImageDoc(blocks: seq<Dict>, base: Dict, make: (string, Dict) -> Document, i: nat)
    requires i < |blocks|
    requires ImagePathOf(blocks[i]).None? || ImageContext(blocks, i) == ""
    ensures ImageDoc(blocks, base, make, i).None?
  {
  }

  /** Every document f gives for 0..n-1 comes from one position. */
  lemma {:induction false} SomesFrom(f: nat -> Option<Document>, n: nat, d: Document)
    requires d in Somes(f, n)
    ensures exists i :: 0 <= i < n && f(i) == Some(d)
  {
    var prev := Somes(f, n - 1);
    if d in prev {
      SomesFrom(f, n - 1, d);
    } else {
      assert f(n - 1) == Some(d);
    }
  }

  /** Every image document is the document of one of the blocks. */
  lemma ImageDocsFrom(blocks: seq<Dict>, base: Dict, make: (string, Dict) -> Document, n: nat, d: Document)
    requires n <= |blocks| && d in ImageDocs(blocks, base, make, n)
    ensures exists i :: 0 <= i < n && ImageDoc(blocks, base, make, i) == Some(d)
  {
    var f := ImageDocFn(blocks, base, make);
    SomesFrom(f, n, d);
    var i :| 0 <= i < n && f(i) == Some(d);
    assert ImageDoc(blocks, base, make, i) == Some(d);
  }
}
