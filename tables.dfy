/** The table documents of src/indexing/mineru_blocks.py
    (table_documents_from_blocks): one "TABLE ROW" document per body row
    of every table block, and, when the cell index is switched on, one
    "TABLE CELL" document per non-blank cell, up to a cap over the whole
    call. The HTML parser is a parameter: it gives the text of the cells
    of each row, or None where parsing raises. */
module BlockTables {
  import opened Text
  import opened Values
  import Config
  import opened Blocks

  /** For each <tr>, the text of its <td> and <th> cells. */
  type Rows = seq<seq<string>>

  const CellIndexVar: string := "FRA_TABLE_CELL_INDEX"
  const CellCapVar: string := "FRA_TABLE_CELL_CAP"
  const DefaultCellCap: int := 2000
  const RowPrefix: string := "TABLE ROW\n"
  const CellPrefix: string := "TABLE CELL\n"

  // ---------------------------------------------------------------
  // Settings from the environment

  /** FRA_TABLE_CELL_INDEX (default "0"), stripped and lower-cased, is
      one of 1, true, yes. */
  function CellsEnabled(env: Config.Env): bool {
    Lower(Strip(Config.Getenv(env, CellIndexVar, "0"))) in {"1", "true", "yes"}
  }

  /** int(FRA_TABLE_CELL_CAP or 2000): an unset or empty variable gives
      the default, any other value must read as an int (None is the
      ValueError). */
  function CellCap(env: Config.Env): (r: Option<int>)
    ensures CellCapVar in env && env[CellCapVar] != "" ==> r == ParseInt(env[CellCapVar])
  {
    var raw := Config.Getenv(env, CellCapVar, "2000");
    if raw == "" then Some(DefaultCellCap) else ParseInt(raw)
  }

  /** Without the variable the cell index is off. */
  lemma CellsDisabledByDefault(env: Config.Env)
    requires CellIndexVar !in env
    ensures !CellsEnabled(env)
  {
    assert Strip("0") == "0";
    assert Lower("0") == "0";
  }

  /** An unset or empty cap is 2000. */
  lemma CellCapDefault(env: Config.Env)
    requires CellCapVar !in env || env[CellCapVar] == ""
    ensures CellCap(env) == Some(DefaultCellCap)
  {
    if CellCapVar !in env {
      assert NatToString(2000) == "2000";
      ParseIntOfNat(2000);
    }
  }

  // ---------------------------------------------------------------
  // Rows, headers and pairs

  /** A row with a cell that is not blank. */
  predicate HasText(row: seq<string>) {
    exists c :: c in row && !IsBlank(c)
  }

  /** The rows that have a non-blank cell, in order. */
  function KeptRows(rows: Rows): (r: Rows)
    ensures |r| <= |rows|
    ensures forall x :: x in r <==> x in rows && HasText(x)
  {
    if |rows| == 0 then []
    else (if HasText(rows[0]) then [rows[0]] else []) + KeptRows(rows[1..])
  }

  /** Every cell, stripped. */
  function StripAll(cells: seq<string>): (r: seq<string>)
    ensures |r| == |cells| && forall i :: 0 <= i < |cells| ==> r[i] == Strip(cells[i])
  {
    seq(|cells|, i requires 0 <= i < |cells| => Strip(cells[i]))
  }

  /** The first row is the header row only when at least two rows are
      kept. */
  function Headers(rows: Rows): seq<string> {
    if |rows| >= 2 then StripAll(rows[0]) else []
  }

  function BodyRows(rows: Rows): (r: Rows)
    ensures |rows| >= 2 ==> r == rows[1..]
    ensures |rows| < 2 ==> r == rows
  {
    if |rows| >= 2 then rows[1..] else rows
  }

  /** The header of column ci: the header row's cell, or col_<ci + 1>
      when there is none or it is empty; never empty. */
  function HeaderFor(headers: seq<string>, ci: nat): (h: string)
    ensures h != ""
    ensures ci < |headers| && headers[ci] != "" ==> h == headers[ci]
  {
    if ci < |headers| && headers[ci] != "" then headers[ci] else "col_" + NatToString(ci + 1)
  }

  /** "<header>: <value>" for the cell in column ci. */
  function Pair(headers: seq<string>, ci: nat, cell: string): string {
    HeaderFor(headers, ci) + ": " + Strip(cell)
  }

  /** The pairs of the non-blank cells among row[..n], in column order. */
  function Pairs(headers: seq<string>, row: seq<string>, n: nat): (r: seq<string>)
    requires n <= |row|
    ensures |r| <= n
  {
    if n == 0 then []
    else Pairs(headers, row, n - 1) + (if Strip(row[n - 1]) != "" then [Pair(headers, n - 1, row[n - 1])] else [])
  }

  /** The cells that are not blank, as they are. */
  function NonBlankCells(row: seq<string>): (r: seq<string>)
    ensures forall c :: c in r <==> c in row && !IsBlank(c)
  {
    if |row| == 0 then []
    else (if !IsBlank(row[0]) then [row[0]] else []) + NonBlankCells(row[1..])
  }

  /** The text of a row document: its pairs joined with " ; ", or, with
      no pairs, its non-blank cells joined the same way; stripped. */
  function RowText(headers: seq<string>, row: seq<string>): string {
    var pairs := Pairs(headers, row, |row|);
    Strip(if pairs != [] then Join(pairs, " ; ") else Join(NonBlankCells(row), " ; "))
  }

  /** The pairs loop of table_documents_from_blocks. */
  method RowPairs(headers: seq<string>, row: seq<string>) returns (pairs: seq<string>)
    ensures pairs == Pairs(headers, row, |row|)
  {
    pairs := [];
    for ci := 0 to |row|
      invariant pairs == Pairs(headers, row, ci)
    {
      var v := Strip(row[ci]);
      if v != "" {
        pairs := pairs + [HeaderFor(headers, ci) + ": " + v];
      }
    }
  }

  lemma {:induction false} PairsNonEmpty(headers: seq<string>, row: seq<string>, n: nat, i: nat)
    requires i < n <= |row| && Strip(row[i]) != ""
    ensures Pairs(headers, row, n) != []
  {
    if i < n - 1 {
      PairsNonEmpty(headers, row, n - 1, i);
    }
  }

  /** A joined list begins with its first part. */
  lemma JoinStartsWith(parts: seq<string>, sep: string)
    requires |parts| > 0
    ensures |parts[0]| <= |Join(parts, sep)| && Join(parts, sep)[..|parts[0]|] == parts[0]
  {
    if |parts| > 1 {
      assert Join(parts, sep) == parts[0] + (sep + Join(parts[1..], sep));
    }
  }

  /** A text with a character that is not whitespace is not blank. */
  lemma NotBlankAt(s: string, i: nat)
    requires i < |s| && !IsSpace(s[i])
    ensures Strip(s) != ""
  {
    StripFacts(s);
  }

  /** A kept row has a pair, so the fallback to its bare cells is never
      taken, and its text is never empty. */
  lemma RowTextOfKeptRow(headers: seq<string>, row: seq<string>)
    requires HasText(row)
    ensures Pairs(headers, row, |row|) != []
    ensures RowText(headers, row) != ""
  {
    var c :| c in row && !IsBlank(c);
    var i :| 0 <= i < |row| && row[i] == c;
    StripFacts(c);
    PairsNonEmpty(headers, row, |row|, i);
    var pairs := Pairs(headers, row, |row|);
    var p0 := pairs[0];
    PairsHead(headers, row, |row|);
    var ci :| 0 <= ci < |row| && p0 == HeaderFor(headers, ci) + ": " + Strip(row[ci]);
    var hd := HeaderFor(headers, ci);
    assert p0[|hd|] == ':';
    JoinStartsWith(pairs, " ; ");
    var j := Join(pairs, " ; ");
    assert j[|hd|] == j[..|p0|][|hd|] == ':';
    NotBlankAt(j, |hd|);
  }

  /** Every pair is a header, ": " and a value. */
  lemma {:induction false} PairsHead(headers: seq<string>, row: seq<string>, n: nat)
    requires n <= |row| && Pairs(headers, row, n) != []
    ensures exists ci :: 0 <= ci < n && Pairs(headers, row, n)[0] == HeaderFor(headers, ci) + ": " + Strip(row[ci])
  {
    var prev := Pairs(headers, row, n - 1);
    if prev != [] {
      PairsHead(headers, row, n - 1);
      assert Pairs(headers, row, n)[0] == prev[0];
    } else {
      assert Pairs(headers, row, n)[0] == Pair(headers, n - 1, row[n - 1]);
    }
  }

  // ---------------------------------------------------------------
  // Documents

  /** What a call shares: the base metadata, the HTML parser, the cell
      switch, the cell cap, and make_document over the Document class. */
  datatype TableSettings = TableSettings(
    base: Dict, parse: string -> Option<Rows>, cells: bool, cap: int, make: (string, Dict) -> Document)

  /** A document keeps the text it was made with. */
  ghost predicate KeepsText(s: TableSettings) {
    forall text, meta :: s.make(text, meta).text == text
  }

  /** The table a row or cell belongs to: its block and header row. */
  datatype TableAt = TableAt(bi: nat, block: Dict, headers: seq<string>)

  /** b.get("img_path") when it is a str, else None. */
  function ImgOf(block: Dict): Value {
    var v := Get(block, "img_path", VNone);
    if v.VStr? then v else VNone
  }

  function RowMeta(base: Dict, t: TableAt, ri: nat): Dict {
    base + map[
      "source_kind" := VStr("mineru_table_row"), "block_index" := VInt(t.bi), "table_row" := VInt(ri),
      "page_idx" := PageOf(t.block), "bbox" := BboxOf(t.block), "img_path" := ImgOf(t.block)]
  }

  function CellMeta(base: Dict, t: TableAt, ri: nat, ci: nat): Dict {
    base + map[
      "source_kind" := VStr("mineru_table_cell"), "block_index" := VInt(t.bi), "table_row" := VInt(ri),
      "table_col" := VInt(ci), "header" := VStr(HeaderFor(t.headers, ci)),
      "page_idx" := PageOf(t.block), "bbox" := BboxOf(t.block), "img_path" := ImgOf(t.block)]
  }

  function RowDocument(s: TableSettings, t: TableAt, ri: nat, text: string): Document {
    s.make(RowPrefix + text, RowMeta(s.base, t, ri))
  }

  function CellDocument(s: TableSettings, t: TableAt, ri: nat, ci: nat, v: string): Document {
    s.make(CellPrefix + HeaderFor(t.headers, ci) + ": " + v, CellMeta(s.base, t, ri, ci))
  }

  /** The cell document maker of one row. */
  function CellDocFn(s: TableSettings, t: TableAt, ri: nat): (nat, string) -> Document {
    (ci: nat, v: string) => CellDocument(s, t, ri, ci, v)
  }

  /** f(ci, stripped cell) for each non-blank cell among row[..n], in
      column order. */
  function NonBlankMap(f: (nat, string) -> Document, row: seq<string>, n: nat): (r: seq<Document>)
    requires n <= |row|
    ensures |r| <= n
  {
    if n == 0 then []
    else
      var v := Strip(row[n - 1]);
      NonBlankMap(f, row, n - 1) + (if v != "" then [f(n - 1, v)] else [])
  }

  /** The cell documents of the non-blank cells of a row. */
  function CellDocs(s: TableSettings, t: TableAt, ri: nat, row: seq<string>): seq<Document> {
    NonBlankMap(CellDocFn(s, t, ri), row, |row|)
  }

  /** The documents so far and the number of cell documents counted. */
  datatype Acc = Acc(docs: seq<Document>, cells: int)

  /** Documents added one by one, counted, stopping once the count
      reaches the cap. */
  function Capped(acc: Acc, cap: int, more: seq<Document>): (r: Acc)
    requires acc.cells < cap
  {
    var k := if |more| <= cap - acc.cells then |more| else cap - acc.cells;
    Acc(acc.docs + more[..k], acc.cells + k)
  }

  /** The cell documents of a row, cut off once the count reaches the
      cap. */
  function CellsStep(acc: Acc, s: TableSettings, t: TableAt, ri: nat, row: seq<string>): (r: Acc)
    requires acc.cells < s.cap
  {
    Capped(acc, s.cap, CellDocs(s, t, ri, row))
  }

  /** One body row: its row document unless its text is empty, then its
      cell documents when the cell index is on and under the cap. */
  function RowStep(acc: Acc, s: TableSettings, t: TableAt, ri: nat, row: seq<string>): Acc {
    var text := RowText(t.headers, row);
    if text == "" then acc
    else
      var acc' := Acc(acc.docs + [RowDocument(s, t, ri, text)], acc.cells);
      if s.cells && acc.cells < s.cap then CellsStep(acc', s, t, ri, row) else acc'
  }

  /** The first n body rows of a table. */
  function RowsAcc(acc: Acc, s: TableSettings, t: TableAt, body: Rows, n: nat): Acc
    requires n <= |body|
  {
    if n == 0 then acc else RowStep(RowsAcc(acc, s, t, body, n - 1), s, t, n - 1, body[n - 1])
  }

  /** The kept rows of a table block; none for a block that is not a
      table, has a blank body, fails to parse or has no row with text. */
  function TableOf(block: Dict, parse: string -> Option<Rows>): (r: Option<Rows>)
    ensures r.Some? ==> r.value != [] && forall x :: x in r.value ==> HasText(x)
  {
    var html := Strip(Field(block, "table_body"));
    if TypeOf(block) != "table" || html == "" then None
    else
      match parse(html)
      case None => None
      case Some(rows) =>
        var kept := KeptRows(rows);
        if kept == [] then None else Some(kept)
  }

  /** One block of table_documents_from_blocks. */
  function BlockStep(acc: Acc, s: TableSettings, bi: nat, block: Dict): Acc {
    match TableOf(block, s.parse)
    case None => acc
    case Some(kept) =>
      var body := BodyRows(kept);
      RowsAcc(acc, s, TableAt(bi, block, Headers(kept)), body, |body|)
  }

  /** The first n blocks, starting from no documents and no cells. */
  function BlocksAcc(blocks: seq<Dict>, s: TableSettings, n: nat): Acc
    requires n <= |blocks|
  {
    if n == 0 then Acc([], 0) else BlockStep(BlocksAcc(blocks, s, n - 1), s, n - 1, blocks[n - 1])
  }

  /** table_documents_from_blocks; an error when FRA_TABLE_CELL_CAP is
      set to something that is not an int. */
  function TableDocuments(blocks: seq<Dict>, base: Dict, env: Config.Env, parse: string -> Option<Rows>)
    : (r: Result<seq<Document>, string>)
    ensures r.Err? <==> CellCap(env).None?
  {
    match CellCap(env)
    case None => Err("invalid literal for int(): " + CellCapVar)
    case Some(cap) => Ok(BlocksAcc(blocks, TableSettings(base, parse, CellsEnabled(env), cap, MakeDocument), |blocks|).docs)
  }

  // ---------------------------------------------------------------
  // The loops

  /** The cell loop of one row, with its break at the cap. */
  method EmitCells(acc: Acc, s: TableSettings, t: TableAt, ri: nat, row: seq<string>) returns (r: Acc)
    requires acc.cells < s.cap
    ensures r == CellsStep(acc, s, t, ri, row)
  {
    r := EmitNonBlank(acc, s.cap, row, CellDocFn(s, t, ri));
  }

  /** The cell loop over a row for a given document maker. */
  method EmitNonBlank(acc: Acc, cap: int, row: seq<string>, f: (nat, string) -> Document) returns (r: Acc)
    requires acc.cells < cap
    ensures r == Capped(acc, cap, NonBlankMap(f, row, |row|))
  {
    var docs, count := acc.docs, acc.cells;
    var ci := 0;
    while ci < |row|
      invariant ci <= |row|
      invariant docs == acc.docs + NonBlankMap(f, row, ci)
      invariant count == acc.cells + |NonBlankMap(f, row, ci)| < cap
    {
      var v := Strip(row[ci]);
      if v != "" {
        docs := docs + [f(ci, v)];
        count := count + 1;
        if count >= cap {
          CappedAt(acc, cap, f, row, ci + 1);
          return Acc(docs, count);
        }
      }
      ci := ci + 1;
    }
    return Acc(docs, count);
  }

  /** The documents up to column m reach the cap: they are all that is
      added. */
  lemma CappedAt(acc: Acc, cap: int, f: (nat, string) -> Document, row: seq<string>, m: nat)
    requires m <= |row| && acc.cells < cap && acc.cells + |NonBlankMap(f, row, m)| == cap
    ensures Capped(acc, cap, NonBlankMap(f, row, |row|)) == Acc(acc.docs + NonBlankMap(f, row, m), cap)
  {
    NonBlankMapPrefix(f, row, m, |row|);
    var all := NonBlankMap(f, row, |row|);
    var part := NonBlankMap(f, row, m);
    assert all[..|part|] == part;
    if |all| <= cap - acc.cells {
      assert all == all[..|part|];
    }
  }

  lemma {:induction false} NonBlankMapPrefix(f: (nat, string) -> Document, row: seq<string>, m: nat, n: nat)
    requires m <= n <= |row|
    ensures var all := NonBlankMap(f, row, n);
      |NonBlankMap(f, row, m)| <= |all| && all[..|NonBlankMap(f, row, m)|] == NonBlankMap(f, row, m)
    decreases n - m
  {
    if m < n {
      NonBlankMapPrefix(f, row, m, n - 1);
    }
  }

  /** The row loop of one table block. */
  method EmitRows(acc: Acc, s: TableSettings, t: TableAt, body: Rows) returns (r: Acc)
    ensures r == RowsAcc(acc, s, t, body, |body|)
  {
    r := acc;
    for ri := 0 to |body|
      invariant r == RowsAcc(acc, s, t, body, ri)
    {
      var row := body[ri];
      var pairs := RowPairs(t.headers, row);
      var rowText := Strip(if pairs != [] then Join(pairs, " ; ") else Join(NonBlankCells(row), " ; "));
      if rowText != "" {
        var before := r.cells;
        r := Acc(r.docs + [RowDocument(s, t, ri, rowText)], r.cells);
        if s.cells && before < s.cap {
          r := EmitCells(r, s, t, ri, row);
        }
      }
    }
  }

  /** One block of the loop of table_documents_from_blocks. */
  method EmitTable(acc: Acc, s: TableSettings, bi: nat, b: Dict) returns (r: Acc)
    ensures r == BlockStep(acc, s, bi, b)
  {
    r := acc;
    if TypeOf(b) != "table" {
      return;
    }
    var html := Strip(Field(b, "table_body"));
    if html == "" {
      return;
    }
    var parsed := s.parse(html);
    if parsed.None? {
      return;
    }
    var rows := KeptRows(parsed.value);
    if rows == [] {
      return;
    }
    var headers: seq<string> := [];
    var body := rows;
    if |rows| >= 2 {
      headers := StripAll(rows[0]);
      body := rows[1..];
    }
    r := EmitRows(acc, s, TableAt(bi, b, headers), body);
  }

  /** table_documents_from_blocks. */
  method TableDocumentsFromBlocks(blocks: seq<Dict>, base: Dict, env: Config.Env, parse: string -> Option<Rows>)
    returns (r: Result<seq<Document>, string>)
    ensures r == TableDocuments(blocks, base, env, parse)
  {
    var enable := Lower(Strip(Config.Getenv(env, CellIndexVar, "0"))) in {"1", "true", "yes"};
    var raw := Config.Getenv(env, CellCapVar, "2000");
    var cap := if raw == "" then Some(DefaultCellCap) else ParseInt(raw);
    if cap.None? {
      return Err("invalid literal for int(): " + CellCapVar);
    }
    var s := TableSettings(base, parse, enable, cap.value, MakeDocument);
    var acc := Acc([], 0);
    for bi := 0 to |blocks|
      invariant acc == BlocksAcc(blocks, s, bi)
    {
      acc := EmitTable(acc, s, bi, blocks[bi]);
    }
    return Ok(acc.docs);
  }

  // ---------------------------------------------------------------
  // Properties

  predicate IsCellDoc(d: Document) {
    StartsWith(d.text, CellPrefix)
  }

  predicate AllCells(docs: seq<Document>) {
    forall k :: 0 <= k < |docs| ==> IsCellDoc(docs[k])
  }

  /** The number of cell documents among docs. */
  function CellCount(docs: seq<Document>): (n: nat)
    ensures n <= |docs|
  {
    if |docs| == 0 then 0
    else CellCount(docs[..|docs| - 1]) + (if IsCellDoc(docs[|docs| - 1]) then 1 else 0)
  }

  lemma {:induction false} CellCountAppend(a: seq<Document>, b: seq<Document>)
    ensures CellCount(a + b) == CellCount(a) + CellCount(b)
    decreases |b|
  {
    if |b| == 0 {
      assert a + b == a;
    } else {
      assert (a + b)[..|a + b| - 1] == a + b[..|b| - 1];
      assert (a + b)[|a + b| - 1] == b[|b| - 1];
      CellCountAppend(a, b[..|b| - 1]);
    }
  }

  /** A list of cell documents counts all of them. */
  lemma {:induction false} CellCountAll(docs: seq<Document>)
    requires AllCells(docs)
    ensures CellCount(docs) == |docs|
  {
    if |docs| > 0 {
      var init := docs[..|docs| - 1];
      assert forall k :: 0 <= k < |init| ==> init[k] == docs[k];
      CellCountAll(init);
    }
  }

  /** A maker that only makes cell documents makes a list of them. */
  lemma {:induction false} NonBlankMapAll(f: (nat, string) -> Document, row: seq<string>, n: nat)
    requires n <= |row| && forall ci, v :: IsCellDoc(f(ci, v))
    ensures AllCells(NonBlankMap(f, row, n))
  {
    if n > 0 {
      NonBlankMapAll(f, row, n - 1);
      var prev := NonBlankMap(f, row, n - 1);
      var ds := NonBlankMap(f, row, n);
      var v := Strip(row[n - 1]);
      if v != "" {
        assert ds == prev + [f(n - 1, v)];
        forall k | 0 <= k < |ds| ensures IsCellDoc(ds[k]) {
          if k < |prev| {
            assert ds[k] == prev[k];
          }
        }
      } else {
        assert ds == prev;
      }
    }
  }

  lemma CellDocIsCell(s: TableSettings, t: TableAt, ri: nat, ci: nat, v: string)
    requires KeepsText(s)
    ensures IsCellDoc(CellDocFn(s, t, ri)(ci, v))
  {
    var d := CellDocFn(s, t, ri)(ci, v);
    assert d.text == CellPrefix + (HeaderFor(t.headers, ci) + ": " + v);
    assert d.text[..|CellPrefix|] == CellPrefix;
  }

  /** The cell documents of a row are all cell documents. */
  lemma CellDocsAreCells(s: TableSettings, t: TableAt, ri: nat, row: seq<string>)
    requires KeepsText(s)
    ensures AllCells(CellDocs(s, t, ri, row))
  {
    forall ci, v ensures IsCellDoc(CellDocFn(s, t, ri)(ci, v)) {
      CellDocIsCell(s, t, ri, ci, v);
    }
    NonBlankMapAll(CellDocFn(s, t, ri), row, |row|);
  }

  lemma RowDocIsNoCell(s: TableSettings, t: TableAt, ri: nat, text: string)
    requires KeepsText(s)
    ensures !IsCellDoc(RowDocument(s, t, ri, text))
  {
    var d := RowDocument(s, t, ri, text);
    assert d.text[6] == 'R';
  }

  /** The cell counter counts the cell documents and stays at most the
      cap (at zero when the cap is not positive). */
  predicate Counted(acc: Acc, s: TableSettings) {
    acc.cells == CellCount(acc.docs) && (acc.cells == 0 || acc.cells <= s.cap)
  }

  /** Adding cell documents under the cap keeps the count. */
  lemma CappedCounted(acc: Acc, cap: int, more: seq<Document>)
    requires acc.cells < cap && acc.cells == CellCount(acc.docs)
    requires AllCells(more)
    ensures var r := Capped(acc, cap, more); r.cells == CellCount(r.docs) && r.cells <= cap
  {
    var k := if |more| <= cap - acc.cells then |more| else cap - acc.cells;
    var part := more[..k];
    assert forall j :: 0 <= j < |part| ==> part[j] == more[j];
    CellCountAll(part);
    CellCountAppend(acc.docs, part);
  }

  /** Adding a row document keeps the count. */
  lemma RowDocCounted(acc: Acc, s: TableSettings, t: TableAt, ri: nat, text: string)
    requires Counted(acc, s) && KeepsText(s)
    ensures Counted(Acc(acc.docs + [RowDocument(s, t, ri, text)], acc.cells), s)
  {
    var d := RowDocument(s, t, ri, text);
    RowDocIsNoCell(s, t, ri, text);
    CellCountAppend(acc.docs, [d]);
    assert CellCount([d]) == 0 by {
      assert [d][..0] == [];
    }
  }

  lemma RowStepCounted(acc: Acc, s: TableSettings, t: TableAt, ri: nat, row: seq<string>)
    requires Counted(acc, s) && KeepsText(s)
    ensures Counted(RowStep(acc, s, t, ri, row), s)
    ensures !s.cells ==> RowStep(acc, s, t, ri, row).cells == acc.cells
  {
    var text := RowText(t.headers, row);
    if text != "" {
      RowDocCounted(acc, s, t, ri, text);
      if s.cells && acc.cells < s.cap {
        CellDocsAreCells(s, t, ri, row);
        CappedCounted(Acc(acc.docs + [RowDocument(s, t, ri, text)], acc.cells), s.cap, CellDocs(s, t, ri, row));
      }
    }
  }

  lemma {:induction false} RowsAccCounted(acc: Acc, s: TableSettings, t: TableAt, body: Rows, n: nat)
    requires n <= |body| && Counted(acc, s) && KeepsText(s)
    ensures Counted(RowsAcc(acc, s, t, body, n), s)
    ensures !s.cells ==> RowsAcc(acc, s, t, body, n).cells == acc.cells
  {
    if n > 0 {
      RowsAccCounted(acc, s, t, body, n - 1);
      RowStepCounted(RowsAcc(acc, s, t, body, n - 1), s, t, n - 1, body[n - 1]);
    }
  }

  lemma {:induction false} BlocksAccCounted(blocks: seq<Dict>, s: TableSettings, n: nat)
    requires n <= |blocks| && KeepsText(s)
    ensures Counted(BlocksAcc(blocks, s, n), s)
    ensures !s.cells ==> BlocksAcc(blocks, s, n).cells == 0
  {
    if n == 0 {
      assert CellCount([]) == 0;
    } else {
      BlocksAccCounted(blocks, s, n - 1);
      var acc := BlocksAcc(blocks, s, n - 1);
      match TableOf(blocks[n - 1], s.parse)
      case None =>
      case Some(kept) =>
        var body := BodyRows(kept);
        RowsAccCounted(acc, s, TableAt(n - 1, blocks[n - 1], Headers(kept)), body, |body|);
    }
  }

  /** The cell documents of a call never outnumber the cap, and there are
      none when the cell index is off or the cap is not positive. */
  lemma TableCellCap(blocks: seq<Dict>, base: Dict, env: Config.Env, parse: string -> Option<Rows>)
    requires TableDocuments(blocks, base, env, parse).Ok?
    ensures var docs := TableDocuments(blocks, base, env, parse).value;
      && CellCount(docs) <= (if CellCap(env).value > 0 then CellCap(env).value else 0)
      && (!CellsEnabled(env) ==> CellCount(docs) == 0)
  {
    var s := TableSettings(base, parse, CellsEnabled(env), CellCap(env).value, MakeDocument);
    assert KeepsText(s);
    BlocksAccCounted(blocks, s, |blocks|);
  }

  /** Every body row of a table gets its row document: a kept row's text
      is never empty. */
  lemma EveryRowDocumented(acc: Acc, s: TableSettings, t: TableAt, ri: nat, row: seq<string>)
    requires HasText(row)
    ensures var r := RowStep(acc, s, t, ri, row);
      |r.docs| > |acc.docs| && r.docs[..|acc.docs| + 1] == acc.docs + [RowDocument(s, t, ri, RowText(t.headers, row))]
  {
    RowTextOfKeptRow(t.headers, row);
    var acc' := Acc(acc.docs + [RowDocument(s, t, ri, RowText(t.headers, row))], acc.cells);
    if s.cells && acc.cells < s.cap {
      var all := CellDocs(s, t, ri, row);
      var k := if |all| <= s.cap - acc.cells then |all| else s.cap - acc.cells;
      assert (acc'.docs + all[..k])[..|acc.docs| + 1] == acc'.docs;
    }
  }
}
