/** The conversion history (src/history.py): a JSON Lines file that gets
    one object appended per event, and the reader that collects the newest
    lines by reading the file backwards in blocks of 8192 bytes. The file
    is an object holding its bytes; JSON encoding, JSON parsing and UTF-8
    decoding are parameters. */
module History {
  import opened Text
  import opened Values

  const Newline: byte := 10

  const BlockSize: nat := 8192

  /** {"ts": now, **event}: every field of the event is kept, and its own
      "ts" wins over the generated one. */
  function Record(event: Dict, nowIso: string): (r: Dict)
    ensures r.Keys == event.Keys + {"ts"}
    ensures r["ts"] == if "ts" in event then event["ts"] else VStr(nowIso)
    ensures forall k :: k in event ==> r[k] == event[k]
  {
    map["ts" := VStr(nowIso)] + event
  }

  /** The last newline of d[..e], or -1 when there is none. */
  function LastBelow(d: Bytes, e: nat): (i: int)
    requires e <= |d|
    ensures -1 <= i < e
  {
    if e == 0 then -1 else if d[e - 1] == Newline then e - 1 else LastBelow(d, e - 1)
  }

  /** b"\n" in d: some newline lies in d. */
  predicate HasNewline(d: Bytes) {
    LastBelow(d, |d|) >= 0
  }

  /** The position of the last newline, where bytes.rpartition(b"\n")
      splits. */
  function LastNewline(d: Bytes): (i: nat)
    requires HasNewline(d)
    ensures i < |d| && d[i] == Newline
  {
    LastBelowFacts(d, |d|);
    LastBelow(d, |d|)
  }

  /** HasNewline is the membership test of the source. */
  lemma HasNewlineIsIn(d: Bytes)
    ensures HasNewline(d) <==> Newline in d
  {
    LastBelowFacts(d, |d|);
  }

  /** What LastBelow finds is a newline, and none follows it below e. */
  lemma {:induction false} LastBelowFacts(d: Bytes, e: nat)
    requires e <= |d|
    ensures var i := LastBelow(d, e);
      (i >= 0 ==> d[i] == Newline) && forall k :: i < k < e ==> d[k] != Newline
  {
    if e > 0 && d[e - 1] != Newline {
      LastBelowFacts(d, e - 1);
    }
  }

  /** A newline below e with none after it, or no newline at all, is what
      LastBelow finds. */
  lemma LastBelowUnique(d: Bytes, e: nat, i: int)
    requires e <= |d| && -1 <= i < e
    requires i >= 0 ==> d[i] == Newline
    requires forall k :: i < k < e ==> d[k] != Newline
    ensures LastBelow(d, e) == i
  {
    LastBelowFacts(d, e);
  }

  /** The lines of d[..e] the backwards reader meets when nothing stops
      it, newest first: the non-empty text after each newline from the
      last to the first, then the leading fragment when it is not empty. */
  function Lines(d: Bytes, e: nat): seq<Bytes>
    requires e <= |d|
    decreases e
  {
    var i := LastBelow(d, e);
    if i < 0 then (if e == 0 then [] else [d[..e]])
    else (if i + 1 == e then [] else [d[i + 1..e]]) + Lines(d, i)
  }

  function NewestFirst(d: Bytes): seq<Bytes> {
    Lines(d, |d|)
  }

  /** The lines of d[..e] depend on those bytes alone. */
  lemma {:induction false} LinesPrefix(d: Bytes, d2: Bytes, e: nat)
    requires e <= |d| && e <= |d2|
    requires d[..e] == d2[..e]
    ensures Lines(d, e) == Lines(d2, e)
    decreases e
  {
    var i := LastBelow(d, e);
    LastBelowFacts(d, e);
    forall k | i < k < e ensures d2[k] != Newline {
      assert d[..e][k] == d2[..e][k];
    }
    if i >= 0 {
      assert d[..e][i] == d2[..e][i];
    }
    LastBelowUnique(d2, e, i);
    if i >= 0 {
      assert d[..i] == d[..e][..i] == d2[..e][..i] == d2[..i];
      LinesPrefix(d, d2, i);
      var line := d[i + 1..e];
      assert line == d[..e][i + 1..] == d2[..e][i + 1..] == d2[i + 1..e];
      var head := if i + 1 == e then [] else [line];
      assert Lines(d, e) == head + Lines(d, i);
      assert Lines(d2, e) == head + Lines(d2, i);
    }
  }

  /** The file append_history writes: each record followed by a newline. */
  function File(records: seq<Bytes>): Bytes {
    if |records| == 0 then [] else File(records[..|records| - 1]) + records[|records| - 1] + [Newline]
  }

  function Reversed<T>(xs: seq<T>): (r: seq<T>)
    ensures |r| == |xs|
  {
    if |xs| == 0 then [] else [xs[|xs| - 1]] + Reversed(xs[..|xs| - 1])
  }

  /** Appending one more line puts it first in the newest-first order. */
  lemma NewestFirstSnoc(d: Bytes, r: Bytes)
    requires r != [] && Newline !in r
    requires d == [] || d[|d| - 1] == Newline
    ensures NewestFirst(d + r + [Newline]) == [r] + NewestFirst(d)
  {
    var f := d + r + [Newline];
    TrailingNewline(f);
    RecordLine(d, r);
    if d != [] {
      TrailingNewline(d);
      LinesExtended(d, r + [Newline], |d| - 1);
      assert d + (r + [Newline]) == f;
      assert NewestFirst(f) == [r] + Lines(f, |d| - 1);
    } else {
      assert NewestFirst(f) == [r];
    }
  }

  /** A newline at the very end adds no line. */
  lemma TrailingNewline(d: Bytes)
    requires d != [] && d[|d| - 1] == Newline
    ensures Lines(d, |d|) == Lines(d, |d| - 1)
  {
  }

  /** Bytes written later do not change the lines of an earlier prefix. */
  lemma LinesExtended(d: Bytes, tail: Bytes, e: nat)
    requires e <= |d|
    ensures Lines(d + tail, e) == Lines(d, e)
  {
    assert (d + tail)[..e] == d[..e];
    LinesPrefix(d + tail, d, e);
  }

  /** The record just appended is the text between the file's last two
      newlines. */
  lemma RecordLine(d: Bytes, r: Bytes)
    requires r != [] && Newline !in r
    requires d == [] || d[|d| - 1] == Newline
    ensures var f := d + r + [Newline];
      Lines(f, |f| - 1) == [r] + (if d == [] then [] else Lines(f, |d| - 1))
  {
    var f := d + r + [Newline];
    var n := |d|;
    var e := |f| - 1;
    forall k | n <= k < e ensures f[k] != Newline {
      assert f[k] == r[k - n];
    }
    LastBelowUnique(f, e, n - 1);
    assert f[n..e] == r;
    if n == 0 {
      assert f[..e] == r;
      LinesNone(f, e);
    } else {
      LinesAfter(f, e, n - 1, [r]);
    }
  }

  /** Searching the buffer d[size..e] below m finds the file's last
      newline below size + m, if that is inside the buffer. */
  lemma {:induction false} LastBelowShift(d: Bytes, size: nat, e: nat, buf: Bytes, m: nat)
    requires size <= e <= |d| && buf == d[size..e] && m <= |buf|
    ensures LastBelow(buf, m) == if LastBelow(d, size + m) >= size then LastBelow(d, size + m) - size else -1
  {
    if m > 0 {
      assert buf[m - 1] == d[size + m - 1];
      if buf[m - 1] != Newline {
        LastBelowShift(d, size, e, buf, m - 1);
      }
    }
  }

  /** The buffer rpartition works on is the slice d[size..e] of the file:
      it holds a newline exactly when the file's last newline below e is
      inside the slice, and its last newline is that one. */
  lemma CutStep(d: Bytes, size: nat, e: nat, buf: Bytes)
    requires size <= e <= |d| && buf == d[size..e]
    ensures HasNewline(buf) <==> LastBelow(d, e) >= size
    ensures HasNewline(buf) ==>
      var j := LastNewline(buf);
      LastBelow(d, e) == size + j && buf[..j] == d[size..size + j] && buf[j + 1..] == d[size + j + 1..e]
  {
    LastBelowShift(d, size, e, buf, |buf|);
  }

  /** Moving the line after the newline at i from the unread part to the
      collected lines keeps their concatenation. */
  lemma LinesCut(lines: seq<Bytes>, lines': seq<Bytes>, d: Bytes, e: nat, i: nat, tail: Bytes)
    requires i < e <= |d| && LastBelow(d, e) == i && tail == d[i + 1..e]
    requires lines' == if tail != [] then lines + [tail] else lines
    ensures lines + Lines(d, e) == lines' + Lines(d, i)
  {
    var head := if tail == [] then [] else [tail];
    LinesAfter(d, e, i, head);
    assert lines' == lines + head;
    AppendAssoc(lines, head, Lines(d, i));
  }

  /** Below a newline at i, the lines of d[..e] are the text after it, if
      any, then the lines of d[..i]. */
  lemma LinesAfter(d: Bytes, e: nat, i: nat, head: seq<Bytes>)
    requires i < e <= |d| && LastBelow(d, e) == i
    requires head == if d[i + 1..e] == [] then [] else [d[i + 1..e]]
    ensures Lines(d, e) == head + Lines(d, i)
  {
  }

  /** With no newline below e, d[..e] is one line unless it is empty. */
  lemma LinesNone(d: Bytes, e: nat)
    requires e <= |d| && LastBelow(d, e) < 0
    ensures Lines(d, e) == if e == 0 then [] else [d[..e]]
  {
  }

  lemma AppendAssoc<T>(a: seq<T>, b: seq<T>, c: seq<T>)
    ensures a + (b + c) == (a + b) + c
  {
  }

  /** A history written only by append_history, one record per line and
      no record empty, is read back newest record first. */
  lemma {:induction false} NewestFirstOfFile(records: seq<Bytes>)
    requires forall k :: 0 <= k < |records| ==> records[k] != [] && Newline !in records[k]
    ensures NewestFirst(File(records)) == Reversed(records)
    ensures File(records) == [] || File(records)[|File(records)| - 1] == Newline
  {
    if |records| > 0 {
      var pre := records[..|records| - 1];
      NewestFirstOfFile(pre);
      NewestFirstSnoc(File(pre), records[|records| - 1]);
    }
  }

  /** The inner loop of read_history: while the buffer holds a newline,
      the text after the last one is cut off and kept when not empty,
      until `limit` lines are held. Every line cut off is the next one in
      the newest-first order. */
  method CutLines(ghost d: Bytes, size: nat, ghost e: nat, buf: Bytes, lines: seq<Bytes>, limit: int)
    returns (buf': Bytes, lines': seq<Bytes>, ghost e': nat)
    requires size <= e <= |d| && buf == d[size..e] && |lines| <= limit
    ensures size <= e' <= e && buf' == d[size..e']
    ensures lines + Lines(d, e) == lines' + Lines(d, e')
    ensures |lines'| <= limit + 1
    ensures |lines'| < limit ==> !HasNewline(buf')
  {
    buf', lines', e' := buf, lines, e;
    while HasNewline(buf')
      invariant size <= e' <= e && buf' == d[size..e']
      invariant lines + Lines(d, e) == lines' + Lines(d, e')
      invariant |lines'| <= limit
      decreases |buf'|
    {
      buf', lines', e' := CutLast(d, size, e', buf', lines');
      if |lines'| >= limit {
        break;
      }
    }
  }

  /** One turn of the inner loop: rpartition at the last newline keeps
      the text before it as the buffer and the text after it, when not
      empty, as the next line. */
  method CutLast(ghost d: Bytes, size: nat, ghost e: nat, buf: Bytes, lines: seq<Bytes>)
    returns (buf': Bytes, lines': seq<Bytes>, ghost e': nat)
    requires size <= e <= |d| && buf == d[size..e] && HasNewline(buf)
    ensures size <= e' < e && buf' == d[size..e'] && |buf'| < |buf|
    ensures lines + Lines(d, e) == lines' + Lines(d, e')
    ensures |lines| <= |lines'| <= |lines| + 1
  {
    var j := LastNewline(buf);
    var rest := buf[j + 1..];
    buf' := buf[..j];
    e' := size + j;
    lines' := if rest != [] then lines + [rest] else lines;
    CutStep(d, size, e, buf);
    LinesCut(lines, lines', d, e, size + j, rest);
  }

  /** Two adjacent slices of the file make up the slice spanning both. */
  lemma SlicesJoin(d: Bytes, a: nat, b: nat, c: nat)
    requires a <= b <= c <= |d|
    ensures d[a..b] + d[b..c] == d[a..c]
  {
  }

  /** After the block loop of read_history: the leading fragment, added
      only while fewer than `limit` lines are held, completes the
      newest-first order when the whole file was read. */
  lemma LeadingFragment(d: Bytes, size: nat, e: nat, buf: Bytes, held: seq<Bytes>, lines: seq<Bytes>, limit: int)
    requires size <= e <= |d| && buf == d[size..e]
    requires held + Lines(d, e) == Lines(d, |d|)
    requires |held| < limit ==> !HasNewline(buf)
    requires size > 0 ==> |held| > limit
    requires lines == if buf != [] && |held| < limit then held + [buf] else held
    ensures lines <= Lines(d, |d|)
    ensures |lines| < limit ==> lines == Lines(d, |d|)
  {
    if |held| < limit {
      CutStep(d, size, e, buf);
      assert size == 0;
      assert d[..e] == buf;
      assert Lines(d, e) == if buf == [] then [] else [buf];
    }
  }

  /** The history file: whether it exists, and its bytes. */
  class HistoryFile {
    var present: bool
    var data: Bytes

    constructor ()
      ensures !present && data == []
    {
      present := false;
      data := [];
    }

    /** append_history, with `nowIso` the current UTC time in ISO format
        and `dump` json.dumps followed by UTF-8 encoding. The file is
        created when absent. */
    method Append(event: Dict, nowIso: string, dump: Dict -> Bytes)
      modifies this
      ensures present && data == old(data) + dump(Record(event, nowIso)) + [Newline]
    {
      present := true;
      data := data + dump(Record(event, nowIso)) + [Newline];
    }

    /** The line collection of read_history: blocks of 8192 bytes are read
        from the end; each newline found in the buffer cuts off the line
        after it (kept when not empty), newest first; reading stops once
        more than `limit` lines are held, and the leading fragment is
        added only while fewer than `limit` are. The lines are a prefix
        of the newest-first order, complete whenever fewer than `limit`
        were collected; the loop can end holding limit + 1. */
    method ReadLines(limit: int) returns (lines: seq<Bytes>)
      ensures lines <= NewestFirst(data)
      ensures limit < 0 ==> lines == []
      ensures limit >= 0 ==> |lines| <= limit + 1
      ensures |lines| < limit ==> lines == NewestFirst(data)
    {
      var d := data;
      lines := [];
      var size := |d|;
      var buf: Bytes := [];
      ghost var e := |d|;
      ghost var all := Lines(d, |d|);
      while size > 0 && |lines| <= limit
        invariant 0 <= size <= e <= |d| && buf == d[size..e]
        invariant lines + Lines(d, e) == all
        invariant limit < 0 ==> lines == []
        invariant limit >= 0 ==> |lines| <= limit + 1
        invariant |lines| < limit ==> !HasNewline(buf)
        decreases size
      {
        var step := if size >= BlockSize then BlockSize else size;
        SlicesJoin(d, size - step, size, e);
        size := size - step;
        buf := d[size..size + step] + buf;
        buf, lines, e := CutLines(d, size, e, buf, lines, limit);
      }
      ghost var held := lines;
      if buf != [] && |lines| < limit {
        lines := lines + [buf];
      }
      LeadingFragment(d, size, e, buf, held, lines, limit);
    }

    /** read_history, with `decode` UTF-8 decoding that drops bad bytes and
        `loads` json.loads (None when the line is not JSON). `lines` are the
        lines collected from the end of the file. */
    method Read(limit: int, decode: Bytes -> string, loads: string -> Option<Value>)
      returns (r: Result<seq<Dict>, ReadError>, ghost lines: seq<Bytes>)
      ensures !present ==> r == Ok([])
      ensures present ==> lines <= NewestFirst(data) && (|lines| < limit ==> lines == NewestFirst(data))
      ensures present ==> r == ReadResult(lines, limit, decode, loads)
      ensures present && r.Ok? && |NewestFirst(data)| < limit ==>
        multiset(r.value) == multiset(Events(Stamped(Parsed(NewestFirst(data), decode, loads)).value))
      ensures r.Ok? && limit >= 0 ==> |r.value| <= limit
      ensures r.Ok? ==> NewestTsFirst(r.value)
      ensures r.Ok? ==> forall e :: e in r.value ==> FromLine(e, NewestFirst(data), decode, loads)
    {
      lines := [];
      if !present {
        return Ok([]), lines;
      }
      var read := ReadLines(limit);
      lines := read;
      var events := ParseLines(read, decode, loads);
      match Stamped(events)
      case Err(err) =>
        r := Err(err);
      case Ok(stamped) =>
        r := Ok(Take(Events(SortByTs(stamped)), limit));
        SortedEvents(stamped, limit);
        StampedFromLines(read, decode, loads);
        FromLinesPrefix(r.value, read, NewestFirst(data), decode, loads);
        if |NewestFirst(data)| < limit {
          ReadAll(read, limit, decode, loads);
        }
    }
  }

  /** What read_history returns for the collected lines: the objects they
      parse to, sorted by "ts" newest first and cut to `limit`, or the
      error raised while keying them. */
  function ReadResult(lines: seq<Bytes>, limit: int, decode: Bytes -> string, loads: string -> Option<Value>)
    : Result<seq<Dict>, ReadError>
  {
    match Stamped(Parsed(lines, decode, loads))
    case Err(e) => Err(e)
    case Ok(stamped) => Ok(Take(Events(SortByTs(stamped)), limit))
  }

  /** With fewer lines than `limit`, nothing is cut: the result holds every
      parsed object, each as often as it was parsed. */
  lemma ReadAll(lines: seq<Bytes>, limit: int, decode: Bytes -> string, loads: string -> Option<Value>)
    requires |lines| < limit && Stamped(Parsed(lines, decode, loads)).Ok?
    ensures multiset(ReadResult(lines, limit, decode, loads).value)
         == multiset(Events(Stamped(Parsed(lines, decode, loads)).value))
  {
    var stamped := Stamped(Parsed(lines, decode, loads)).value;
    SortEvents(stamped);
  }

  /** Sorting keeps the events, each as often as before. */
  lemma {:induction false} SortEvents(xs: seq<(string, Dict)>)
    ensures multiset(Events(SortByTs(xs))) == multiset(Events(xs))
  {
    if |xs| > 0 {
      var init := xs[..|xs| - 1];
      var x := xs[|xs| - 1];
      var sorted := SortByTs(init);
      SortEvents(init);
      InsertEvents(sorted, x);
      assert SortByTs(xs) == Insert(sorted, x);
      assert xs == init + [x];
      EventsSnoc(init, x);
    }
  }

  lemma EventsSnoc(init: seq<(string, Dict)>, x: (string, Dict))
    ensures Events(init + [x]) == Events(init) + [x.1]
  {
  }

  lemma EventsCons(h: (string, Dict), t: seq<(string, Dict)>)
    ensures Events([h] + t) == [h.1] + Events(t)
  {
  }

  /** Putting the same entry in front of two lists keeps what one has
      beyond the other. */
  lemma EventsConsBoth(h: (string, Dict), rest: seq<(string, Dict)>, t: seq<(string, Dict)>, e: Dict)
    requires multiset(Events(t)) == multiset(Events(rest)) + multiset{e}
    ensures multiset(Events([h] + t)) == multiset(Events([h] + rest)) + multiset{e}
  {
    EventsCons(h, t);
    EventsCons(h, rest);
  }

  /** Inserting an entry adds its event. */
  lemma {:induction false} InsertEvents(xs: seq<(string, Dict)>, x: (string, Dict))
    requires Descending(xs)
    ensures multiset(Events(Insert(xs, x))) == multiset(Events(xs)) + multiset{x.1}
    decreases |xs|
  {
    if |xs| == 0 {
      assert Insert(xs, x) == [x];
    } else if Less(xs[0].0, x.0) {
      assert Insert(xs, x) == [x] + xs;
      EventsCons(x, xs);
    } else {
      var rest := xs[1..];
      assert Descending(rest) by {
        forall i, j | 0 <= i < j < |rest| ensures !Less(rest[i].0, rest[j].0) {
          assert rest[i] == xs[i + 1] && rest[j] == xs[j + 1];
        }
      }
      var t := Insert(rest, x);
      assert Insert(xs, x) == [xs[0]] + t;
      InsertEvents(rest, x);
      assert xs == [xs[0]] + rest;
      EventsConsBoth(xs[0], rest, t, x.1);
    }
  }

  /** `e` is the object some line of `lines` parses to. */
  predicate FromLine(e: Dict, lines: seq<Bytes>, decode: Bytes -> string, loads: string -> Option<Value>) {
    exists line :: line in lines && loads(Strip(decode(line))) == Some(VDict(e))
  }

  lemma FromLinesPrefix(es: seq<Dict>, lines: seq<Bytes>, all: seq<Bytes>,
                        decode: Bytes -> string, loads: string -> Option<Value>)
    requires lines <= all
    requires forall e :: e in es ==> FromLine(e, lines, decode, loads)
    ensures forall e :: e in es ==> FromLine(e, all, decode, loads)
  {
    forall e | e in es ensures FromLine(e, all, decode, loads) {
      var line :| line in lines && loads(Strip(decode(line))) == Some(VDict(e));
      var n :| 0 <= n < |lines| && lines[n] == line;
      assert all[n] == line;
    }
  }

  /** Every event that survives parsing and stamping is the object of a line. */
  lemma StampedFromLines(lines: seq<Bytes>, decode: Bytes -> string, loads: string -> Option<Value>)
    requires Stamped(Parsed(lines, decode, loads)).Ok?
    ensures forall p :: p in Stamped(Parsed(lines, decode, loads)).value ==> FromLine(p.1, lines, decode, loads)
  {
    var events := Parsed(lines, decode, loads);
    var stamped := Stamped(events).value;
    forall p | p in stamped ensures FromLine(p.1, lines, decode, loads) {
      var m :| 0 <= m < |stamped| && stamped[m] == p;
      assert events[m] in events;
    }
  }

  /** The sorted, cut list is newest first and holds only stamped events. */
  lemma SortedEvents(stamped: seq<(string, Dict)>, limit: int)
    requires Keyed(stamped)
    ensures NewestTsFirst(Take(Events(SortByTs(stamped)), limit))
    ensures forall e :: e in Take(Events(SortByTs(stamped)), limit) ==> exists p :: p in stamped && p.1 == e
  {
    var sorted := SortByTs(stamped);
    assert Keyed(sorted) by {
      forall p | p in sorted ensures p.0 == TsOf(p.1) {
        assert p in multiset(sorted);
      }
    }
    var r := Take(Events(sorted), limit);
    forall i, j | 0 <= i < j < |r| ensures !Less(TsOf(r[i]), TsOf(r[j])) {
      assert r[i] == sorted[i].1 && r[j] == sorted[j].1;
      assert sorted[i] in sorted && sorted[j] in sorted;
    }
    forall e | e in r ensures exists p :: p in stamped && p.1 == e {
      var k :| 0 <= k < |r| && r[k] == e;
      assert sorted[k] in multiset(sorted);
      assert sorted[k] in stamped;
    }
  }

  /** Each pair carries its event's own sort key. */
  predicate Keyed(xs: seq<(string, Dict)>) {
    forall p :: p in xs ==> p.0 == TsOf(p.1)
  }

  /** Why read_history raises while sorting: a parsed line that is not an
      object has no .get, and "ts" values of different kinds cannot be
      compared. */
  datatype ReadError = NotAnObject | TsNotText

  /** The JSON values of the lines that are not blank once stripped and
      parse, in the order of the lines. */
  function Parsed(lines: seq<Bytes>, decode: Bytes -> string, loads: string -> Option<Value>): (r: seq<Value>)
    ensures forall v :: v in r ==> exists line :: line in lines && loads(Strip(decode(line))) == Some(v)
    ensures |r| <= |lines|
  {
    if |lines| == 0 then []
    else
      var pre := Parsed(lines[..|lines| - 1], decode, loads);
      var raw := Strip(decode(lines[|lines| - 1]));
      assert forall line :: line in lines[..|lines| - 1] ==> line in lines;
      if raw == "" then pre
      else match loads(raw)
        case None => pre
        case Some(v) => pre + [v]
  }

  /** The parsing loop of read_history: blank lines and lines that are not
      JSON are skipped. */
  method ParseLines(lines: seq<Bytes>, decode: Bytes -> string, loads: string -> Option<Value>)
    returns (events: seq<Value>)
    ensures events == Parsed(lines, decode, loads)
  {
    events := [];
    var i := 0;
    while i < |lines|
      invariant 0 <= i <= |lines|
      invariant events == Parsed(lines[..i], decode, loads)
    {
      assert lines[..i + 1][..i] == lines[..i];
      var raw := Strip(decode(lines[i]));
      if raw != "" {
        match loads(raw)
        case Some(v) =>
          events := events + [v];
        case None =>
      }
      i := i + 1;
    }
    assert lines[..i] == lines;
  }

  /** Each event paired with its sort key e.get("ts", ""). */
  function Stamped(events: seq<Value>): (r: Result<seq<(string, Dict)>, ReadError>)
    ensures r.Ok? ==> |r.value| == |events| && forall k :: 0 <= k < |events| ==> events[k] == VDict(r.value[k].1)
    ensures r.Ok? ==> Keyed(r.value)
    ensures r.Err? <==> exists k :: 0 <= k < |events| && (!events[k].VDict? || !Get(events[k].entries, "ts", VStr("")).VStr?)
  {
    if |events| == 0 then Ok([])
    else
      match Stamped(events[..|events| - 1])
      case Err(err) => Err(err)
      case Ok(pre) =>
        var last := events[|events| - 1];
        if !last.VDict? then Err(NotAnObject)
        else
          var ts := Get(last.entries, "ts", VStr(""));
          if !ts.VStr? then Err(TsNotText)
          else Ok(pre + [(ts.s, last.entries)])
  }

  /** Newest first: no event has a later "ts" than one before it. */
  predicate NewestTsFirst(events: seq<Dict>) {
    forall i, j :: 0 <= i < j < |events| ==> !Less(TsOf(events[i]), TsOf(events[j]))
  }

  function TsOf(e: Dict): string {
    if "ts" in e && e["ts"].VStr? then e["ts"].s else ""
  }

  predicate Descending(xs: seq<(string, Dict)>) {
    forall i, j :: 0 <= i < j < |xs| ==> !Less(xs[i].0, xs[j].0)
  }

  /** Places x after every entry whose key is not older, as a stable sort
      keeps equal keys in their original order. */
  function Insert(xs: seq<(string, Dict)>, x: (string, Dict)): (r: seq<(string, Dict)>)
    requires Descending(xs)
    ensures Descending(r)
    ensures multiset(r) == multiset(xs) + multiset{x}
  {
    if |xs| == 0 then [x]
    else if Less(xs[0].0, x.0) then
      InsertFirst(xs, x);
      [x] + xs
    else
      var t := Insert(xs[1..], x);
      InsertLater(xs, x, t);
      [xs[0]] + t
  }

  /** Prepending an entry not older than any of a descending list. */
  lemma ConsDescending(h: (string, Dict), t: seq<(string, Dict)>)
    requires Descending(t)
    requires forall y :: y in t ==> !Less(h.0, y.0)
    ensures Descending([h] + t)
  {
    forall i, j | 0 <= i < j < |[h] + t| ensures !Less(([h] + t)[i].0, ([h] + t)[j].0) {
      assert ([h] + t)[j] == t[j - 1];
      if i > 0 {
        assert ([h] + t)[i] == t[i - 1];
      }
    }
  }

  lemma InsertFirst(xs: seq<(string, Dict)>, x: (string, Dict))
    requires Descending(xs) && |xs| > 0 && Less(xs[0].0, x.0)
    ensures Descending([x] + xs)
  {
    forall y | y in xs ensures !Less(x.0, y.0) {
      var j :| 0 <= j < |xs| && xs[j] == y;
      if Less(x.0, y.0) {
        LessTransitive(xs[0].0, x.0, y.0);
        if j == 0 {
          LessIrreflexive(xs[0].0);
        }
      }
    }
    ConsDescending(x, xs);
  }

  lemma InsertLater(xs: seq<(string, Dict)>, x: (string, Dict), t: seq<(string, Dict)>)
    requires Descending(xs) && |xs| > 0 && !Less(xs[0].0, x.0)
    requires Descending(t) && multiset(t) == multiset(xs[1..]) + multiset{x}
    ensures Descending([xs[0]] + t)
    ensures multiset([xs[0]] + t) == multiset(xs) + multiset{x}
  {
    assert xs == [xs[0]] + xs[1..];
    forall y | y in t ensures !Less(xs[0].0, y.0) {
      assert y in multiset(t);
      if y != x {
        assert y in multiset(xs[1..]);
        var m :| 0 <= m < |xs[1..]| && xs[1..][m] == y;
        assert xs[m + 1] == y;
      }
    }
    ConsDescending(xs[0], t);
  }

  /** events.sort(key=lambda e: e.get("ts", ""), reverse=True) */
  function SortByTs(xs: seq<(string, Dict)>): (r: seq<(string, Dict)>)
    ensures Descending(r)
    ensures multiset(r) == multiset(xs)
  {
    if |xs| == 0 then []
    else
      assert xs == xs[..|xs| - 1] + [xs[|xs| - 1]];
      Insert(SortByTs(xs[..|xs| - 1]), xs[|xs| - 1])
  }

  function Events(xs: seq<(string, Dict)>): (r: seq<Dict>)
    ensures |r| == |xs| && forall k :: 0 <= k < |xs| ==> r[k] == xs[k].1
  {
    seq(|xs|, k requires 0 <= k < |xs| => xs[k].1)
  }

  /** events[:limit], a negative limit counting from the end. */
  function Take<T>(xs: seq<T>, limit: int): (r: seq<T>)
    ensures r <= xs
    ensures limit >= 0 ==> |r| == if limit < |xs| then limit else |xs|
  {
    if limit >= 0 then (if limit < |xs| then xs[..limit] else xs)
    else if |xs| + limit > 0 then xs[..|xs| + limit]
    else []
  }
}
