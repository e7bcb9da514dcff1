/** What publish_event does to a job record and to a subscriber queue,
    stated on values (src/jobs.py:39-73). The classes in module Jobs
    perform these updates in place and are proved against the functions
    here. */
module JobEvents {
  import opened Text
  import opened Values

  /** The JobState fields an event may update. */
  datatype Status = Status(
    stage: string,
    percent: int,
    ok: Option<bool>,
    error: Option<string>,
    mdPath: Option<string>,
    updatedAt: int)

  /** payload = dict(event) with job_id and ts filled in when absent. */
  function Stamp(event: Dict, jobId: string, ts: string): (p: Dict)
    ensures p.Keys == event.Keys + {"job_id", "ts"}
    ensures forall k :: k in event ==> p[k] == event[k]
    ensures "job_id" !in event ==> p["job_id"] == VStr(jobId)
    ensures "ts" !in event ==> p["ts"] == VStr(ts)
  {
    var withId := if "job_id" in event then event else event["job_id" := VStr(jobId)];
    if "ts" in withId then withId else withId["ts" := VStr(ts)]
  }

  /** A stage is taken only when it is a str. */
  predicate CarriesStage(p: Dict) {
    "stage" in p && p["stage"].VStr?
  }

  /** A percent is taken when it is an int, a bool or a float. */
  predicate CarriesPercent(p: Dict) {
    "percent" in p && IsNumber(p["percent"])
  }

  /** ok is taken when it is None or a bool. */
  predicate CarriesOk(p: Dict) {
    "ok" in p && (p["ok"].VNone? || p["ok"].VBool?)
  }

  /** md_path is taken only when it is truthy. */
  predicate CarriesMdPath(p: Dict) {
    "md_path" in p && Truthy(p["md_path"])
  }

  /** The record update of publish_event; `now` is time.time(). */
  function ApplyEvent(st: Status, p: Dict, now: int): (r: Status)
    ensures r.updatedAt == now
    ensures CarriesStage(p) ==> r.stage == p["stage"].s
    ensures !CarriesStage(p) ==> r.stage == st.stage
    ensures CarriesPercent(p) ==> r.percent == IntOf(p["percent"])
    ensures !CarriesPercent(p) ==> r.percent == st.percent
    ensures CarriesOk(p) ==> r.ok == (if p["ok"].VBool? then Some(p["ok"].b) else None)
    ensures !CarriesOk(p) ==> r.ok == st.ok
    ensures "error" in p ==> r.error == (if p["error"].VNone? then None else Some(Str(p["error"])))
    ensures "error" !in p ==> r.error == st.error
    ensures CarriesMdPath(p) ==> r.mdPath == Some(Str(p["md_path"]))
    ensures !CarriesMdPath(p) ==> r.mdPath == st.mdPath
  {
    Status(
      if CarriesStage(p) then p["stage"].s else st.stage,
      if CarriesPercent(p) then IntOf(p["percent"]) else st.percent,
      if CarriesOk(p) then (if p["ok"].VBool? then Some(p["ok"].b) else None) else st.ok,
      if "error" in p then (if p["error"].VNone? then None else Some(Str(p["error"]))) else st.error,
      if CarriesMdPath(p) then Some(Str(p["md_path"])) else st.mdPath,
      now)
  }

  /** Publishing the same event twice leaves the record as publishing it once. */
  lemma ApplyEventIdempotent(st: Status, p: Dict, now: int)
    ensures ApplyEvent(ApplyEvent(st, p, now), p, now) == ApplyEvent(st, p, now)
  {
  }

  /** The job_id and ts publish_event adds never change the record. */
  lemma ApplyEventIgnoresStamp(st: Status, e: Dict, jobId: string, ts: string, now: int)
    ensures ApplyEvent(st, Stamp(e, jobId, ts), now) == ApplyEvent(st, e, now)
  {
    var p := Stamp(e, jobId, ts);
    assert CarriesStage(p) == CarriesStage(e);
    assert CarriesPercent(p) == CarriesPercent(e);
    assert CarriesOk(p) == CarriesOk(e);
    assert CarriesMdPath(p) == CarriesMdPath(e);
  }

  /** The records after a sequence of events, applied in order. */
  function ApplyAll(st: Status, ps: seq<Dict>, now: int): Status {
    if |ps| == 0 then st
    else ApplyEvent(ApplyAll(st, ps[..|ps| - 1], now), ps[|ps| - 1], now)
  }

  lemma {:induction false} ApplyAllAppend(st: Status, a: seq<Dict>, b: seq<Dict>, now: int)
    ensures ApplyAll(st, a + b, now) == ApplyAll(ApplyAll(st, a, now), b, now)
    decreases |b|
  {
    if |b| == 0 {
      assert a + b == a;
    } else {
      assert (a + b)[..|a + b| - 1] == a + b[..|b| - 1];
      ApplyAllAppend(st, a, b[..|b| - 1], now);
    }
  }

  /** The last event carrying a stage decides the stage: a later event with
      a stage overrides an earlier "done" or "error", so terminal stages
      are not sticky. */
  lemma {:induction false} ApplyAllLastStage(st: Status, ps: seq<Dict>, now: int, k: nat)
    requires k < |ps| && CarriesStage(ps[k])
    requires forall j :: k < j < |ps| ==> !CarriesStage(ps[j])
    ensures ApplyAll(st, ps, now).stage == ps[k]["stage"].s
    decreases |ps|
  {
    if k < |ps| - 1 {
      ApplyAllLastStage(st, ps[..|ps| - 1], now, k);
    }
  }

  /** A log event names its stage, so it moves even a finished job's stage. */
  lemma TerminalStageNotSticky(st: Status, now: int)
    ensures ApplyAll(st, [ProgressPayload("done", 100, Some(true), None, None), LogPayload(LogLine("INFO", "convert", "late", None))], now).stage == "convert"
  {
    var ps := [ProgressPayload("done", 100, Some(true), None, None), LogPayload(LogLine("INFO", "convert", "late", None))];
    assert CarriesStage(ps[1]);
    ApplyAllLastStage(st, ps, now, 1);
  }

  /** One _log_job call. elapsed_ms is not modelled. */
  datatype LogLine = LogLine(level: string, stage: string, message: string, percent: Option<int>)

  /** The event _log_job publishes. */
  function LogPayload(l: LogLine): (p: Dict)
    ensures "type" in p && "stage" in p && "message" in p
    ensures p["type"] == VStr("log") && p["stage"] == VStr(l.stage) && p["message"] == VStr(l.message)
    ensures ("percent" in p) <==> l.percent.Some?
    ensures l.percent.Some? ==> p["percent"] == VInt(l.percent.value)
    ensures "error" !in p && "ok" !in p && "md_path" !in p
  {
    var base := map["type" := VStr("log"), "level" := VStr(l.level), "stage" := VStr(l.stage), "message" := VStr(l.message)];
    if l.percent.Some? then base["percent" := VInt(l.percent.value)] else base
  }

  /** A {"type": "progress", ...} event of _convert_job. */
  function ProgressPayload(stage: string, percent: int, ok: Option<bool>, error: Option<string>, mdPath: Option<string>): (p: Dict)
    ensures "stage" in p && "percent" in p
    ensures p["stage"] == VStr(stage) && p["percent"] == VInt(percent)
    ensures CarriesOk(p) && p["ok"] == (if ok.Some? then VBool(ok.value) else VNone)
    ensures ("error" in p) <==> error.Some?
    ensures error.Some? ==> p["error"] == VStr(error.value)
    ensures mdPath.Some? && mdPath.value != "" ==> CarriesMdPath(p) && p["md_path"] == VStr(mdPath.value)
    ensures mdPath.None? ==> "md_path" !in p
  {
    var base := map["type" := VStr("progress"), "stage" := VStr(stage), "percent" := VInt(percent),
                    "ok" := if ok.Some? then VBool(ok.value) else VNone];
    var withError := if error.Some? then base["error" := VStr(error.value)] else base;
    if mdPath.Some? then withError["md_path" := VStr(mdPath.value)] else withError
  }

  /** The newest n items of xs. */
  function KeepNewest(xs: seq<Dict>, n: nat): (r: seq<Dict>)
    ensures |r| <= n && |r| <= |xs|
    ensures |xs| <= n ==> r == xs
    ensures r == xs[|xs| - |r|..]
  {
    if |xs| <= n then xs else xs[|xs| - n..]
  }

  /** put_nowait(data), and on queue.Full one get_nowait and a second
      put_nowait, each of whose failures is ignored. A capacity of 0 or
      less is unbounded. */
  function Offer(items: seq<Dict>, capacity: int, e: Dict): (r: seq<Dict>)
    ensures capacity <= 0 ==> r == items + [e]
    ensures 0 < capacity && |items| <= capacity ==> r == KeepNewest(items + [e], capacity)
  {
    if capacity <= 0 || |items| < capacity then items + [e]
    else if |items| == capacity then items[1..] + [e]
    else items[1..]
  }

  /** The queue after a sequence of events. */
  function OfferAll(items: seq<Dict>, capacity: int, es: seq<Dict>): seq<Dict> {
    if |es| == 0 then items
    else Offer(OfferAll(items, capacity, es[..|es| - 1]), capacity, es[|es| - 1])
  }

  lemma KeepNewestStep(xs: seq<Dict>, n: nat, e: Dict)
    requires n > 0
    ensures KeepNewest(KeepNewest(xs, n) + [e], n) == KeepNewest(xs + [e], n)
  {
    var k := KeepNewest(xs, n);
    if |xs| > n {
      assert (k + [e])[1..] == (xs + [e])[|xs| + 1 - n..];
    }
  }

  /** A bounded queue that starts within its capacity always holds exactly
      the newest `capacity` events offered to it, the latest last. */
  lemma {:induction false} OfferAllKeepsNewest(items: seq<Dict>, capacity: int, es: seq<Dict>)
    requires 0 < capacity && |items| <= capacity
    ensures OfferAll(items, capacity, es) == KeepNewest(items + es, capacity)
    decreases |es|
  {
    if |es| == 0 {
      assert items + es == items;
    } else {
      var init := es[..|es| - 1];
      OfferAllKeepsNewest(items, capacity, init);
      KeepNewestStep(items + init, capacity, es[|es| - 1]);
      assert items + init + [es[|es| - 1]] == items + es;
    }
  }

  lemma {:induction false} OfferAllAppend(items: seq<Dict>, capacity: int, a: seq<Dict>, b: seq<Dict>)
    ensures OfferAll(items, capacity, a + b) == OfferAll(OfferAll(items, capacity, a), capacity, b)
    decreases |b|
  {
    if |b| == 0 {
      assert a + b == a;
    } else {
      assert (a + b)[..|a + b| - 1] == a + b[..|b| - 1];
      OfferAllAppend(items, capacity, a, b[..|b| - 1]);
    }
  }

  /** Every payload, stamped as publish_event stamps it. */
  function Stamps(es: seq<Dict>, jobId: string, ts: string): (r: seq<Dict>)
    ensures |r| == |es|
  {
    seq(|es|, k requires 0 <= k < |es| => Stamp(es[k], jobId, ts))
  }

  lemma StampsAppend(a: seq<Dict>, b: seq<Dict>, jobId: string, ts: string)
    ensures Stamps(a + b, jobId, ts) == Stamps(a, jobId, ts) + Stamps(b, jobId, ts)
  {
    assert forall k :: 0 <= k < |a + b| ==> Stamps(a + b, jobId, ts)[k] == (Stamps(a, jobId, ts) + Stamps(b, jobId, ts))[k];
  }
}
