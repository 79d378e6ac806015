/** Progress records and the shared progress table (app.py `download_progress`),
    and the `progress_hook` closures of the download functions (downloader.py)
    that overwrite a job's record on every engine event. */
module Progress {
  import opened Wrappers

  /** A JSON value of a progress record. */
  datatype Value = Num(n: real) | Str(s: string) | Flag(b: bool)

  /** A progress record: a JSON object, always written as a whole. */
  type Record = map<string, Value>

  /** `record.get('status')` as text, "" when absent. */
  function Status(r: Record): string {
    if "status" in r && r["status"].Str? then r["status"].s else ""
  }

  /** Completed and error records end a job. */
  predicate IsTerminal(r: Record) {
    Status(r) == "completed" || Status(r) == "error"
  }

  /** `progress_id and progress_dict is not None`: only a non-empty id is tracked. */
  predicate Tracked(progressId: Option<string>) {
    progressId.Some? && progressId.value != ""
  }

  function Max(a: real, b: real): real { if a >= b then a else b }
  function Min(a: real, b: real): real { if a <= b then a else b }

  /** Python's `int(x)` on a float: truncation toward zero. */
  function Trunc(x: real): (r: int)
    ensures x >= 0.0 ==> r as real <= x < r as real + 1.0
    ensures x < 0.0 ==> r as real - 1.0 < x <= r as real
  {
    if x >= 0.0 then x.Floor else -((-x).Floor)
  }

  /** One event of the download engine. A missing key is `None`. */
  datatype HookEvent = HookEvent(
    status: Option<string>,
    totalBytes: Option<real>,
    totalBytesEstimate: Option<real>,
    downloadedBytes: Option<real>,
    speed: Option<real>)

  /** `d.get('total_bytes') or d.get('total_bytes_estimate', 0)`: a missing or
      zero exact total falls back to the estimate. */
  function TotalBytes(e: HookEvent): real {
    if e.totalBytes.Some? && e.totalBytes.value != 0.0 then e.totalBytes.value
    else if e.totalBytesEstimate.Some? then e.totalBytesEstimate.value
    else 0.0
  }

  function Downloaded(e: HookEvent): real {
    if e.downloadedBytes.Some? then e.downloadedBytes.value else 0.0
  }

  function Speed(e: HookEvent): real {
    if e.speed.Some? then e.speed.value else 0.0
  }

  /** The reported percentage: downloaded over total, clamped to [0, 100], and 0
      when the total is unknown. */
  function Percent(downloaded: real, total: real): (p: real)
    ensures 0.0 <= p <= 100.0
    ensures total <= 0.0 ==> p == 0.0
    ensures total > 0.0 && 0.0 <= downloaded <= total ==> p * total == downloaded * 100.0
    ensures total > 0.0 && downloaded >= total ==> p == 100.0
  {
    var raw := if total > 0.0 then (downloaded / total) * 100.0 else 0.0;
    Min(100.0, Max(0.0, raw))
  }

  /** The time estimate: the point estimate in seconds and a band of five
      seconds either side of its truncation, floored at 0. */
  datatype Eta = Eta(seconds: real, approxMin: int, approxMax: int)

  function EtaBand(downloaded: real, total: real, speed: real): (e: Eta)
    ensures 0 <= e.approxMin <= e.approxMax <= e.approxMin + 10
    ensures speed <= 0.0 || total <= 0.0 ==> e == Eta(0.0, 0, 0)
    ensures speed > 0.0 && total > 0.0 ==> e.seconds * speed == total - downloaded
    ensures Trunc(e.seconds) >= 0 ==> e.approxMin <= Trunc(e.seconds) <= e.approxMax
    ensures Trunc(e.seconds) >= 5 ==>
              e.approxMin == Trunc(e.seconds) - 5 && e.approxMax == Trunc(e.seconds) + 5
    ensures speed > 0.0 && total > 0.0 && 0 <= Trunc(e.seconds) < 5 ==>
              e.approxMin == 0 && e.approxMax == Trunc(e.seconds) + 5
    ensures speed > 0.0 && total > 0.0 && Trunc(e.seconds) < 0 ==>
              e.approxMin == 0 && e.approxMax == (if Trunc(e.seconds) > -5 then Trunc(e.seconds) + 5 else 0)
  {
    if speed > 0.0 && total > 0.0 then
      var seconds := (total - downloaded) / speed;
      var t := Trunc(seconds);
      Eta(seconds, if t - 5 > 0 then t - 5 else 0, if t + 5 > 0 then t + 5 else 0)
    else Eta(0.0, 0, 0)
  }

  /** The two hook variants: the YouTube one reports time estimates, the
      SoundCloud and Instagram ones only a percentage and a status. */
  datatype HookKind = WithEta | PercentOnly

  /** The record a hook writes for an event; `None` when it writes nothing
      (a status other than `downloading` and `finished`). */
  function HookRecord(kind: HookKind, e: HookEvent): (r: Option<Record>)
    ensures r.Some? <==> e.status == Some("downloading") || e.status == Some("finished")
    ensures r.Some? ==> "percent" in r.value && r.value["percent"].Num?
    ensures r.Some? ==> 0.0 <= r.value["percent"].n <= 100.0
    ensures r.Some? && e.status == Some("downloading") && TotalBytes(e) <= 0.0 ==>
              r.value["percent"] == Num(0.0)
    ensures e.status == Some("downloading") ==> r.value["percent"] == Num(Percent(Downloaded(e), TotalBytes(e)))
    ensures e.status == Some("finished") ==>
              r.value["percent"] == Num(100.0) && Status(r.value) == "converting"
    ensures kind == PercentOnly && e.status == Some("downloading") ==>
              r.value.Keys == {"percent", "status"} && Status(r.value) == "downloading"
    ensures kind == WithEta && e.status == Some("downloading") ==>
              r.value.Keys == {"percent", "eta_seconds", "eta_approx_min", "eta_approx_max",
                               "speed", "downloaded", "total"}
    ensures kind == WithEta && e.status == Some("downloading") ==>
              var eta := EtaBand(Downloaded(e), TotalBytes(e), Speed(e));
              && r.value["eta_seconds"] == Num(eta.seconds)
              && r.value["eta_approx_min"] == Num(eta.approxMin as real)
              && r.value["eta_approx_max"] == Num(eta.approxMax as real)
              && r.value["speed"] == Num(Speed(e)) && r.value["downloaded"] == Num(Downloaded(e))
              && r.value["total"] == Num(TotalBytes(e))
    ensures kind == WithEta && r.Some? ==> EtaFieldsSound(r.value)
    ensures kind == WithEta && e.status == Some("downloading") && (Speed(e) <= 0.0 || TotalBytes(e) <= 0.0) ==>
              r.value["eta_seconds"] == Num(0.0) && r.value["eta_approx_min"] == Num(0.0)
              && r.value["eta_approx_max"] == Num(0.0)
    ensures r.Some? ==> !IsTerminal(r.value)
  {
    if e.status == Some("downloading") then
      var total := TotalBytes(e);
      var percent := Percent(Downloaded(e), total);
      match kind
      case WithEta =>
        var eta := EtaBand(Downloaded(e), total, Speed(e));
        Some(map["percent" := Num(percent), "eta_seconds" := Num(eta.seconds),
                 "eta_approx_min" := Num(eta.approxMin as real),
                 "eta_approx_max" := Num(eta.approxMax as real),
                 "speed" := Num(Speed(e)), "downloaded" := Num(Downloaded(e)),
                 "total" := Num(total)])
      case PercentOnly =>
        Some(map["percent" := Num(percent), "status" := Str("downloading")])
    else if e.status == Some("finished") then
      match kind
      case WithEta =>
        Some(map["percent" := Num(100.0), "eta_seconds" := Num(0.0), "eta_approx_min" := Num(0.0),
                 "eta_approx_max" := Num(0.0), "status" := Str("converting")])
      case PercentOnly =>
        Some(map["percent" := Num(100.0), "status" := Str("converting")])
    else None
  }

  /** The band fields of a record that carries them are whole, non-negative
      numbers at most ten apart, the lower one first. */
  predicate EtaFieldsSound(r: Record) {
    && "eta_approx_min" in r && "eta_approx_max" in r
    && r["eta_approx_min"].Num? && r["eta_approx_max"].Num?
    && 0.0 <= r["eta_approx_min"].n <= r["eta_approx_max"].n <= r["eta_approx_min"].n + 10.0
  }

  /** The shared table from job id to its latest record. Every write replaces
      a job's record as a whole. */
  class ProgressStore {
    var jobs: map<string, Record>

    constructor ()
      ensures jobs == map[]
    {
      jobs := map[];
    }

    method Put(id: string, r: Record)
      modifies this
      ensures jobs == old(jobs)[id := r]
    {
      jobs := jobs[id := r];
    }

    /** `download_progress.get(id)`. */
    function Get(id: string): (r: Option<Record>)
      reads this
      ensures r.Some? <==> id in jobs
      ensures r.Some? ==> r.value == jobs[id]
    {
      if id in jobs then Some(jobs[id]) else None
    }
  }

  /** One call of a `progress_hook` closure: the job's record is replaced by
      the event's record when the job is tracked and the event is one the hook
      reports; nothing else in the table changes. */
  method RunHook(store: ProgressStore?, progressId: Option<string>, kind: HookKind, e: HookEvent)
    modifies store
    ensures store != null && Tracked(progressId) && HookRecord(kind, e).Some? ==>
              store.jobs == old(store.jobs)[progressId.value := HookRecord(kind, e).value]
    ensures store != null && !(Tracked(progressId) && HookRecord(kind, e).Some?) ==>
              store.jobs == old(store.jobs)
  {
    if Tracked(progressId) && store != null {
      var r := HookRecord(kind, e);
      if r.Some? {
        store.Put(progressId.value, r.value);
      }
    }
  }
}
