/**
 * The sensor service: the URLs of the two sensor endpoints, the manual and
 * polled refresh, and the latest reading it republishes.
 */
module Sensors {
  import opened Common
  import opened Strings
  import Interceptor
  import LocalStorage
  import TokenService

  /** A reading as the API sends it; every measured value is text or `null`. */
  datatype SensorData = SensorData(
    id: int, deviceId: string, timestamp: string,
    temperature: Option<string>, humidity: Option<string>, ph: Option<string>,
    conductivity: Option<string>, tds: Option<string>,
    n: Option<string>, p: Option<string>, k: Option<string>, createdAt: string)

  const ApiUrl := "http://localhost:3000"
  const DefaultDevice := "esp32-001"
  const LatestPath := "/sensors/latest"
  const HistoryPath := "/sensors/history?device_id="

  /** `getLatestSensorData(deviceId?)`: the device filter is added only for a non-empty id. */
  function LatestUrl(deviceId: Option<string>): (r: string)
    ensures deviceId.Some? && deviceId.value != "" ==> r == ApiUrl + LatestPath + "?device_id=" + deviceId.value
    ensures deviceId.None? || deviceId.value == "" ==> r == ApiUrl + LatestPath
  {
    if deviceId.Some? && deviceId.value != "" then ApiUrl + LatestPath + "?device_id=" + deviceId.value
    else ApiUrl + LatestPath
  }

  /** `getSensorHistory(deviceId, limit?)`: the limit is added only when it is a non-zero number. */
  function HistoryUrl(deviceId: string, limit: Option<int>): (r: string)
    ensures limit.Some? && limit.value != 0 ==> r == ApiUrl + HistoryPath + deviceId + "&limit=" + IntToString(limit.value)
    ensures limit.None? || limit.value == 0 ==> r == ApiUrl + HistoryPath + deviceId
  {
    var base := ApiUrl + HistoryPath + deviceId;
    if limit.Some? && limit.value != 0 then base + "&limit=" + IntToString(limit.value) else base
  }

  /** The limit written into a history URL reads back as the same number, and a zero limit is the same as none. */
  lemma HistoryLimitReadsBack(deviceId: string, limit: int)
    requires limit != 0
    ensures var url := HistoryUrl(deviceId, Some(limit));
      var digits := IntToString(limit);
      |digits| <= |url| && ParseInt(url[|url| - |digits|..]) == Some(limit)
    ensures HistoryUrl(deviceId, Some(0)) == HistoryUrl(deviceId, None)
  {
    var url := HistoryUrl(deviceId, Some(limit));
    var digits := IntToString(limit);
    assert url[|url| - |digits|..] == digits;
    ParseIntToString(limit);
  }

  /** The URL the 30-second poll requests: the latest reading of the default device. */
  function PollUrl(): (r: string)
    ensures r == ApiUrl + LatestPath + "?device_id=" + DefaultDevice
  {
    LatestUrl(Some(DefaultDevice))
  }

  /** `refreshData(deviceId = 'esp32-001')`: the default replaces only a missing argument. */
  function RefreshUrl(deviceId: Option<string>): (r: string)
    ensures deviceId.None? ==> r == PollUrl()
    ensures deviceId.Some? ==> r == LatestUrl(deviceId)
  {
    LatestUrl(Some(deviceId.GetOr(DefaultDevice)))
  }

  /** An empty device id given to `refreshData` asks for the latest reading of any device, unlike the poll. */
  lemma EmptyRefreshIsUnfiltered()
    ensures RefreshUrl(Some("")) == ApiUrl + LatestPath
    ensures RefreshUrl(Some("")) != PollUrl()
  {
    assert |RefreshUrl(Some(""))| < |PollUrl()|;
  }

  /** The published latest reading after a request completes: a reading replaces it, an error keeps it. */
  function OnLatestData(current: Option<SensorData>, result: HttpResult<SensorData>): (r: Option<SensorData>)
    ensures result.Ok? ==> r == Some(result.body)
    ensures result.HttpError? ==> r == current
  {
    match result
    case Ok(data) => Some(data)
    case HttpError(_) => current
  }

  /** Every sensor URL is on the API host, so a logged-in session's requests carry the token. */
  lemma SensorRequestsAuthorized(s: LocalStorage.Store, deviceId: Option<string>, historyDevice: string, limit: Option<int>)
    requires TokenService.HasToken(s)
    ensures Interceptor.AuthorizationHeader in Interceptor.Intercept(s, Interceptor.Request(LatestUrl(deviceId), map[])).headers
    ensures Interceptor.AuthorizationHeader in Interceptor.Intercept(s, Interceptor.Request(HistoryUrl(historyDevice, limit), map[])).headers
  {
    var latest := LatestUrl(deviceId);
    assert latest == ApiUrl + latest[|ApiUrl|..];
    Interceptor.SensorApiAuthorized(s, latest[|ApiUrl|..]);
    var history := HistoryUrl(historyDevice, limit);
    assert history == ApiUrl + history[|ApiUrl|..];
    Interceptor.SensorApiAuthorized(s, history[|ApiUrl|..]);
  }

  /**
   * The polling pipeline: the last published reading, and whether the
   * pipeline still runs. An HTTP error inside the `switchMap` errors the
   * whole stream, so the subscription's error handler runs once and no later
   * tick is requested.
   */
  datatype PollState = PollState(latest: Option<SensorData>, polling: bool)

  /** The service as constructed: nothing published, polling started. */
  const PollStart := PollState(None, true)

  /** One tick's request completing. */
  function OnPollResult(st: PollState, result: HttpResult<SensorData>): (r: PollState)
    ensures !st.polling ==> r == st
    ensures st.polling && result.Ok? ==> r == PollState(Some(result.body), true)
    ensures st.polling && result.HttpError? ==> r == PollState(st.latest, false)
  {
    if !st.polling then st
    else if result.Ok? then PollState(OnLatestData(st.latest, result), true)
    else PollState(st.latest, false)
  }

  /** The ticks' outcomes in order. */
  function RunPolls(st: PollState, results: seq<HttpResult<SensorData>>): PollState
    decreases |results|
  {
    if |results| == 0 then st else RunPolls(OnPollResult(st, results[0]), results[1..])
  }

  /** `refreshData` completing: it publishes like a poll but never restarts a stopped pipeline. */
  function OnRefreshResult(st: PollState, result: HttpResult<SensorData>): (r: PollState)
    ensures r.polling == st.polling
    ensures r.latest == OnLatestData(st.latest, result)
  {
    st.(latest := OnLatestData(st.latest, result))
  }

  /** Once stopped, the pipeline ignores everything. */
  lemma {:induction false} StoppedStaysStopped(st: PollState, results: seq<HttpResult<SensorData>>)
    requires !st.polling
    ensures RunPolls(st, results) == st
    decreases |results|
  {
    if |results| > 0 {
      StoppedStaysStopped(OnPollResult(st, results[0]), results[1..]);
    }
  }

  /** Running two stretches of ticks is running their concatenation. */
  lemma {:induction false} RunPollsAppend(st: PollState, a: seq<HttpResult<SensorData>>, b: seq<HttpResult<SensorData>>)
    ensures RunPolls(st, a + b) == RunPolls(RunPolls(st, a), b)
    decreases |a|
  {
    if |a| == 0 {
      assert a + b == b;
    } else {
      assert (a + b)[0] == a[0];
      assert (a + b)[1..] == a[1..] + b;
      RunPollsAppend(OnPollResult(st, a[0]), a[1..], b);
    }
  }

  /** While every tick succeeds, polling goes on and the newest reading is published. */
  lemma {:induction false} SuccessfulPollsPublishLast(st: PollState, results: seq<HttpResult<SensorData>>)
    requires st.polling && |results| > 0
    requires forall i :: 0 <= i < |results| ==> results[i].Ok?
    ensures RunPolls(st, results) == PollState(Some(results[|results| - 1].body), true)
    decreases |results|
  {
    if |results| > 1 {
      SuccessfulPollsPublishLast(OnPollResult(st, results[0]), results[1..]);
    }
  }

  /**
   * One failed tick ends polling for good: the reading published before it
   * stays, whatever the later ticks would have returned.
   */
  lemma FirstErrorEndsPolling(st: PollState, before: seq<HttpResult<SensorData>>, status: int, after: seq<HttpResult<SensorData>>)
    requires st.polling
    ensures var r := RunPolls(st, before + [HttpError(status)] + after);
      !r.polling && r.latest == RunPolls(st, before).latest
  {
    var failure: seq<HttpResult<SensorData>> := [HttpError(status)];
    RunPollsAppend(st, before + failure, after);
    RunPollsAppend(st, before, failure);
    var mid := RunPolls(st, before + failure);
    assert !mid.polling by {
      assert failure[1..] == [];
    }
    StoppedStaysStopped(mid, after);
  }
}
