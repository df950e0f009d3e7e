/**
 * The serverless variant of the monitor (API/index.py): every handler loads
 * the whole table from urls.json, changes it and writes it back. Probing a
 * URL is an input: the outcome of `requests.get` is passed in.
 */
module ApiIndex {
  import opened Wrappers
  import opened JsonValues
  import opened Text
  import opened UrlStore
  import opened Requests

  /**
   * What one `requests.get` did: it answered with a status code after
   * `responseTime` milliseconds, or it raised an exception with message
   * `message`. `timestamp` is the clock reading taken after it finished.
   */
  datatype ProbeOutcome =
    | Answered(statusCode: int, responseTime: real, timestamp: real)
    | Raised(message: string, timestamp: real)

  const UrlRequired := "URL is required"
  const InvalidUrl := "Invalid URL. Please include http:// or https://"
  const NotFound := "URL not found"
  const SaveFailed := "Failed to save URL"
  /** `str(KeyError('url'))`, the message of a stored entry without a url. */
  const MissingUrlKey := "'url'"

  /**
   * `check_url_status`: the status dict for one probe. An answer is 'up'
   * exactly when its code is below 400 and carries that code; an exception
   * is 'down' with code 0, response time 0 and the exception's text.
   */
  function CheckUrlStatus(outcome: ProbeOutcome): (info: Record)
    ensures "status" in info && "status_code" in info && "response_time" in info
    ensures info["status"] == JStr("up") || info["status"] == JStr("down")
    ensures info["status"] == JStr("up") <==> outcome.Answered? && outcome.statusCode < 400
    ensures outcome.Answered? ==>
              && info["status_code"] == JInt(outcome.statusCode)
              && info["response_time"] == JReal(outcome.responseTime)
              && "error" !in info
    ensures outcome.Raised? ==>
              && info["status_code"] == JInt(0)
              && info["response_time"] == JInt(0)
              && "error" in info && info["error"] == JStr(outcome.message)
    ensures "timestamp" in info && info["timestamp"] == JReal(outcome.timestamp)
  {
    match outcome
    case Answered(code, elapsed, at) =>
      map["status" := JStr(if code < 400 then "up" else "down"),
          "status_code" := JInt(code),
          "response_time" := JReal(elapsed),
          "timestamp" := JReal(at)]
    case Raised(message, at) =>
      map["status" := JStr("down"),
          "status_code" := JInt(0),
          "response_time" := JInt(0),
          "error" := JStr(message),
          "timestamp" := JReal(at)]
  }

  /**
   * The entry add_url stores: its id field is the key it is stored under
   * and monitoring starts off.
   */
  function ApiEntry(id: string, name: Json, url: string, interval: int,
                    lastCheck: Record, createdAt: real): (e: Record)
    ensures e.Keys == {"id", "name", "url", "interval", "monitoring", "last_check", "created_at"}
    ensures e["id"] == JStr(id) && e["name"] == name && e["url"] == JStr(url)
    ensures e["interval"] == JInt(interval) && e["monitoring"] == JBool(false)
    ensures e["last_check"] == JObj(lastCheck) && e["created_at"] == JReal(createdAt)
  {
    map["id" := JStr(id),
        "name" := name,
        "url" := JStr(url),
        "interval" := JInt(interval),
        "monitoring" := JBool(false),
        "last_check" := JObj(lastCheck),
        "created_at" := JReal(createdAt)]
  }

  /**
   * POST /api/urls. The url is stripped; an empty or invalid one is refused
   * with 400 before the file is read. Otherwise a new entry is stored under
   * `newId` (the generated uuid), every other entry staying as it was: name
   * defaults to the url, interval defaults to 5 and is raised to at least
   * 1, and last_check is the initial probe `probe`. The reply is 201 when
   * the write succeeds and 500 when it fails.
   */
  method AddUrl(file: UrlsFile, request: AddRequest, urlparse: string -> Option<UrlParts>,
                newId: string, probe: ProbeOutcome, createdAt: real, writeOk: bool)
    returns (reply: Reply)
    modifies file
    ensures var url := Strip(request.url.GetOr(""));
            if url == "" then
              reply == ErrorReply(400, UrlRequired) && file.contents == old(file.contents)
            else if !IsValidUrl(urlparse(url)) then
              reply == ErrorReply(400, InvalidUrl) && file.contents == old(file.contents)
            else if !writeOk then
              reply == ErrorReply(500, SaveFailed) && file.contents == old(file.contents)
            else
              var entry := ApiEntry(newId, request.name.GetOr(JStr(url)), url,
                                    ClampInterval(request.interval.GetOr(5)),
                                    CheckUrlStatus(probe), createdAt);
              && file.contents == Some(Loaded(old(file.contents))[newId := entry])
              && reply == Reply(201, JObj(map["message" := JStr("URL added successfully"),
                                              "id" := JStr(newId),
                                              "data" := JObj(entry)]))
  {
    var url := Strip(request.url.GetOr(""));
    var interval := request.interval.GetOr(5);
    var name := request.name.GetOr(JStr(url));
    if url == "" {
      return ErrorReply(400, UrlRequired);
    }
    if !IsValidUrl(urlparse(url)) {
      return ErrorReply(400, InvalidUrl);
    }
    if interval < 1 {
      interval := 1;
    }
    var urlsData := file.Load();
    var statusInfo := CheckUrlStatus(probe);
    urlsData := urlsData[newId := ApiEntry(newId, name, url, interval, statusInfo, createdAt)];
    var saved := file.Write(urlsData, writeOk);
    if saved {
      return Reply(201, JObj(map["message" := JStr("URL added successfully"),
                                 "id" := JStr(newId),
                                 "data" := JObj(urlsData[newId])]));
    }
    return ErrorReply(500, SaveFailed);
  }

  /**
   * DELETE /api/urls/<id>. A known id is removed, and only it; 200 when the
   * write succeeds. An unknown id is 404 without writing, and a failed
   * write also ends in 404.
   */
  method DeleteUrl(file: UrlsFile, id: string, writeOk: bool) returns (reply: Reply)
    modifies file
    ensures reply.code == 200 <==> id in Loaded(old(file.contents)) && writeOk
    ensures reply.code == 200 ==>
              && reply == Reply(200, Message("URL deleted successfully"))
              && file.contents == Some(Loaded(old(file.contents)) - {id})
    ensures reply.code != 200 ==>
              reply == ErrorReply(404, NotFound) && file.contents == old(file.contents)
  {
    var urlsData := file.Load();
    if id in urlsData {
      urlsData := urlsData - {id};
      var saved := file.Write(urlsData, writeOk);
      if saved {
        return Reply(200, Message("URL deleted successfully"));
      }
    }
    return ErrorReply(404, NotFound);
  }

  /**
   * POST /api/urls/<id>/check. Unknown id: 404. An entry without a url
   * field raises KeyError, answered with 500. Otherwise the entry's
   * last_check becomes the new status, the table is written (its outcome
   * ignored) and the reply is 200 with the status.
   */
  method CheckUrl(file: UrlsFile, id: string, probe: ProbeOutcome, writeOk: bool)
    returns (reply: Reply)
    modifies file
    ensures var before := Loaded(old(file.contents));
            id !in before ==> reply == ErrorReply(404, NotFound) && file.contents == old(file.contents)
    ensures var before := Loaded(old(file.contents));
            id in before && "url" !in before[id] ==>
              reply == ErrorReply(500, MissingUrlKey) && file.contents == old(file.contents)
    ensures var before := Loaded(old(file.contents));
            id in before && "url" in before[id] ==>
              && reply == Reply(200, JObj(map["message" := JStr("Status checked"),
                                              "status" := JObj(CheckUrlStatus(probe))]))
              && file.contents == if writeOk
                                  then Some(before[id := before[id]["last_check" := JObj(CheckUrlStatus(probe))]])
                                  else old(file.contents)
  {
    var urlsData := file.Load();
    if id !in urlsData {
      return ErrorReply(404, NotFound);
    }
    var urlInfo := urlsData[id];
    if "url" !in urlInfo {
      return ErrorReply(500, MissingUrlKey);
    }
    var statusInfo := CheckUrlStatus(probe);
    urlsData := urlsData[id := urlsData[id]["last_check" := JObj(statusInfo)]];
    var _ := file.Write(urlsData, writeOk);
    return Reply(200, JObj(map["message" := JStr("Status checked"), "status" := JObj(statusInfo)]));
  }

  /**
   * Each entry id to the status dict of its own probe, as stored in
   * last_check and returned in the results.
   */
  function Statuses(probe: string -> ProbeOutcome): string -> Json
  {
    id => JObj(CheckUrlStatus(probe(id)))
  }

  /** Every entry of `t` with its last_check replaced by `status` of its id. */
  function Stamped(t: Table, status: string -> Json): Table
  {
    map id | id in t :: t[id]["last_check" := status(id)]
  }

  /** The results dict of check-all: each id of `t` to its status. */
  function Results(t: Table, status: string -> Json): map<string, Json>
  {
    map id | id in t :: status(id)
  }

  /**
   * Check-all keeps exactly the stored ids, in the table and in the
   * results; each entry gets its own status as last_check and keeps its
   * other fields.
   */
  lemma StampedKeepsEntries(t: Table, status: string -> Json)
    ensures Stamped(t, status).Keys == t.Keys && Results(t, status).Keys == t.Keys
    ensures forall id :: id in t ==>
              && Results(t, status)[id] == status(id)
              && Stamped(t, status)[id]["last_check"] == status(id)
              && Stamped(t, status)[id].Keys == t[id].Keys + {"last_check"}
              && forall k :: k in t[id] && k != "last_check" ==> Stamped(t, status)[id][k] == t[id][k]
  {
  }

  /** A table that agrees with Stamped entry by entry is it. */
  lemma StampedPointwise(t: Table, status: string -> Json, s: Table)
    requires s.Keys == t.Keys
    requires forall id :: id in t ==> s[id] == t[id]["last_check" := status(id)]
    ensures s == Stamped(t, status)
  {
  }

  /** A results dict that agrees with Results entry by entry is it. */
  lemma ResultsPointwise(t: Table, status: string -> Json, res: map<string, Json>)
    requires res.Keys == t.Keys
    requires forall id :: id in t ==> res[id] == status(id)
    ensures res == Results(t, status)
  {
  }

  /** Every entry has a url field, so reading `url_info['url']` cannot raise. */
  predicate AllHaveUrl(t: Table)
  {
    forall id :: id in t ==> "url" in t[id]
  }

  /**
   * The loop of check_all_urls over the loaded table `t`: every entry is
   * probed (`probe(id)` is the outcome for entry `id`), its last_check
   * replaced and its status gathered into `results`. `ok` is false when
   * an entry without a url field raised KeyError and ended the loop.
   */
  method ProbeAll(t: Table, status: string -> Json)
    returns (ok: bool, stamped: Table, results: map<string, Json>)
    ensures ok == AllHaveUrl(t)
    ensures ok ==> stamped == Stamped(t, status) && results == Results(t, status)
  {
    stamped := t;
    results := map[];
    var todo := t.Keys;
    while todo != {}
      invariant todo <= t.Keys
      invariant forall id :: id in t && id !in todo ==> "url" in t[id]
      invariant stamped.Keys == t.Keys
      invariant forall id :: id in todo ==> stamped[id] == t[id]
      invariant forall id :: id in t && id !in todo ==>
                  stamped[id] == t[id]["last_check" := status(id)]
      invariant results.Keys == t.Keys - todo
      invariant forall id :: id in results ==> results[id] == status(id)
      decreases todo
    {
      var id :| id in todo;
      if "url" !in stamped[id] {
        assert id in t && "url" !in t[id];
        return false, stamped, results;
      }
      var statusInfo := status(id);
      stamped := stamped[id := stamped[id]["last_check" := statusInfo]];
      results := results[id := statusInfo];
      todo := todo - {id};
    }
    StampedPointwise(t, status, stamped);
    ResultsPointwise(t, status, results);
    return true, stamped, results;
  }

  /**
   * POST /api/urls/check-all. Every entry is probed and its last_check
   * replaced; the results are keyed by exactly the stored ids. If any
   * entry has no url field the KeyError aborts the loop: 500, nothing
   * written.
   */
  method CheckAllUrls(file: UrlsFile, probe: string -> ProbeOutcome, writeOk: bool)
    returns (reply: Reply)
    modifies file
    ensures var before := Loaded(old(file.contents));
            if AllHaveUrl(before) then
              && reply == Reply(200, JObj(map["message" := JStr("All URLs checked"),
                                              "results" := JObj(Results(before, Statuses(probe)))]))
              && file.contents == if writeOk then Some(Stamped(before, Statuses(probe))) else old(file.contents)
            else
              reply == ErrorReply(500, MissingUrlKey) && file.contents == old(file.contents)
  {
    var urlsData := file.Load();
    var ok, stamped, results := ProbeAll(urlsData, Statuses(probe));
    if !ok {
      return ErrorReply(500, MissingUrlKey);
    }
    var _ := file.Write(stamped, writeOk);
    return Reply(200, JObj(map["message" := JStr("All URLs checked"), "results" := JObj(results)]));
  }

  /**
   * PUT /api/urls/<id>/monitoring. Unknown id: 404. Otherwise only that
   * entry's monitoring field changes, to the request's value (False when
   * absent); the write's outcome is ignored and the reply is 200.
   */
  method UpdateMonitoring(file: UrlsFile, id: string, monitoring: Option<Json>, writeOk: bool)
    returns (reply: Reply)
    modifies file
    ensures var before := Loaded(old(file.contents));
            id !in before ==> reply == ErrorReply(404, NotFound) && file.contents == old(file.contents)
    ensures var before := Loaded(old(file.contents));
            var value := monitoring.GetOr(JBool(false));
            id in before ==>
              && reply == Reply(200, JObj(map["message" := JStr(if Truthy(value) then "Monitoring enabled"
                                                                else "Monitoring disabled"),
                                              "monitoring" := value]))
              && file.contents == if writeOk
                                  then Some(before[id := before[id]["monitoring" := value]])
                                  else old(file.contents)
  {
    var value := monitoring.GetOr(JBool(false));
    var urlsData := file.Load();
    if id !in urlsData {
      return ErrorReply(404, NotFound);
    }
    urlsData := urlsData[id := urlsData[id]["monitoring" := value]];
    var _ := file.Write(urlsData, writeOk);
    var text := if Truthy(value) then "Monitoring enabled" else "Monitoring disabled";
    return Reply(200, JObj(map["message" := JStr(text), "monitoring" := value]));
  }
}
