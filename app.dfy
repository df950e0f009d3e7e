/**
 * The threaded variant of the monitor (app.py): urls.json keeps a cleaned
 * five-field record per entry, and the global `active_monitors` dict holds
 * one `{'active': True}` entry per id whose background pinger was started.
 * The pinger threads themselves are not modelled, only the table that
 * starts and stops them.
 */
module App {
  import opened Wrappers
  import opened JsonValues
  import opened Text
  import opened UrlStore
  import opened Requests

  /** The only fields save_urls keeps. */
  const CleanFields: set<string> := {"id", "name", "url", "interval", "monitoring"}

  /** The record save_urls writes for one entry (`cleaned_data[url_id]`). */
  function CleanRecord(r: Record): (c: Record)
    ensures c.Keys == CleanFields
  {
    map["id" := Get(r, "id", JNull),
        "name" := Get(r, "name", Get(r, "url", JStr(""))),
        "url" := Get(r, "url", JStr("")),
        "interval" := Get(r, "interval", JInt(5)),
        "monitoring" := Get(r, "monitoring", JBool(false))]
  }

  /**
   * A cleaned record has exactly the five fields. A field the entry has is
   * kept as it is; a missing id becomes null, url the empty string, name
   * the url, interval 5 and monitoring False.
   */
  lemma CleanRecordShape(r: Record)
    ensures CleanRecord(r).Keys == CleanFields
    ensures forall k :: k in CleanFields && k in r ==> CleanRecord(r)[k] == r[k]
    ensures "id" !in r ==> CleanRecord(r)["id"] == JNull
    ensures "url" !in r ==> CleanRecord(r)["url"] == JStr("")
    ensures "name" !in r ==> CleanRecord(r)["name"] == CleanRecord(r)["url"]
    ensures "interval" !in r ==> CleanRecord(r)["interval"] == JInt(5)
    ensures "monitoring" !in r ==> CleanRecord(r)["monitoring"] == JBool(false)
  {
  }

  /** The table save_urls writes: every entry cleaned, the same ids. */
  function Clean(t: Table): (c: Table)
    ensures c.Keys == t.Keys
  {
    map id | id in t :: CleanRecord(t[id])
  }

  /** Cleaning keeps exactly the ids and gives every entry the five fields. */
  lemma CleanKeepsIds(t: Table)
    ensures Clean(t).Keys == t.Keys
    ensures forall id :: id in t ==> Clean(t)[id] == CleanRecord(t[id]) && Clean(t)[id].Keys == CleanFields
  {
  }

  /** A record that already has the five fields and nothing else is left as it is. */
  lemma CleanRecordIdempotent(r: Record)
    ensures CleanRecord(CleanRecord(r)) == CleanRecord(r)
  {
    var c := CleanRecord(r);
    var cc := CleanRecord(c);
    assert cc.Keys == c.Keys;
    forall k | k in c
      ensures cc[k] == c[k]
    {
    }
  }

  /** Cleaning a cleaned table changes nothing: saving what was loaded rewrites the same file. */
  lemma CleanIdempotent(t: Table)
    ensures Clean(Clean(t)) == Clean(t)
  {
    var c := Clean(t);
    forall id | id in c
      ensures Clean(c)[id] == c[id]
    {
      CleanRecordIdempotent(t[id]);
    }
  }

  /** The entry has the two fields the pinger thread is started with. */
  predicate HasUrlAndInterval(r: Record)
  {
    "url" in r && "interval" in r
  }

  /**
   * Every entry of a table as save_urls writes it has url and interval, so
   * the handlers that read them cannot raise KeyError on it.
   */
  lemma CleanedHasUrlAndInterval(t: Table)
    ensures Clean(t) == t ==> forall id :: id in t ==> HasUrlAndInterval(t[id])
  {
    if Clean(t) == t {
      CleanKeepsIds(t);
    }
  }

  /**
   * `url_info.get('monitoring', False)` taken as a condition: whether the
   * entry asks for monitoring.
   */
  predicate MonitoringOn(r: Record): (on: bool)
    ensures "monitoring" !in r ==> !on
    ensures "monitoring" in r ==> (on <==> Truthy(r["monitoring"]))
  {
    Truthy(Get(r, "monitoring", JBool(false)))
  }

  /** Cleaning keeps whether an entry asks for monitoring. */
  lemma CleanKeepsMonitoring(t: Table)
    ensures forall id :: id in t ==> (MonitoringOn(Clean(t)[id]) <==> MonitoringOn(t[id]))
  {
  }

  /**
   * `save_urls`: builds the cleaned table entry by entry and writes it;
   * the result is whether the write succeeded (`writeOk`).
   */
  method SaveUrls(file: UrlsFile, urlsData: Table, writeOk: bool) returns (ok: bool)
    modifies file
    ensures ok == writeOk
    ensures file.contents == if writeOk then Some(Clean(urlsData)) else old(file.contents)
  {
    var cleanedData: Table := map[];
    var todo := urlsData.Keys;
    while todo != {}
      invariant todo <= urlsData.Keys
      invariant cleanedData.Keys == urlsData.Keys - todo
      invariant forall id :: id in cleanedData ==> cleanedData[id] == CleanRecord(urlsData[id])
      decreases todo
    {
      var id :| id in todo;
      cleanedData := cleanedData[id := CleanRecord(urlsData[id])];
      todo := todo - {id};
    }
    assert cleanedData == Clean(urlsData);
    ok := file.Write(cleanedData, writeOk);
  }

  /** The dict add_url stores before cleaning: no name field, monitoring off. */
  function NewEntry(id: string, url: string, interval: int): (e: Record)
    ensures e.Keys == {"id", "url", "interval", "monitoring"}
    ensures e["id"] == JStr(id) && e["url"] == JStr(url) && e["interval"] == JInt(interval)
    ensures !MonitoringOn(e)
  {
    map["id" := JStr(id), "url" := JStr(url), "interval" := JInt(interval), "monitoring" := JBool(false)]
  }

  /** What ends up in urls.json for a new entry: the five fields, name being the url. */
  lemma NewEntryAsSaved(id: string, url: string, interval: int)
    ensures CleanRecord(NewEntry(id, url, interval))
            == map["id" := JStr(id), "name" := JStr(url), "url" := JStr(url),
                   "interval" := JInt(interval), "monitoring" := JBool(false)]
  {
    var c := CleanRecord(NewEntry(id, url, interval));
    var m := map["id" := JStr(id), "name" := JStr(url), "url" := JStr(url),
                 "interval" := JInt(interval), "monitoring" := JBool(false)];
    assert c.Keys == m.Keys;
  }

  /** `t` with entry `id`'s monitoring field set to `on`. */
  function WithMonitoring(t: Table, id: string, on: bool): Table
    requires id in t
  {
    t[id := t[id]["monitoring" := JBool(on)]]
  }

  /**
   * The file stop_monitoring leaves when its write succeeds: a stored id
   * gets monitoring False and the table is cleaned; for an unknown id
   * nothing is written.
   */
  function StoppedFile(t: Table, id: string): Table
  {
    if id in t then Clean(WithMonitoring(t, id, false)) else t
  }

  /** Setting a field and then cleaning is cleaning and then setting it. */
  lemma CleanRecordWithFlag(r: Record, v: Json)
    ensures CleanRecord(r["monitoring" := v]) == CleanRecord(r)["monitoring" := v]
  {
    var a := CleanRecord(r["monitoring" := v]);
    var b := CleanRecord(r)["monitoring" := v];
    assert a.Keys == b.Keys;
  }

  /** Setting the flag on a cleaned table is cleaning the table with the flag set. */
  lemma CleanThenFlag(t: Table, id: string, on: bool)
    requires id in t
    ensures id in Clean(t)
    ensures WithMonitoring(Clean(t), id, on) == Clean(WithMonitoring(t, id, on))
  {
    var w := WithMonitoring(t, id, on);
    var l := WithMonitoring(Clean(t), id, on);
    var r := Clean(w);
    assert l.Keys == r.Keys;
    forall k | k in l
      ensures l[k] == r[k]
    {
      if k == id {
        CleanRecordWithFlag(t[id], JBool(on));
      } else {
        assert l[k] == CleanRecord(t[k]) == r[k];
      }
    }
  }

  /** A second flag write to the same entry overrides the first. */
  lemma FlagTwice(t: Table, id: string, first: bool, second: bool)
    requires id in t
    ensures WithMonitoring(WithMonitoring(t, id, first), id, second) == WithMonitoring(t, id, second)
  {
    assert t[id]["monitoring" := JBool(first)]["monitoring" := JBool(second)]
        == t[id]["monitoring" := JBool(second)];
  }

  /**
   * Of two saved monitoring writes to the same entry, the later one wins:
   * the file is as if only the second had happened. So stop is idempotent,
   * start then stop leaves what stop alone leaves, and starting twice is
   * starting once.
   */
  lemma LastFlagWins(t: Table, id: string, first: bool, second: bool)
    requires id in t
    ensures var once := Clean(WithMonitoring(t, id, first));
            id in once && Clean(WithMonitoring(once, id, second)) == Clean(WithMonitoring(t, id, second))
  {
    var w1 := WithMonitoring(t, id, first);
    CleanThenFlag(w1, id, second);
    FlagTwice(t, id, first, second);
    CleanIdempotent(WithMonitoring(t, id, second));
  }

  /** Stopping twice leaves the same file as stopping once. */
  lemma StopIdempotent(t: Table, id: string)
    ensures StoppedFile(StoppedFile(t, id), id) == StoppedFile(t, id)
  {
    if id in t {
      LastFlagWins(t, id, false, false);
    }
  }

  /** The ids the startup loop starts: those whose entry asks for monitoring. */
  function RestoredIds(t: Table): (ids: set<string>)
    ensures ids <= t.Keys
    ensures forall id :: id in t ==> (id in ids <==> MonitoringOn(t[id]))
  {
    set id | id in t && MonitoringOn(t[id])
  }

  /**
   * The invariant of the active_monitors table `monitors` against the
   * stored table `t`: each key is a stored id and each 'active' flag True.
   */
  ghost predicate MonitorsValid(monitors: map<string, bool>, t: Table)
  {
    && monitors.Keys <= t.Keys
    && forall id :: id in monitors ==> monitors[id]
  }

  /** The stored monitoring flags of `t` agree with `monitors`. */
  ghost predicate MonitorsInSync(monitors: map<string, bool>, t: Table)
  {
    forall id :: id in t ==> (id in monitors <==> MonitoringOn(t[id]))
  }

  /** Saving (cleaning) the table keeps both relations to active_monitors. */
  lemma CleanKeepsRelations(monitors: map<string, bool>, t: Table)
    ensures MonitorsValid(monitors, Clean(t)) <==> MonitorsValid(monitors, t)
    ensures MonitorsInSync(monitors, Clean(t)) <==> MonitorsInSync(monitors, t)
  {
    CleanKeepsIds(t);
    CleanKeepsMonitoring(t);
  }

  /**
   * add_url keeps the invariant, and keeps the flags in sync when the new
   * id is not already a key of active_monitors.
   */
  lemma AddKeepsRelations(monitors: map<string, bool>, t: Table, id: string, e: Record)
    requires !MonitoringOn(e)
    ensures MonitorsValid(monitors, t) ==> MonitorsValid(monitors, Clean(t[id := e]))
    ensures MonitorsInSync(monitors, t) && id !in monitors ==> MonitorsInSync(monitors, Clean(t[id := e]))
  {
    CleanKeepsRelations(monitors, t[id := e]);
  }

  /** delete_url keeps the invariant whether or not its write succeeds, and the sync when it does. */
  lemma DeleteKeepsRelations(monitors: map<string, bool>, t: Table, id: string)
    ensures MonitorsValid(monitors, t) ==>
              MonitorsValid(monitors - {id}, t) && MonitorsValid(monitors - {id}, Clean(t - {id}))
    ensures MonitorsInSync(monitors, t) ==> MonitorsInSync(monitors - {id}, Clean(t - {id}))
  {
    CleanKeepsRelations(monitors - {id}, t - {id});
  }

  /**
   * start_monitoring on a stored id keeps the invariant whether or not its
   * write succeeds, and the sync when it does.
   */
  lemma StartKeepsRelations(monitors: map<string, bool>, t: Table, id: string)
    requires id in t
    ensures MonitorsValid(monitors, t) ==>
              && MonitorsValid(monitors[id := true], t)
              && MonitorsValid(monitors[id := true], Clean(WithMonitoring(t, id, true)))
    ensures MonitorsInSync(monitors, t) ==>
              MonitorsInSync(monitors[id := true], Clean(WithMonitoring(t, id, true)))
  {
    CleanKeepsRelations(monitors[id := true], WithMonitoring(t, id, true));
  }

  /** stop_monitoring keeps the invariant whether or not its write succeeds, and the sync when it does. */
  lemma StopKeepsRelations(monitors: map<string, bool>, t: Table, id: string)
    ensures MonitorsValid(monitors, t) ==>
              MonitorsValid(monitors - {id}, t) && MonitorsValid(monitors - {id}, StoppedFile(t, id))
    ensures MonitorsValid(monitors, t) && MonitorsInSync(monitors, t) ==>
              MonitorsInSync(monitors - {id}, StoppedFile(t, id))
  {
    if id in t {
      CleanKeepsRelations(monitors - {id}, WithMonitoring(t, id, false));
    }
  }

  /** The body of the reply Flask sends for an uncaught exception is not modelled. */
  const InternalError := Reply(500, JNull)

  /** The server's global state: urls.json and the active_monitors table. */
  class Server {
    /** active_monitors: id to that entry's 'active' flag. */
    var activeMonitors: map<string, bool>
    const urlsFile: UrlsFile

    constructor (file: UrlsFile)
      ensures urlsFile == file && activeMonitors == map[]
      ensures Valid()
    {
      urlsFile := file;
      activeMonitors := map[];
    }

    /** What load_urls returns now. */
    ghost function Stored(): Table
      reads urlsFile
    {
      Loaded(urlsFile.contents)
    }

    /**
     * The invariant every handler keeps: each key of active_monitors is a
     * stored id, and each entry's 'active' flag is True.
     */
    ghost predicate Valid()
      reads this, urlsFile
    {
      MonitorsValid(activeMonitors, Stored())
    }

    /**
     * The stored monitoring flags agree with active_monitors. The handlers
     * keep this only when their writes succeed.
     */
    ghost predicate InSync()
      reads this, urlsFile
    {
      MonitorsInSync(activeMonitors, Stored())
    }

    /**
     * GET /api/urls: the stored entries, each with is_active telling whether
     * its id is a key of active_monitors.
     */
    method GetUrls() returns (urls: Table)
      ensures urls.Keys == Stored().Keys
      ensures forall id :: id in urls ==>
                urls[id] == Stored()[id]["is_active" := JBool(id in activeMonitors)]
    {
      urls := urlsFile.Load();
      ghost var loaded := urls;
      var todo := urls.Keys;
      while todo != {}
        invariant todo <= loaded.Keys
        invariant urls.Keys == loaded.Keys
        invariant forall id :: id in urls ==>
                    urls[id] == if id in todo then loaded[id]
                                else loaded[id]["is_active" := JBool(id in activeMonitors)]
        decreases todo
      {
        var id :| id in todo;
        urls := urls[id := urls[id]["is_active" := JBool(id in activeMonitors)]];
        todo := todo - {id};
      }
    }

    /**
     * POST /api/urls. The url is stripped; an empty or invalid one is
     * refused with 400 before the file is read. Otherwise entry `newId`
     * (the generated `url_<n+1>_<seconds>`) is added with interval at least
     * 1 and monitoring off, and the whole table is saved cleaned: 201 when
     * the write succeeds, 500 when it fails.
     */
    method AddUrl(request: AddRequest, urlparse: string -> Option<UrlParts>, newId: string,
                  writeOk: bool)
      returns (reply: Reply)
      requires Valid()
      modifies urlsFile
      ensures Valid()
      ensures Strip(request.url.GetOr("")) == "" ==>
                reply == ErrorReply(400, "URL is required") && urlsFile.contents == old(urlsFile.contents)
      ensures var url := Strip(request.url.GetOr(""));
              url != "" && !IsValidUrl(urlparse(url)) ==>
                reply == ErrorReply(400, "Invalid URL") && urlsFile.contents == old(urlsFile.contents)
      ensures var url := Strip(request.url.GetOr(""));
              url != "" && IsValidUrl(urlparse(url)) && !writeOk ==>
                reply == ErrorReply(500, "Save failed") && urlsFile.contents == old(urlsFile.contents)
      ensures var url := Strip(request.url.GetOr(""));
              url != "" && IsValidUrl(urlparse(url)) && writeOk ==>
                && reply == Reply(201, JObj(map["message" := JStr("URL added"), "id" := JStr(newId)]))
                && urlsFile.contents == Some(Clean(old(Stored())[newId := NewEntry(newId, url,
                                                          ClampInterval(request.interval.GetOr(5)))]))
      ensures old(InSync()) && newId !in activeMonitors ==> InSync()
    {
      var url := Strip(request.url.GetOr(""));
      var interval := request.interval.GetOr(5);
      if url == "" {
        return ErrorReply(400, "URL is required");
      }
      if !IsValidUrl(urlparse(url)) {
        return ErrorReply(400, "Invalid URL");
      }
      if interval < 1 {
        interval := 1;
      }
      var urlsData := urlsFile.Load();
      ghost var before := urlsData;
      urlsData := urlsData[newId := NewEntry(newId, url, interval)];
      var saved := SaveUrls(urlsFile, urlsData, writeOk);
      if saved {
        AddKeepsRelations(activeMonitors, before, newId, NewEntry(newId, url, interval));
        assert Stored() == Clean(urlsData);
        return Reply(201, JObj(map["message" := JStr("URL added"), "id" := JStr(newId)]));
      }
      return ErrorReply(500, "Save failed");
    }

    /**
     * DELETE /api/urls/<id>. The id leaves active_monitors whether or not
     * it is stored; then a stored entry is removed and the table saved:
     * 200 when the write succeeds, 404 for an unknown id or a failed write.
     */
    method DeleteUrl(id: string, writeOk: bool) returns (reply: Reply)
      requires Valid()
      modifies this, urlsFile
      ensures Valid()
      ensures activeMonitors == old(activeMonitors) - {id}
      ensures if id in old(Stored()) && writeOk then
                && reply == Reply(200, Message("Deleted"))
                && urlsFile.contents == Some(Clean(old(Stored()) - {id}))
              else
                reply == ErrorReply(404, "Not found") && urlsFile.contents == old(urlsFile.contents)
      ensures old(InSync()) && writeOk ==> InSync()
    {
      DeleteKeepsRelations(activeMonitors, Stored(), id);
      // The 'active' False written before the key is dropped is seen only
      // by the pinger thread.
      if id in activeMonitors {
        activeMonitors := activeMonitors - {id};
      }
      var urlsData := urlsFile.Load();
      if id in urlsData {
        urlsData := urlsData - {id};
        var saved := SaveUrls(urlsFile, urlsData, writeOk);
        if saved {
          return Reply(200, Message("Deleted"));
        }
      }
      return ErrorReply(404, "Not found");
    }

    /**
     * POST /api/urls/<id>/start. Unknown id: 404 and nothing changes.
     * Otherwise the id is (re)entered in active_monitors with 'active'
     * True, and the entry's monitoring is set True and the table saved; the
     * reply is 200 even when that write fails. A stored entry without url
     * or interval raises KeyError after the id was entered: 500, nothing
     * written.
     */
    method StartMonitoring(id: string, writeOk: bool) returns (reply: Reply)
      requires Valid()
      modifies this, urlsFile
      ensures Valid()
      ensures id !in old(Stored()) ==>
                && reply == ErrorReply(404, "Not found")
                && activeMonitors == old(activeMonitors)
                && urlsFile.contents == old(urlsFile.contents)
      ensures id in old(Stored()) ==> activeMonitors == old(activeMonitors)[id := true]
      ensures id in old(Stored()) && !HasUrlAndInterval(old(Stored())[id]) ==>
                reply == InternalError && urlsFile.contents == old(urlsFile.contents)
      ensures id in old(Stored()) && HasUrlAndInterval(old(Stored())[id]) ==>
                && reply == Reply(200, Message("Started"))
                && urlsFile.contents == if writeOk then Some(Clean(WithMonitoring(old(Stored()), id, true)))
                                        else old(urlsFile.contents)
      ensures Clean(old(Stored())) == old(Stored()) ==> reply != InternalError
      ensures old(InSync()) && writeOk && reply.code == 200 ==> InSync()
    {
      var urlsData := urlsFile.Load();
      if id !in urlsData {
        return ErrorReply(404, "Not found");
      }
      StartKeepsRelations(activeMonitors, urlsData, id);
      // A running entry first gets 'active' False and is then replaced by a
      // fresh {'active': True}; only the pinger thread sees the first write.
      var urlInfo := urlsData[id];
      activeMonitors := activeMonitors[id := true];
      CleanedHasUrlAndInterval(urlsData);
      if !HasUrlAndInterval(urlInfo) {
        return InternalError;
      }
      urlsData := WithMonitoring(urlsData, id, true);
      var _ := SaveUrls(urlsFile, urlsData, writeOk);
      return Reply(200, Message("Started"));
    }

    /**
     * POST /api/urls/<id>/stop. Always 200. Afterwards the id is not in
     * active_monitors, and a stored entry has monitoring False when the
     * write succeeds.
     */
    method StopMonitoring(id: string, writeOk: bool) returns (reply: Reply)
      requires Valid()
      modifies this, urlsFile
      ensures Valid()
      ensures reply == Reply(200, Message("Stopped"))
      ensures activeMonitors == old(activeMonitors) - {id}
      ensures urlsFile.contents == if id in old(Stored()) && writeOk then Some(StoppedFile(old(Stored()), id))
                                   else old(urlsFile.contents)
      ensures old(InSync()) && writeOk ==> InSync()
    {
      StopKeepsRelations(activeMonitors, Stored(), id);
      // The 'active' False written before the key is dropped is seen only
      // by the pinger thread.
      if id in activeMonitors {
        activeMonitors := activeMonitors - {id};
      }
      var urlsData := urlsFile.Load();
      if id in urlsData {
        urlsData := WithMonitoring(urlsData, id, false);
        var _ := SaveUrls(urlsFile, urlsData, writeOk);
      }
      return Reply(200, Message("Stopped"));
    }

    /**
     * The startup loop: every stored entry that asks for monitoring is
     * entered in active_monitors. An entry without url or interval raises
     * KeyError and ends startup (`started` is false).
     */
    method RestoreMonitors() returns (started: bool)
      requires Valid()
      modifies this
      ensures Valid()
      ensures started <==> forall id :: id in RestoredIds(Stored()) ==>
                             "url" in Stored()[id] && "interval" in Stored()[id]
      ensures started ==> activeMonitors.Keys == old(activeMonitors).Keys + RestoredIds(Stored())
      ensures started && old(activeMonitors) == map[] ==> InSync()
    {
      var urlsData := urlsFile.Load();
      var todo := urlsData.Keys;
      while todo != {}
        invariant todo <= urlsData.Keys && urlsData == Stored()
        invariant Valid()
        invariant forall id :: id in RestoredIds(urlsData) && id !in todo ==>
                    "url" in urlsData[id] && "interval" in urlsData[id]
        invariant activeMonitors.Keys == old(activeMonitors).Keys + (RestoredIds(urlsData) - todo)
        decreases todo
      {
        var id :| id in todo;
        var urlInfo := urlsData[id];
        if MonitoringOn(urlInfo) {
          activeMonitors := activeMonitors[id := true];
          if "url" !in urlInfo || "interval" !in urlInfo {
            return false;
          }
        }
        todo := todo - {id};
      }
      return true;
    }
  }
}
