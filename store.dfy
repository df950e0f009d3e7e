/**
 * The urls.json file both servers keep their entries in, and the pieces of
 * request handling the two servers share: the add request, URL validation,
 * interval clamping and the reply.
 */
module UrlStore {
  import opened Wrappers
  import opened JsonValues

  /** What `load_urls` returns for a file state: the table, or `{}`. */
  function Loaded(contents: Option<Table>): (t: Table)
    ensures contents.Some? ==> t == contents.value
    ensures contents.None? ==> t == map[]
  {
    contents.GetOr(map[])
  }

  /** The urls.json file. */
  class UrlsFile {
    /** None when the file is missing or does not hold a readable JSON object. */
    var contents: Option<Table>

    constructor (initial: Option<Table>)
      ensures contents == initial
    {
      contents := initial;
    }

    /** `load_urls`: the stored table, or an empty one when it cannot be read. */
    method Load() returns (t: Table)
      ensures contents.Some? ==> t == contents.value
      ensures contents.None? ==> t == map[]
    {
      t := Loaded(contents);
    }

    /**
     * Writing `t` as the new file; `writeOk` is whether the write succeeds.
     * A failed write leaves the file as it was.
     */
    method Write(t: Table, writeOk: bool) returns (ok: bool)
      modifies this
      ensures ok == writeOk
      ensures contents == if writeOk then Some(t) else old(contents)
    {
      ok := writeOk;
      if writeOk {
        contents := Some(t);
      }
    }
  }
}

module Requests {
  import opened Wrappers
  import opened JsonValues

  /** The fields of a POST /api/urls body; absent keys are None. */
  datatype AddRequest = AddRequest(url: Option<string>, interval: Option<int>, name: Option<Json>)

  /** The two parts of `urlparse(url)` that validation looks at. */
  datatype UrlParts = UrlParts(scheme: string, netloc: string)

  /**
   * `is_valid_url` given what `urlparse` produced (None when it raised):
   * both scheme and network location must be non-empty.
   */
  predicate IsValidUrl(parsed: Option<UrlParts>): (valid: bool)
    ensures parsed.None? ==> !valid
    ensures valid ==> |parsed.value.scheme| > 0 && |parsed.value.netloc| > 0
    ensures parsed.Some? && parsed.value.scheme != "" && parsed.value.netloc != "" ==> valid
  {
    parsed.Some? && parsed.value.scheme != "" && parsed.value.netloc != ""
  }

  /** The requested interval in minutes, raised to 1 when below it. */
  function ClampInterval(interval: int): (r: int)
    ensures r >= 1
    ensures interval >= 1 ==> r == interval
    ensures interval < 1 ==> r == 1
  {
    if interval < 1 then 1 else interval
  }

  /** An HTTP status code with its JSON body. */
  datatype Reply = Reply(code: int, body: Json)

  function Message(text: string): Json
  {
    JObj(map["message" := JStr(text)])
  }

  function ErrorReply(code: int, text: string): Reply
  {
    Reply(code, JObj(map["error" := JStr(text)]))
  }
}
