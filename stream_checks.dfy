/**
 * The two checks the service runs on a stream URL: `validateHLSStream`, which accepts only an HLS
 * playlist, and `checkChannelHealth`, which classifies what the channel's stream URL answers.
 *
 * The HTTP request itself is an input: `Fetch` is what the GET gave, a body (null when the
 * response had none) or the message of the exception it threw (a timeout, a refused connection, an
 * error status). The clock reading the health report carries is an input too.
 */
module StreamChecks {
  import opened Wrappers
  import opened Strings
  import opened Catalog

  /** What a GET on the stream URL gave. */
  datatype Fetch = Response(body: Option<string>) | Thrown(message: string)

  /** `validateHLSStream`: the playlist it returns, or the exception it throws and its message. */
  datatype Validation =
    | Playlist(content: string)
    | IllegalArgument(message: string)
    | Runtime(message: string)

  const NotHlsUrlMessage := "URL is not an HLS stream. Only .m3u8 files are supported."
  const ValidationFailedPrefix := "HLS stream validation failed: "
  const EmptyContentMessage := "HLS stream returned empty content"
  const NotHlsContentMessage := "Content does not appear to be a valid HLS stream"

  /** The text looks like an HLS playlist: it has the `#EXTM3U` header or names a `.m3u8` file. */
  predicate LooksLikeHls(text: string) {
    Contains(text, "#EXTM3U") || Contains(text, ".m3u8")
  }

  /**
   * A URL without ".m3u8" is refused before any request. Otherwise a failed request, a null or blank
   * body, or a body that does not look like a playlist all end in one runtime exception whose message
   * is the common prefix followed by the cause.
   */
  function ValidateHlsStream(url: string, fetched: Fetch): (r: Validation)
    ensures r.IllegalArgument? <==> !Contains(url, ".m3u8")
    ensures r.IllegalArgument? ==> r.message == NotHlsUrlMessage
    ensures r.Playlist? <==>
      Contains(url, ".m3u8") && fetched.Response? && fetched.body.Some? && LooksLikeHls(fetched.body.value)
    ensures r.Playlist? ==> fetched == Response(Some(r.content)) && !AllSpace(r.content)
    ensures r.Runtime? ==> StartsWith(r.message, ValidationFailedPrefix)
  {
    if !Contains(url, ".m3u8") then IllegalArgument(NotHlsUrlMessage)
    else match fetched
      case Thrown(message) => Runtime(ValidationFailedPrefix + message)
      case Response(None) => Runtime(ValidationFailedPrefix + EmptyContentMessage)
      case Response(Some(body)) =>
        TrimEmptyIff(body);
        HlsIsNotBlank(body);
        if Trim(body) == [] then Runtime(ValidationFailedPrefix + EmptyContentMessage)
        else if !LooksLikeHls(body) then Runtime(ValidationFailedPrefix + NotHlsContentMessage)
        else Playlist(body)
  }

  /** Text that looks like a playlist is never blank, so the blank-body check never hides one. */
  lemma HlsIsNotBlank(text: string)
    ensures LooksLikeHls(text) ==> !AllSpace(text)
  {
    if Contains(text, ".m3u8") {
      assert !IsSpace(".m3u8"[0]);
      ContainsNotBlank(text, ".m3u8");
    } else if Contains(text, "#EXTM3U") {
      assert !IsSpace("#EXTM3U"[1]);
      ContainsNotBlank(text, "#EXTM3U");
    }
  }

  /** A string holding a character that is not a space is not blank. */
  lemma ContainsNotBlank(s: string, sub: string)
    requires Contains(s, sub) && !AllSpace(sub)
    ensures !AllSpace(s)
  {
    var i :| 0 <= i <= |s| - |sub| && ContainsAt(s, sub, i);
    var j :| 0 <= j < |sub| && !IsSpace(sub[j]);
    assert s[i + j] == s[i..i + |sub|][j] == sub[j];
  }

  /** The stream part of a health report: `streamStatus`, `streamResponse` and `streamType`. */
  datatype StreamVerdict = StreamVerdict(status: string, response: string, kind: string)

  /**
   * A body naming a `.m3u8` file is online; else one naming a `.m3u` file or carrying `#EXTM3U` is a
   * warning (a playlist the player does not support); anything else, a null body included, is
   * offline; a request that threw is an error carrying its message.
   */
  function Verdict(fetched: Fetch): (v: StreamVerdict)
    ensures v.status in {"online", "warning", "offline", "error"}
    ensures v.status == "error" <==> fetched.Thrown?
    ensures v.status == "online" <==> fetched.Response? && fetched.body.Some? && Contains(fetched.body.value, ".m3u8")
    ensures v.status == "warning" <==>
      fetched.Response? && fetched.body.Some? && !Contains(fetched.body.value, ".m3u8")
      && (Contains(fetched.body.value, ".m3u") || Contains(fetched.body.value, "#EXTM3U"))
  {
    match fetched
    case Thrown(message) => StreamVerdict("error", "Error checking stream: " + message, "Error")
    case Response(body) =>
      if body.Some? && Contains(body.value, ".m3u8") then
        StreamVerdict("online", "HLS stream appears to be working", "HLS (.m3u8)")
      else if body.Some? && (Contains(body.value, ".m3u") || Contains(body.value, "#EXTM3U")) then
        StreamVerdict("warning", "Non-HLS stream detected. Only .m3u8 streams are supported.",
                      "Playlist (.m3u) - Not Supported")
      else StreamVerdict("offline", "Stream may be offline or invalid", "Unknown")
  }

  /** `checkChannelHealth`: "Channel not found" for an unknown key, else the channel and the verdict. */
  datatype Health =
    | NotFound
    | Checked(channelId: nat, channelName: string, streamUrl: string, countryCode: string, timestamp: Time,
              verdict: StreamVerdict)

  const ChannelNotFoundMessage := "Channel not found"

  /** The report for the channel with key `id`, given what its stream URL answered and the clock. */
  function CheckChannelHealth(rows: seq<Channel>, id: nat, fetched: Fetch, now: Time): (r: Health)
    ensures r.NotFound? <==> forall k :: 0 <= k < |rows| ==> rows[k].id != id
    ensures r.Checked? ==> r.channelId == id && r.timestamp == now && r.verdict == Verdict(fetched)
    ensures r.Checked? ==>
      exists c :: c in rows && c.id == id && c.name == r.channelName && c.streamUrl == r.streamUrl
        && c.countryCode == r.countryCode
  {
    match ChannelById(rows, id)
    case None => NotFound
    case Some(c) => Checked(id, c.name, c.streamUrl, c.countryCode, now, Verdict(fetched))
  }

  /**
   * For an HLS URL the two checks agree: the validation accepts exactly when the health check finds
   * the stream online, or finds a warning for a body carrying the `#EXTM3U` header.
   */
  lemma {:induction false} ValidationAgreesWithHealth(url: string, fetched: Fetch)
    requires Contains(url, ".m3u8")
    ensures ValidateHlsStream(url, fetched).Playlist? <==>
      Verdict(fetched).status == "online"
      || (Verdict(fetched).status == "warning" && Contains(fetched.body.value, "#EXTM3U"))
  {
    if fetched.Response? && fetched.body.Some? {
      HlsIsNotBlank(fetched.body.value);
    }
  }
}
