/**
 * The stand-alone playlist server `SimpleTheBox`: its process-wide state (the channel list, the
 * per-country lists and the channel id counter), the loop that turns an Extended M3U playlist into
 * channels, the refresh that clears and reloads both countries, and the two list responses.
 *
 * The state is static in the server; here it is one object of class `SimpleTheBox`. Reading a
 * playlist over HTTP is an input: the lines the reader delivered and the exception that ended it.
 */
module SimpleBox {
  import opened Wrappers
  import opened Strings
  import opened ExtInf
  import opened SimpleChannel

  /**
   * What reading one playlist URL gives: the lines read, in order, and the message of the exception
   * that ended the read, if one did. A connection that cannot be opened is `Fetch([], Some(message))`.
   */
  datatype Fetch = Fetch(lines: seq<string>, failure: Option<string>)

  /** The name, logo and group of the last `#EXTINF` line that has not yet been paired with a URL. */
  datatype Pending = Pending(name: Option<string>, logo: Option<string>, group: Option<string>)

  const NoPending := Pending(None, None, None)

  // ---------------------------------------------------------------- the reading loop, as functions

  /** What the loop sees in a line once it is trimmed. */
  datatype Line = InfoLine(info: Info) | UrlLine(url: string) | OtherLine

  /**
   * A line, trimmed: an `#EXTINF:` line with its attributes, a line starting with "http" (the
   * trimmed URL), or anything else.
   */
  function Classify(raw: string): (l: Line)
    ensures l.UrlLine? ==> StartsWith(l.url, "http") && Trim(l.url) == l.url
  {
    var line := Trim(raw);
    TrimIdempotent(raw);
    if StartsWith(line, "#EXTINF:") then InfoLine(ParseExtInfLine(line))
    else if StartsWith(line, "http") then UrlLine(line)
    else OtherLine
  }

  /** The lines of a playlist, classified. */
  function Classified(lines: seq<string>): (ls: seq<Line>)
    ensures |ls| == |lines|
  {
    seq(|lines|, k requires 0 <= k < |lines| => Classify(lines[k]))
  }

  /** Where the reading loop is: the pending state and the channels created so far, in order. */
  datatype Progress = Progress(pending: Pending, created: seq<Channel>)

  /**
   * One iteration of the loop. An info line replaces the pending state; a URL line with a name
   * pending creates a channel, which takes the counter's value (`id0` plus the channels created so
   * far), and clears the pending state; anything else changes nothing.
   */
  function Next(st: Progress, l: Line, cc: string, id0: nat): Progress {
    match l
    case InfoLine(i) => Progress(Pending(i.name, i.logo, i.group), st.created)
    case UrlLine(url) =>
      if st.pending.name.Some? then
        var c := Channel(id0 + |st.created|, st.pending.name.value, url, cc, st.pending.logo, st.pending.group, true);
        Progress(NoPending, st.created + [c])
      else st
    case OtherLine => st
  }

  /**
   * The reading loop over classified lines for country `cc`, with the id counter at `id0` when it
   * starts.
   */
  function Scan(ls: seq<Line>, cc: string, id0: nat): Progress
    decreases |ls|
  {
    if ls == [] then Progress(NoPending, []) else Next(Scan(ls[..|ls| - 1], cc, id0), ls[|ls| - 1], cc, id0)
  }

  /** The channels reading `lines` creates. */
  function Emitted(lines: seq<string>, cc: string, id0: nat): seq<Channel> {
    Scan(Classified(lines), cc, id0).created
  }

  /** A URL line with a name pending creates the channel with the next id and clears the pending name. */
  lemma NextUrl(st: Progress, url: string, cc: string, id0: nat)
    requires st.pending.name.Some?
    ensures Next(st, UrlLine(url), cc, id0)
      == Progress(NoPending, st.created + [Channel(id0 + |st.created|, st.pending.name.value, url, cc,
                                                    st.pending.logo, st.pending.group, true)])
  {
  }

  /** Scanning one more line: what the loop does with it given the state after the lines before it. */
  lemma ScanSnoc(ls: seq<Line>, l: Line, cc: string, id0: nat)
    ensures Scan(ls + [l], cc, id0) == Next(Scan(ls, cc, id0), l, cc, id0)
  {
    assert (ls + [l])[..|ls|] == ls;
  }

  /**
   * Every channel the loop creates has the next id of the counter, the country the loop was given,
   * a stream URL that is a trimmed line starting with "http", and is active.
   */
  lemma {:induction false} ScanChannels(ls: seq<Line>, cc: string, id0: nat)
    requires forall k :: 0 <= k < |ls| ==> ls[k].UrlLine? ==> StartsWith(ls[k].url, "http") && Trim(ls[k].url) == ls[k].url
    ensures var out := Scan(ls, cc, id0).created;
      |out| <= |ls|
      && forall k :: 0 <= k < |out| ==>
        out[k].id == id0 + k && out[k].countryCode == cc && out[k].isActive
        && StartsWith(out[k].streamUrl, "http") && out[k].streamUrl == Trim(out[k].streamUrl)
    decreases |ls|
  {
    if ls != [] {
      ScanChannels(ls[..|ls| - 1], cc, id0);
    }
  }

  /**
   * The channels read from a playlist have consecutive ids from the counter, the country the loop was
   * given, a stream URL that is a trimmed line starting with "http", and are active.
   */
  lemma EmittedChannels(lines: seq<string>, cc: string, id0: nat)
    ensures var out := Emitted(lines, cc, id0);
      |out| <= |lines|
      && forall k :: 0 <= k < |out| ==>
        out[k].id == id0 + k && out[k].countryCode == cc && out[k].isActive
        && StartsWith(out[k].streamUrl, "http") && out[k].streamUrl == Trim(out[k].streamUrl)
  {
    ScanChannels(Classified(lines), cc, id0);
  }

  /** All of `cs` are channels of country `cc`. */
  predicate AllOf(cs: seq<Channel>, cc: string) {
    forall k :: 0 <= k < |cs| ==> cs[k].countryCode == cc
  }

  /** The channels read from a playlist all have the country the loop was given. */
  lemma EmittedCountry(lines: seq<string>, cc: string, id0: nat)
    ensures AllOf(Emitted(lines, cc, id0), cc)
  {
    EmittedChannels(lines, cc, id0);
  }

  /**
   * An `#EXTINF` line that has a name, followed by a URL line, creates exactly one channel: it has
   * the next id, the info line's name, logo and group, the trimmed URL and the loop's country; and
   * nothing stays pending, whatever was pending before.
   */
  lemma InfoThenUrl(st: Progress, info: Info, url: string, cc: string, id0: nat)
    requires info.name.Some?
    ensures Next(Next(st, InfoLine(info), cc, id0), UrlLine(url), cc, id0)
      == Progress(NoPending, st.created + [Channel(id0 + |st.created|, info.name.value, url, cc, info.logo, info.group, true)])
  {
  }

  /** A trimmed line starting with "#EXTINF:" is an info line carrying its parsed attributes. */
  lemma ClassifyInfo(raw: string)
    requires StartsWith(Trim(raw), "#EXTINF:")
    ensures Classify(raw) == InfoLine(ParseExtInfLine(Trim(raw)))
  {
  }

  /** Otherwise a trimmed line starting with "http" is a URL line, and anything else is ignored. */
  lemma ClassifyOther(raw: string)
    requires !StartsWith(Trim(raw), "#EXTINF:")
    ensures Classify(raw) == if StartsWith(Trim(raw), "http") then UrlLine(Trim(raw)) else OtherLine
  {
  }

  /** Any other line, and a URL line with no name pending, changes nothing and keeps the pending state. */
  lemma OtherLineIgnored(ls: seq<Line>, l: Line, cc: string, id0: nat)
    requires l.OtherLine? || (l.UrlLine? && Scan(ls, cc, id0).pending.name.None?)
    ensures Scan(ls + [l], cc, id0) == Scan(ls, cc, id0)
  {
    ScanSnoc(ls, l, cc, id0);
  }

  /** An `#EXTINF` line at the end of the playlist creates nothing. */
  lemma TrailingInfoEmitsNothing(ls: seq<Line>, info: Info, cc: string, id0: nat)
    ensures Scan(ls + [InfoLine(info)], cc, id0).created == Scan(ls, cc, id0).created
  {
    ScanSnoc(ls, InfoLine(info), cc, id0);
  }

  // ---------------------------------------------------------------- per-country grouping

  /** `computeIfAbsent(code, k -> new ArrayList<>()).add(c)`. */
  function AddTo(m: map<string, seq<Channel>>, c: Channel): map<string, seq<Channel>> {
    m[c.countryCode := (if c.countryCode in m then m[c.countryCode] else []) + [c]]
  }

  /** The per-country map that adding `cs` one after another to an empty map builds. */
  function Group(cs: seq<Channel>): map<string, seq<Channel>>
    decreases |cs|
  {
    if cs == [] then map[] else AddTo(Group(cs[..|cs| - 1]), cs[|cs| - 1])
  }

  /** The channels of `cs` with country `cc`, in order. */
  function OfCountry(cs: seq<Channel>, cc: string): (r: seq<Channel>)
    decreases |cs|
  {
    if cs == [] then []
    else OfCountry(cs[..|cs| - 1], cc) + (if cs[|cs| - 1].countryCode == cc then [cs[|cs| - 1]] else [])
  }

  lemma {:induction false} OfCountryMembers(cs: seq<Channel>, cc: string)
    ensures forall x :: x in OfCountry(cs, cc) <==> x in cs && x.countryCode == cc
    decreases |cs|
  {
    if cs != [] {
      var init := cs[..|cs| - 1];
      OfCountryMembers(init, cc);
      assert cs == init + [cs[|cs| - 1]];
    }
  }

  /**
   * The per-country map has a key exactly for the countries that occur among the channels, and each
   * key's list is that country's channels in the order they were added.
   */
  lemma {:induction false} GroupIsByCountry(cs: seq<Channel>)
    ensures forall cc :: cc in Group(cs) <==> exists k :: 0 <= k < |cs| && cs[k].countryCode == cc
    ensures forall cc :: cc in Group(cs) ==> Group(cs)[cc] == OfCountry(cs, cc)
    decreases |cs|
  {
    if cs != [] {
      var init, last := cs[..|cs| - 1], cs[|cs| - 1];
      GroupIsByCountry(init);
      forall cc
        ensures cc in Group(cs) <==> exists k :: 0 <= k < |cs| && cs[k].countryCode == cc
      {
        if cc in Group(init) {
          var k :| 0 <= k < |init| && init[k].countryCode == cc;
          assert cs[k] == init[k];
        }
        if exists k :: 0 <= k < |cs| && cs[k].countryCode == cc {
          var k :| 0 <= k < |cs| && cs[k].countryCode == cc;
          if k < |init| {
            assert init[k] == cs[k];
          }
        }
      }
      forall cc | cc in Group(cs)
        ensures Group(cs)[cc] == OfCountry(cs, cc)
      {
        if cc == last.countryCode && cc !in Group(init) {
          OfCountryNone(init, cc);
        }
      }
    }
  }

  lemma GroupSnoc(cs: seq<Channel>, c: Channel)
    ensures Group(cs + [c]) == AddTo(Group(cs), c)
  {
    assert (cs + [c])[..|cs|] == cs;
  }

  // ---------------------------------------------------------------- search

  /** The channels of `cs` whose lower-cased name contains `q`, in order. */
  function Matching(cs: seq<Channel>, q: string): seq<Channel>
    decreases |cs|
  {
    if cs == [] then []
    else Matching(cs[..|cs| - 1], q) + (if Contains(ToLower(cs[|cs| - 1].name), q) then [cs[|cs| - 1]] else [])
  }

  /** A channel is a search result exactly when it is loaded and its lower-cased name contains the query. */
  lemma {:induction false} MatchingMembers(cs: seq<Channel>, q: string)
    ensures forall x :: x in Matching(cs, q) <==> x in cs && Contains(ToLower(x.name), q)
    decreases |cs|
  {
    if cs != [] {
      var init := cs[..|cs| - 1];
      MatchingMembers(init, q);
      assert cs == init + [cs[|cs| - 1]];
    }
  }

  /** The search ignores case: queries equal up to case find the same channels. */
  lemma SearchIgnoresCase(cs: seq<Channel>, q1: string, q2: string)
    requires ToLower(q1) == ToLower(q2)
    ensures Matching(cs, ToLower(q1)) == Matching(cs, ToLower(q2))
  {
  }

  // ---------------------------------------------------------------- list responses

  /**
   * The `StringBuilder` loop of both list responses, over the elements' `toJson` texts: "[", the
   * texts separated by ",", "]".
   */
  method JoinList(parts: seq<string>) returns (json: string)
    ensures json == "[" + Join(parts) + "]"
  {
    json := "[";
    var i := 0;
    while i < |parts|
      invariant 0 <= i <= |parts|
      invariant json == "[" + Join(parts[..i])
    {
      JoinSnoc(parts, i);
      if i > 0 {
        json := json + ",";
      }
      json := json + parts[i];
      i := i + 1;
    }
    assert parts[..i] == parts;
    json := json + "]";
  }

  /** A list response: the channels' objects, in order, as a JSON array. */
  method ListResponse(items: seq<Channel>) returns (json: string)
    ensures json == ListJson(items)
  {
    json := JoinList(Rendered(items));
  }

  lemma JoinSnoc(items: seq<string>, i: nat)
    requires i < |items|
    ensures Join(items[..i + 1]) == Join(items[..i]) + (if i == 0 then "" else ",") + items[i]
  {
    assert items[..i + 1][..i] == items[..i];
  }

  /** The response of a refresh request. */
  function RefreshMessage(failure: Option<string>): string {
    match failure
    case None => "{\"message\": \"Channels refreshed successfully\"}"
    case Some(msg) => "{\"error\": \"Failed to refresh channels: " + msg + "\"}"
  }

  // ---------------------------------------------------------------- refresh, as a function

  /** The channels a refresh loads: India's, then the United States' unless India's read failed. */
  function Loaded(india: Fetch, usa: Fetch, id0: nat): seq<Channel> {
    var fromIndia := Emitted(india.lines, "IN", id0);
    fromIndia + (if india.failure.None? then Emitted(usa.lines, "US", id0 + |fromIndia|) else [])
  }

  /** The ids of the channels a refresh loads run on from the counter without gaps. */
  lemma LoadedIds(india: Fetch, usa: Fetch, id0: nat)
    ensures var cs := Loaded(india, usa, id0);
      forall k :: 0 <= k < |cs| ==> cs[k].id == id0 + k
  {
    var fromIndia := Emitted(india.lines, "IN", id0);
    EmittedChannels(india.lines, "IN", id0);
    EmittedChannels(usa.lines, "US", id0 + |fromIndia|);
  }

  /**
   * Grouping India's channels followed by the United States' gives each country exactly its own
   * channels and no other key.
   */
  lemma GroupTwo(a: seq<Channel>, b: seq<Channel>)
    requires AllOf(a, "IN") && AllOf(b, "US")
    ensures OfCountry(a + b, "IN") == a && OfCountry(a + b, "US") == b
    ensures forall cc :: cc in Group(a + b) ==> cc == "IN" || cc == "US"
  {
    OfCountryAll(a, "IN");
    OfCountryAll(b, "US");
    OfCountryNone(a, "US");
    OfCountryNone(b, "IN");
    OfCountryAppend(a, b, "IN");
    OfCountryAppend(a, b, "US");
    GroupIsByCountry(a + b);
    forall cc | cc in Group(a + b)
      ensures cc == "IN" || cc == "US"
    {
      var k :| 0 <= k < |a + b| && (a + b)[k].countryCode == cc;
      if k < |a| { assert (a + b)[k] == a[k]; } else { assert (a + b)[k] == b[k - |a|]; }
    }
  }

  /**
   * After a refresh the India list holds exactly the channels read from the India playlist, the
   * United States list exactly those read from the other one (none when the India read failed), and
   * there is no other country.
   */
  lemma RefreshGroups(india: Fetch, usa: Fetch, id0: nat)
    ensures var cs := Loaded(india, usa, id0);
      var fromIndia := Emitted(india.lines, "IN", id0);
      OfCountry(cs, "IN") == fromIndia
      && OfCountry(cs, "US") == cs[|fromIndia|..]
      && forall cc :: cc in Group(cs) ==> cc == "IN" || cc == "US"
  {
    var fromIndia := Emitted(india.lines, "IN", id0);
    var fromUsa := if india.failure.None? then Emitted(usa.lines, "US", id0 + |fromIndia|) else [];
    EmittedCountry(india.lines, "IN", id0);
    if india.failure.None? {
      EmittedCountry(usa.lines, "US", id0 + |fromIndia|);
    }
    assert Loaded(india, usa, id0) == fromIndia + fromUsa;
    GroupTwo(fromIndia, fromUsa);
    assert (fromIndia + fromUsa)[|fromIndia|..] == fromUsa;
  }

  lemma {:induction false} OfCountryAppend(a: seq<Channel>, b: seq<Channel>, cc: string)
    ensures OfCountry(a + b, cc) == OfCountry(a, cc) + OfCountry(b, cc)
    decreases |b|
  {
    if b == [] {
      assert a + b == a;
    } else {
      var init := b[..|b| - 1];
      assert (a + b)[..|a + b| - 1] == a + init;
      OfCountryAppend(a, init, cc);
    }
  }

  lemma {:induction false} OfCountryAll(cs: seq<Channel>, cc: string)
    requires AllOf(cs, cc)
    ensures OfCountry(cs, cc) == cs
    decreases |cs|
  {
    if cs != [] {
      OfCountryAll(cs[..|cs| - 1], cc);
    }
  }

  lemma {:induction false} OfCountryNone(cs: seq<Channel>, cc: string)
    requires forall k :: 0 <= k < |cs| ==> cs[k].countryCode != cc
    ensures OfCountry(cs, cc) == []
    decreases |cs|
  {
    if cs != [] {
      OfCountryNone(cs[..|cs| - 1], cc);
    }
  }

  // ---------------------------------------------------------------- the server state

  /** The ids strictly increase along `cs` and all lie below `bound`. */
  predicate IdsBelow(cs: seq<Channel>, bound: nat)
    decreases |cs|
  {
    cs == [] || (cs[|cs| - 1].id < bound && IdsBelow(cs[..|cs| - 1], cs[|cs| - 1].id))
  }

  /** What `IdsBelow` means, index by index: ids are distinct, increasing and below the bound. */
  lemma {:induction false} IdsBelowMeans(cs: seq<Channel>, bound: nat)
    requires IdsBelow(cs, bound)
    ensures forall k :: 0 <= k < |cs| ==> cs[k].id < bound
    ensures forall j, k :: 0 <= j < k < |cs| ==> cs[j].id < cs[k].id
    decreases |cs|
  {
    if cs != [] {
      var init := cs[..|cs| - 1];
      IdsBelowMeans(init, cs[|cs| - 1].id);
      assert forall k :: 0 <= k < |init| ==> cs[k] == init[k];
    }
  }

  /**
   * The state invariant: the per-country map is the grouping of the channel list, and ids strictly
   * increase along the list and are all below the counter.
   */
  predicate Consistent(channels: seq<Channel>, byCountry: map<string, seq<Channel>>, nextId: nat) {
    nextId >= 1 && IdsBelow(channels, nextId) && byCountry == Group(channels)
  }

  /** Adding a channel that takes the counter's value keeps the state consistent. */
  lemma ConsistentAdd(cs: seq<Channel>, m: map<string, seq<Channel>>, n: nat, c: Channel)
    requires Consistent(cs, m, n) && c.id == n
    ensures Consistent(cs + [c], AddTo(m, c), n + 1)
  {
    GroupSnoc(cs, c);
  }

  // ---------------------------------------------------------------- routing of the per-country endpoint

  /** The path `/api/iptv/countries/{code}/channels`. */
  function CountryPath(cc: string): string {
    "/api/iptv/countries/" + cc + "/channels"
  }

  predicate IsUpper(c: char) {
    'A' <= c <= 'Z'
  }

  /** `path.matches("/api/iptv/countries/[A-Z]{2}/channels")`: the whole path has that form. */
  predicate IsCountryPath(path: string) {
    |path| == 31 && path[..20] == "/api/iptv/countries/" && IsUpper(path[20]) && IsUpper(path[21])
    && path[22..] == "/channels"
  }

  /** `lastIndexOf("/")`: the position of the last slash, or -1 when there is none. */
  function LastSlash(s: string): (r: int)
    ensures -1 <= r < |s|
    ensures r >= 0 ==> s[r] == '/'
    ensures forall k :: r < k < |s| ==> s[k] != '/'
    decreases |s|
  {
    if s == [] then -1 else if s[|s| - 1] == '/' then |s| - 1 else LastSlash(s[..|s| - 1])
  }

  /** The country code as the request handler takes it: `path.substring(path.lastIndexOf("/") + 1)`. */
  function CountryCodeAsWritten(path: string): string {
    path[LastSlash(path) + 1..]
  }

  /** On every path the endpoint accepts, the code taken is the last segment, "channels". */
  lemma CountryCodeAsWrittenIsChannels(path: string)
    requires IsCountryPath(path)
    ensures CountryCodeAsWritten(path) == "channels"
  {
    assert path[22] == '/';
    forall k | 22 < k < |path|
      ensures path[k] != '/'
    {
      assert path[k] == path[22..][k - 22] == "/channels"[k - 22];
    }
    assert LastSlash(path) == 22;
  }

  /**
   * Hence the endpoint answers as if no channel were loaded: for `/api/iptv/countries/IN/channels`
   * after a refresh it lists the channels of country "channels", and there are none.
   */
  lemma CountryEndpointAsWrittenIsEmpty(india: Fetch, usa: Fetch, id0: nat)
    ensures IsCountryPath(CountryPath("IN"))
    ensures OfCountry(Loaded(india, usa, id0), CountryCodeAsWritten(CountryPath("IN"))) == []
  {
    var path := CountryPath("IN");
    assert path[..20] == "/api/iptv/countries/" && path[22..] == "/channels";
    CountryCodeAsWrittenIsChannels(path);
    var cs := Loaded(india, usa, id0);
    RefreshGroups(india, usa, id0);
    GroupIsByCountry(cs);
    forall k | 0 <= k < |cs|
      ensures cs[k].countryCode != "channels"
    {
      assert cs[k].countryCode in Group(cs);
    }
    OfCountryNone(cs, "channels");
  }

  /** The code the endpoint is meant to serve: the path segment between "countries/" and "/channels". */
  function CountryCodeOf(path: string): string
    requires IsCountryPath(path)
  {
    path[20..22]
  }

  /** The intended extraction gives back the code of every path the endpoint accepts, and only those. */
  lemma CountryCodeOfPath(cc: string)
    ensures IsCountryPath(CountryPath(cc)) <==> |cc| == 2 && IsUpper(cc[0]) && IsUpper(cc[1])
    ensures IsCountryPath(CountryPath(cc)) ==> CountryCodeOf(CountryPath(cc)) == cc
  {
    var path := CountryPath(cc);
    if |cc| == 2 {
      assert path[..20] == "/api/iptv/countries/" && path[20..22] == cc && path[22..] == "/channels";
    }
  }

  class SimpleTheBox {
    /** Every channel loaded since the last refresh, in the order they were read. */
    var channels: seq<Channel>
    /** The same channels, grouped by country code. */
    var channelsByCountry: map<string, seq<Channel>>
    /** The id the next channel created gets; never reset. */
    var nextId: nat

    /**
     * The per-country map is the grouping of the channel list, and ids strictly increase along the
     * list and are all below the counter.
     */
    ghost predicate Valid()
      reads this
    {
      Consistent(channels, channelsByCountry, nextId)
    }

    constructor ()
      ensures Valid()
      ensures channels == [] && channelsByCountry == map[] && nextId == 1
    {
      channels := [];
      channelsByCountry := map[];
      nextId := 1;
    }

    /** The `Channel` constructor: takes the counter's value as id, advances the counter, and is active. */
    method NewChannel(name: string, streamUrl: string, countryCode: string, logoUrl: Option<string>,
                      category: Option<string>) returns (c: Channel)
      modifies this
      ensures c == Channel(old(nextId), name, streamUrl, countryCode, logoUrl, category, true)
      ensures nextId == old(nextId) + 1
      ensures channels == old(channels) && channelsByCountry == old(channelsByCountry)
    {
      c := Channel(nextId, name, streamUrl, countryCode, logoUrl, category, true);
      nextId := nextId + 1;
    }

    /**
     * The body of the loop for a URL line with a name pending: creates the channel, appends it to
     * the channel list and to its country's list (creating that list if the country has none yet).
     */
    method AddChannel(name: string, streamUrl: string, cc: string, logoUrl: Option<string>,
                      category: Option<string>) returns (channel: Channel)
      requires Valid()
      modifies this
      ensures Valid()
      ensures channel == Channel(old(nextId), name, streamUrl, cc, logoUrl, category, true)
      ensures channels == old(channels) + [channel] && nextId == old(nextId) + 1
    {
      ghost var m := channelsByCountry;
      channel := NewChannel(name, streamUrl, cc, logoUrl, category);
      ConsistentAdd(channels, m, nextId - 1, channel);
      channels := channels + [channel];
      if cc !in channelsByCountry {
        channelsByCountry := channelsByCountry[cc := []];
      }
      channelsByCountry := channelsByCountry[cc := channelsByCountry[cc] + [channel]];
      assert channelsByCountry == AddTo(m, channel);
    }

    /**
     * One pass of the reading loop over the raw line `raw`: what `Next` does to the loop's progress
     * `st`, done on the object's state.
     */
    method ReadLine(raw: string, cc: string, pending: Pending, ghost st: Progress, ghost id0: nat,
                    ghost before: seq<Channel>) returns (next: Pending)
      requires Valid() && pending == st.pending
      requires channels == before + st.created && nextId == id0 + |st.created|
      modifies this
      ensures Valid()
      ensures next == Next(st, Classify(raw), cc, id0).pending
      ensures channels == before + Next(st, Classify(raw), cc, id0).created
      ensures nextId == id0 + |Next(st, Classify(raw), cc, id0).created|
    {
      next := pending;
      var line := Trim(raw);
      if StartsWith(line, "#EXTINF:") {
        ClassifyInfo(raw);
        var info := ParseExtInfLine(line);
        next := Pending(info.name, info.logo, info.group);
      } else {
        ClassifyOther(raw);
        if StartsWith(line, "http") && pending.name.Some? {
          NextUrl(st, line, cc, id0);
          var channel := AddChannel(pending.name.value, line, cc, pending.logo, pending.group);
          next := NoPending;
        }
      }
    }

    /**
     * `fetchChannelsFromSource`: reads the playlist line by line, appends the channels it creates to
     * the list and to their country's list, and passes on the exception that ended the read.
     */
    method FetchChannelsFromSource(src: Fetch, cc: string) returns (failure: Option<string>)
      requires Valid()
      modifies this
      ensures Valid()
      ensures channels == old(channels) + Emitted(src.lines, cc, old(nextId))
      ensures nextId == old(nextId) + |Emitted(src.lines, cc, old(nextId))|
      ensures failure == src.failure
    {
      ghost var id0, before := nextId, channels;
      ghost var ls := Classified(src.lines);
      var pending := NoPending;
      var i := 0;
      while i < |src.lines|
        invariant 0 <= i <= |src.lines|
        invariant Valid()
        invariant pending == Scan(ls[..i], cc, id0).pending
        invariant channels == before + Scan(ls[..i], cc, id0).created
        invariant nextId == id0 + |Scan(ls[..i], cc, id0).created|
      {
        ScanSnoc(ls[..i], ls[i], cc, id0);
        assert ls[..i + 1] == ls[..i] + [ls[i]];
        pending := ReadLine(src.lines[i], cc, pending, Scan(ls[..i], cc, id0), id0, before);
        i := i + 1;
      }
      assert ls[..i] == ls;
      failure := src.failure;
    }

    /**
     * `refreshChannels`: empties both collections, then loads India and then the United States; an
     * exception from the India read ends the refresh before the second read. The counter runs on.
     */
    method RefreshChannels(india: Fetch, usa: Fetch) returns (failure: Option<string>)
      requires Valid()
      modifies this
      ensures Valid()
      ensures channels == Loaded(india, usa, old(nextId))
      ensures nextId == old(nextId) + |channels|
      ensures failure == (if india.failure.Some? then india.failure else usa.failure)
    {
      ghost var id0 := nextId;
      ghost var fromIndia := Emitted(india.lines, "IN", id0);
      channels := [];
      channelsByCountry := map[];
      failure := FetchChannelsFromSource(india, "IN");
      assert channels == fromIndia;
      if failure.None? {
        ghost var fromUsa := Emitted(usa.lines, "US", id0 + |fromIndia|);
        failure := FetchChannelsFromSource(usa, "US");
        assert channels == fromIndia + fromUsa;
      }
    }

    /** `refreshChannelsResponse`: refreshes and reports success or the exception's message. */
    method RefreshChannelsResponse(india: Fetch, usa: Fetch) returns (r: string)
      requires Valid()
      modifies this
      ensures Valid()
      ensures channels == Loaded(india, usa, old(nextId))
      ensures r == RefreshMessage(if india.failure.Some? then india.failure else usa.failure)
    {
      var failure := RefreshChannels(india, usa);
      r := RefreshMessage(failure);
    }

    /**
     * `getChannelsByCountryResponse`: the country's channels as a list response, in the order they
     * were loaded; "[]" for a country without channels.
     */
    method ChannelsByCountryResponse(cc: string) returns (r: string)
      requires Valid()
      ensures r == ListJson(OfCountry(channels, cc))
    {
      GroupIsByCountry(channels);
      if cc !in channelsByCountry {
        OfCountryNone(channels, cc);
        return "[]";
      }
      r := ListResponse(channelsByCountry[cc]);
    }

    /** The per-country endpoint, with the code taken from the path as intended. */
    method CountryChannelsEndpoint(path: string) returns (r: string)
      requires Valid() && IsCountryPath(path)
      ensures r == ListJson(OfCountry(channels, CountryCodeOf(path)))
    {
      r := ChannelsByCountryResponse(CountryCodeOf(path));
    }

    /**
     * `searchChannelsResponse`: "[]" for an empty query; otherwise every loaded channel whose
     * lower-cased name contains the lower-cased query, in the order they were loaded.
     */
    method SearchChannelsResponse(query: string) returns (r: string)
      ensures r == if query == [] then "[]" else ListJson(Matching(channels, ToLower(query)))
    {
      if query == [] {
        return "[]";
      }
      var searchQuery := ToLower(query);
      var results := [];
      var i := 0;
      while i < |channels|
        invariant 0 <= i <= |channels|
        invariant results == Matching(channels[..i], searchQuery)
      {
        assert channels[..i + 1][..i] == channels[..i];
        if Contains(ToLower(channels[i].name), searchQuery) {
          results := results + [channels[i]];
        }
        i := i + 1;
      }
      assert channels[..i] == channels;
      r := ListResponse(results);
    }
  }
}
