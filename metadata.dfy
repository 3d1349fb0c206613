/**
 * The global-source logic of the service as functions: the decoded JSON entries of the four feeds
 * (channels, countries, logos, streams), the three indexes built from them, the country and channel
 * upserts, and the pass over the stream entries that joins each HLS stream with its channel's
 * metadata.
 *
 * Jackson's tree is represented by records holding the fields the service reads; a field that
 * `has` would report absent is `None`. `categories` and `languages` are `Some` only when the field
 * is present and an array, and then hold their elements' text.
 */
module Metadata {
  import opened Wrappers
  import opened Strings
  import opened Catalog

  /** An entry of the channels feed. */
  datatype ChannelNode = ChannelNode(
    id: Option<string>,
    name: Option<string>,
    country: Option<string>,
    categories: Option<seq<string>>,
    languages: Option<seq<string>>)

  /** An entry of the countries file. */
  datatype CountryNode = CountryNode(code: Option<string>, name: Option<string>, image: Option<string>)

  /** An entry of the logos feed; `width` is the field's `asInt()` value. */
  datatype LogoNode = LogoNode(channel: Option<string>, url: Option<string>, width: Option<int>)

  /** An entry of the streams feed. */
  datatype StreamNode = StreamNode(channel: Option<string>, url: Option<string>, quality: Option<string>)

  /**
   * What reading one feed gives: an exception (network error, malformed JSON, missing file), nothing
   * to go through (a null body, or a root that is not an array), or the array's entries in order.
   */
  datatype Feed<T> = Failed | Skipped | Items(nodes: seq<T>)

  // ---------------------------------------------------------------- the two keyed indexes

  /** Each entry that has a key is put under it, a later entry replacing an earlier one. */
  function Index<N>(m: map<string, N>, nodes: seq<N>, key: N -> Option<string>): map<string, N>
    decreases |nodes|
  {
    if nodes == [] then m
    else
      var before := Index(m, nodes[..|nodes| - 1], key);
      var n := nodes[|nodes| - 1];
      if key(n).Some? then before[key(n).value := n] else before
  }

  /** The last entry with key `k`, if any. */
  function LastWithKey<N>(nodes: seq<N>, key: N -> Option<string>, k: string): Option<N>
    decreases |nodes|
  {
    if nodes == [] then None
    else if key(nodes[|nodes| - 1]) == Some(k) then Some(nodes[|nodes| - 1])
    else LastWithKey(nodes[..|nodes| - 1], key, k)
  }

  /**
   * After a pass, a key maps to the last entry that carries it; a key no entry carries keeps what
   * it had before, so nothing is ever removed.
   */
  lemma {:induction false} IndexIsLastEntry<N>(m: map<string, N>, nodes: seq<N>, key: N -> Option<string>, k: string)
    ensures k in Index(m, nodes, key) <==> k in m || LastWithKey(nodes, key, k).Some?
    ensures k in Index(m, nodes, key) ==>
      Index(m, nodes, key)[k] == if LastWithKey(nodes, key, k).Some? then LastWithKey(nodes, key, k).value else m[k]
    decreases |nodes|
  {
    if nodes != [] {
      IndexIsLastEntry(m, nodes[..|nodes| - 1], key, k);
    }
  }

  function ChannelKey(n: ChannelNode): Option<string> {
    n.id
  }

  function CountryKey(n: CountryNode): Option<string> {
    n.code
  }

  // ---------------------------------------------------------------- the logo index

  /** The entry names a channel and a URL; other entries are passed over. */
  predicate Usable(n: LogoNode) {
    n.channel.Some? && n.url.Some?
  }

  predicate Wide(n: LogoNode) {
    n.width.Some? && n.width.value > 100
  }

  /** One logo entry: stored when its channel has no logo yet, or when it is wider than 100. */
  function LogoStep(m: map<string, string>, n: LogoNode): map<string, string> {
    if Usable(n) && (n.channel.value !in m || Wide(n)) then m[n.channel.value := n.url.value] else m
  }

  function IndexLogos(m: map<string, string>, nodes: seq<LogoNode>): map<string, string>
    decreases |nodes|
  {
    if nodes == [] then m else LogoStep(IndexLogos(m, nodes[..|nodes| - 1]), nodes[|nodes| - 1])
  }

  /** The URL of the first usable entry for channel `c`. */
  function FirstLogo(nodes: seq<LogoNode>, c: string): Option<string>
    decreases |nodes|
  {
    if nodes == [] then None
    else if FirstLogo(nodes[..|nodes| - 1], c).Some? then FirstLogo(nodes[..|nodes| - 1], c)
    else if Usable(nodes[|nodes| - 1]) && nodes[|nodes| - 1].channel.value == c then nodes[|nodes| - 1].url
    else None
  }

  /** The URL of the last usable entry for channel `c` that is wider than 100. */
  function LastWideLogo(nodes: seq<LogoNode>, c: string): Option<string>
    decreases |nodes|
  {
    if nodes == [] then None
    else
      var n := nodes[|nodes| - 1];
      if Usable(n) && n.channel.value == c && Wide(n) then n.url else LastWideLogo(nodes[..|nodes| - 1], c)
  }

  /** A channel with a wide entry has a first entry. */
  lemma {:induction false} WideIsUsable(nodes: seq<LogoNode>, c: string)
    ensures LastWideLogo(nodes, c).Some? ==> FirstLogo(nodes, c).Some?
    decreases |nodes|
  {
    if nodes != [] {
      WideIsUsable(nodes[..|nodes| - 1], c);
    }
  }

  /**
   * The logo policy. After a pass a channel has a logo exactly when it had one or some usable entry
   * names it; the logo is the last entry wider than 100 if there is one, else the logo it already
   * had, else its first entry.
   */
  lemma {:induction false} LogoPolicy(m: map<string, string>, nodes: seq<LogoNode>, c: string)
    ensures c in IndexLogos(m, nodes) <==> c in m || FirstLogo(nodes, c).Some?
    ensures c in IndexLogos(m, nodes) ==>
      IndexLogos(m, nodes)[c] == if LastWideLogo(nodes, c).Some? then LastWideLogo(nodes, c).value
                                 else if c in m then m[c] else FirstLogo(nodes, c).value
    decreases |nodes|
  {
    if nodes != [] {
      var init, n := nodes[..|nodes| - 1], nodes[|nodes| - 1];
      LogoPolicy(m, init, c);
      if Usable(n) && n.channel.value == c && !Wide(n) && c !in IndexLogos(m, init) {
        WideIsUsable(init, c);
        assert FirstLogo(nodes, c) == n.url;
      }
    }
  }

  // ---------------------------------------------------------------- countries

  /**
   * `createCountryFromMetadata` on the table. A node without a code or a name throws before
   * anything is looked up. A known code gets the node's name and flag; an unknown one is inserted,
   * active, with the next key.
   */
  function CountryUpsert(t: CountryTable, n: CountryNode, now: Time): CountryTable {
    if n.code.None? || n.name.None? then t
    else match CountryIndex(t.rows, n.code.value)
      case Some(k) => t.(rows := t.rows[k := t.rows[k].(name := n.name.value, flagUrl := n.image)])
      case None => CountryTable(t.rows + [Country(t.nextKey, n.name.value, n.code.value, n.image, true, now)], t.nextKey + 1)
  }

  /** Whether `createCountryFromMetadata` calls `save`: on an insert, or when the name or flag differs. */
  predicate CountrySaved(t: CountryTable, n: CountryNode) {
    n.code.Some? && n.name.Some?
    && match CountryIndex(t.rows, n.code.value)
       case Some(k) => t.rows[k].name != n.name.value || t.rows[k].flagUrl != n.image
       case None => true
  }

  /**
   * `save` is called exactly when the table changes: a country whose name and flag already match
   * is left alone.
   */
  lemma CountrySavedIffChanged(t: CountryTable, n: CountryNode, now: Time)
    ensures CountrySaved(t, n) <==> CountryUpsert(t, n, now) != t
  {
    if n.code.Some? && n.name.Some? {
      match CountryIndex(t.rows, n.code.value)
      case Some(k) =>
        var u := CountryUpsert(t, n, now);
        if CountrySaved(t, n) {
          assert u.rows[k] != t.rows[k];
        } else {
          assert u.rows == t.rows;
        }
      case None =>
        assert |CountryUpsert(t, n, now).rows| == |t.rows| + 1;
    }
  }

  /**
   * After the upsert the node's code is stored once, with the node's name and flag; a country that
   * was there keeps its key, its creation time and its active flag; every other row is untouched.
   * A node without a name changes nothing.
   */
  lemma CountryUpsertResult(t: CountryTable, n: CountryNode, now: Time)
    requires CountriesValid(t)
    ensures CountriesValid(CountryUpsert(t, n, now))
    ensures n.code.None? || n.name.None? ==> CountryUpsert(t, n, now) == t
    ensures n.code.Some? && n.name.Some? ==>
      var u := CountryUpsert(t, n, now);
      var k := CountryIndex(u.rows, n.code.value);
      k.Some? && u.rows[k.value].name == n.name.value && u.rows[k.value].flagUrl == n.image
      && (match CountryIndex(t.rows, n.code.value)
          case Some(j) => k.value == j && u.rows[j].id == t.rows[j].id && u.rows[j].createdAt == t.rows[j].createdAt
                          && u.rows[j].isActive == t.rows[j].isActive
          case None => k.value == |t.rows| && u.rows[k.value].isActive && u.nextKey == t.nextKey + 1)
      && (forall i :: 0 <= i < |t.rows| && t.rows[i].code != n.code.value ==> u.rows[i] == t.rows[i])
  {
    CountryUpsertValid(t, n, now);
    if n.code.Some? && n.name.Some? {
      var u := CountryUpsert(t, n, now);
      match CountryIndex(t.rows, n.code.value)
      case Some(j) =>
        CountryIndexIn(u, j, n.code.value);
      case None =>
        CountryIndexIn(u, |t.rows|, n.code.value);
    }
  }

  /** The country upsert keeps keys and codes unique. */
  lemma CountryUpsertValid(t: CountryTable, n: CountryNode, now: Time)
    requires CountriesValid(t)
    ensures CountriesValid(CountryUpsert(t, n, now))
  {
    var u := CountryUpsert(t, n, now);
    if n.code.Some? && n.name.Some? {
      match CountryIndex(t.rows, n.code.value)
      case Some(k) =>
        assert forall i :: 0 <= i < |u.rows| ==> u.rows[i].id == t.rows[i].id && u.rows[i].code == t.rows[i].code;
      case None =>
        assert forall i :: 0 <= i < |t.rows| ==> u.rows[i] == t.rows[i];
    }
  }

  /** In a valid table the row at `j` is the one its code finds. */
  lemma CountryIndexIn(t: CountryTable, j: nat, code: string)
    requires CountriesValid(t) && j < |t.rows| && t.rows[j].code == code
    ensures CountryIndex(t.rows, code) == Some(j)
  {
  }

  /** The countries pass: each entry with a code is upserted in turn. */
  function LoadCountries(t: CountryTable, nodes: seq<CountryNode>, now: Time): CountryTable
    decreases |nodes|
  {
    if nodes == [] then t
    else
      var before := LoadCountries(t, nodes[..|nodes| - 1], now);
      var n := nodes[|nodes| - 1];
      if n.code.Some? then CountryUpsert(before, n, now) else before
  }

  lemma {:induction false} LoadCountriesValid(t: CountryTable, nodes: seq<CountryNode>, now: Time)
    requires CountriesValid(t)
    ensures CountriesValid(LoadCountries(t, nodes, now))
    decreases |nodes|
  {
    if nodes != [] {
      LoadCountriesValid(t, nodes[..|nodes| - 1], now);
      CountryUpsertResult(LoadCountries(t, nodes[..|nodes| - 1], now), nodes[|nodes| - 1], now);
    }
  }

  // ---------------------------------------------------------------- stream entries

  /** An entry is used iff it has a URL containing ".m3u8" and a channel id the channel index knows. */
  predicate Accepted(n: StreamNode, meta: map<string, ChannelNode>) {
    n.url.Some? && Contains(n.url.value, ".m3u8") && n.channel.Some? && n.channel.value in meta
  }

  /** The values `saveGlobalStreamChannel` is called with. The stream quality is not among them. */
  datatype StreamChannel = StreamChannel(
    channelId: string,
    name: string,
    url: string,
    logoUrl: Option<string>,
    category: string,
    language: string,
    countryCode: string)

  /** The first element of an array field, or the default when the field is absent, not an array or empty. */
  function FirstOr(items: Option<seq<string>>, default: string): string {
    if items.Some? && |items.value| > 0 then items.value[0] else default
  }

  /**
   * An accepted entry joined with its channel's metadata: the name defaults to the channel id, the
   * country to "US", the category to "Global Stream", the language to "en", and the logo is the
   * logo index's entry or null.
   */
  function Resolve(cid: string, url: string, meta: ChannelNode, logos: map<string, string>): StreamChannel {
    StreamChannel(cid, meta.name.GetOr(cid), url, if cid in logos then Some(logos[cid]) else None,
                  FirstOr(meta.categories, "Global Stream"), FirstOr(meta.languages, "en"), meta.country.GetOr("US"))
  }

  /** What an accepted entry is saved as. */
  function Joined(n: StreamNode, meta: map<string, ChannelNode>, logos: map<string, string>): StreamChannel
    requires Accepted(n, meta)
  {
    Resolve(n.channel.value, n.url.value, meta[n.channel.value], logos)
  }

  // ---------------------------------------------------------------- the channel upsert

  /** An existing row overwritten with the entry's values; the update time is set. */
  function Overwritten(c: Channel, r: StreamChannel, now: Time): Channel {
    c.(name := r.name, streamUrl := r.url, logoUrl := r.logoUrl, category := Some(r.category),
       language := Some(r.language), countryCode := r.countryCode, updatedAt := now)
  }

  /** A new row: active, without an EPG id, created and updated now. */
  function Created(key: nat, r: StreamChannel, now: Time): Channel {
    Channel(key, r.channelId, r.name, r.url, r.logoUrl, Some(r.category), Some(r.language), r.countryCode,
            true, None, now, now)
  }

  /** `saveGlobalStreamChannel` on the table: overwrite the row with the channel id, or insert one. */
  function Upserted(t: ChannelTable, r: StreamChannel, now: Time): ChannelTable {
    match ChannelIndex(t.rows, r.channelId)
    case Some(k) => t.(rows := t.rows[k := Overwritten(t.rows[k], r, now)])
    case None => ChannelTable(t.rows + [Created(t.nextKey, r, now)], t.nextKey + 1)
  }

  /** The row with channel id `cid`, if any. */
  function FindRow(rows: seq<Channel>, cid: string): Option<Channel> {
    match ChannelIndex(rows, cid)
    case Some(k) => Some(rows[k])
    case None => None
  }

  /** The row holds exactly the entry's values in the columns the upsert writes. */
  predicate Holds(c: Channel, r: StreamChannel) {
    c.channelId == r.channelId && c.name == r.name && c.streamUrl == r.url && c.logoUrl == r.logoUrl
    && c.category == Some(r.category) && c.language == Some(r.language) && c.countryCode == r.countryCode
  }

  /**
   * After the upsert the channel id finds a row holding the entry's values. An existing row keeps its
   * key, channel id, active flag, EPG id and creation time; a new row is active, has no EPG id and
   * the next key. Every other channel id finds what it found before, and the table stays valid.
   */
  lemma UpsertedResult(t: ChannelTable, r: StreamChannel, now: Time, cid: string)
    requires ChannelsValid(t)
    ensures ChannelsValid(Upserted(t, r, now))
    ensures cid != r.channelId ==> FindRow(Upserted(t, r, now).rows, cid) == FindRow(t.rows, cid)
    ensures cid == r.channelId ==>
      var c := FindRow(Upserted(t, r, now).rows, cid);
      c.Some? && Holds(c.value, r) && c.value.updatedAt == now
      && match FindRow(t.rows, cid)
         case Some(o) => c.value.id == o.id && c.value.isActive == o.isActive && c.value.epgId == o.epgId
                         && c.value.createdAt == o.createdAt
         case None => c.value.id == t.nextKey && c.value.isActive && c.value.epgId.None?
  {
    UpsertedValid(t, r, now);
    var u := Upserted(t, r, now);
    match ChannelIndex(t.rows, r.channelId)
    case Some(k) =>
      ChannelIndexUnique(u, r.channelId, k);
      if cid != r.channelId {
        OtherIndexUnchangedUpdate(t.rows, k, Overwritten(t.rows[k], r, now), cid);
      }
    case None =>
      ChannelIndexUnique(u, r.channelId, |t.rows|);
      if cid != r.channelId {
        OtherIndexUnchangedInsert(t.rows, Created(t.nextKey, r, now), cid);
      }
  }

  /** The channel upsert keeps keys and channel ids unique. */
  lemma UpsertedValid(t: ChannelTable, r: StreamChannel, now: Time)
    requires ChannelsValid(t)
    ensures ChannelsValid(Upserted(t, r, now))
  {
    match ChannelIndex(t.rows, r.channelId)
    case Some(k) =>
      ReplacedValid(t, k, Overwritten(t.rows[k], r, now));
    case None =>
      AppendedValid(t, Created(t.nextKey, r, now));
  }

  /** Replacing a row by one with the same key and channel id keeps the table valid. */
  lemma ReplacedValid(t: ChannelTable, k: nat, c: Channel)
    requires ChannelsValid(t) && k < |t.rows| && c.id == t.rows[k].id && c.channelId == t.rows[k].channelId
    ensures ChannelsValid(t.(rows := t.rows[k := c]))
  {
    var u := t.rows[k := c];
    assert forall i :: 0 <= i < |u| ==> u[i].id == t.rows[i].id && u[i].channelId == t.rows[i].channelId;
  }

  /** Appending a row with the next key and a new channel id keeps the table valid. */
  lemma AppendedValid(t: ChannelTable, c: Channel)
    requires ChannelsValid(t) && c.id == t.nextKey
    requires forall i :: 0 <= i < |t.rows| ==> t.rows[i].channelId != c.channelId
    ensures ChannelsValid(ChannelTable(t.rows + [c], t.nextKey + 1))
  {
    var u := t.rows + [c];
    assert forall i :: 0 <= i < |t.rows| ==> u[i] == t.rows[i];
  }

  lemma {:induction false} OtherIndexUnchangedUpdate(rows: seq<Channel>, k: nat, c: Channel, cid: string)
    requires k < |rows| && c.channelId == rows[k].channelId && cid != c.channelId
    ensures ChannelIndex(rows[k := c], cid) == ChannelIndex(rows, cid)
    decreases |rows|
  {
    var u := rows[k := c];
    assert u[0].channelId == rows[0].channelId;
    if k > 0 {
      assert u[1..] == rows[1..][k - 1 := c];
      OtherIndexUnchangedUpdate(rows[1..], k - 1, c, cid);
    } else {
      assert u[1..] == rows[1..];
    }
  }

  lemma {:induction false} OtherIndexUnchangedInsert(rows: seq<Channel>, c: Channel, cid: string)
    requires cid != c.channelId
    ensures ChannelIndex(rows + [c], cid) == ChannelIndex(rows, cid)
    decreases |rows|
  {
    if rows == [] {
      assert ([] + [c])[1..] == [];
    } else {
      assert (rows + [c])[1..] == rows[1..] + [c];
      OtherIndexUnchangedInsert(rows[1..], c, cid);
    }
  }

  /** Saving the same values twice at the same time leaves the table as saving them once. */
  lemma UpsertIdempotent(t: ChannelTable, r: StreamChannel, now: Time)
    ensures Upserted(Upserted(t, r, now), r, now) == Upserted(t, r, now)
  {
    var u := Upserted(t, r, now);
    match ChannelIndex(t.rows, r.channelId)
    case Some(k) =>
      FirstIndexAfterUpdate(t.rows, k, Overwritten(t.rows[k], r, now), r.channelId);
    case None =>
      FirstIndexAfterInsert(t.rows, Created(t.nextKey, r, now));
      assert u.rows[|t.rows| := Overwritten(u.rows[|t.rows|], r, now)] == u.rows;
  }

  /** Overwriting the first row with a channel id keeps it the first row with that id. */
  lemma FirstIndexAfterUpdate(rows: seq<Channel>, k: nat, c: Channel, cid: string)
    requires ChannelIndex(rows, cid) == Some(k) && c.channelId == cid
    ensures ChannelIndex(rows[k := c], cid) == Some(k)
  {
    assert rows[k := c][k].channelId == cid;
  }

  /** A row appended with a channel id no row has is the first row with it. */
  lemma FirstIndexAfterInsert(rows: seq<Channel>, c: Channel)
    requires ChannelIndex(rows, c.channelId).None?
    ensures ChannelIndex(rows + [c], c.channelId) == Some(|rows|)
  {
    assert (rows + [c])[|rows|].channelId == c.channelId;
  }

  // ---------------------------------------------------------------- the pass over the stream entries

  /** One stream entry: upserted when accepted, otherwise skipped. */
  function StreamStep(t: ChannelTable, n: StreamNode, meta: map<string, ChannelNode>, logos: map<string, string>,
                      now: Time): ChannelTable
  {
    if Accepted(n, meta) then Upserted(t, Joined(n, meta, logos), now) else t
  }

  function ApplyStreams(t: ChannelTable, nodes: seq<StreamNode>, meta: map<string, ChannelNode>,
                        logos: map<string, string>, now: Time): ChannelTable
    decreases |nodes|
  {
    if nodes == [] then t
    else StreamStep(ApplyStreams(t, nodes[..|nodes| - 1], meta, logos, now), nodes[|nodes| - 1], meta, logos, now)
  }

  /** The accepted entries, in order. */
  function AcceptedNodes(nodes: seq<StreamNode>, meta: map<string, ChannelNode>): (r: seq<StreamNode>)
    ensures forall n :: n in r ==> Accepted(n, meta)
    decreases |nodes|
  {
    if nodes == [] then []
    else AcceptedNodes(nodes[..|nodes| - 1], meta) + (if Accepted(nodes[|nodes| - 1], meta) then [nodes[|nodes| - 1]] else [])
  }

  /** The country codes the accepted entries are saved with. */
  function AcceptedCountries(nodes: seq<StreamNode>, meta: map<string, ChannelNode>,
                             logos: map<string, string>): set<string>
    decreases |nodes|
  {
    if nodes == [] then {}
    else
      var n := nodes[|nodes| - 1];
      AcceptedCountries(nodes[..|nodes| - 1], meta, logos) + (if Accepted(n, meta) then {Joined(n, meta, logos).countryCode} else {})
  }

  /** No more entries are used than there are, and a code is counted only when an accepted entry has it. */
  lemma {:induction false} StreamCounts(nodes: seq<StreamNode>, meta: map<string, ChannelNode>, logos: map<string, string>)
    ensures |AcceptedNodes(nodes, meta)| <= |nodes|
    ensures forall code :: code in AcceptedCountries(nodes, meta, logos) <==>
      exists n :: n in AcceptedNodes(nodes, meta) && Joined(n, meta, logos).countryCode == code
    decreases |nodes|
  {
    if nodes != [] {
      StreamCounts(nodes[..|nodes| - 1], meta, logos);
    }
  }

  /** The last accepted entry for channel id `cid`. */
  function LastAccepted(nodes: seq<StreamNode>, meta: map<string, ChannelNode>, cid: string): (r: Option<StreamNode>)
    ensures r.Some? ==> Accepted(r.value, meta) && r.value.channel == Some(cid)
    decreases |nodes|
  {
    if nodes == [] then None
    else
      var n := nodes[|nodes| - 1];
      if Accepted(n, meta) && n.channel == Some(cid) then Some(n) else LastAccepted(nodes[..|nodes| - 1], meta, cid)
  }

  /**
   * After the pass a channel id with an accepted entry finds a row holding the values of its last
   * accepted entry; any other channel id finds what it found before. The table stays valid.
   */
  lemma {:induction false} StreamsResult(t: ChannelTable, nodes: seq<StreamNode>, meta: map<string, ChannelNode>,
                                         logos: map<string, string>, now: Time, cid: string)
    requires ChannelsValid(t)
    ensures ChannelsValid(ApplyStreams(t, nodes, meta, logos, now))
    ensures var found := FindRow(ApplyStreams(t, nodes, meta, logos, now).rows, cid);
      match LastAccepted(nodes, meta, cid)
      case Some(n) => found.Some? && Holds(found.value, Joined(n, meta, logos))
      case None => found == FindRow(t.rows, cid)
    decreases |nodes|
  {
    ApplyStreamsValid(t, nodes, meta, logos, now);
    if nodes != [] {
      var init := nodes[..|nodes| - 1];
      var n := nodes[|nodes| - 1];
      StreamsResult(t, init, meta, logos, now, cid);
      var before := ApplyStreams(t, init, meta, logos, now);
      assert LastAccepted(nodes, meta, cid) ==
        if Accepted(n, meta) && n.channel == Some(cid) then Some(n) else LastAccepted(init, meta, cid);
      if Accepted(n, meta) {
        assert ApplyStreams(t, nodes, meta, logos, now) == Upserted(before, Joined(n, meta, logos), now);
        UpsertedResult(before, Joined(n, meta, logos), now, cid);
      } else {
        assert ApplyStreams(t, nodes, meta, logos, now) == before;
      }
    }
  }

  /** The pass keeps keys and channel ids unique. */
  lemma {:induction false} ApplyStreamsValid(t: ChannelTable, nodes: seq<StreamNode>, meta: map<string, ChannelNode>,
                                             logos: map<string, string>, now: Time)
    requires ChannelsValid(t)
    ensures ChannelsValid(ApplyStreams(t, nodes, meta, logos, now))
    decreases |nodes|
  {
    if nodes != [] {
      var init := nodes[..|nodes| - 1];
      ApplyStreamsValid(t, init, meta, logos, now);
      var n := nodes[|nodes| - 1];
      if Accepted(n, meta) {
        UpsertedValid(ApplyStreams(t, init, meta, logos, now), Joined(n, meta, logos), now);
      }
    }
  }
}
