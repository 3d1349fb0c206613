/**
 * The service `TheBoxServiceImpl`: the three metadata indexes it keeps in fields (and never clears),
 * the two tables it writes through its repositories, the refresh from the global sources, the
 * channel and logo upserts, and the two lookups that refresh once when they find nothing.
 *
 * The feeds are inputs: what each network or file read gave (`Sources`). The clock is an input too.
 */
module BoxService {
  import opened Wrappers
  import opened Strings
  import opened Catalog
  import opened Metadata

  /** What one refresh reads: the channels feed, the countries file, the logos feed and the streams feed. */
  datatype Sources = Sources(
    channels: Feed<ChannelNode>,
    countries: Feed<CountryNode>,
    logos: Feed<LogoNode>,
    streams: Feed<StreamNode>)

  /** The service's state: the three indexes and the two tables. */
  datatype State = State(
    channelMeta: map<string, ChannelNode>,
    countryMeta: map<string, CountryNode>,
    logos: map<string, string>,
    channels: ChannelTable,
    countries: CountryTable)

  /**
   * `fetchComprehensiveGlobalData`: the channels feed, then the countries file (indexed and upserted
   * entry by entry), then the logos feed. The three reads share one `try`, so a failed read skips
   * everything after it.
   */
  function GlobalData(st: State, src: Sources, now: Time): State {
    if src.channels.Failed? then st
    else
      var st1 := if src.channels.Items? then st.(channelMeta := Index(st.channelMeta, src.channels.nodes, ChannelKey)) else st;
      if src.countries.Failed? then st1
      else
        var st2 := if src.countries.Items? then
            st1.(countryMeta := Index(st1.countryMeta, src.countries.nodes, CountryKey),
                 countries := LoadCountries(st1.countries, src.countries.nodes, now))
          else st1;
        if src.logos.Items? then st2.(logos := IndexLogos(st2.logos, src.logos.nodes)) else st2
  }

  /** `fetchChannelsFromGlobalStreams`: the stream entries, when there are any, upserted in order. */
  function GlobalStreams(st: State, streams: Feed<StreamNode>, now: Time): State {
    if streams.Items? then st.(channels := ApplyStreams(st.channels, streams.nodes, st.channelMeta, st.logos, now)) else st
  }

  /** `fetchAndUpdateChannels`: the metadata, then the streams; every failure is caught inside. */
  function Refresh(st: State, src: Sources, now: Time): State {
    GlobalStreams(GlobalData(st, src, now), src.streams, now)
  }

  /** Both tables keep their invariants. */
  predicate TablesValid(st: State) {
    ChannelsValid(st.channels) && CountriesValid(st.countries)
  }

  /**
   * A refresh keeps the tables valid and never drops an index entry: whatever the three indexes
   * held before, they still hold a key for afterwards.
   */
  lemma RefreshKeeps(st: State, src: Sources, now: Time)
    requires TablesValid(st)
    ensures TablesValid(Refresh(st, src, now))
    ensures var r := Refresh(st, src, now);
      st.channelMeta.Keys <= r.channelMeta.Keys && st.countryMeta.Keys <= r.countryMeta.Keys
      && st.logos.Keys <= r.logos.Keys
  {
    var g := GlobalData(st, src, now);
    GlobalDataValid(st, src, now);
    KeysKept(st, src, now);
    if src.streams.Items? {
      StreamsResult(g.channels, src.streams.nodes, g.channelMeta, g.logos, now, "");
    }
  }

  lemma GlobalDataValid(st: State, src: Sources, now: Time)
    requires TablesValid(st)
    ensures TablesValid(GlobalData(st, src, now))
    ensures GlobalData(st, src, now).channels == st.channels
  {
    if src.countries.Items? && !src.channels.Failed? {
      LoadCountriesValid(st.countries, src.countries.nodes, now);
    }
  }

  lemma KeysKept(st: State, src: Sources, now: Time)
    ensures var g := GlobalData(st, src, now);
      st.channelMeta.Keys <= g.channelMeta.Keys && st.countryMeta.Keys <= g.countryMeta.Keys
      && st.logos.Keys <= g.logos.Keys
  {
    forall k | k in st.channelMeta
      ensures src.channels.Items? ==> k in Index(st.channelMeta, src.channels.nodes, ChannelKey)
    {
      if src.channels.Items? {
        IndexIsLastEntry(st.channelMeta, src.channels.nodes, ChannelKey, k);
      }
    }
    forall k | k in st.countryMeta
      ensures src.countries.Items? ==> k in Index(st.countryMeta, src.countries.nodes, CountryKey)
    {
      if src.countries.Items? {
        IndexIsLastEntry(st.countryMeta, src.countries.nodes, CountryKey, k);
      }
    }
    forall c | c in st.logos
      ensures src.logos.Items? ==> c in IndexLogos(st.logos, src.logos.nodes)
    {
      if src.logos.Items? {
        LogoPolicy(st.logos, src.logos.nodes, c);
      }
    }
  }

  /**
   * `updateChannelLogo` on the table: the logo column of the row with that channel id is set. The
   * save flushes the row only when that changed it, and the entity's `@PreUpdate` callback then
   * stamps the update time with the clock reading.
   */
  function LogoUpdated(t: ChannelTable, cid: string, logoUrl: Option<string>, now: Time): ChannelTable {
    match ChannelIndex(t.rows, cid)
    case None => t
    case Some(k) =>
      if t.rows[k].logoUrl == logoUrl then t
      else t.(rows := t.rows[k := t.rows[k].(logoUrl := logoUrl, updatedAt := now)])
  }

  /**
   * Updating a logo changes nothing for an unknown channel id. For a known one the row with that
   * channel id holds the new logo, its update time is the clock reading when the logo changed, and
   * every other column is as before; every other row and the next key stay as they were. Setting
   * the logo it already has leaves the table as it was, update time included.
   */
  lemma LogoUpdatedResult(t: ChannelTable, cid: string, logoUrl: Option<string>, now: Time)
    requires ChannelsValid(t)
    ensures ChannelsValid(LogoUpdated(t, cid, logoUrl, now))
    ensures ChannelIndex(t.rows, cid).None? ==> LogoUpdated(t, cid, logoUrl, now) == t
    ensures ChannelIndex(t.rows, cid).Some? ==>
      var k := ChannelIndex(t.rows, cid).value;
      var u := LogoUpdated(t, cid, logoUrl, now);
      |u.rows| == |t.rows| && u.nextKey == t.nextKey && u.rows[k].logoUrl == logoUrl
      && u.rows[k].(logoUrl := t.rows[k].logoUrl, updatedAt := t.rows[k].updatedAt) == t.rows[k]
      && (t.rows[k].logoUrl != logoUrl ==> u.rows[k].updatedAt == now)
      && (forall i :: 0 <= i < |t.rows| && i != k ==> u.rows[i] == t.rows[i])
      && (t.rows[k].logoUrl == logoUrl ==> u == t)
  {
  }

  /** Updating a logo keeps the channels table well formed. */
  lemma LogoUpdatedValid(t: ChannelTable, cid: string, logoUrl: Option<string>, now: Time)
    requires ChannelsValid(t)
    ensures ChannelsValid(LogoUpdated(t, cid, logoUrl, now))
  {
    LogoUpdatedResult(t, cid, logoUrl, now);
  }

  class TheBoxService {
    /** Channel id to channels-feed entry (`globalChannelsMetadata`). */
    var channelMeta: map<string, ChannelNode>
    /** Country code to countries-file entry (`globalCountriesMetadata`). */
    var countryMeta: map<string, CountryNode>
    /** Channel id to logo URL (`globalLogosMetadata`). */
    var logos: map<string, string>
    /** The `channels` table, as the channel repository sees it. */
    var channelRepo: ChannelTable
    /** The `countries` table, as the country repository sees it. */
    var countryRepo: CountryTable
    /** How many refreshes from the global sources have run. */
    ghost var refreshes: nat

    function Snapshot(): State
      reads this
    {
      State(channelMeta, countryMeta, logos, channelRepo, countryRepo)
    }

    ghost predicate Valid()
      reads this
    {
      TablesValid(Snapshot())
    }

    /** A fresh service over empty tables, with empty indexes. */
    constructor ()
      ensures Valid() && refreshes == 0
      ensures Snapshot() == State(map[], map[], map[], ChannelTable([], 1), CountryTable([], 1))
    {
      channelMeta := map[];
      countryMeta := map[];
      logos := map[];
      channelRepo := ChannelTable([], 1);
      countryRepo := CountryTable([], 1);
      refreshes := 0;
    }

    /** The channels-feed loop: every entry with an id is indexed under it. */
    method IndexChannelFeed(nodes: seq<ChannelNode>)
      modifies this
      ensures channelMeta == Index(old(channelMeta), nodes, ChannelKey)
      ensures countryMeta == old(countryMeta) && logos == old(logos)
      ensures channelRepo == old(channelRepo) && countryRepo == old(countryRepo) && refreshes == old(refreshes)
    {
      var i := 0;
      while i < |nodes|
        invariant 0 <= i <= |nodes|
        invariant channelMeta == Index(old(channelMeta), nodes[..i], ChannelKey)
        invariant countryMeta == old(countryMeta) && logos == old(logos)
        invariant channelRepo == old(channelRepo) && countryRepo == old(countryRepo) && refreshes == old(refreshes)
      {
        var node := nodes[i];
        if node.id.Some? {
          channelMeta := channelMeta[node.id.value := node];
        }
        assert nodes[..i + 1][..i] == nodes[..i];
        i := i + 1;
      }
      assert nodes[..i] == nodes;
    }

    /**
     * `createCountryFromMetadata`: inserts an unknown code; for a known one sets the name and the
     * flag, and calls `save` only if one of them differed. `saved` reports that call.
     */
    method CreateCountryFromMetadata(node: CountryNode, now: Time) returns (saved: bool)
      requires Valid()
      modifies this
      ensures Valid()
      ensures countryRepo == CountryUpsert(old(countryRepo), node, now)
      ensures saved == CountrySaved(old(countryRepo), node)
      ensures channelMeta == old(channelMeta) && countryMeta == old(countryMeta) && logos == old(logos)
      ensures channelRepo == old(channelRepo) && refreshes == old(refreshes)
    {
      CountryUpsertResult(countryRepo, node, now);
      if node.code.None? || node.name.None? {
        return false;
      }
      var code, name := node.code.value, node.name.value;
      var found := CountryIndex(countryRepo.rows, code);
      if found.Some? {
        var existing := countryRepo.rows[found.value];
        var updated := false;
        if existing.name != name {
          existing := existing.(name := name);
          updated := true;
        }
        if existing.flagUrl != node.image {
          existing := existing.(flagUrl := node.image);
          updated := true;
        }
        if updated {
          countryRepo := countryRepo.(rows := countryRepo.rows[found.value := existing]);
        }
        saved := updated;
      } else {
        countryRepo := CountryTable(countryRepo.rows + [Country(countryRepo.nextKey, name, code, node.image, true, now)],
                                    countryRepo.nextKey + 1);
        saved := true;
      }
    }

    /** The countries-file loop: every entry with a code is indexed under it and upserted. */
    method LoadCountryFeed(nodes: seq<CountryNode>, now: Time)
      requires Valid()
      modifies this
      ensures Valid()
      ensures countryMeta == Index(old(countryMeta), nodes, CountryKey)
      ensures countryRepo == LoadCountries(old(countryRepo), nodes, now)
      ensures channelMeta == old(channelMeta) && logos == old(logos)
      ensures channelRepo == old(channelRepo) && refreshes == old(refreshes)
    {
      var i := 0;
      while i < |nodes|
        invariant 0 <= i <= |nodes|
        invariant Valid()
        invariant countryMeta == Index(old(countryMeta), nodes[..i], CountryKey)
        invariant countryRepo == LoadCountries(old(countryRepo), nodes[..i], now)
        invariant channelMeta == old(channelMeta) && logos == old(logos)
        invariant channelRepo == old(channelRepo) && refreshes == old(refreshes)
      {
        var node := nodes[i];
        assert nodes[..i + 1][..i] == nodes[..i];
        if node.code.Some? {
          countryMeta := countryMeta[node.code.value := node];
          var _ := CreateCountryFromMetadata(node, now);
        }
        i := i + 1;
      }
      assert nodes[..i] == nodes;
    }

    /** The logos-feed loop, under the logo policy of `LogoStep`. */
    method IndexLogoFeed(nodes: seq<LogoNode>)
      modifies this
      ensures logos == IndexLogos(old(logos), nodes)
      ensures channelMeta == old(channelMeta) && countryMeta == old(countryMeta)
      ensures channelRepo == old(channelRepo) && countryRepo == old(countryRepo) && refreshes == old(refreshes)
    {
      var i := 0;
      while i < |nodes|
        invariant 0 <= i <= |nodes|
        invariant logos == IndexLogos(old(logos), nodes[..i])
        invariant channelMeta == old(channelMeta) && countryMeta == old(countryMeta)
        invariant channelRepo == old(channelRepo) && countryRepo == old(countryRepo) && refreshes == old(refreshes)
      {
        var node := nodes[i];
        if node.channel.Some? && node.url.Some? {
          var channelId, logoUrl := node.channel.value, node.url.value;
          if channelId !in logos || (node.width.Some? && node.width.value > 100) {
            logos := logos[channelId := logoUrl];
          }
        }
        assert nodes[..i + 1][..i] == nodes[..i];
        i := i + 1;
      }
      assert nodes[..i] == nodes;
    }

    /** `fetchComprehensiveGlobalData`; a failed read returns early, as the exception leaves the `try`. */
    method FetchComprehensiveGlobalData(src: Sources, now: Time)
      requires Valid()
      modifies this
      ensures Valid()
      ensures Snapshot() == GlobalData(old(Snapshot()), src, now)
      ensures refreshes == old(refreshes)
    {
      if src.channels.Failed? {
        return;
      }
      if src.channels.Items? {
        IndexChannelFeed(src.channels.nodes);
      }
      if src.countries.Failed? {
        return;
      }
      if src.countries.Items? {
        LoadCountryFeed(src.countries.nodes, now);
      }
      if src.logos.Items? {
        IndexLogoFeed(src.logos.nodes);
      }
    }

    /** `saveGlobalStreamChannel`: overwrites the row with the channel id, or inserts a new one. */
    method SaveGlobalStreamChannel(r: StreamChannel, now: Time)
      requires Valid()
      modifies this
      ensures Valid()
      ensures channelRepo == Upserted(old(channelRepo), r, now)
      ensures channelMeta == old(channelMeta) && countryMeta == old(countryMeta) && logos == old(logos)
      ensures countryRepo == old(countryRepo) && refreshes == old(refreshes)
    {
      UpsertedValid(channelRepo, r, now);
      var found := ChannelIndex(channelRepo.rows, r.channelId);
      if found.Some? {
        var channel := channelRepo.rows[found.value];
        channel := channel.(name := r.name, streamUrl := r.url, logoUrl := r.logoUrl);
        channel := channel.(category := Some(r.category), language := Some(r.language));
        channel := channel.(countryCode := r.countryCode, updatedAt := now);
        assert channel == Overwritten(channelRepo.rows[found.value], r, now);
        channelRepo := channelRepo.(rows := channelRepo.rows[found.value := channel]);
      } else {
        var channel := Channel(channelRepo.nextKey, r.channelId, r.name, r.url, r.logoUrl, Some(r.category),
                               Some(r.language), r.countryCode, true, None, now, now);
        assert channel == Created(channelRepo.nextKey, r, now);
        channelRepo := ChannelTable(channelRepo.rows + [channel], channelRepo.nextKey + 1);
      }
    }

    /** The body of the streams loop for one entry; gives whether the entry was used and its country. */
    method ParseStreamNode(node: StreamNode, now: Time) returns (used: bool, countryCode: string)
      requires Valid()
      modifies this
      ensures Valid()
      ensures used == Accepted(node, channelMeta)
      ensures channelRepo == StreamStep(old(channelRepo), node, channelMeta, logos, now)
      ensures used ==> countryCode == Joined(node, channelMeta, logos).countryCode
      ensures channelMeta == old(channelMeta) && countryMeta == old(countryMeta) && logos == old(logos)
      ensures countryRepo == old(countryRepo) && refreshes == old(refreshes)
    {
      used, countryCode := false, "";
      if node.url.Some? && Contains(node.url.value, ".m3u8") && node.channel.Some? && node.channel.value in channelMeta {
        var streamChannelId, url := node.channel.value, node.url.value;
        var metadata := channelMeta[streamChannelId];
        var channelName := if metadata.name.Some? then metadata.name.value else streamChannelId;
        countryCode := if metadata.country.Some? then metadata.country.value else "US";
        var category := if metadata.categories.Some? && |metadata.categories.value| > 0 then metadata.categories.value[0] else "Global Stream";
        var language := if metadata.languages.Some? && |metadata.languages.value| > 0 then metadata.languages.value[0] else "en";
        var logoUrl := if streamChannelId in logos then Some(logos[streamChannelId]) else None;
        var resolved := StreamChannel(streamChannelId, channelName, url, logoUrl, category, language, countryCode);
        assert resolved == Joined(node, channelMeta, logos);
        SaveGlobalStreamChannel(resolved, now);
        used := true;
      }
    }

    /**
     * `parseStreamsJson`: upserts every accepted entry in order. Gives the counters it logs: all
     * entries, the entries used, and the set of their country codes.
     */
    method ParseStreamsJson(nodes: seq<StreamNode>, now: Time)
      returns (channelCount: nat, hlsChannelCount: nat, countries: set<string>)
      requires Valid()
      modifies this
      ensures Valid()
      ensures channelRepo == ApplyStreams(old(channelRepo), nodes, channelMeta, logos, now)
      ensures channelCount == |nodes| && hlsChannelCount == |AcceptedNodes(nodes, channelMeta)|
      ensures countries == AcceptedCountries(nodes, channelMeta, logos)
      ensures channelMeta == old(channelMeta) && countryMeta == old(countryMeta) && logos == old(logos)
      ensures countryRepo == old(countryRepo) && refreshes == old(refreshes)
    {
      channelCount, hlsChannelCount, countries := 0, 0, {};
      var i := 0;
      while i < |nodes|
        invariant 0 <= i <= |nodes|
        invariant Valid()
        invariant channelRepo == ApplyStreams(old(channelRepo), nodes[..i], channelMeta, logos, now)
        invariant channelCount == i && hlsChannelCount == |AcceptedNodes(nodes[..i], channelMeta)|
        invariant countries == AcceptedCountries(nodes[..i], channelMeta, logos)
        invariant channelMeta == old(channelMeta) && countryMeta == old(countryMeta) && logos == old(logos)
        invariant countryRepo == old(countryRepo) && refreshes == old(refreshes)
      {
        assert nodes[..i + 1][..i] == nodes[..i];
        var used, code := ParseStreamNode(nodes[i], now);
        if used {
          countries := countries + {code};
          hlsChannelCount := hlsChannelCount + 1;
        }
        channelCount := channelCount + 1;
        i := i + 1;
      }
      assert nodes[..i] == nodes;
    }

    /** `fetchChannelsFromGlobalStreams`: parses the streams feed when it gave entries. */
    method FetchChannelsFromGlobalStreams(streams: Feed<StreamNode>, now: Time)
      requires Valid()
      modifies this
      ensures Valid()
      ensures Snapshot() == GlobalStreams(old(Snapshot()), streams, now)
      ensures refreshes == old(refreshes)
    {
      if streams.Items? {
        var _, _, _ := ParseStreamsJson(streams.nodes, now);
      }
    }

    /**
     * `createChannelsFromGlobalStreams`: the streams pass, then for each country code the number of
     * its active HLS channels, which is all the loop reports.
     */
    method CreateChannelsFromGlobalStreams(countryCodes: seq<string>, streams: Feed<StreamNode>, now: Time)
      returns (found: seq<nat>)
      requires Valid()
      modifies this
      ensures Valid()
      ensures Snapshot() == GlobalStreams(old(Snapshot()), streams, now)
      ensures refreshes == old(refreshes)
      ensures |found| == |countryCodes|
      ensures forall i :: 0 <= i < |countryCodes| ==>
        found[i] == |GlobalStreamChannels(channelRepo.rows, countryCodes[i])|
    {
      FetchChannelsFromGlobalStreams(streams, now);
      found := [];
      for i := 0 to |countryCodes|
        invariant |found| == i
        invariant forall j :: 0 <= j < i ==> found[j] == |GlobalStreamChannels(channelRepo.rows, countryCodes[j])|
      {
        var globalChannels := GlobalStreamChannels(channelRepo.rows, countryCodes[i]);
        found := found + [|globalChannels|];
      }
    }

    /** `fetchAndUpdateChannels`: one refresh from the global sources. */
    method FetchAndUpdateChannels(src: Sources, now: Time)
      requires Valid()
      modifies this
      ensures Valid()
      ensures Snapshot() == Refresh(old(Snapshot()), src, now)
      ensures refreshes == old(refreshes) + 1
    {
      FetchComprehensiveGlobalData(src, now);
      FetchChannelsFromGlobalStreams(src.streams, now);
      refreshes := refreshes + 1;
    }

    /** `updateChannelLogo`: sets the logo of the channel with that id, if there is one. */
    method UpdateChannelLogo(channelId: string, logoUrl: Option<string>, now: Time)
      requires Valid()
      modifies this
      ensures Valid()
      ensures channelRepo == LogoUpdated(old(channelRepo), channelId, logoUrl, now)
      ensures channelMeta == old(channelMeta) && countryMeta == old(countryMeta) && logos == old(logos)
      ensures countryRepo == old(countryRepo) && refreshes == old(refreshes)
    {
      LogoUpdatedValid(channelRepo, channelId, logoUrl, now);
      ghost var before := channelRepo;
      var found := ChannelIndex(channelRepo.rows, channelId);
      if found.Some? {
        var channel := channelRepo.rows[found.value];
        var dirty := channel.logoUrl != logoUrl;
        channel := channel.(logoUrl := logoUrl);
        if dirty {
          // the `@PreUpdate` callback, run when the save flushes a changed row
          channel := channel.(updatedAt := now);
        } else {
          assert channel == before.rows[found.value];
          assert before.rows[found.value := channel] == before.rows;
        }
        channelRepo := channelRepo.(rows := channelRepo.rows[found.value := channel]);
      }
    }

    /**
     * `getChannelsByCountry`: the active channels of the country by name; when there are none, one
     * refresh and the query again. A non-empty first answer changes nothing.
     */
    method GetChannelsByCountry(countryCode: string, src: Sources, now: Time) returns (channels: seq<Channel>)
      requires Valid()
      modifies this
      ensures Valid()
      ensures var first := ActiveByName(old(channelRepo).rows, countryCode);
        Snapshot() == (if first == [] then Refresh(old(Snapshot()), src, now) else old(Snapshot()))
        && refreshes == old(refreshes) + (if first == [] then 1 else 0)
      ensures channels == ActiveByName(channelRepo.rows, countryCode)
    {
      channels := ActiveByName(channelRepo.rows, countryCode);
      if channels == [] {
        FetchAndUpdateChannels(src, now);
        channels := ActiveByName(channelRepo.rows, countryCode);
      }
    }

    /**
     * `getAvailableCountries`: the active countries; when there are none, one refresh and the query
     * again. A non-empty first answer changes nothing.
     */
    method GetAvailableCountries(src: Sources, now: Time) returns (countries: seq<Country>)
      requires Valid()
      modifies this
      ensures Valid()
      ensures var first := ActiveCountries(old(countryRepo).rows);
        Snapshot() == (if first == [] then Refresh(old(Snapshot()), src, now) else old(Snapshot()))
        && refreshes == old(refreshes) + (if first == [] then 1 else 0)
      ensures countries == ActiveCountries(countryRepo.rows)
    {
      countries := ActiveCountries(countryRepo.rows);
      if countries == [] {
        FetchAndUpdateChannels(src, now);
        countries := ActiveCountries(countryRepo.rows);
      }
    }
  }
}
