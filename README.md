# The-Box, modelled in Dafny

The-Box gathers IPTV channels from public sources and serves them by country. Two parts of it are
modelled here.

* **`SimpleTheBox`** is a stand-alone playlist server. It keeps process-wide state: a channel list,
  per-country lists and a channel id counter. A refresh clears that state and reloads it from an
  Extended M3U playlist for India and one for the United States. Each `#EXTINF:` line gives a
  channel's name, logo and group, and the next `http` line gives its stream URL. The server answers
  list requests with JSON text that it writes by hand.
* **`TheBoxServiceImpl`** is the service behind the Spring application. It holds three indexes in
  memory, all keyed by a string:
  * the channels feed, by channel id;
  * the countries file, by country code;
  * the logos feed, by channel id.
  
  It upserts countries and channels into two JPA tables and joins every HLS stream entry with its
  channel's metadata. Its lookups refresh from the global sources once when they find nothing. It
  also checks stream URLs.

Modules, one per file:

| module | file | what it holds |
|---|---|---|
| `Wrappers` | wrappers.dfy | `Option` |
| `Strings` | strings.dfy | Java's `trim`, `startsWith`, `contains`, `toLowerCase` |
| `ExtInf` | extinf.dfy | `parseExtInfLine`: its three regular-expression searches as scanners with `find()` semantics |
| `SimpleChannel` | simple_channel.dfy | the playlist channel, `escapeJson`, `toJson`, the list response, and readers that give the round trips |
| `SimpleBox` | simple_box.dfy | class `SimpleTheBox`: the state, the playlist loop, the refresh, the responses, and the routing of the per-country path |
| `Catalog` | catalog.dfy | the `channels` and `countries` tables (rows in key order, with unique columns as invariants) and the repository queries |
| `Metadata` | metadata.dfy | the feed entries, the three indexes, the country and channel upserts, and the streams pass, all as functions |
| `BoxService` | service.dfy | class `TheBoxService`: fields for the indexes and tables, and one method per service operation, each proved against the functions of `Metadata` and `Catalog` |
| `StreamChecks` | stream_checks.dfy | `validateHLSStream` and `checkChannelHealth` |

The world outside is passed in as inputs:

* what a URL or file read gave: the playlist lines and the exception that ended the read, a JSON
  feed's entries, or an exception;
* the clock;
* the body that a stream URL answered.

Two places where the code and the design description differ. The model follows the code in both:

* The channel name is taken after the **first** comma of the `#EXTINF` line that has a character
  after it, not after the last comma. See `ExtInf.NameIsAfterFirstComma`.
* A failed read in `fetchComprehensiveGlobalData` skips every feed after it, because the three reads
  share one `try`. So it is not only its own index that stays incomplete. See
  `BoxService.GlobalData`.

## Model

| member | source | states |
|---|---|---|
| `ExtInf.NameIsAfterFirstComma` | SimpleTheBox.java:235-240 | On a line without line terminators, the name is the trimmed text after the first comma that has a character after it. There is no name when no comma has one. |
| `ExtInf.NameSplitsAtAttributeComma` | SimpleTheBox.java:235-240 | A comma inside a quoted attribute starts the name: `g="A,B",C` gives `B",C`. |
| `ExtInf.AttrMatchAtIff` | SimpleTheBox.java:243-247 | A match of `KEY([^"]+)"` at a position is exactly the key, a non-empty value without quotes, and a closing quote. |
| `ExtInf.AttrIsFirstMatch` | SimpleTheBox.java:243-254 | The logo or group is present exactly when some position matches, and it is the value of the leftmost match. |
| `ExtInf.AttrFoundAt` | SimpleTheBox.java:243-254 | A match with no occurrence of the key before it is the value returned. |
| `ExtInf.AttributeOrderIrrelevant` | SimpleTheBox.java:242-254 | `tvg-logo` and `group-title` are both found whichever comes first on the line. This holds whenever neither key occurs in the text before the first attribute or between the two; that text may hold other quoted attributes such as `tvg-id="…"`. Each value must be one the pattern accepts and must not end in `=`. |
| `ExtInf.TypicalLine` | SimpleTheBox.java:242-254 | On `#EXTINF:-1 tvg-id="x.us" tvg-name="X" tvg-logo="L" group-title="G",X` the logo is `L` and the group is `G`. |
| `SimpleChannel.EscapeJsonIsPerChar` | SimpleTheBox.java:297-300 | The chain of `replace` calls escapes each character on its own, because backslashes are doubled first. |
| `SimpleChannel.EscapedHasNoRawControl` | SimpleTheBox.java:297-300 | Escaped text holds no raw line feed, carriage return or tab. |
| `SimpleChannel.EscapeRoundTrip` | SimpleTheBox.java:297-300 | Escaped text followed by a closing quote reads back as the original text. |
| `SimpleChannel.NatRoundTrip` | SimpleTheBox.java:282 | The decimal digits written for an id read back as that id. |
| `SimpleChannel.ToJsonRoundTrip` | SimpleTheBox.java:279-295 | `toJson` reads back as the channel it was written from, whatever follows it. A null logo or category comes back null. |
| `SimpleChannel.ListJsonRoundTrip` | SimpleTheBox.java:124-133 | A list response reads back as the list of channels, in order. |
| `SimpleBox.Classify` | SimpleTheBox.java:205-213 | A line taken as a URL is trimmed and starts with "http". |
| `SimpleBox.ClassifyInfo` | SimpleTheBox.java:205-212 | A trimmed line starting with `#EXTINF:` is an info line carrying its parsed name, logo and group. |
| `SimpleBox.ClassifyOther` | SimpleTheBox.java:205-213 | Otherwise, a trimmed line starting with "http" is a URL line, and any other line is ignored. |
| `SimpleBox.NextUrl` | SimpleTheBox.java:213-225 | A URL line with a name pending creates the channel with the next id and clears the pending state. |
| `SimpleBox.InfoThenUrl` | SimpleTheBox.java:207-225 | An info line with a name, then a URL line, create exactly one channel with that name, logo, group and URL, the loop's country and the next id. Nothing stays pending. |
| `SimpleBox.OtherLineIgnored` | SimpleTheBox.java:204-226 | A line that is neither kind, and a URL line with no name pending, change nothing. |
| `SimpleBox.TrailingInfoEmitsNothing` | SimpleTheBox.java:207-212 | An info line at the end of a playlist creates no channel. |
| `SimpleBox.ScanChannels` | SimpleTheBox.java:204-226 | Channels created by the loop have consecutive ids, the given country, a trimmed "http" URL, and are active. |
| `SimpleBox.EmittedChannels` | SimpleTheBox.java:189-230 | The same, for the channels read from a playlist's lines. |
| `SimpleBox.EmittedCountry` | SimpleTheBox.java:215-219 | Every channel read from a playlist has the loop's country. |
| `SimpleBox.OfCountryMembers` | SimpleTheBox.java:219 | A country's list holds exactly the loaded channels of that country. |
| `SimpleBox.GroupIsByCountry` | SimpleTheBox.java:219 | The per-country map has a key exactly for each country that occurs, and holds that country's channels in load order. |
| `SimpleBox.MatchingMembers` | SimpleTheBox.java:141-147 | A search result is exactly a loaded channel whose lower-cased name contains the query. |
| `SimpleBox.SearchIgnoresCase` | SimpleTheBox.java:142-147 | Queries that are equal once lower-cased find the same channels. |
| `SimpleBox.JoinList` | SimpleTheBox.java:125-132 | The `StringBuilder` loop writes "[", the elements separated by ",", then "]". |
| `SimpleBox.ListResponse` | SimpleTheBox.java:125-133 | A list response is the list JSON of the channels, in order. |
| `SimpleBox.LoadedIds` | SimpleTheBox.java:169-179 | The channels a refresh loads have ids that run on from the counter without gaps. |
| `SimpleBox.GroupTwo` | SimpleTheBox.java:175-178 | Grouping India's channels, then the United States', gives each country exactly its own channels and no other key. |
| `SimpleBox.RefreshGroups` | SimpleTheBox.java:169-179 | After a refresh, "IN" lists exactly India's playlist channels and "US" exactly the others. There is no other country. |
| `SimpleBox.IdsBelowMeans` | SimpleTheBox.java:260-270 | The state invariant on ids means that ids increase along the list and stay below the counter. |
| `SimpleBox.ConsistentAdd` | SimpleTheBox.java:215-219 | Adding a channel that takes the counter's value keeps the list, the map and the counter consistent. |
| `SimpleBox.CountryCodeAsWrittenIsChannels` | SimpleTheBox.java:85-86 | On every path the per-country route accepts, the code taken after the last "/" is "channels". |
| `SimpleBox.CountryEndpointAsWrittenIsEmpty` | SimpleTheBox.java:85-87 | So after any refresh, `/api/iptv/countries/IN/channels` lists no channel. |
| `SimpleBox.CountryCodeOfPath` | SimpleTheBox.java:85-86 | The path segment between "countries/" and "/channels" gives back the code. A path is accepted exactly for two upper-case letters. |
| `SimpleBox.SimpleTheBox.constructor` | SimpleTheBox.java:11-12 | Empty list, empty map, counter at 1. |
| `SimpleBox.SimpleTheBox.NewChannel` | SimpleTheBox.java:269-277 | The channel takes the counter's value and is active. The counter advances by one. |
| `SimpleBox.SimpleTheBox.AddChannel` | SimpleTheBox.java:215-219 | The channel is appended to the list and to its country's list, and the state invariant holds. |
| `SimpleBox.SimpleTheBox.ReadLine` | SimpleTheBox.java:205-225 | One loop iteration changes the state as the step function `Next` does for the classified line. |
| `SimpleBox.SimpleTheBox.FetchChannelsFromSource` | SimpleTheBox.java:189-230 | The list grows by exactly the channels read from the playlist and the counter by their number. The read's exception is passed on. |
| `SimpleBox.SimpleTheBox.RefreshChannels` | SimpleTheBox.java:169-187 | The list is India's channels, then the United States' unless India's read failed. The invariant holds. |
| `SimpleBox.SimpleTheBox.RefreshChannelsResponse` | SimpleTheBox.java:160-167 | Gives the success message, or the error message carrying the first exception. |
| `SimpleBox.SimpleTheBox.ChannelsByCountryResponse` | SimpleTheBox.java:120-134 | The list JSON of the country's channels in load order, or "[]" for an unknown country. |
| `SimpleBox.SimpleTheBox.CountryChannelsEndpoint` | SimpleTheBox.java:85-87 | The per-country route with the code taken from its own segment: the list JSON of that country's channels. |
| `SimpleBox.SimpleTheBox.SearchChannelsResponse` | SimpleTheBox.java:136-158 | "[]" for an empty query. Otherwise, every loaded channel whose lower-cased name contains the lower-cased query, in load order. |
| `Strings.TrimEmptyIff` | src/main/java/com/thebox/service/impl/TheBoxServiceImpl.java:321 | A string trims to empty exactly when all its characters are at most a space. |
| `Catalog.ChannelIndex` | src/main/java/com/thebox/repository/ChannelRepository.java:35 | Finds the first row with the channel id. It finds none exactly when no row has that id. |
| `Catalog.ChannelIndexUnique` | src/main/java/com/thebox/model/Channel.java:18 | In a valid table, a channel id picks out exactly one row. |
| `Catalog.CountryIndex` | src/main/java/com/thebox/repository/CountryRepository.java:15 | Finds the first row with the code. It finds none exactly when no row has that code. |
| `Catalog.ChannelById` | src/main/java/com/thebox/service/impl/TheBoxServiceImpl.java:231-233 | The channel with that key, or none exactly when no row has it. |
| `Catalog.StreamUrlOf` | src/main/java/com/thebox/service/impl/TheBoxServiceImpl.java:225-228 | The stream URL of the channel with that key, or null exactly when there is no such channel. |
| `Catalog.SearchMembers` | src/main/java/com/thebox/service/impl/TheBoxServiceImpl.java:217-222 | A result is exactly an active channel of the country whose lower-cased name contains the lower-cased query. |
| `Catalog.SearchKeepsOrder` | src/main/java/com/thebox/service/impl/TheBoxServiceImpl.java:217-222 | The search keeps store order: searching two runs of rows is searching each in turn. |
| `Catalog.SearchIgnoresCase` | src/main/java/com/thebox/service/impl/TheBoxServiceImpl.java:217-222 | Queries that are equal once lower-cased give the same result. |
| `Catalog.CategoryMembers` | src/main/java/com/thebox/service/impl/TheBoxServiceImpl.java:187-192 | A result is exactly an active channel of the country whose category equals the one asked for. |
| `Catalog.GlobalStreamMembers` | src/main/java/com/thebox/service/impl/TheBoxServiceImpl.java:363-368 | A result is exactly an active channel of the country with a ".m3u8" stream URL. |
| `Catalog.CategoriesMembers` | src/main/java/com/thebox/repository/ChannelRepository.java:26-27 | The categories listed are exactly those of the country's active channels, null included. |
| `Catalog.CategoriesDistinct` | src/main/java/com/thebox/repository/ChannelRepository.java:26-27 | No category is listed twice. |
| `Catalog.NameLeTotal` | src/main/java/com/thebox/repository/ChannelRepository.java:23 | The name order compares any two names. |
| `Catalog.InsertSorted` | src/main/java/com/thebox/repository/ChannelRepository.java:23 | Inserting into a sorted list keeps it sorted and adds exactly that row. |
| `Catalog.SortByNameCorrect` | src/main/java/com/thebox/repository/ChannelRepository.java:23 | The sort gives a list ordered by name that holds the same rows. |
| `Catalog.ActiveByNameCorrect` | src/main/java/com/thebox/repository/ChannelRepository.java:23-24 | The result is ordered by name and holds exactly the country's active channels. |
| `Catalog.ActiveCountriesMembers` | src/main/java/com/thebox/repository/CountryRepository.java:13 | The result is exactly the active countries, in store order. |
| `Metadata.IndexIsLastEntry` | src/main/java/com/thebox/service/impl/TheBoxServiceImpl.java:71-76 | After a pass, a key maps to the last entry carrying it. A key no entry carries keeps its old value, so nothing is removed. |
| `Metadata.LogoPolicy` | src/main/java/com/thebox/service/impl/TheBoxServiceImpl.java:101-109 | A channel's logo is its last entry wider than 100, else the logo it had, else its first entry. A channel has a logo exactly when it had one or an entry names it. |
| `Metadata.WideIsUsable` | src/main/java/com/thebox/service/impl/TheBoxServiceImpl.java:102-106 | A channel with a wide logo entry has a first entry. |
| `Metadata.CountrySavedIffChanged` | src/main/java/com/thebox/service/impl/TheBoxServiceImpl.java:126-147 | `save` is called exactly when the table changes. |
| `Metadata.CountryUpsertResult` | src/main/java/com/thebox/service/impl/TheBoxServiceImpl.java:120-153 | After the upsert, the code is stored with the entry's name and flag. A known country keeps its key, creation time and active flag. Other rows are untouched. An entry without a code or name changes nothing. |
| `Metadata.CountryUpsertValid` | src/main/java/com/thebox/service/impl/TheBoxServiceImpl.java:125-148 | The country upsert keeps keys and codes unique. |
| `Metadata.LoadCountriesValid` | src/main/java/com/thebox/service/impl/TheBoxServiceImpl.java:85-91 | The countries pass keeps the table valid. |
| `Metadata.AcceptedNodes` | src/main/java/com/thebox/service/impl/TheBoxServiceImpl.java:402 | Every entry used has a ".m3u8" URL and a channel with metadata. |
| `Metadata.StreamCounts` | src/main/java/com/thebox/service/impl/TheBoxServiceImpl.java:394-418 | No more entries are used than exist. A country is counted exactly when a used entry is saved with it. |
| `Metadata.UpsertedResult` | src/main/java/com/thebox/service/impl/TheBoxServiceImpl.java:431-455 | The channel id finds a row holding the entry's values. An existing row keeps its key, active flag, EPG id and creation time; a new row is active with no EPG id and the next key. Other ids find what they found before. |
| `Metadata.UpsertedValid` | src/main/java/com/thebox/service/impl/TheBoxServiceImpl.java:434-450 | The channel upsert keeps keys and channel ids unique. |
| `Metadata.UpsertIdempotent` | src/main/java/com/thebox/service/impl/TheBoxServiceImpl.java:431-455 | Saving the same values twice at the same time equals saving them once. |
| `Metadata.StreamsResult` | src/main/java/com/thebox/service/impl/TheBoxServiceImpl.java:394-418 | After the pass, a channel id with an accepted entry holds the values of its last accepted entry. Any other id is unchanged. |
| `BoxService.RefreshKeeps` | src/main/java/com/thebox/service/impl/TheBoxServiceImpl.java:48-59 | A refresh keeps both tables valid and never drops a key from any of the three indexes. |
| `BoxService.LogoUpdatedResult` | src/main/java/com/thebox/service/impl/TheBoxServiceImpl.java:162-167 | An unknown channel id changes nothing. For a known one, the row gets the new logo. When the logo actually changed, the entity's `@PreUpdate` callback stamps the update time with the clock (src/main/java/com/thebox/model/Channel.java:176-179). No other column changes, and no other row. Setting the logo the row already has changes nothing, the update time included, because the row is not dirty. |
| `BoxService.LogoUpdatedValid` | src/main/java/com/thebox/service/impl/TheBoxServiceImpl.java:162-167 | Updating a logo keeps the channels table well formed: keys stay below the next key and increasing, and channel ids stay unique. |
| `BoxService.TheBoxService.constructor` | src/main/java/com/thebox/service/impl/TheBoxServiceImpl.java:42-44 | Empty indexes and empty, valid tables. |
| `BoxService.TheBoxService.IndexChannelFeed` | src/main/java/com/thebox/service/impl/TheBoxServiceImpl.java:70-76 | The channels index becomes the keyed index of the feed over the old one. Nothing else changes. |
| `BoxService.TheBoxService.CreateCountryFromMetadata` | src/main/java/com/thebox/service/impl/TheBoxServiceImpl.java:120-153 | The table becomes the country upsert of the entry. `saved` reports whether `save` was called. |
| `BoxService.TheBoxService.LoadCountryFeed` | src/main/java/com/thebox/service/impl/TheBoxServiceImpl.java:84-92 | Every entry with a code is indexed and upserted, in order. The table stays valid. |
| `BoxService.TheBoxService.IndexLogoFeed` | src/main/java/com/thebox/service/impl/TheBoxServiceImpl.java:100-109 | The logo index becomes the logo pass over the feed. |
| `BoxService.TheBoxService.FetchComprehensiveGlobalData` | src/main/java/com/thebox/service/impl/TheBoxServiceImpl.java:62-118 | The state becomes `GlobalData`: the three feeds in turn, with a failed read skipping the rest. |
| `BoxService.TheBoxService.SaveGlobalStreamChannel` | src/main/java/com/thebox/service/impl/TheBoxServiceImpl.java:431-455 | The table becomes the channel upsert of the values. |
| `BoxService.TheBoxService.ParseStreamNode` | src/main/java/com/thebox/service/impl/TheBoxServiceImpl.java:396-414 | An entry is used exactly when it is accepted. It is saved with its joined values, and its country is reported. |
| `BoxService.TheBoxService.ParseStreamsJson` | src/main/java/com/thebox/service/impl/TheBoxServiceImpl.java:384-429 | The table becomes the streams pass. The counters are all entries, the used entries, and the set of their countries. |
| `BoxService.TheBoxService.FetchChannelsFromGlobalStreams` | src/main/java/com/thebox/service/impl/TheBoxServiceImpl.java:340-360 | Runs the streams pass only when the feed gave entries. |
| `BoxService.TheBoxService.CreateChannelsFromGlobalStreams` | src/main/java/com/thebox/service/impl/TheBoxServiceImpl.java:371-382 | Runs the streams pass, then gives each country's number of active HLS channels. |
| `BoxService.TheBoxService.FetchAndUpdateChannels` | src/main/java/com/thebox/service/impl/TheBoxServiceImpl.java:48-59 | The state becomes `Refresh`: the metadata, then the streams. The refresh count grows by one. |
| `BoxService.TheBoxService.UpdateChannelLogo` | src/main/java/com/thebox/service/impl/TheBoxServiceImpl.java:162-167 | The table becomes the logo update. A changed row is stamped with the clock, as the `@PreUpdate` callback does when the save flushes it. |
| `BoxService.TheBoxService.GetChannelsByCountry` | src/main/java/com/thebox/service/impl/TheBoxServiceImpl.java:171-183 | Refreshes once exactly when the first answer is empty, and otherwise changes nothing. Returns the query on the state it ends in. |
| `BoxService.TheBoxService.GetAvailableCountries` | src/main/java/com/thebox/service/impl/TheBoxServiceImpl.java:196-208 | The same self-healing rule for the active countries. |
| `StreamChecks.ValidateHlsStream` | src/main/java/com/thebox/service/impl/TheBoxServiceImpl.java:306-337 | Throws IllegalArgument exactly for a URL without ".m3u8". Returns the body exactly when it has `#EXTM3U` or ".m3u8". A returned body is never blank. Every other failure carries the common prefix. |
| `StreamChecks.HlsIsNotBlank` | src/main/java/com/thebox/service/impl/TheBoxServiceImpl.java:321-328 | A body that looks like a playlist is never blank. |
| `StreamChecks.Verdict` | src/main/java/com/thebox/service/impl/TheBoxServiceImpl.java:262-285 | Online exactly for a body with ".m3u8". A warning exactly for a body with ".m3u" or `#EXTM3U` but without ".m3u8". An error exactly when the request threw. Otherwise offline. |
| `StreamChecks.CheckChannelHealth` | src/main/java/com/thebox/service/impl/TheBoxServiceImpl.java:242-297 | "Channel not found" exactly when no channel has the key. Otherwise the report carries that channel's name, URL and country, the clock, and the verdict. |
| `StreamChecks.ValidationAgreesWithHealth` | src/main/java/com/thebox/service/impl/TheBoxServiceImpl.java:262-328 | For an HLS URL, validation accepts exactly when the health check says online, or says warning for a body with `#EXTM3U`. |

## Left out

- Network and file I/O, Jackson's parser and the classpath resource are inputs, not modelled:
  - a playlist read is its lines plus the exception that ended it;
  - a JSON feed is its entries as records, an exception, or nothing to go through.
- `main`, `startServer` and the rest of `handleRequest` are left out: sockets, threads and HTTP framing. Only the routing of the per-country path is modelled, under Findings.
- `getCountriesResponse` is left out: it returns a fixed JSON text and has no logic.
- `getAllChannels` is the table's rows (`channelRepo.rows`), so it has no member of its own.
- `createRealWorkingChannels` is `FetchAndUpdateChannels` itself.
- `findWorkingStreamFromGlobal` is left out: it always returns null and nothing calls it.
- Spring's caches (`@Cacheable`, `@CacheEvict`) are not modelled. Every query reads the current tables.
- Concurrency is not modelled: concurrent requests and refreshes, transactions.
- Logging is not modelled.
- The clock is a parameter. Each call takes one reading, so a new channel's creation and update times are equal. In Java they come from two calls to `LocalDateTime.now()`.
- `Metadata.CountryUpsert`: does not model the unique constraint on `countries.name` or the `@NotBlank` checks. A save that the database or the validator would refuse is modelled as succeeding. Both throw inside the `try`, and the source catches them.
- `Metadata.Upserted`: does not model the `@NotBlank`, `nullable` and length checks on `channels`. The same reason applies.
- `Catalog.NameLe`: orders names by character code. `ORDER BY c.name` follows the database collation, and the order of rows with equal names is left to the database.
- `Catalog.CategoriesOf`: lists categories in the order they first occur. SQL `DISTINCT` leaves the order unspecified.
- `Strings.ToLower`: lowers ASCII letters only. Java's `toLowerCase` is locale-aware and covers all of Unicode.
- `SimpleBox.SimpleTheBox.NewChannel`: the counter is unbounded. Java's `int` would wrap after 2^31 - 1 channels.
- The counters in `parseStreamsJson` are unbounded for the same reason.
- `SimpleChannel.ToJsonRoundTrip`: requires a country code without quotes or backslashes, because `toJson` writes `countryCode` without escaping. The refresh only uses "IN" and "US".
- JSON fields that are present but hold `null` are treated as absent. `asText()` would give "null".
- A `width` that is not numeric is not modelled. `asInt()` gives 0 for it.
- Entries that are not JSON objects are not modelled.
- The per-entry `catch` in `parseStreamsJson` has nothing to catch in the model.
- `ExtInf.AttributeOrderIrrelevant`: covers lines where neither attribute key occurs before or between the two attributes, and where the values do not end in `=`. On other lines the search can find a key inside another attribute's value, as in `tvg-logo="group-title=" group-title="G"`, and the two orders give different results.
- The stream `quality` is read but never used by the source, so the model does not carry it into the save.
- The outer `catch` of `checkChannelHealth` (a repository failure) is not modelled.

## Findings

| source | as written | input that shows it | evidently intended | confidence | as-written member | corrected member |
|---|---|---|---|---|---|---|
| SimpleTheBox.java:85-87 | The country code is the text after the last "/" of the path, which is always "channels" on the paths this route accepts. | `GET /api/iptv/countries/IN/channels` after a refresh that loaded Indian channels answers "[]". | The code is the segment between "countries/" and "/channels". | high; not executed | `SimpleBox.CountryEndpointAsWrittenIsEmpty` | `SimpleBox.SimpleTheBox.CountryChannelsEndpoint` |
