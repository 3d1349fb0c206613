/**
 * The relational store behind the service: the `channels` and `countries` tables as the JPA
 * repositories see them, and the repository queries the service runs, as functions over the rows.
 *
 * A table is its rows in primary-key order together with the key the next insert receives. The
 * unique columns (`channels.channel_id`, `countries.code`) are part of each table's invariant.
 */
module Catalog {
  import opened Wrappers
  import opened Strings

  /** A clock reading, as `LocalDateTime.now()` would give it; always supplied by the caller. */
  type Time = nat

  /** A row of the `channels` table. `id` is the generated key; `channelId` is unique. */
  datatype Channel = Channel(
    id: nat,
    channelId: string,
    name: string,
    streamUrl: string,
    logoUrl: Option<string>,
    category: Option<string>,
    language: Option<string>,
    countryCode: string,
    isActive: bool,
    epgId: Option<string>,
    createdAt: Time,
    updatedAt: Time)

  /** A row of the `countries` table. `code` is unique. */
  datatype Country = Country(
    id: nat,
    name: string,
    code: string,
    flagUrl: Option<string>,
    isActive: bool,
    createdAt: Time)

  /** The `channels` table: its rows in key order and the key the next insert gets. */
  datatype ChannelTable = ChannelTable(rows: seq<Channel>, nextKey: nat)

  /** The `countries` table: its rows in key order and the key the next insert gets. */
  datatype CountryTable = CountryTable(rows: seq<Country>, nextKey: nat)

  /** Keys are below the next key and increase along the rows; no two rows share a `channelId`. */
  predicate ChannelsValid(t: ChannelTable) {
    (forall k :: 0 <= k < |t.rows| ==> t.rows[k].id < t.nextKey)
    && (forall i, j :: 0 <= i < j < |t.rows| ==> t.rows[i].id < t.rows[j].id)
    && (forall i, j :: 0 <= i < j < |t.rows| ==> t.rows[i].channelId != t.rows[j].channelId)
  }

  /** Keys are below the next key and increase along the rows; no two rows share a `code`. */
  predicate CountriesValid(t: CountryTable) {
    (forall k :: 0 <= k < |t.rows| ==> t.rows[k].id < t.nextKey)
    && (forall i, j :: 0 <= i < j < |t.rows| ==> t.rows[i].id < t.rows[j].id)
    && (forall i, j :: 0 <= i < j < |t.rows| ==> t.rows[i].code != t.rows[j].code)
  }

  // ---------------------------------------------------------------- lookups

  /** `findByChannelId`: the position of the first row with that channel id, if there is one. */
  function ChannelIndex(rows: seq<Channel>, cid: string): (r: Option<nat>)
    ensures r.Some? ==> r.value < |rows| && rows[r.value].channelId == cid
    ensures r.Some? ==> forall j :: 0 <= j < r.value ==> rows[j].channelId != cid
    ensures r.None? <==> forall k :: 0 <= k < |rows| ==> rows[k].channelId != cid
  {
    if rows == [] then None
    else if rows[0].channelId == cid then Some(0)
    else match ChannelIndex(rows[1..], cid)
      case None => None
      case Some(k) => Some(k + 1)
  }

  /** `findByCode`: the position of the first country with that code, if there is one. */
  function CountryIndex(rows: seq<Country>, code: string): (r: Option<nat>)
    ensures r.Some? ==> r.value < |rows| && rows[r.value].code == code
    ensures r.Some? ==> forall j :: 0 <= j < r.value ==> rows[j].code != code
    ensures r.None? <==> forall k :: 0 <= k < |rows| ==> rows[k].code != code
  {
    if rows == [] then None
    else if rows[0].code == code then Some(0)
    else match CountryIndex(rows[1..], code)
      case None => None
      case Some(k) => Some(k + 1)
  }

  /** `findById`: the channel with that key, if there is one. */
  function ChannelById(rows: seq<Channel>, id: nat): (r: Option<Channel>)
    ensures r.Some? ==> r.value in rows && r.value.id == id
    ensures r.None? <==> forall k :: 0 <= k < |rows| ==> rows[k].id != id
  {
    if rows == [] then None
    else if rows[0].id == id then Some(rows[0])
    else ChannelById(rows[1..], id)
  }

  /** In a valid table a channel id picks out exactly one row: the one `ChannelIndex` finds. */
  lemma ChannelIndexUnique(t: ChannelTable, cid: string, k: nat)
    requires ChannelsValid(t) && k < |t.rows| && t.rows[k].channelId == cid
    ensures ChannelIndex(t.rows, cid) == Some(k)
  {
  }

  // ---------------------------------------------------------------- filters

  /** The rows of `cs` that satisfy `p`, in order: a stream `filter` collected to a list. */
  function Filter(cs: seq<Channel>, p: Channel -> bool): seq<Channel> {
    if cs == [] then [] else (if p(cs[0]) then [cs[0]] else []) + Filter(cs[1..], p)
  }

  lemma {:induction false} FilterMembers(cs: seq<Channel>, p: Channel -> bool)
    ensures forall x :: x in Filter(cs, p) <==> x in cs && p(x)
    ensures |Filter(cs, p)| <= |cs|
  {
    if cs != [] {
      FilterMembers(cs[1..], p);
      assert cs == [cs[0]] + cs[1..];
    }
  }

  /** Filtering keeps the order of the rows: it distributes over concatenation. */
  lemma {:induction false} FilterAppend(a: seq<Channel>, b: seq<Channel>, p: Channel -> bool)
    ensures Filter(a + b, p) == Filter(a, p) + Filter(b, p)
  {
    if a == [] {
      assert a + b == b;
    } else {
      assert (a + b)[1..] == a[1..] + b;
      FilterAppend(a[1..], b, p);
    }
  }

  /** Two conditions that agree on every row select the same rows. */
  lemma {:induction false} FilterSame(cs: seq<Channel>, p: Channel -> bool, q: Channel -> bool)
    requires forall x :: p(x) == q(x)
    ensures Filter(cs, p) == Filter(cs, q)
  {
    if cs != [] {
      FilterSame(cs[1..], p, q);
    }
  }

  // ---------------------------------------------------------------- repository queries

  /** The row is an active channel of country `cc`. */
  predicate ActiveIn(c: Channel, cc: string) {
    c.countryCode == cc && c.isActive
  }

  /** `findByCountryCodeAndIsActiveTrue`: the active channels of `cc`, in store order. */
  function ActiveOf(cs: seq<Channel>, cc: string): seq<Channel> {
    Filter(cs, c => ActiveIn(c, cc))
  }

  /** The channel's lower-cased name contains the lower-cased query. */
  predicate NameMatches(c: Channel, query: string) {
    Contains(ToLower(c.name), ToLower(query))
  }

  /** `searchChannels`: the active channels of `cc` whose name contains the query, ignoring case. */
  function SearchChannels(cs: seq<Channel>, query: string, cc: string): seq<Channel> {
    Filter(ActiveOf(cs, cc), c => NameMatches(c, query))
  }

  /** The channel's category is exactly `category` (a channel without a category never matches). */
  predicate HasCategory(c: Channel, category: string) {
    c.category == Some(category)
  }

  /** The channel's stream URL points at an HLS playlist. */
  predicate IsHls(c: Channel) {
    Contains(c.streamUrl, ".m3u8")
  }

  /** `getChannelsByCategory`: the active channels of `cc` whose category equals `category` exactly. */
  function ChannelsByCategory(cs: seq<Channel>, cc: string, category: string): seq<Channel> {
    Filter(ActiveOf(cs, cc), c => HasCategory(c, category))
  }

  /** `getChannelsFromGlobalStreams`: the active channels of `cc` whose stream URL contains ".m3u8". */
  function GlobalStreamChannels(cs: seq<Channel>, cc: string): seq<Channel> {
    Filter(ActiveOf(cs, cc), c => IsHls(c))
  }

  /**
   * A search result is exactly a stored channel that is active, belongs to the country and whose
   * lower-cased name contains the lower-cased query.
   */
  lemma SearchMembers(cs: seq<Channel>, query: string, cc: string)
    ensures forall x :: x in SearchChannels(cs, query, cc) <==> x in cs && ActiveIn(x, cc) && NameMatches(x, query)
  {
    FilterMembers(cs, c => ActiveIn(c, cc));
    FilterMembers(ActiveOf(cs, cc), c => NameMatches(c, query));
  }

  /** The search keeps store order: searching two runs of rows is searching each in turn. */
  lemma SearchKeepsOrder(a: seq<Channel>, b: seq<Channel>, query: string, cc: string)
    ensures SearchChannels(a + b, query, cc) == SearchChannels(a, query, cc) + SearchChannels(b, query, cc)
  {
    FilterAppend(a, b, c => ActiveIn(c, cc));
    FilterAppend(ActiveOf(a, cc), ActiveOf(b, cc), c => NameMatches(c, query));
  }

  /** Queries that are equal once lower-cased find the same channels. */
  lemma SearchIgnoresCase(cs: seq<Channel>, q1: string, q2: string, cc: string)
    requires ToLower(q1) == ToLower(q2)
    ensures SearchChannels(cs, q1, cc) == SearchChannels(cs, q2, cc)
  {
    FilterSame(ActiveOf(cs, cc), c => NameMatches(c, q1), c => NameMatches(c, q2));
  }

  /** A category result is an active channel of the country whose category is exactly the one asked for. */
  lemma CategoryMembers(cs: seq<Channel>, cc: string, category: string)
    ensures forall x ::
      x in ChannelsByCategory(cs, cc, category) <==> x in cs && ActiveIn(x, cc) && HasCategory(x, category)
  {
    FilterMembers(cs, c => ActiveIn(c, cc));
    FilterMembers(ActiveOf(cs, cc), c => HasCategory(c, category));
  }

  /** A global-stream result is an active channel of the country with an HLS (".m3u8") stream URL. */
  lemma GlobalStreamMembers(cs: seq<Channel>, cc: string)
    ensures forall x :: x in GlobalStreamChannels(cs, cc) <==> x in cs && ActiveIn(x, cc) && IsHls(x)
  {
    FilterMembers(cs, c => ActiveIn(c, cc));
    FilterMembers(ActiveOf(cs, cc), c => IsHls(c));
  }

  /**
   * `findCategoriesByCountry` (`SELECT DISTINCT c.category`): the categories of the active channels
   * of `cc`, each once, in the order they first occur; a channel without a category contributes null.
   */
  function CategoriesOf(cs: seq<Channel>, cc: string): seq<Option<string>>
    decreases |cs|
  {
    if cs == [] then []
    else
      var init := CategoriesOf(cs[..|cs| - 1], cc);
      var c := cs[|cs| - 1];
      if ActiveIn(c, cc) && c.category !in init then init + [c.category] else init
  }

  /** The categories listed are exactly those of the country's active channels. */
  lemma {:induction false} CategoriesMembers(cs: seq<Channel>, cc: string)
    ensures forall x :: x in CategoriesOf(cs, cc) <==> exists c :: c in cs && ActiveIn(c, cc) && c.category == x
    decreases |cs|
  {
    if cs != [] {
      var init := cs[..|cs| - 1];
      var last := cs[|cs| - 1];
      CategoriesMembers(init, cc);
      assert cs == init + [last];
      forall x | x in CategoriesOf(cs, cc)
        ensures exists c :: c in cs && ActiveIn(c, cc) && c.category == x
      {
        if x !in CategoriesOf(init, cc) {
          assert last in cs && ActiveIn(last, cc) && last.category == x;
        } else {
          var c :| c in init && ActiveIn(c, cc) && c.category == x;
          assert c in cs;
        }
      }
      forall x | exists c :: c in cs && ActiveIn(c, cc) && c.category == x
        ensures x in CategoriesOf(cs, cc)
      {
        var c :| c in cs && ActiveIn(c, cc) && c.category == x;
        if c in init {
          assert x in CategoriesOf(init, cc);
        }
      }
    }
  }

  /** No two positions of `r` hold the same value. */
  predicate NoRepeats<T(==)>(r: seq<T>) {
    forall i, j :: 0 <= i < j < |r| ==> r[i] != r[j]
  }

  /** No category is listed twice. */
  lemma {:induction false} CategoriesDistinct(cs: seq<Channel>, cc: string)
    ensures NoRepeats(CategoriesOf(cs, cc))
    decreases |cs|
  {
    if cs != [] {
      var init := cs[..|cs| - 1];
      var last := cs[|cs| - 1];
      CategoriesDistinct(init, cc);
      var before := CategoriesOf(init, cc);
      if ActiveIn(last, cc) && last.category !in before {
        var r := before + [last.category];
        forall i, j | 0 <= i < j < |r|
          ensures r[i] != r[j]
        {
          if j == |before| {
            assert r[i] == before[i] && r[j] == last.category;
          } else {
            assert r[i] == before[i] && r[j] == before[j];
          }
        }
        assert CategoriesOf(cs, cc) == r;
      } else {
        assert CategoriesOf(cs, cc) == before;
      }
    }
  }

  /** `getChannelStreamUrl`: the stream URL of the channel with that key, or null. */
  function StreamUrlOf(rows: seq<Channel>, id: nat): (r: Option<string>)
    ensures r.Some? <==> exists k :: 0 <= k < |rows| && rows[k].id == id
    ensures r.Some? ==> exists c :: c in rows && c.id == id && c.streamUrl == r.value
  {
    match ChannelById(rows, id)
    case Some(c) => Some(c.streamUrl)
    case None => None
  }

  // ---------------------------------------------------------------- ORDER BY c.name

  /** Names compared character by character, a proper prefix first. */
  predicate NameLe(a: string, b: string)
    decreases |a|
  {
    a == [] || (b != [] && (a[0] < b[0] || (a[0] == b[0] && NameLe(a[1..], b[1..]))))
  }

  /** Any two names are ordered one way or the other. */
  lemma {:induction false} NameLeTotal(a: string, b: string)
    ensures NameLe(a, b) || NameLe(b, a)
    decreases |a|
  {
    if a != [] && b != [] && a[0] == b[0] {
      NameLeTotal(a[1..], b[1..]);
    }
  }

  /** Each channel's name is at most the next one's. */
  predicate SortedByName(cs: seq<Channel>) {
    forall k :: 0 <= k < |cs| - 1 ==> NameLe(cs[k].name, cs[k + 1].name)
  }

  /** Puts `c` in front of the first channel whose name is not below it. */
  function InsertByName(c: Channel, cs: seq<Channel>): (r: seq<Channel>)
    ensures |r| == |cs| + 1
    ensures r[0] == c || (cs != [] && r[0] == cs[0])
  {
    if cs == [] || NameLe(c.name, cs[0].name) then [c] + cs else [cs[0]] + InsertByName(c, cs[1..])
  }

  /** The rows ordered by name; rows with equal names keep their store order. */
  function SortByName(cs: seq<Channel>): seq<Channel> {
    if cs == [] then [] else InsertByName(cs[0], SortByName(cs[1..]))
  }

  lemma {:induction false} InsertSorted(c: Channel, cs: seq<Channel>)
    requires SortedByName(cs)
    ensures SortedByName(InsertByName(c, cs))
    ensures multiset(InsertByName(c, cs)) == multiset(cs) + multiset{c}
  {
    if cs == [] || NameLe(c.name, cs[0].name) {
    } else {
      var rest := cs[1..];
      InsertSorted(c, rest);
      NameLeTotal(c.name, cs[0].name);
      var r := InsertByName(c, rest);
      assert InsertByName(c, cs) == [cs[0]] + r;
      assert cs == [cs[0]] + rest;
    }
  }

  /** Sorting by name orders the rows by name and keeps every row, each as often as it occurs. */
  lemma {:induction false} SortByNameCorrect(cs: seq<Channel>)
    ensures SortedByName(SortByName(cs))
    ensures multiset(SortByName(cs)) == multiset(cs)
  {
    if cs != [] {
      SortByNameCorrect(cs[1..]);
      InsertSorted(cs[0], SortByName(cs[1..]));
      assert cs == [cs[0]] + cs[1..];
    }
  }

  /** `findActiveChannelsByCountry`: the active channels of `cc`, ordered by name. */
  function ActiveByName(cs: seq<Channel>, cc: string): seq<Channel> {
    SortByName(ActiveOf(cs, cc))
  }

  /**
   * The by-country query returns every active channel of the country exactly as often as it is
   * stored, nothing else, in name order.
   */
  lemma ActiveByNameCorrect(cs: seq<Channel>, cc: string)
    ensures SortedByName(ActiveByName(cs, cc))
    ensures multiset(ActiveByName(cs, cc)) == multiset(ActiveOf(cs, cc))
    ensures forall x :: x in ActiveByName(cs, cc) <==> x in cs && ActiveIn(x, cc)
  {
    SortByNameCorrect(ActiveOf(cs, cc));
    FilterMembers(cs, c => ActiveIn(c, cc));
    forall x
      ensures x in ActiveByName(cs, cc) <==> x in ActiveOf(cs, cc)
    {
      assert x in ActiveByName(cs, cc) <==> x in multiset(ActiveByName(cs, cc));
      assert x in ActiveOf(cs, cc) <==> x in multiset(ActiveOf(cs, cc));
    }
  }

  /** `findByIsActiveTrue`: the active countries, in store order. */
  function ActiveCountries(rows: seq<Country>): seq<Country> {
    if rows == [] then [] else (if rows[0].isActive then [rows[0]] else []) + ActiveCountries(rows[1..])
  }

  lemma {:induction false} ActiveCountriesMembers(rows: seq<Country>)
    ensures forall x :: x in ActiveCountries(rows) <==> x in rows && x.isActive
  {
    if rows != [] {
      ActiveCountriesMembers(rows[1..]);
      assert rows == [rows[0]] + rows[1..];
    }
  }
}
