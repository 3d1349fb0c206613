/**
 * The channel record of the stand-alone playlist server (its nested `Channel` class) and its
 * hand-written JSON serialisation: `escapeJson`, a chain of five replacements, and `toJson`, which
 * always writes id, name, streamUrl, countryCode and isActive and writes logoUrl and category only
 * when they are set.
 *
 * A small reader for exactly this output is defined beside the writer; the round-trip lemmas
 * (reading what was written gives back the record) are the writer's specification.
 */
module SimpleChannel {
  import opened Wrappers
  import opened Strings

  /** A playlist channel. `id` comes from a process-wide counter; `isActive` is always true when created. */
  datatype Channel = Channel(
    id: nat,
    name: string,
    streamUrl: string,
    countryCode: string,
    logoUrl: Option<string>,
    category: Option<string>,
    isActive: bool)

  // ---------------------------------------------------------------- escapeJson

  /** `String.replace(CharSequence, CharSequence)` with a one-character target: every occurrence is replaced. */
  function ReplaceChar(s: string, c: char, repl: string): string
  {
    if s == [] then [] else (if s[0] == c then repl else [s[0]]) + ReplaceChar(s[1..], c, repl)
  }

  /** escapeJson: null becomes "", otherwise backslash is doubled first, then `"`, LF, CR and TAB are escaped. */
  function EscapeJson(str: Option<string>): string
  {
    match str
    case None => ""
    case Some(s) =>
      ReplaceChar(ReplaceChar(ReplaceChar(ReplaceChar(ReplaceChar(
        s, '\\', "\\\\"), '"', "\\\""), '\n', "\\n"), '\r', "\\r"), '\t', "\\t")
  }

  /** The escape of a single character. */
  function EscapeChar(c: char): string {
    match c
    case '\\' => "\\\\"
    case '"' => "\\\""
    case '\n' => "\\n"
    case '\r' => "\\r"
    case '\t' => "\\t"
    case _ => [c]
  }

  /** Character-by-character escaping, the reference the replacement chain is compared with. */
  function EscapeChars(s: string): string
  {
    if s == [] then [] else EscapeChar(s[0]) + EscapeChars(s[1..])
  }

  lemma {:induction false} ReplaceAppend(a: string, b: string, c: char, repl: string)
    ensures ReplaceChar(a + b, c, repl) == ReplaceChar(a, c, repl) + ReplaceChar(b, c, repl)
  {
    if a == [] {
      assert a + b == b;
    } else {
      var head := if a[0] == c then repl else [a[0]];
      assert (a + b)[0] == a[0] && (a + b)[1..] == a[1..] + b;
      ReplaceAppend(a[1..], b, c, repl);
      calc {
        ReplaceChar(a + b, c, repl);
        head + ReplaceChar(a[1..] + b, c, repl);
        head + (ReplaceChar(a[1..], c, repl) + ReplaceChar(b, c, repl));
        (head + ReplaceChar(a[1..], c, repl)) + ReplaceChar(b, c, repl);
      }
    }
  }

  lemma ReplaceAbsent(s: string, c: char, repl: string)
    requires forall k :: 0 <= k < |s| ==> s[k] != c
    ensures ReplaceChar(s, c, repl) == s
  {
  }

  lemma ReplaceSingle(x: char, c: char, repl: string)
    ensures ReplaceChar([x], c, repl) == if x == c then repl else [x]
  {
    assert [x][1..] == [];
  }

  /** The chain applied to one character gives that character's escape. */
  lemma ChainOnChar(c: char)
    ensures EscapeJson(Some([c])) == EscapeChar(c)
  {
    ReplaceSingle(c, '\\', "\\\\");
    if c == '\\' {
      ReplaceAbsent("\\\\", '"', "\\\"");
      ReplaceAbsent("\\\\", '\n', "\\n");
      ReplaceAbsent("\\\\", '\r', "\\r");
      ReplaceAbsent("\\\\", '\t', "\\t");
    } else {
      ReplaceSingle(c, '"', "\\\"");
      if c == '"' {
        ReplaceAbsent("\\\"", '\n', "\\n");
        ReplaceAbsent("\\\"", '\r', "\\r");
        ReplaceAbsent("\\\"", '\t', "\\t");
      } else {
        ReplaceSingle(c, '\n', "\\n");
        if c == '\n' {
          ReplaceAbsent("\\n", '\r', "\\r");
          ReplaceAbsent("\\n", '\t', "\\t");
        } else {
          ReplaceSingle(c, '\r', "\\r");
          if c == '\r' {
            ReplaceAbsent("\\r", '\t', "\\t");
          } else {
            ReplaceSingle(c, '\t', "\\t");
          }
        }
      }
    }
  }

  lemma {:induction false} ChainAppend(a: string, b: string)
    ensures EscapeJson(Some(a + b)) == EscapeJson(Some(a)) + EscapeJson(Some(b))
  {
    var s1 := ReplaceChar(a + b, '\\', "\\\\");
    ReplaceAppend(a, b, '\\', "\\\\");
    var a1, b1 := ReplaceChar(a, '\\', "\\\\"), ReplaceChar(b, '\\', "\\\\");
    ReplaceAppend(a1, b1, '"', "\\\"");
    var a2, b2 := ReplaceChar(a1, '"', "\\\""), ReplaceChar(b1, '"', "\\\"");
    ReplaceAppend(a2, b2, '\n', "\\n");
    var a3, b3 := ReplaceChar(a2, '\n', "\\n"), ReplaceChar(b2, '\n', "\\n");
    ReplaceAppend(a3, b3, '\r', "\\r");
    var a4, b4 := ReplaceChar(a3, '\r', "\\r"), ReplaceChar(b3, '\r', "\\r");
    ReplaceAppend(a4, b4, '\t', "\\t");
  }

  /**
   * Because backslashes are doubled before anything else is escaped, no replacement touches the output
   * of an earlier one: the chain escapes each character on its own.
   */
  lemma {:induction false} EscapeJsonIsPerChar(s: string)
    ensures EscapeJson(Some(s)) == EscapeChars(s)
  {
    if s != [] {
      assert s == [s[0]] + s[1..];
      ChainAppend([s[0]], s[1..]);
      ChainOnChar(s[0]);
      EscapeJsonIsPerChar(s[1..]);
    }
  }

  /** The escaped text holds no raw line feed, carriage return or tab. */
  lemma {:induction false} EscapedHasNoRawControl(s: string)
    ensures forall k :: 0 <= k < |EscapeJson(Some(s))| ==> EscapeJson(Some(s))[k] !in {'\n', '\r', '\t'}
  {
    EscapeJsonIsPerChar(s);
    EscapeCharsNoControl(s);
  }

  lemma {:induction false} EscapeCharsNoControl(s: string)
    ensures forall k :: 0 <= k < |EscapeChars(s)| ==> EscapeChars(s)[k] !in {'\n', '\r', '\t'}
  {
    if s != [] {
      EscapeCharsNoControl(s[1..]);
      var e := EscapeChar(s[0]);
      assert forall k :: 0 <= k < |e| ==> e[k] !in {'\n', '\r', '\t'};
    }
  }

  // ---------------------------------------------------------------- reading a JSON string body back

  /** The character a two-character escape `\x` stands for. */
  function Unescape(x: char): Option<char> {
    match x
    case '\\' => Some('\\')
    case '"' => Some('"')
    case 'n' => Some('\n')
    case 'r' => Some('\r')
    case 't' => Some('\t')
    case _ => None
  }

  /** Reads a string body up to the first unescaped quote; gives the decoded text and what follows the quote. */
  function ReadString(t: string): Option<(string, string)>
    decreases |t|
  {
    if t == [] then None
    else if t[0] == '"' then Some(([], t[1..]))
    else if t[0] == '\\' then
      if |t| < 2 then None
      else
        var c :- Unescape(t[1]);
        var p :- ReadString(t[2..]);
        Some(([c] + p.0, p.1))
    else
      var p :- ReadString(t[1..]);
      Some(([t[0]] + p.0, p.1))
  }

  /** escapeJson's output, closed by a quote, reads back as the original text. */
  lemma {:induction false} EscapeRoundTrip(s: string, rest: string)
    ensures ReadString(EscapeJson(Some(s)) + "\"" + rest) == Some((s, rest))
  {
    EscapeJsonIsPerChar(s);
    EscapeCharsRoundTrip(s, rest);
  }

  /** One escaped character in front of a readable string body reads back as that character. */
  lemma ReadEscapedChar(c: char, tail: string, body: string, rest: string)
    requires ReadString(tail) == Some((body, rest))
    ensures ReadString(EscapeChar(c) + tail) == Some(([c] + body, rest))
  {
    var t := EscapeChar(c) + tail;
    if |EscapeChar(c)| == 2 {
      assert t[2..] == tail;
    } else {
      assert t[1..] == tail;
    }
  }

  lemma {:induction false} EscapeCharsRoundTrip(s: string, rest: string)
    ensures ReadString(EscapeChars(s) + "\"" + rest) == Some((s, rest))
  {
    if s == [] {
      assert EscapeChars(s) + "\"" + rest == "\"" + rest;
    } else {
      var tail := EscapeChars(s[1..]) + "\"" + rest;
      assert EscapeChars(s) + "\"" + rest == EscapeChar(s[0]) + tail;
      EscapeCharsRoundTrip(s[1..], rest);
      ReadEscapedChar(s[0], tail, s[1..], rest);
      assert [s[0]] + s[1..] == s;
    }
  }

  /** Text without quotes or backslashes, such as a two-letter country code, needs no escaping. */
  predicate IsPlain(s: string) {
    forall k :: 0 <= k < |s| ==> s[k] != '"' && s[k] != '\\'
  }

  lemma {:induction false} PlainRoundTrip(s: string, rest: string)
    requires IsPlain(s)
    ensures ReadString(s + "\"" + rest) == Some((s, rest))
  {
    if s == [] {
      assert s + "\"" + rest == "\"" + rest;
    } else {
      assert (s + "\"" + rest)[1..] == s[1..] + "\"" + rest;
      PlainRoundTrip(s[1..], rest);
      assert [s[0]] + s[1..] == s;
    }
  }

  // ---------------------------------------------------------------- numbers

  predicate IsDigit(c: char) {
    '0' <= c <= '9'
  }

  predicate AllDigits(s: string) {
    forall k :: 0 <= k < |s| ==> IsDigit(s[k])
  }

  function DigitChar(d: nat): char
    requires d < 10
  {
    ('0' as int + d) as char
  }

  /** `StringBuilder.append(int)` for a non-negative value: its decimal digits, most significant first. */
  function Decimal(n: nat): (r: string)
    ensures r != [] && AllDigits(r)
  {
    if n < 10 then [DigitChar(n)] else Decimal(n / 10) + [DigitChar(n % 10)]
  }

  /** The number a run of decimal digits denotes. */
  function DigitsValue(ds: string): nat
    requires AllDigits(ds)
  {
    if ds == [] then 0 else DigitsValue(ds[..|ds| - 1]) * 10 + (ds[|ds| - 1] as int - '0' as int)
  }

  lemma {:induction false} DecimalValue(n: nat)
    ensures DigitsValue(Decimal(n)) == n
  {
    if n >= 10 {
      DecimalValue(n / 10);
      var d := Decimal(n);
      assert d[..|d| - 1] == Decimal(n / 10);
    }
  }

  /** The length of the run of digits `t` starts with. */
  function DigitRun(t: string): (k: nat)
    ensures k <= |t| && AllDigits(t[..k]) && (k < |t| ==> !IsDigit(t[k]))
  {
    if t == [] || !IsDigit(t[0]) then 0
    else
      var k := 1 + DigitRun(t[1..]);
      assert t[..k] == [t[0]] + t[1..][..k - 1];
      k
  }

  function ReadNat(t: string): (r: Option<(nat, string)>)
    ensures r.Some? ==> |r.value.1| < |t|
  {
    var k := DigitRun(t);
    if k == 0 then None else Some((DigitsValue(t[..k]), t[k..]))
  }

  lemma {:induction false} DigitRunOf(ds: string, rest: string)
    requires AllDigits(ds)
    requires rest == [] || !IsDigit(rest[0])
    ensures DigitRun(ds + rest) == |ds|
  {
    if ds != [] {
      assert (ds + rest)[1..] == ds[1..] + rest;
      DigitRunOf(ds[1..], rest);
    }
  }

  /** A written number reads back when what follows it is not a digit. */
  lemma NatRoundTrip(n: nat, rest: string)
    requires rest == [] || !IsDigit(rest[0])
    ensures ReadNat(Decimal(n) + rest) == Some((n, rest))
  {
    var d := Decimal(n);
    DigitRunOf(d, rest);
    assert (d + rest)[..|d|] == d && (d + rest)[|d|..] == rest;
    DecimalValue(n);
  }

  // ---------------------------------------------------------------- toJson

  function BoolText(b: bool): string {
    if b then "true" else "false"
  }

  /** The text that opens a string member: `"key":"`. */
  function MemberOpen(key: string): string {
    "\"" + key + "\":\""
  }

  /** A `"key":"value",` member written only when the field is not null. */
  function OptionalMember(key: string, v: Option<string>): string {
    match v
    case None => ""
    case Some(x) => MemberOpen(key) + EscapeJson(Some(x)) + "\","
  }

  /** toJson. The country code is appended without escaping. */
  function ToJson(c: Channel): string {
    "{" + "\"id\":" + Decimal(c.id) + ","
    + "\"name\":\"" + EscapeJson(Some(c.name)) + "\","
    + "\"streamUrl\":\"" + EscapeJson(Some(c.streamUrl)) + "\","
    + OptionalMember("logoUrl", c.logoUrl)
    + OptionalMember("category", c.category)
    + "\"countryCode\":\"" + c.countryCode + "\","
    + "\"isActive\":" + BoolText(c.isActive)
    + "}"
  }

  /** The elements joined by ",", built as the response loops build it: one element after another. */
  function Join(items: seq<string>): string {
    if items == [] then ""
    else if |items| == 1 then items[0]
    else Join(items[..|items| - 1]) + "," + items[|items| - 1]
  }

  /** Each channel's toJson, in order. */
  function Rendered(cs: seq<Channel>): seq<string> {
    if cs == [] then [] else [ToJson(cs[0])] + Rendered(cs[1..])
  }

  /** A list response: "[" + the elements joined by "," + "]". */
  function ListJson(cs: seq<Channel>): string {
    "[" + Join(Rendered(cs)) + "]"
  }

  // ---------------------------------------------------------------- reading toJson's output back

  function Expect(t: string, lit: string): (r: Option<string>)
    ensures r.Some? ==> |r.value| == |t| - |lit|
  {
    if StartsWith(t, lit) then Some(t[|lit|..]) else None
  }

  lemma ExpectLit(lit: string, rest: string)
    ensures Expect(lit + rest, lit) == Some(rest)
  {
    assert (lit + rest)[..|lit|] == lit && (lit + rest)[|lit|..] == rest;
  }

  lemma ReadStringShrinks(t: string)
    ensures ReadString(t).Some? ==> |ReadString(t).value.1| < |t|
    decreases |t|
  {
    if t != [] && t[0] != '"' {
      if t[0] == '\\' && |t| >= 2 { ReadStringShrinks(t[2..]); } else { ReadStringShrinks(t[1..]); }
    }
  }

  /** Reads an optional `"key":"value",` member. */
  function ReadOptional(t: string, key: string): (r: Option<(Option<string>, string)>)
    ensures r.Some? ==> |r.value.1| <= |t|
  {
    var open := MemberOpen(key);
    if StartsWith(t, open) then
      var p :- ReadString(t[|open|..]);
      ReadStringShrinks(t[|open|..]);
      var r :- Expect(p.1, ",");
      Some((Some(p.0), r))
    else Some((None, t))
  }

  function ReadBool(t: string): Option<(bool, string)> {
    if StartsWith(t, "true") then Some((true, t[4..]))
    else if StartsWith(t, "false") then Some((false, t[5..]))
    else None
  }

  /** Reads one object in toJson's layout, piece by piece as toJson writes it. */
  function ReadChannel(t: string): (r: Option<(Channel, string)>)
    ensures r.Some? ==> |r.value.1| < |t|
  {
    var t1 :- Expect(t, "{");
    var t2 :- Expect(t1, "\"id\":");
    var id :- ReadNat(t2);
    var t3 :- Expect(id.1, ",");
    var t4 :- Expect(t3, "\"name\":\"");
    ReadName(id.0, t4)
  }

  /** The name's value (its closing quote included), then the opening of streamUrl. */
  function ReadName(id: nat, t: string): (r: Option<(Channel, string)>)
    ensures r.Some? ==> |r.value.1| < |t|
  {
    var name :- ReadString(t);
    ReadStringShrinks(t);
    var t1 :- Expect(name.1, ",");
    var t2 :- Expect(t1, "\"streamUrl\":\"");
    ReadUrl(id, name.0, t2)
  }

  /** The stream URL's value, then the two optional members. */
  function ReadUrl(id: nat, name: string, t: string): (r: Option<(Channel, string)>)
    ensures r.Some? ==> |r.value.1| < |t|
  {
    var url :- ReadString(t);
    ReadStringShrinks(t);
    var t1 :- Expect(url.1, ",");
    var logo :- ReadOptional(t1, "logoUrl");
    var cat :- ReadOptional(logo.1, "category");
    ReadTail(id, name, url.0, logo.0, cat.0, cat.1)
  }

  /** countryCode, isActive and the closing brace. */
  function ReadTail(id: nat, name: string, url: string, logo: Option<string>, cat: Option<string>, t: string)
    : (r: Option<(Channel, string)>)
    ensures r.Some? ==> |r.value.1| < |t|
  {
    var t1 :- Expect(t, "\"countryCode\":\"");
    var cc :- ReadString(t1);
    ReadStringShrinks(t1);
    var t2 :- Expect(cc.1, ",");
    var t3 :- Expect(t2, "\"isActive\":");
    var active :- ReadBool(t3);
    var t4 :- Expect(active.1, "}");
    Some((Channel(id, name, url, cc.0, logo, cat, active.0), t4))
  }

  /** Reads `item ("," item)* "]"`. */
  function ReadItems(t: string): Option<(seq<Channel>, string)>
    decreases |t|
  {
    var p :- ReadChannel(t);
    if StartsWith(p.1, ",") then
      var more :- ReadItems(p.1[1..]);
      Some(([p.0] + more.0, more.1))
    else if StartsWith(p.1, "]") then Some(([p.0], p.1[1..]))
    else None
  }

  /** Reads a list response. */
  function ReadList(t: string): Option<(seq<Channel>, string)> {
    var t1 :- Expect(t, "[");
    if StartsWith(t1, "]") then Some(([], t1[1..])) else ReadItems(t1)
  }

  // ---------------------------------------------------------------- round trips

  lemma ReadOptionalRoundTrip(key: string, v: Option<string>, rest: string)
    requires v.None? ==> !StartsWith(rest, MemberOpen(key))
    ensures ReadOptional(OptionalMember(key, v) + rest, key) == Some((v, rest))
  {
    if v.Some? {
      ReadMemberRoundTrip(key, v.value, rest);
    } else {
      assert OptionalMember(key, v) + rest == rest;
    }
  }

  /** A written member reads back as its value, followed by the text after its closing `",`. */
  lemma ReadMemberRoundTrip(key: string, x: string, rest: string)
    ensures ReadOptional(OptionalMember(key, Some(x)) + rest, key) == Some((Some(x), rest))
  {
    var open := MemberOpen(key);
    var e := EscapeJson(Some(x));
    var after := e + "\"" + ("," + rest);
    MemberShape(open, e, rest);
    assert OptionalMember(key, Some(x)) + rest == open + after;
    ExpectLit(open, after);
    EscapeRoundTrip(x, "," + rest);
    assert ReadString(after) == Some((x, "," + rest));
    ExpectLit(",", rest);
  }

  lemma MemberShape(open: string, e: string, rest: string)
    ensures open + e + "\"," + rest == open + (e + "\"" + ("," + rest))
  {
    QuoteComma(rest);
    Assoc(e, "\"", "," + rest);
  }

  lemma Assoc(a: string, b: string, c: string)
    ensures a + b + c == a + (b + c)
  {
  }

  /** The `",` that closes a string member, read as the string's closing quote and then the comma. */
  lemma QuoteComma(rest: string)
    ensures "\"," + rest == "\"" + ("," + rest)
  {
  }

  lemma BoolRoundTrip(b: bool, rest: string)
    ensures ReadBool(BoolText(b) + rest) == Some((b, rest))
  {
    var t := BoolText(b) + rest;
    if b {
      assert t[..4] == "true" && t[4..] == rest;
    } else {
      assert t[..5] == "false" && t[5..] == rest;
      assert t[3] == 's';
    }
  }

  /** What toJson writes from the countryCode member on, followed by `rest`. */
  function Tail(c: Channel, rest: string): string {
    "\"countryCode\":\"" + (c.countryCode + ("\"," + ("\"isActive\":" + (BoolText(c.isActive) + ("}" + rest)))))
  }

  /** What toJson writes from the stream URL's value on, followed by `rest`. */
  function AfterUrl(c: Channel, rest: string): string {
    EscapeJson(Some(c.streamUrl)) + ("\"," + (OptionalMember("logoUrl", c.logoUrl)
      + (OptionalMember("category", c.category) + Tail(c, rest))))
  }

  /** What toJson writes from the name's value on, followed by `rest`. */
  function AfterName(c: Channel, rest: string): string {
    EscapeJson(Some(c.name)) + ("\"," + ("\"streamUrl\":\"" + AfterUrl(c, rest)))
  }

  lemma TailRoundTrip(c: Channel, rest: string)
    requires IsPlain(c.countryCode)
    ensures ReadTail(c.id, c.name, c.streamUrl, c.logoUrl, c.category, Tail(c, rest)) == Some((c, rest))
  {
    var r3 := BoolText(c.isActive) + ("}" + rest);
    var r2 := "\"isActive\":" + r3;
    ExpectLit("\"countryCode\":\"", c.countryCode + ("\"," + r2));
    QuoteComma(r2);
    Assoc(c.countryCode, "\"", "," + r2);
    PlainRoundTrip(c.countryCode, "," + r2);
    ExpectLit(",", r2);
    ExpectLit("\"isActive\":", r3);
    BoolRoundTrip(c.isActive, "}" + rest);
    ExpectLit("}", rest);
  }

  lemma TailOpensCountry(c: Channel, rest: string)
    ensures !StartsWith(Tail(c, rest), MemberOpen("category")) && !StartsWith(Tail(c, rest), MemberOpen("logoUrl"))
  {
    var t := Tail(c, rest);
    assert t[1] == 'c' && t[2] == 'o';
    assert MemberOpen("category")[2] == 'a' && MemberOpen("logoUrl")[1] == 'l';
  }

  lemma OptionalsRoundTrip(logo: Option<string>, cat: Option<string>, tail: string)
    requires !StartsWith(tail, MemberOpen("category")) && !StartsWith(tail, MemberOpen("logoUrl"))
    ensures var tcat := OptionalMember("category", cat) + tail;
      ReadOptional(OptionalMember("logoUrl", logo) + tcat, "logoUrl") == Some((logo, tcat))
      && ReadOptional(tcat, "category") == Some((cat, tail))
  {
    ReadOptionalRoundTrip("category", cat, tail);
    if logo.None? {
      OptionalsOpenCategory(cat, tail);
    }
    ReadOptionalRoundTrip("logoUrl", logo, OptionalMember("category", cat) + tail);
  }

  /** Without a logo member the text starts with the category member or the tail, never a logo member. */
  lemma OptionalsOpenCategory(cat: Option<string>, tail: string)
    requires !StartsWith(tail, MemberOpen("logoUrl"))
    ensures !StartsWith(OptionalMember("category", cat) + tail, MemberOpen("logoUrl"))
  {
    if cat.Some? {
      assert (OptionalMember("category", cat) + tail)[1] == 'c';
      assert MemberOpen("logoUrl")[1] == 'l';
    }
  }

  lemma UrlRoundTrip(c: Channel, rest: string)
    requires IsPlain(c.countryCode)
    ensures ReadUrl(c.id, c.name, AfterUrl(c, rest)) == Some((c, rest))
  {
    var opts := OptionalMember("logoUrl", c.logoUrl) + (OptionalMember("category", c.category) + Tail(c, rest));
    QuoteComma(opts);
    Assoc(EscapeJson(Some(c.streamUrl)), "\"", "," + opts);
    EscapeRoundTrip(c.streamUrl, "," + opts);
    ExpectLit(",", opts);
    TailOpensCountry(c, rest);
    OptionalsRoundTrip(c.logoUrl, c.category, Tail(c, rest));
    TailRoundTrip(c, rest);
  }

  lemma NameRoundTrip(c: Channel, rest: string)
    requires IsPlain(c.countryCode)
    ensures ReadName(c.id, AfterName(c, rest)) == Some((c, rest))
  {
    var more := "\"streamUrl\":\"" + AfterUrl(c, rest);
    QuoteComma(more);
    Assoc(EscapeJson(Some(c.name)), "\"", "," + more);
    EscapeRoundTrip(c.name, "," + more);
    ExpectLit(",", more);
    ExpectLit("\"streamUrl\":\"", AfterUrl(c, rest));
    UrlRoundTrip(c, rest);
  }

  lemma Regroup(id: string, nm: string, ur: string, lg: string, ct: string, cc: string, ac: string, rest: string)
    ensures "{" + "\"id\":" + id + ","
      + "\"name\":\"" + nm + "\","
      + "\"streamUrl\":\"" + ur + "\","
      + lg + ct
      + "\"countryCode\":\"" + cc + "\","
      + "\"isActive\":" + ac
      + "}" + rest
      == "{" + ("\"id\":" + (id + ("," + ("\"name\":\"" + (nm + ("\"," + ("\"streamUrl\":\"" + (ur + ("\"," + (lg
        + (ct + ("\"countryCode\":\"" + (cc + ("\"," + ("\"isActive\":" + (ac + ("}" + rest)))))))))))))))))
  {
    var h := "{" + "\"id\":" + id + "," + "\"name\":\"" + nm + "\"," + "\"streamUrl\":\"" + ur + "\",";
    RegroupTail(h, lg, ct, cc, ac, rest);
    RegroupHead(id, nm, ur,
      lg + (ct + ("\"countryCode\":\"" + (cc + ("\"," + ("\"isActive\":" + (ac + ("}" + rest))))))));
  }

  lemma RegroupHead(id: string, nm: string, ur: string, x: string)
    ensures "{" + "\"id\":" + id + "," + "\"name\":\"" + nm + "\"," + "\"streamUrl\":\"" + ur + "\"," + x
      == "{" + ("\"id\":" + (id + ("," + ("\"name\":\"" + (nm + ("\"," + ("\"streamUrl\":\"" + (ur + ("\"," + x)))))))))
  {
  }

  lemma RegroupTail(h: string, lg: string, ct: string, cc: string, ac: string, rest: string)
    ensures h + lg + ct + "\"countryCode\":\"" + cc + "\"," + "\"isActive\":" + ac + "}" + rest
      == h + (lg + (ct + ("\"countryCode\":\"" + (cc + ("\"," + ("\"isActive\":" + (ac + ("}" + rest))))))))
  {
  }

  /** toJson, regrouped so that each piece is followed by everything written after it. */
  lemma ToJsonShape(c: Channel, rest: string)
    ensures ToJson(c) + rest == "{" + ("\"id\":" + (Decimal(c.id) + ("," + ("\"name\":\"" + AfterName(c, rest)))))
  {
    Regroup(Decimal(c.id), EscapeJson(Some(c.name)), EscapeJson(Some(c.streamUrl)),
      OptionalMember("logoUrl", c.logoUrl), OptionalMember("category", c.category),
      c.countryCode, BoolText(c.isActive), rest);
  }

  /**
   * toJson's output reads back as the channel it was written from, whatever follows it; logoUrl and
   * category come back null exactly when they were null, because their members are left out. The
   * country code has to be free of quotes and backslashes, because toJson does not escape it.
   */
  lemma ToJsonRoundTrip(c: Channel, rest: string)
    requires IsPlain(c.countryCode)
    ensures ReadChannel(ToJson(c) + rest) == Some((c, rest))
  {
    ToJsonShape(c, rest);
    var afterId := "," + ("\"name\":\"" + AfterName(c, rest));
    ExpectLit("{", "\"id\":" + (Decimal(c.id) + afterId));
    ExpectLit("\"id\":", Decimal(c.id) + afterId);
    NatRoundTrip(c.id, afterId);
    ExpectLit(",", "\"name\":\"" + AfterName(c, rest));
    ExpectLit("\"name\":\"", AfterName(c, rest));
    NameRoundTrip(c, rest);
  }

  predicate PlainCodes(cs: seq<Channel>) {
    forall k :: 0 <= k < |cs| ==> IsPlain(cs[k].countryCode)
  }

  lemma {:induction false} JoinCons(x: string, xs: seq<string>)
    ensures Join([x] + xs) == x + (if xs == [] then "" else "," + Join(xs))
    decreases |xs|
  {
    if xs != [] {
      var all := [x] + xs;
      assert all[..|all| - 1] == [x] + xs[..|xs| - 1];
      assert all[|all| - 1] == xs[|xs| - 1];
      JoinCons(x, xs[..|xs| - 1]);
    }
  }

  /** A one-element list body is that element's object. */
  lemma ItemsShapeOne(cs: seq<Channel>, rest: string)
    requires |cs| == 1
    ensures Join(Rendered(cs)) + ("]" + rest) == ToJson(cs[0]) + ("]" + rest)
  {
    assert cs[1..] == [];
    assert Rendered(cs[1..]) == [];
    var r := Rendered(cs);
    assert r == [ToJson(cs[0])];
    assert Join(r) == r[0];
  }

  /** A longer list body is the first element's object, a comma and the body of the others. */
  lemma ItemsShapeMore(cs: seq<Channel>, rest: string)
    requires |cs| > 1
    ensures Join(Rendered(cs)) + ("]" + rest) == ToJson(cs[0]) + ("," + (Join(Rendered(cs[1..])) + ("]" + rest)))
  {
    var item, tail := ToJson(cs[0]), Rendered(cs[1..]);
    JoinCons(item, tail);
    Assoc(item, "," + Join(tail), "]" + rest);
    Assoc(",", Join(tail), "]" + rest);
  }

  lemma ReadItemsLast(c: Channel, rest: string)
    requires IsPlain(c.countryCode)
    ensures ReadItems(ToJson(c) + ("]" + rest)) == Some(([c], rest))
  {
    ToJsonRoundTrip(c, "]" + rest);
    assert ("]" + rest)[1..] == rest;
  }

  lemma ReadItemsMore(c: Channel, more: string, cs: seq<Channel>, rest: string)
    requires IsPlain(c.countryCode)
    requires ReadItems(more) == Some((cs, rest))
    ensures ReadItems(ToJson(c) + ("," + more)) == Some(([c] + cs, rest))
  {
    ToJsonRoundTrip(c, "," + more);
    assert ("," + more)[1..] == more;
  }

  lemma ReadItemsOne(cs: seq<Channel>, rest: string)
    requires |cs| == 1 && PlainCodes(cs)
    ensures ReadItems(Join(Rendered(cs)) + ("]" + rest)) == Some((cs, rest))
  {
    ItemsShapeOne(cs, rest);
    ReadItemsLast(cs[0], rest);
    assert cs == [cs[0]];
  }

  lemma ReadItemsStep(cs: seq<Channel>, rest: string)
    requires |cs| > 1 && PlainCodes(cs)
    requires ReadItems(Join(Rendered(cs[1..])) + ("]" + rest)) == Some((cs[1..], rest))
    ensures ReadItems(Join(Rendered(cs)) + ("]" + rest)) == Some((cs, rest))
  {
    var more := Join(Rendered(cs[1..])) + ("]" + rest);
    ItemsShapeMore(cs, rest);
    assert IsPlain(cs[0].countryCode);
    ReadItemsMore(cs[0], more, cs[1..], rest);
    assert [cs[0]] + cs[1..] == cs;
  }

  lemma {:induction false} ReadItemsRoundTrip(cs: seq<Channel>, rest: string)
    requires cs != [] && PlainCodes(cs)
    ensures ReadItems(Join(Rendered(cs)) + ("]" + rest)) == Some((cs, rest))
    decreases |cs|
  {
    if |cs| == 1 {
      ReadItemsOne(cs, rest);
    } else {
      assert PlainCodes(cs[1..]);
      ReadItemsRoundTrip(cs[1..], rest);
      ReadItemsStep(cs, rest);
    }
  }

  /** A non-empty list body starts with the first object's brace, never with "]". */
  lemma ItemsOpen(cs: seq<Channel>, rest: string)
    requires cs != []
    ensures !StartsWith(Join(Rendered(cs)) + ("]" + rest), "]")
  {
    var after := if |cs| == 1 then "]" + rest else "," + (Join(Rendered(cs[1..])) + ("]" + rest));
    if |cs| == 1 {
      ItemsShapeOne(cs, rest);
    } else {
      ItemsShapeMore(cs, rest);
    }
    ToJsonShape(cs[0], after);
    assert (ToJson(cs[0]) + after)[0] == '{';
  }

  /**
   * A list response reads back as exactly the channels it was built from, in order; the empty list is
   * written "[]".
   */
  lemma ListJsonRoundTrip(cs: seq<Channel>, rest: string)
    requires PlainCodes(cs)
    ensures ReadList(ListJson(cs) + rest) == Some((cs, rest))
  {
    var body := Join(Rendered(cs)) + ("]" + rest);
    Assoc("[" + Join(Rendered(cs)), "]", rest);
    Assoc("[", Join(Rendered(cs)), "]" + rest);
    ExpectLit("[", body);
    if cs == [] {
      assert body == "]" + rest;
      assert body[1..] == rest;
    } else {
      ItemsOpen(cs, rest);
      ReadItemsRoundTrip(cs, rest);
    }
  }
}
