/**
 * The `#EXTINF:` line parser of the stand-alone playlist server: three independent regular-expression
 * searches over one line, each written out as a left-to-right scanner with the leftmost-match
 * semantics of `Matcher.find()`.
 *
 *   name   `,(.+)$`               group 1, trimmed
 *   logo   `tvg-logo="([^"]+)"`   group 1
 *   group  `group-title="([^"]+)"` group 1
 */
module ExtInf {
  import opened Wrappers
  import opened Strings

  /** The entries parseExtInfLine puts in its result map; a key it never puts is None. */
  datatype Info = Info(name: Option<string>, logo: Option<string>, group: Option<string>)

  // ---------------------------------------------------------------- the name: `,(.+)$`

  /** The characters java.util.regex treats as line terminators; `.` matches none of them. */
  predicate IsLineTerminator(c: char) {
    c == '\n' || c == '\r' || c == '\U{0085}' || c == '\U{2028}' || c == '\U{2029}'
  }

  /** The end of the longest run of characters `.` can match, starting at i. */
  function RunEnd(s: string, i: nat): (e: nat)
    requires i <= |s|
    ensures i <= e <= |s|
    ensures forall k :: i <= k < e ==> !IsLineTerminator(s[k])
    ensures e < |s| ==> IsLineTerminator(s[e])
    decreases |s| - i
  {
    if i == |s| || IsLineTerminator(s[i]) then i else RunEnd(s, i + 1)
  }

  /** `$` without MULTILINE: the end of the input, or just before a line terminator that ends it. */
  predicate DollarAt(s: string, j: nat) {
    j == |s|
    || (j + 1 == |s| && IsLineTerminator(s[j]))
    || (j + 2 == |s| && s[j] == '\r' && s[j + 1] == '\n')
  }

  /**
   * Group 1 of `,(.+)$` for a match starting at index i. The greedy `.+` first takes the whole run of
   * non-terminators; any shorter run ends before a non-terminator, where `$` cannot hold, so the
   * longest run is the only candidate.
   */
  function NameMatchAt(s: string, i: nat): Option<string>
    requires i < |s|
  {
    if s[i] != ',' then None
    else
      var e := RunEnd(s, i + 1);
      if e > i + 1 && DollarAt(s, e) then Some(s[i + 1..e]) else None
  }

  /** `find()` from index i: the first start position at or after i where the pattern matches. */
  function NameFrom(s: string, i: nat): Option<string>
    requires i <= |s|
    decreases |s| - i
  {
    if i == |s| then None
    else if NameMatchAt(s, i).Some? then NameMatchAt(s, i)
    else NameFrom(s, i + 1)
  }

  /** The "name" entry: group 1 of the first match, trimmed. */
  function Name(s: string): Option<string> {
    match NameFrom(s, 0)
    case Some(g) => Some(Trim(g))
    case None => None
  }

  predicate NoLineTerminator(s: string) {
    forall k :: 0 <= k < |s| ==> !IsLineTerminator(s[k])
  }

  predicate NoCommaBefore(s: string, i: int)
    requires i <= |s|
  {
    forall j :: 0 <= j < i ==> s[j] != ','
  }

  lemma NameFromSkips(s: string, i: nat, j: nat)
    requires NoLineTerminator(s)
    requires i <= j <= |s|
    requires forall k :: i <= k < j && k + 1 < |s| ==> s[k] != ','
    ensures NameFrom(s, i) == NameFrom(s, j)
    decreases j - i
  {
    if i < j {
      assert NameMatchAt(s, i).None? by {
        if s[i] == ',' { assert RunEnd(s, i + 1) == |s|; }
      }
      NameFromSkips(s, i + 1, j);
    }
  }

  /**
   * On a line without line terminators (every line a reader yields), the name is the trimmed text after
   * the FIRST comma that has a character after it; there is none when no comma has one. A comma
   * inside an attribute value therefore cuts the name short.
   */
  lemma {:induction false} NameIsAfterFirstComma(s: string)
    requires NoLineTerminator(s)
    ensures (forall i :: 0 <= i < |s| - 1 ==> s[i] != ',') ==> Name(s) == None
    ensures forall i :: 0 <= i < |s| - 1 && s[i] == ',' && NoCommaBefore(s, i) ==> Name(s) == Some(Trim(s[i + 1..]))
  {
    if forall i :: 0 <= i < |s| - 1 ==> s[i] != ',' {
      NameFromSkips(s, 0, |s|);
    }
    forall i | 0 <= i < |s| - 1 && s[i] == ',' && NoCommaBefore(s, i)
      ensures Name(s) == Some(Trim(s[i + 1..]))
    {
      NameFromSkips(s, 0, i);
      assert RunEnd(s, i + 1) == |s|;
      assert DollarAt(s, |s|);
      assert s[i + 1..|s|] == s[i + 1..];
      assert NameMatchAt(s, i) == Some(s[i + 1..]);
    }
  }

  /** A worked case: with a comma inside a quoted attribute, the name starts after that comma. */
  lemma NameSplitsAtAttributeComma()
    ensures Name("g=\"A,B\",C") == Some("B\",C")
  {
    var s := "g=\"A,B\",C";
    NameIsAfterFirstComma(s);
    assert s[4] == ',' && NoCommaBefore(s, 4);
    assert s[5..] == "B\",C";
    assert Trim("B\",C") == "B\",C";
  }

  // ---------------------------------------------------------------- the attributes: `KEY="([^"]+)"`

  /** `tvg-logo="` and `group-title="`: the literal text each attribute pattern starts with. */
  const LogoKey: string := "tvg-logo=\""
  const GroupKey: string := "group-title=\""

  predicate QuoteFree(s: string) {
    forall k :: 0 <= k < |s| ==> s[k] != '"'
  }

  /** The index of the first '"' at or after k. */
  function QuoteFrom(s: string, k: nat): (q: Option<nat>)
    requires k <= |s|
    ensures q.Some? ==> k <= q.value < |s| && s[q.value] == '"' && QuoteFree(s[k..q.value])
    ensures q.None? ==> QuoteFree(s[k..])
    decreases |s| - k
  {
    if k == |s| then None else if s[k] == '"' then Some(k) else QuoteFrom(s, k + 1)
  }

  /**
   * Group 1 for a match starting at index i: after the key, the greedy `[^"]+` takes every character up
   * to the next quote, and the closing `"` must be that quote; the value cannot be empty.
   */
  function AttrMatchAt(s: string, key: string, i: nat): Option<string>
    requires i <= |s|
  {
    if !ContainsAt(s, key, i) then None
    else
      match QuoteFrom(s, i + |key|)
      case Some(q) => if q > i + |key| then Some(s[i + |key|..q]) else None
      case None => None
  }

  function AttrFrom(s: string, key: string, i: nat): Option<string>
    requires i <= |s|
    decreases |s| - i
  {
    if AttrMatchAt(s, key, i).Some? then AttrMatchAt(s, key, i)
    else if i == |s| then None
    else AttrFrom(s, key, i + 1)
  }

  /** group(1) of the first match of `KEY([^"]+)"`, where KEY is `tvg-logo="` or `group-title="`. */
  function Attr(s: string, key: string): Option<string> {
    AttrFrom(s, key, 0)
  }

  /** parseExtInfLine: the three searches are independent of each other. */
  function ParseExtInfLine(line: string): (info: Info)
  {
    Info(Name(line), Attr(line, LogoKey), Attr(line, GroupKey))
  }

  /** A quoted attribute value the pattern accepts: non-empty and without a quote. */
  predicate IsAttrValue(v: string) {
    v != [] && QuoteFree(v)
  }

  /** A match at i is exactly an occurrence of KEY, a non-empty quote-free value, and a quote. */
  lemma AttrMatchAtIff(s: string, key: string, i: nat, v: string)
    requires i <= |s|
    ensures AttrMatchAt(s, key, i) == Some(v) <==> IsAttrValue(v) && ContainsAt(s, key + v + "\"", i)
  {
    if AttrMatchAt(s, key, i) == Some(v) {
      AttrMatchAtSound(s, key, i, v);
    }
    if IsAttrValue(v) && ContainsAt(s, key + v + "\"", i) {
      AttrMatchAtComplete(s, key, i, v);
    }
  }

  lemma AttrMatchAtSound(s: string, key: string, i: nat, v: string)
    requires i <= |s| && AttrMatchAt(s, key, i) == Some(v)
    ensures IsAttrValue(v) && ContainsAt(s, key + v + "\"", i)
  {
    var k := i + |key|;
    var q := QuoteFrom(s, k).value;
    var w := key + v + "\"";
    assert s[k..q] == v;
    assert s[i..k] == key;
    forall u | 0 <= u < |w| ensures s[i..q + 1][u] == w[u] {
      if u < |key| {
        assert s[i + u] == s[i..k][u];
      } else if u < |key| + |v| {
        assert s[i + u] == s[k..q][u - |key|];
      }
    }
    assert s[i..q + 1] == w;
  }

  lemma AttrMatchAtComplete(s: string, key: string, i: nat, v: string)
    requires i <= |s| && IsAttrValue(v) && ContainsAt(s, key + v + "\"", i)
    ensures AttrMatchAt(s, key, i) == Some(v)
  {
    var w := key + v + "\"";
    var k := i + |key|;
    forall u | i <= u < i + |w| ensures s[u] == w[u - i] {
      assert s[u] == s[i..i + |w|][u - i];
    }
    assert s[i..k] == key by {
      forall u | 0 <= u < |key| ensures s[i..k][u] == key[u] {
        assert s[i + u] == w[u];
      }
    }
    assert s[k..k + |v|] == v by {
      forall u | 0 <= u < |v| ensures s[k..k + |v|][u] == v[u] {
        assert s[k + u] == w[|key| + u];
      }
    }
    forall u | k <= u < k + |v| ensures s[u] != '"' {
      assert s[u] == w[u - i];
    }
    assert s[k + |v|] == w[|key| + |v|];
    QuoteFromFinds(s, k, k + |v|);
  }

  lemma QuoteFreeSlice(s: string, lo: nat, hi: nat)
    requires lo <= hi <= |s| && QuoteFree(s[lo..hi])
    ensures forall k :: lo <= k < hi ==> s[k] != '"'
  {
    forall k | lo <= k < hi ensures s[k] != '"' {
      assert s[k] == s[lo..hi][k - lo];
    }
  }

  lemma QuoteFromFinds(s: string, k: nat, q: nat)
    requires k <= q < |s| && s[q] == '"'
    requires forall t :: k <= t < q ==> s[t] != '"'
    ensures QuoteFrom(s, k) == Some(q)
    decreases q - k
  {
    if k < q { QuoteFromFinds(s, k + 1, q); }
  }

  /** When no match starts in [i, j), the search from i finds what the search from j finds. */
  lemma AttrFromSkips(s: string, key: string, i: nat, j: nat)
    requires i <= j <= |s|
    requires forall k :: i <= k < j ==> AttrMatchAt(s, key, k).None?
    ensures AttrFrom(s, key, i) == AttrFrom(s, key, j)
    decreases j - i
  {
    if i < j { AttrFromSkips(s, key, i + 1, j); }
  }

  /**
   * The attribute is the value of the FIRST match: present exactly when some start position matches,
   * and then equal to that position's value with no match before it. In particular it is absent when
   * the key does not occur, or when every occurrence has the empty value `""`.
   */
  lemma {:induction false} AttrIsFirstMatch(s: string, key: string)
    ensures Attr(s, key).None? <==> forall i :: 0 <= i <= |s| ==> AttrMatchAt(s, key, i).None?
    ensures Attr(s, key).Some? ==>
      exists i :: 0 <= i <= |s| && AttrMatchAt(s, key, i) == Attr(s, key)
        && forall j :: 0 <= j < i ==> AttrMatchAt(s, key, j).None?
  {
    if forall i :: 0 <= i <= |s| ==> AttrMatchAt(s, key, i).None? {
      AttrFromSkips(s, key, 0, |s|);
    } else {
      var i :| 0 <= i <= |s| && AttrMatchAt(s, key, i).Some?;
      while 0 < i && exists j :: 0 <= j < i && AttrMatchAt(s, key, j).Some?
        invariant 0 <= i <= |s| && AttrMatchAt(s, key, i).Some?
        decreases i
      {
        var j :| 0 <= j < i && AttrMatchAt(s, key, j).Some?;
        i := j;
      }
      AttrFromSkips(s, key, 0, i);
    }
  }

  // ---------------------------------------------------------------- attribute order

  /** The rendered attribute `KEY value"`, e.g. `tvg-logo="http://x/l.png"`. */
  function Attribute(key: string, v: string): string {
    key + v + "\""
  }

  /** KEY ends in `="` and has no other quote, as both attribute keys do. */
  predicate IsKey(key: string) {
    |key| >= 3 && key[|key| - 1] == '"' && key[|key| - 2] == '=' && QuoteFree(key[..|key| - 1])
  }

  /** A value the order lemma admits: one the pattern accepts, and not ending in '='. */
  predicate IsPlainValue(v: string) {
    IsAttrValue(v) && v[|v| - 1] != '='
  }

  lemma NotKeyAt(s: string, key: string, j: int, t: int)
    requires 0 <= t < |key| && 0 <= j && j + t < |s| && s[j + t] != key[t]
    ensures !ContainsAt(s, key, j)
  {
  }

  /** A match at i with no occurrence of KEY before it is the one the search returns. */
  lemma AttrFoundAt(s: string, key: string, i: nat, v: string)
    requires i <= |s| && IsAttrValue(v) && ContainsAt(s, key + v + "\"", i)
    requires forall j :: 0 <= j < i ==> !ContainsAt(s, key, j)
    ensures Attr(s, key) == Some(v)
  {
    AttrMatchAtComplete(s, key, i, v);
    AttrFromSkips(s, key, 0, i);
  }

  /** The key does not occur anywhere in x. */
  predicate KeyFree(x: string, key: string) {
    forall j :: 0 <= j <= |x| ==> !ContainsAt(x, key, j)
  }

  /** An occurrence that would lie wholly inside a key-free piece of a line is not there. */
  lemma KeyFreeInside(u: string, x: string, z: string, key: string, j: nat)
    requires KeyFree(x, key) && j + |key| <= |x|
    ensures !ContainsAt(u + x + z, key, |u| + j)
  {
    var s := u + x + z;
    var seen, inside := s[|u| + j..|u| + j + |key|], x[j..j + |key|];
    forall t | 0 <= t < |key| ensures seen[t] == inside[t] {
      assert s[|u| + j + t] == x[j + t];
    }
    assert seen == inside;
    assert !ContainsAt(x, key, j);
  }

  /** A key occurrence starting before `pos` cannot reach past the quote at `pos`. */
  lemma KeyStopsAtQuote(s: string, key: string, j: nat, pos: nat)
    requires IsKey(key) && j <= pos < j + |key| - 1 && pos < |s| && s[pos] == '"'
    ensures !ContainsAt(s, key, j)
  {
    assert key[pos - j] == key[..|key| - 1][pos - j];
    NotKeyAt(s, key, j, pos - j);
  }

  /** A key cannot occur in text that lacks one of its characters. */
  lemma KeyFreeWithout(x: string, key: string, t: nat)
    requires t < |key| && key[t] !in x
    ensures KeyFree(x, key)
  {
    forall j | 0 <= j <= |x| ensures !ContainsAt(x, key, j) {
      if j + |key| <= |x| {
        assert x[j..j + |key|][t] == x[j + t];
      }
    }
  }

  lemma AttrFirstQuoted(pre: string, key: string, v: string, rest: string)
    requires KeyFree(pre, key) && IsKey(key) && IsAttrValue(v)
    ensures Attr(pre + Attribute(key, v) + rest, key) == Some(v)
  {
    var w := Attribute(key, v);
    var s := pre + w + rest;
    var i := |pre|;
    assert s[i..i + |w|] == w;
    assert s == [] + pre + (w + rest);
    forall j | 0 <= j < i ensures !ContainsAt(s, key, j) {
      var q := j + |key| - 1;
      if q < |pre| {
        KeyFreeInside([], pre, w + rest, key, j);
      } else {
        assert s[q] == key[q - |pre|] == key[..|key| - 1][q - |pre|];
        NotKeyAt(s, key, j, |key| - 1);
      }
    }
    AttrFoundAt(s, key, i, v);
  }

  lemma AttrAfterOther(pre: string, other: string, w: string, mid: string, key: string, v: string, rest: string)
    requires KeyFree(pre, key) && KeyFree(mid, key) && IsKey(key) && IsKey(other)
    requires IsPlainValue(w) && IsAttrValue(v)
    requires key[|key| - 3] != other[|other| - 3]
    ensures Attr(pre + Attribute(other, w) + mid + Attribute(key, v) + rest, key) == Some(v)
  {
    var a := Attribute(other, w);
    var b := Attribute(key, v);
    var s := pre + a + mid + b + rest;
    var i := |pre| + |a| + |mid|;
    assert s[i..i + |b|] == b;
    assert s == [] + pre + (a + mid + b + rest);
    assert s == (pre + a) + mid + (b + rest);
    forall j | 0 <= j < i ensures !ContainsAt(s, key, j) {
      var q := j + |key| - 1;
      var o := |pre| + |other|;
      if q < |pre| {
        KeyFreeInside([], pre, a + mid + b + rest, key, j);
      } else if q < o - 1 {
        assert s[q] == other[q - |pre|] == other[..|other| - 1][q - |pre|];
        NotKeyAt(s, key, j, |key| - 1);
      } else if q == o - 1 {
        assert s[q - 2] == other[|other| - 3];
        NotKeyAt(s, key, j, |key| - 3);
      } else if q < o + |w| {
        assert s[q] == w[q - o];
        NotKeyAt(s, key, j, |key| - 1);
      } else if q == o + |w| {
        assert s[q - 1] == w[|w| - 1];
        NotKeyAt(s, key, j, |key| - 2);
      } else if q < i {
        if j >= |pre| + |a| {
          KeyFreeInside(pre + a, mid, b + rest, key, j - |pre| - |a|);
        } else {
          assert s[o + |w|] == '"';
          KeyStopsAtQuote(s, key, j, o + |w|);
        }
      } else {
        assert s[q] == key[q - i] == key[..|key| - 1][q - i];
        NotKeyAt(s, key, j, |key| - 1);
      }
    }
    AttrFoundAt(s, key, i, v);
  }

  /** Neither attribute key occurs in x, as in the other attributes and text of a playlist line. */
  predicate NoAttributeKey(x: string) {
    KeyFree(x, LogoKey) && KeyFree(x, GroupKey)
  }

  /**
   * The two attribute searches are independent: with the logo and group attributes in either order,
   * and neither key occurring in the text before them or between them (other attributes such as
   * `tvg-id="…"` may), each yields its own value.
   */
  lemma AttributeOrderIrrelevant(pre: string, mid: string, post: string, logo: string, group: string)
    requires NoAttributeKey(pre) && NoAttributeKey(mid)
    requires IsPlainValue(logo) && IsPlainValue(group)
    ensures var a := Attribute(LogoKey, logo);
            var b := Attribute(GroupKey, group);
            && ParseExtInfLine(pre + a + mid + b + post).logo == Some(logo)
            && ParseExtInfLine(pre + a + mid + b + post).group == Some(group)
            && ParseExtInfLine(pre + b + mid + a + post).logo == Some(logo)
            && ParseExtInfLine(pre + b + mid + a + post).group == Some(group)
  {
    var a := Attribute(LogoKey, logo);
    var b := Attribute(GroupKey, group);
    assert IsKey(LogoKey) && IsKey(GroupKey);
    assert LogoKey[|LogoKey| - 3] == 'o' && GroupKey[|GroupKey| - 3] == 'e';
    assert pre + a + mid + b + post == pre + a + (mid + b + post);
    assert pre + b + mid + a + post == pre + b + (mid + a + post);
    AttrFirstQuoted(pre, LogoKey, logo, mid + b + post);
    AttrFirstQuoted(pre, GroupKey, group, mid + a + post);
    AttrAfterOther(pre, LogoKey, logo, mid, GroupKey, group, post);
    AttrAfterOther(pre, GroupKey, group, mid, LogoKey, logo, post);
  }

  /** The text before the attributes of a typical line: `#EXTINF:-1 tvg-id="x.us" tvg-name="X" `. */
  function TypicalPrefix(): string {
    "#EXTINF:-1 " + "tvg-id=\"x.us\" " + "tvg-name=\"X\" "
  }

  lemma TypicalPrefixHasNoLogoKey()
    ensures KeyFree(TypicalPrefix(), LogoKey)
  {
    assert 'l' !in "#EXTINF:-1 " && 'l' !in "tvg-id=\"x.us\" " && 'l' !in "tvg-name=\"X\" ";
    assert LogoKey[4] == 'l';
    KeyFreeWithout(TypicalPrefix(), LogoKey, 4);
  }

  lemma TypicalPrefixHasNoGroupKey()
    ensures KeyFree(TypicalPrefix(), GroupKey)
  {
    assert 'r' !in "#EXTINF:-1 " && 'r' !in "tvg-id=\"x.us\" " && 'r' !in "tvg-name=\"X\" ";
    assert GroupKey[1] == 'r';
    KeyFreeWithout(TypicalPrefix(), GroupKey, 1);
  }

  lemma SpaceHasNoAttributeKey()
    ensures NoAttributeKey(" ")
  {
    assert LogoKey[4] == 'l' && GroupKey[1] == 'r';
    KeyFreeWithout(" ", LogoKey, 4);
    KeyFreeWithout(" ", GroupKey, 1);
  }

  /**
   * A worked case, a line shaped as playlists write them: other quoted attributes come first, and
   * both searches still find their values.
   */
  lemma TypicalLine()
    ensures var info := ParseExtInfLine("#EXTINF:-1 " + "tvg-id=\"x.us\" " + "tvg-name=\"X\" "
                                        + "tvg-logo=\"L\"" + " " + "group-title=\"G\"" + ",X");
      info.logo == Some("L") && info.group == Some("G")
  {
    TypicalPrefixHasNoLogoKey();
    TypicalPrefixHasNoGroupKey();
    SpaceHasNoAttributeKey();
    AttributeOrderIrrelevant(TypicalPrefix(), " ", ",X", "L", "G");
    assert Attribute(LogoKey, "L") == "tvg-logo=\"L\"";
    assert Attribute(GroupKey, "G") == "group-title=\"G\"";
  }
}
