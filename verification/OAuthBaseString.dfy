/** The OAuth 1.0a signature base string: percent-encoding, parameter normalisation and joining. */
module OAuthBaseString {
  import opened Collections
  import opened Sorting
  import opened Text

  /** Text as its UTF-8 bytes. */
  type Bytes = seq<Byte>

  // ---- Percent-encoding (section 3.6 of RFC 5849) ---------------------------------------------

  predicate Unreserved(b: Byte) {
    || 'A' as int <= b <= 'Z' as int || 'a' as int <= b <= 'z' as int || '0' as int <= b <= '9' as int
    || b == '-' as int || b == '.' as int || b == '_' as int || b == '~' as int
  }

  function Hex(v: int): char
    requires 0 <= v < 16
  {
    if v < 10 then '0' + v as char else 'A' + (v - 10) as char
  }

  function Unhex(c: char): int {
    if '0' <= c <= '9' then (c - '0') as int else if 'A' <= c <= 'F' then (c - 'A') as int + 10 else 0
  }

  function PercentByte(b: Byte): string {
    if Unreserved(b) then [b as char] else ['%', Hex(b / 16), Hex(b % 16)]
  }

  function Percent(bs: Bytes): string {
    if bs == [] then [] else PercentByte(bs[0]) + Percent(bs[1..])
  }

  /** Reads an encoding back. */
  ghost function Unpercent(s: string): seq<int> {
    if s == [] then []
    else if s[0] == '%' && |s| >= 3 then [Unhex(s[1]) * 16 + Unhex(s[2])] + Unpercent(s[3..])
    else [s[0] as int] + Unpercent(s[1..])
  }

  lemma HexRoundTrip(v: int)
    requires 0 <= v < 16
    ensures Unhex(Hex(v)) == v && Plain(Hex(v))
  {
  }

  /** The characters an encoding can hold: never '&', '=' or anything outside ASCII. */
  predicate Plain(c: char) {
    c < 128 as char && c != '&' && c != '='
  }

  ghost predicate AllPlain(s: string) {
    forall i | 0 <= i < |s| :: Plain(s[i])
  }

  lemma PercentByteIs(b: Byte, rest: string)
    ensures AllPlain(PercentByte(b)) && Unpercent(PercentByte(b) + rest) == [b as int] + Unpercent(rest)
  {
    var s := PercentByte(b) + rest;
    if Unreserved(b) {
      assert s[1..] == rest;
    } else {
      HexRoundTrip(b / 16);
      HexRoundTrip(b % 16);
      assert s[0] == '%' && s[1] == Hex(b / 16) && s[2] == Hex(b % 16) && s[3..] == rest;
    }
  }

  lemma {:induction false} PercentIs(bs: Bytes)
    ensures AllPlain(Percent(bs)) && |Unpercent(Percent(bs))| == |bs|
    ensures forall i | 0 <= i < |bs| :: Unpercent(Percent(bs))[i] == bs[i]
  {
    if bs != [] {
      PercentIs(bs[1..]);
      PercentByteIs(bs[0], Percent(bs[1..]));
    }
  }

  /** Percent-encoding never maps two byte strings to one text. */
  lemma PercentInjective(a: Bytes, b: Bytes)
    ensures Percent(a) == Percent(b) <==> a == b
  {
    PercentIs(a);
    PercentIs(b);
  }

  // ---- Splitting at a separator ---------------------------------------------------------------------

  lemma SplitUnique(c: char, a: string, x: string, b: string, y: string)
    requires c !in a && c !in b && a + [c] + x == b + [c] + y
    ensures a == b && x == y
  {
    var s, t := a + [c] + x, b + [c] + y;
    assert s[|a|] == c && t[|b|] == c;
    assert forall i | 0 <= i < |a| :: s[i] == a[i] && s[i] != c;
    assert forall i | 0 <= i < |b| :: t[i] == b[i] && t[i] != c;
    assert |a| == |b|;
    assert a == s[..|a|] && b == t[..|b|] && x == s[|a| + 1..] && y == t[|b| + 1..];
  }

  lemma SeparatorDecides(c: char, a: string, b: string, y: string)
    requires c !in a
    ensures a != b + [c] + y
  {
    assert (b + [c] + y)[|b|] == c;
  }

  lemma PlainHolds(s: string)
    requires AllPlain(s)
    ensures '&' !in s && '=' !in s
  {
  }

  // ---- Parameter normalisation (section 3.4.1.3.2 of RFC 5849) -----------------------------------------

  type Pair = (string, string)

  /** Tuple order: by encoded name, then by encoded value. */
  predicate PairLeq(a: Pair, b: Pair) {
    if a.0 == b.0 then LexLeq(a.1, b.1) else LexLeq(a.0, b.0)
  }

  lemma PairIsTotalOrder()
    ensures TotalOrder(PairLeq)
  {
    LexIsTotalOrder();
    forall a: Pair, b: Pair, c: Pair | PairLeq(a, b) && PairLeq(b, c)
      ensures PairLeq(a, c)
    {
      if a.0 == c.0 && a.0 != b.0 {
        LexAntisymmetric(a.0, b.0);
      } else if a.0 == b.0 == c.0 {
        LexTransitive(a.1, b.1, c.1);
      } else if a.0 != b.0 && b.0 != c.0 {
        LexTransitive(a.0, b.0, c.0);
      }
    }
    forall a: Pair, b: Pair | PairLeq(a, b) && PairLeq(b, a)
      ensures a == b
    {
      if a.0 == b.0 { LexAntisymmetric(a.1, b.1); } else { LexAntisymmetric(a.0, b.0); }
    }
    forall a: Pair, b: Pair
      ensures PairLeq(a, b) || PairLeq(b, a)
    {
      LexTotal(a.0, b.0);
      LexTotal(a.1, b.1);
    }
  }

  type Param = (Bytes, Bytes)

  function EncodePair(p: Param): Pair {
    (Percent(p.0), Percent(p.1))
  }

  function EncodeAll(ps: seq<Param>): seq<Pair> {
    seq(|ps|, i requires 0 <= i < |ps| => EncodePair(ps[i]))
  }

  /** Joins name=value pairs with '&'. */
  function Join(ps: seq<Pair>): string {
    if ps == [] then []
    else if |ps| == 1 then ps[0].0 + "=" + ps[0].1
    else (ps[0].0 + "=" + ps[0].1) + "&" + Join(ps[1..])
  }

  function ParamString(ps: seq<Param>): string {
    Join(Sort(PairLeq, EncodeAll(ps)))
  }

  ghost predicate PlainPair(p: Pair) {
    AllPlain(p.0) && AllPlain(p.1)
  }

  ghost predicate PlainPairs(ps: seq<Pair>) {
    forall i | 0 <= i < |ps| :: PlainPair(ps[i])
  }

  lemma PairText(p: Pair, q: Pair)
    requires PlainPair(p) && PlainPair(q)
    ensures '&' !in p.0 + "=" + p.1
    ensures p.0 + "=" + p.1 == q.0 + "=" + q.1 ==> p == q
  {
    PlainHolds(p.0);
    PlainHolds(p.1);
    PlainHolds(q.0);
    if p.0 + "=" + p.1 == q.0 + "=" + q.1 {
      SplitUnique('=', p.0, p.1, q.0, q.1);
    }
  }

  lemma {:induction false} JoinInjective(a: seq<Pair>, b: seq<Pair>)
    requires PlainPairs(a) && PlainPairs(b) && Join(a) == Join(b)
    ensures a == b
    decreases |a|
  {
    if a == [] || b == [] {
      assert Join(a) == [] && Join(b) == [];
      assert a == b by {
        if a != [] { JoinNonempty(a); }
        if b != [] { JoinNonempty(b); }
      }
    } else {
      JoinHeads(a, b);
      if |a| > 1 {
        assert PlainPairs(a[1..]) && PlainPairs(b[1..]);
        JoinInjective(a[1..], b[1..]);
      }
      assert a == [a[0]] + a[1..] && b == [b[0]] + b[1..];
    }
  }

  lemma JoinNonempty(a: seq<Pair>)
    requires a != []
    ensures Join(a) != []
  {
  }

  lemma JoinHeads(a: seq<Pair>, b: seq<Pair>)
    requires a != [] && b != [] && PlainPairs(a) && PlainPairs(b) && Join(a) == Join(b)
    ensures a[0] == b[0] && (|a| == 1 <==> |b| == 1) && (|a| > 1 ==> Join(a[1..]) == Join(b[1..]))
  {
    var x, y := a[0].0 + "=" + a[0].1, b[0].0 + "=" + b[0].1;
    PairText(a[0], b[0]);
    PairText(b[0], a[0]);
    if |b| > 1 {
      SeparatorDecides('&', x, y, Join(b[1..]));
    }
    if |a| > 1 {
      SeparatorDecides('&', y, x, Join(a[1..]));
    }
    if |a| > 1 && |b| > 1 {
      SplitUnique('&', x, Join(a[1..]), y, Join(b[1..]));
    }
  }

  lemma SortedStaysPlain(ps: seq<Param>)
    ensures PlainPairs(Sort(PairLeq, EncodeAll(ps)))
  {
    var enc := EncodeAll(ps);
    var sorted := Sort(PairLeq, enc);
    SortPermutes(PairLeq, enc);
    forall i | 0 <= i < |sorted|
      ensures PlainPair(sorted[i])
    {
      assert sorted[i] in multiset(sorted);
      var k :| 0 <= k < |enc| && enc[k] == sorted[i];
      PercentIs(ps[k].0);
      PercentIs(ps[k].1);
    }
  }

  // ---- Encoding keeps the multiset of parameters -----------------------------------------------------------

  lemma EncodePairInjective(p: Param, q: Param)
    ensures EncodePair(p) == EncodePair(q) <==> p == q
  {
    PercentInjective(p.0, q.0);
    PercentInjective(p.1, q.1);
  }

  lemma EncodedLast(ps: seq<Param>)
    requires ps != []
    ensures EncodeAll(ps) == EncodeAll(Init(ps)) + [EncodePair(Last(ps))]
  {
  }

  lemma CountPush<T>(s: seq<T>, x: T, y: T)
    ensures multiset(s + [x])[y] == multiset(s)[y] + (if x == y then 1 else 0)
  {
  }

  lemma {:induction false} EncodedCount(ps: seq<Param>, p: Param)
    ensures multiset(EncodeAll(ps))[EncodePair(p)] == multiset(ps)[p]
  {
    if ps != [] {
      EncodedCount(Init(ps), p);
      EncodePairInjective(Last(ps), p);
      InitLast(ps);
      EncodedLast(ps);
      CountPush(Init(ps), Last(ps), p);
      CountPush(EncodeAll(Init(ps)), EncodePair(Last(ps)), EncodePair(p));
    }
  }

  lemma EncodedMultiset(ps: seq<Param>, qs: seq<Param>)
    ensures multiset(EncodeAll(ps)) == multiset(EncodeAll(qs)) <==> multiset(ps) == multiset(qs)
  {
    if multiset(EncodeAll(ps)) == multiset(EncodeAll(qs)) {
      forall p: Param
        ensures multiset(ps)[p] == multiset(qs)[p]
      {
        EncodedCount(ps, p);
        EncodedCount(qs, p);
      }
    }
    if multiset(ps) == multiset(qs) {
      forall e: Pair
        ensures multiset(EncodeAll(ps))[e] == multiset(EncodeAll(qs))[e]
      {
        if p :| EncodePair(p) == e {
          EncodedCount(ps, p);
          EncodedCount(qs, p);
        } else {
          assert forall rs: seq<Param> :: e !in EncodeAll(rs);
          assert e !in multiset(EncodeAll(ps)) && e !in multiset(EncodeAll(qs));
        }
      }
    }
  }

  /** The normalised parameter string stands for the multiset of parameters, no more and no less. */
  lemma ParamStringIff(ps: seq<Param>, qs: seq<Param>)
    ensures ParamString(ps) == ParamString(qs) <==> multiset(ps) == multiset(qs)
  {
    PairIsTotalOrder();
    SortCanonical(PairLeq, EncodeAll(ps), EncodeAll(qs));
    EncodedMultiset(ps, qs);
    if ParamString(ps) == ParamString(qs) {
      SortedStaysPlain(ps);
      SortedStaysPlain(qs);
      JoinInjective(Sort(PairLeq, EncodeAll(ps)), Sort(PairLeq, EncodeAll(qs)));
    }
  }

  // ---- Gathering the parameters ------------------------------------------------------------------------------

  /** A query value: several values under one name, one value, or none. */
  datatype QueryValue = Many(values: seq<Bytes>) | One(value: Bytes) | Absent

  type Query = seq<(Bytes, QueryValue)>

  function ParamsOf(entry: (Bytes, QueryValue)): seq<Param> {
    match entry.1
    case Many(values) => seq(|values|, i requires 0 <= i < |values| => (entry.0, values[i]))
    case One(value) => [(entry.0, value)]
    case Absent => [(entry.0, [])]
  }

  ghost function AllParams(oauth: seq<Param>, query: Query): seq<Param> {
    if query == [] then oauth else AllParams(oauth, Init(query)) + ParamsOf(Last(query))
  }

  method CollectParams(oauth: seq<Param>, query: Query) returns (all: seq<Param>)
    ensures all == AllParams(oauth, query)
  {
    all := oauth;
    var i := 0;
    while i < |query|
      invariant 0 <= i <= |query|
      invariant all == AllParams(oauth, query[..i])
    {
      assert Init(query[..i + 1]) == query[..i];
      all := all + ParamsOf(query[i]);
      i := i + 1;
    }
    TakeAll(query, i);
  }

  lemma {:induction false} AllParamsRemove(oauth: seq<Param>, query: Query, k: nat)
    requires k < |query|
    ensures multiset(AllParams(oauth, query)) ==
            multiset(AllParams(oauth, query[..k] + query[k + 1..])) + multiset(ParamsOf(query[k]))
    decreases |query|
  {
    AllParamsCount(oauth, query);
    if k == |query| - 1 {
      assert query[..k] + query[k + 1..] == Init(query);
    } else {
      AllParamsRemove(oauth, Init(query), k);
      RemoveInit(query, k);
      AllParamsCount(oauth, query[..k] + query[k + 1..]);
    }
  }

  lemma AllParamsCount(oauth: seq<Param>, query: Query)
    requires query != []
    ensures multiset(AllParams(oauth, query)) == multiset(AllParams(oauth, Init(query))) + multiset(ParamsOf(Last(query)))
  {
  }

  lemma RemoveInit<T>(s: seq<T>, k: nat)
    requires k < |s| - 1
    ensures var left := s[..k] + s[k + 1..];
      left != [] && Init(left) == Init(s)[..k] + Init(s)[k + 1..] && Last(left) == Last(s) && Init(s)[k] == s[k]
  {
  }

  /** The order of the query entries does not change which parameters are signed. */
  lemma {:induction false} QueryOrderIrrelevant(oauth: seq<Param>, a: Query, b: Query)
    requires multiset(a) == multiset(b)
    ensures multiset(AllParams(oauth, a)) == multiset(AllParams(oauth, b))
    decreases |a|
  {
    assert |a| == |multiset(a)| == |multiset(b)| == |b|;
    if a != [] {
      var x := Last(a);
      assert x in multiset(a);
      var k :| 0 <= k < |b| && b[k] == x;
      var b' := b[..k] + b[k + 1..];
      InitLast(a);
      assert b == b[..k] + [x] + b[k + 1..];
      assert multiset(b') == multiset(b) - multiset{x};
      assert multiset(Init(a)) == multiset(a) - multiset{x};
      QueryOrderIrrelevant(oauth, Init(a), b');
      AllParamsRemove(oauth, b, k);
    }
  }

  // ---- The base string -------------------------------------------------------------------------------------------

  ghost predicate AsciiText(s: string) {
    forall i | 0 <= i < |s| :: s[i] < 128 as char
  }

  function AsciiBytes(s: string): Bytes
    requires AsciiText(s)
  {
    seq(|s|, i requires 0 <= i < |s| => s[i] as int)
  }

  lemma {:induction false} JoinIsAscii(ps: seq<Pair>)
    requires PlainPairs(ps)
    ensures AsciiText(Join(ps))
  {
    if ps != [] {
      assert PlainPair(ps[0]) && PlainPairs(ps[1..]);
      JoinIsAscii(ps[1..]);
    }
  }

  lemma ParamStringIsAscii(ps: seq<Param>)
    ensures AsciiText(ParamString(ps))
  {
    SortedStaysPlain(ps);
    JoinIsAscii(Sort(PairLeq, EncodeAll(ps)));
  }

  function BaseString(verb: string, baseUrl: Bytes, ps: seq<Param>): string {
    ParamStringIsAscii(ps);
    Upper(verb) + "&" + Percent(baseUrl) + "&" + Percent(AsciiBytes(ParamString(ps)))
  }

  lemma AsciiBytesInjective(a: string, b: string)
    requires AsciiText(a) && AsciiText(b)
    ensures AsciiBytes(a) == AsciiBytes(b) <==> a == b
  {
    if AsciiBytes(a) == AsciiBytes(b) {
      assert |a| == |b|;
      forall i | 0 <= i < |a|
        ensures a[i] == b[i]
      {
        assert AsciiBytes(a)[i] == AsciiBytes(b)[i];
      }
    }
  }

  lemma UpperKeepsAmpersand(verb: string)
    requires '&' !in verb
    ensures '&' !in Upper(verb)
  {
  }

  lemma BaseStringParts(verb: string, url: Bytes, ps: seq<Param>)
    requires '&' !in verb
    ensures BaseString(verb, url, ps) == Upper(verb) + "&" + (Percent(url) + "&" + Percent(PsBytes(ps)))
    ensures '&' !in Upper(verb) && '&' !in Percent(url)
  {
    PercentIs(url);
    UpperKeepsAmpersand(verb);
  }

  function PsBytes(ps: seq<Param>): Bytes {
    ParamStringIsAscii(ps);
    AsciiBytes(ParamString(ps))
  }

  /**
   Two requests have the same base string exactly when they agree on the method, the
   base URL and the multiset of parameters; so reordering never changes it and nothing
   else can be confused.
   */
  lemma BaseStringIff(v1: string, u1: Bytes, p1: seq<Param>, v2: string, u2: Bytes, p2: seq<Param>)
    requires '&' !in v1 && '&' !in v2
    ensures BaseString(v1, u1, p1) == BaseString(v2, u2, p2) <==>
            Upper(v1) == Upper(v2) && u1 == u2 && multiset(p1) == multiset(p2)
  {
    BaseStringParts(v1, u1, p1);
    BaseStringParts(v2, u2, p2);
    ParamStringIff(p1, p2);
    PercentInjective(u1, u2);
    PercentInjective(PsBytes(p1), PsBytes(p2));
    ParamStringIsAscii(p1);
    ParamStringIsAscii(p2);
    AsciiBytesInjective(ParamString(p1), ParamString(p2));
    if BaseString(v1, u1, p1) == BaseString(v2, u2, p2) {
      SplitUnique('&', Upper(v1), Percent(u1) + "&" + Percent(PsBytes(p1)), Upper(v2), Percent(u2) + "&" + Percent(PsBytes(p2)));
      SplitUnique('&', Percent(u1), Percent(PsBytes(p1)), Percent(u2), Percent(PsBytes(p2)));
    }
  }

  // ---- The exact spelling -----------------------------------------------------------------------------------------

  const UNRESERVED := UPPERCASE + LOWERCASE + DIGITS + "-._~"

  const HEX := "0123456789ABCDEF"

  lemma {:induction false} PercentAppend(a: Bytes, b: Bytes)
    ensures Percent(a + b) == Percent(a) + Percent(b)
    decreases |a|
  {
    if a == [] {
      assert a + b == b;
    } else {
      assert (a + b)[1..] == a[1..] + b;
      PercentAppend(a[1..], b);
    }
  }

  /** The unreserved characters of section 3.6 of RFC 5849 stand for themselves, every other byte for its two capital hex digits. */
  lemma PercentSpells(bs: Bytes, b: Byte)
    ensures Percent([]) == ""
    ensures Percent(bs + [b]) == Percent(bs) + (if b as char in UNRESERVED then [b as char] else ['%', HEX[b / 16], HEX[b % 16]])
  {
    PercentAppend(bs, [b]);
    assert [b][1..] == [];
    UnreservedIs(b);
    HexIs(b / 16);
    HexIs(b % 16);
  }

  lemma UnreservedIs(b: Byte)
    ensures Unreserved(b) <==> b as char in UNRESERVED
  {
    UpperListed(b as char);
    LowerListed(b as char);
    DecimalListed(b as char);
    var marks := "-._~";
    assert marks[0] == '-' && marks[1] == '.' && marks[2] == '_' && marks[3] == '~';
    assert b as char in UNRESERVED <==>
      b as char in UPPERCASE || b as char in LOWERCASE || b as char in DIGITS || b as char in marks;
  }

  lemma HexIs(v: int)
    requires 0 <= v < 16
    ensures HEX[v] == Hex(v)
  {
  }

  lemma {:induction false} JoinAppend(a: seq<Pair>, b: seq<Pair>)
    requires a != [] && b != []
    ensures Join(a + b) == Join(a) + "&" + Join(b)
    decreases |a|
  {
    if |a| == 1 {
      assert (a + b)[1..] == b;
    } else {
      assert (a + b)[1..] == a[1..] + b;
      JoinAppend(a[1..], b);
    }
  }

  /** Names come before values, with '=' between them and '&' between the pairs. */
  lemma JoinSpells(ps: seq<Pair>, p: Pair)
    ensures Join([]) == "" && Join([p]) == p.0 + "=" + p.1
    ensures ps != [] ==> Join(ps + [p]) == Join(ps) + "&" + (p.0 + "=" + p.1)
  {
    if ps != [] { JoinAppend(ps, [p]); }
  }

  /** The pairs of a parameter string stand in code-point order of their encoded names, then of their encoded values. */
  ghost predicate InCodeOrder(a: Pair, b: Pair) {
    CodeBefore(a.0, b.0) || (a.0 == b.0 && (a.1 == b.1 || CodeBefore(a.1, b.1)))
  }

  /** The normalised parameters are the encoded ones, in ascending code-point order, joined. */
  lemma ParamStringSpells(ps: seq<Param>) returns (pairs: seq<Pair>)
    ensures ParamString(ps) == Join(pairs)
    ensures multiset(pairs) == multiset(seq(|ps|, i requires 0 <= i < |ps| => (Percent(ps[i].0), Percent(ps[i].1))))
    ensures forall i, j | 0 <= i < j < |pairs| :: InCodeOrder(pairs[i], pairs[j])
  {
    pairs := Sort(PairLeq, EncodeAll(ps));
    PairIsTotalOrder();
    SortPermutes(PairLeq, EncodeAll(ps));
    SortSorts(PairLeq, EncodeAll(ps));
    assert EncodeAll(ps) == seq(|ps|, i requires 0 <= i < |ps| => (Percent(ps[i].0), Percent(ps[i].1)));
    forall i, j | 0 <= i < j < |pairs|
      ensures InCodeOrder(pairs[i], pairs[j])
    {
      assert PairLeq(pairs[i], pairs[j]);
      LexIsCodeOrder(pairs[i].0, pairs[j].0);
      LexIsCodeOrder(pairs[i].1, pairs[j].1);
    }
  }

  /** Three parts separated by '&': the method, then what decodes to the base URL, then what decodes to the parameter string. */
  lemma BaseStringReads(verb: string, url: Bytes, ps: seq<Param>) returns (second: string, third: string)
    ensures BaseString(verb, url, ps) == Upper(verb) + "&" + second + "&" + third
    ensures '&' !in second && '&' !in third
    ensures |Unpercent(second)| == |url| && forall i | 0 <= i < |url| :: Unpercent(second)[i] == url[i]
    ensures |Unpercent(third)| == |ParamString(ps)| && forall i | 0 <= i < |ParamString(ps)| :: Unpercent(third)[i] == ParamString(ps)[i] as int
  {
    second, third := Percent(url), Percent(PsBytes(ps));
    PercentIs(url);
    PercentIs(PsBytes(ps));
    ParamStringIsAscii(ps);
  }

  /** One more query entry adds its values in order under its name, one blank value when it has none. */
  lemma QueryEntryAdds(oauth: seq<Param>, query: Query, name: Bytes, value: QueryValue) returns (added: seq<Param>)
    ensures AllParams(oauth, []) == oauth && AllParams(oauth, query + [(name, value)]) == AllParams(oauth, query) + added
    ensures value.Many? ==> |added| == |value.values| && forall i | 0 <= i < |added| :: added[i] == (name, value.values[i])
    ensures value.One? ==> added == [(name, value.value)]
    ensures value.Absent? ==> added == [(name, [])]
  {
    added := ParamsOf((name, value));
    assert Init(query + [(name, value)]) == query;
  }
}
