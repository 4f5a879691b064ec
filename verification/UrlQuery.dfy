/**
 Query strings: percent-encoding (section 2.1 of RFC 3986, with a space written as a plus sign),
 encoding with sorted keys, and parsing that skips what it cannot read.
 */
module UrlQuery {
  import opened Collections

  /** Strings are sequences of bytes. */
  type Octet = c: char | c as int < 256
  type Text = seq<Octet>

  /** Every key with its values, in order. */
  type Query = map<Text, seq<Text>>

  // ---------- Percent-encoding ----------

  predicate Unreserved(c: Octet) {
    'a' <= c <= 'z' || 'A' <= c <= 'Z' || '0' <= c <= '9' || c == '-' || c == '_' || c == '.' || c == '~'
  }

  function HexDigit(d: int): Octet
    requires 0 <= d < 16
  {
    if d < 10 then ('0' as int + d) as char else ('A' as int + d - 10) as char
  }

  function HexValue(c: Octet): Option<int> {
    if '0' <= c <= '9' then Some(c as int - '0' as int)
    else if 'A' <= c <= 'F' then Some(c as int - 'A' as int + 10)
    else if 'a' <= c <= 'f' then Some(c as int - 'a' as int + 10)
    else None
  }

  function Escaped(c: Octet): Text {
    if Unreserved(c) then [c]
    else if c == ' ' then ['+']
    else ['%', HexDigit(c as int / 16), HexDigit(c as int % 16)]
  }

  function Escape(s: Text): Text {
    if s == [] then [] else Escaped(s[0]) + Escape(s[1..])
  }

  /** Letters, digits and four marks stay; a space is a plus sign; any other byte is two upper-case hexadecimal digits. */
  lemma EscapedIs(c: Octet)
    ensures Escaped(c) ==
      if 'a' <= c <= 'z' || 'A' <= c <= 'Z' || '0' <= c <= '9' || c in "-_.~" then [c]
      else if c == ' ' then "+"
      else ['%', "0123456789ABCDEF"[c as int / 16], "0123456789ABCDEF"[c as int % 16]]
  {
  }

  /** Each digit may be of either case. */
  predicate Writes(c: Octet, d: int) {
    0 <= d < 16 && (c == "0123456789ABCDEF"[d] || c == "0123456789abcdef"[d])
  }

  /** Reading takes digits of either case, and a plus sign for a space. */
  lemma UnescapeReads(a: Octet, b: Octet, high: int, low: int, rest: Text)
    requires Writes(a, high) && Writes(b, low)
    ensures Unescape(['%', a, b] + rest) == if Unescape(rest).None? then None else Some([(16 * high + low) as char] + Unescape(rest).value)
    ensures Unescape("+" + rest) == if Unescape(rest).None? then None else Some(" " + Unescape(rest).value)
  {
    DigitReads(a, high);
    DigitReads(b, low);
    ReadsEscape(a, b, high, low, rest);
    assert ("+" + rest)[1..] == rest;
  }

  lemma DigitReads(c: Octet, d: int)
    requires Writes(c, d)
    ensures HexValue(c) == Some(d)
  {
  }

  lemma ReadsEscape(a: Octet, b: Octet, high: int, low: int, rest: Text)
    requires HexValue(a) == Some(high) && HexValue(b) == Some(low) && 0 <= high < 16 && 0 <= low < 16
    ensures Unescape(['%', a, b] + rest) == if Unescape(rest).None? then None else Some([(16 * high + low) as char] + Unescape(rest).value)
  {
    var s := ['%', a, b] + rest;
    assert s[0] == '%' && s[1] == a && s[2] == b && s[3..] == rest;
  }

  /** A percent sign without two hexadecimal digits makes the whole unreadable. */
  lemma UnescapeFails(a: Octet, b: Octet, rest: Text)
    requires a !in "0123456789ABCDEFabcdef" || b !in "0123456789ABCDEFabcdef"
    ensures Unescape("%").None? && Unescape(['%', a]).None? && Unescape(['%', a, b] + rest).None?
  {
    assert HexValue(a).Some? ==> a in "0123456789ABCDEFabcdef" by {
      HexCharacters(a);
    }
    assert HexValue(b).Some? ==> b in "0123456789ABCDEFabcdef" by {
      HexCharacters(b);
    }
  }

  lemma HexCharacters(c: Octet)
    ensures HexValue(c).Some? ==> c in "0123456789ABCDEFabcdef"
  {
    var all := "0123456789ABCDEFabcdef";
    if HexValue(c).Some? {
      var d := HexValue(c).value;
      assert c == all[d] || (d >= 10 && c == all[d + 6]);
    }
  }

  /** None when a percent sign is not followed by two hexadecimal digits. */
  function Unescape(s: Text): Option<Text>
    decreases |s|
  {
    if s == [] then Some([])
    else if s[0] == '%' then
      if |s| < 3 || HexValue(s[1]).None? || HexValue(s[2]).None? then None
      else
        var rest := Unescape(s[3..]);
        if rest.None? then None else Some([Byte(HexValue(s[1]).value, HexValue(s[2]).value)] + rest.value)
    else
      var rest := Unescape(s[1..]);
      if rest.None? then None else Some([if s[0] == '+' then ' ' else s[0]] + rest.value)
  }

  function Byte(high: int, low: int): Octet {
    if 0 <= high < 16 && 0 <= low < 16 then (16 * high + low) as char else '?'
  }

  lemma EscapedByteReads(c: Octet, rest: Text)
    ensures Unescape(Escaped(c) + rest) == if Unescape(rest).None? then None else Some([c] + Unescape(rest).value)
  {
    var s := Escaped(c) + rest;
    if !Unreserved(c) && c != ' ' {
      assert s[0] == '%' && s[1] == HexDigit(c as int / 16) && s[2] == HexDigit(c as int % 16);
      assert s[3..] == rest;
      assert HexValue(s[1]) == Some(c as int / 16) && HexValue(s[2]) == Some(c as int % 16);
      assert Byte(c as int / 16, c as int % 16) == c;
    } else {
      assert s[1..] == rest;
    }
  }

  lemma {:induction false} UnescapeOfEscape(s: Text)
    ensures Unescape(Escape(s)) == Some(s)
  {
    if s != [] {
      UnescapeOfEscape(s[1..]);
      EscapedByteReads(s[0], Escape(s[1..]));
      assert [s[0]] + s[1..] == s;
    }
  }

  /** Characters that separate nothing. */
  predicate Quiet(s: Text) {
    forall i | 0 <= i < |s| :: Unreserved(s[i]) || s[i] == '%' || s[i] == '+'
  }

  lemma {:induction false} EscapeIsQuiet(s: Text)
    ensures Quiet(Escape(s))
  {
    if s != [] {
      EscapeIsQuiet(s[1..]);
      assert Quiet(Escaped(s[0]));
    }
  }

  // ---------- Pairs ----------

  /** What precedes the first separator, and what follows it. */
  function Cut(s: Text, separator: Octet): (parts: (Text, Text))
    ensures |parts.1| <= |s| && (s != [] ==> |parts.1| < |s|)
  {
    if s == [] then ([], [])
    else if s[0] == separator then ([], s[1..])
    else
      var parts := Cut(s[1..], separator);
      ([s[0]] + parts.0, parts.1)
  }

  lemma {:induction false} CutAt(head: Text, separator: Octet, tail: Text)
    requires separator !in head
    ensures Cut(head + [separator] + tail, separator) == (head, tail)
    ensures Cut(head, separator) == (head, [])
  {
    var s := head + [separator] + tail;
    if head == [] {
      assert s[1..] == tail;
    } else {
      CutAt(head[1..], separator, tail);
      assert s[1..] == head[1..] + [separator] + tail;
      assert [head[0]] + head[1..] == head;
    }
  }

  type Pair = (Text, Text)

  function EncodePair(p: Pair): Text {
    Escape(p.0) + ['='] + Escape(p.1)
  }

  function EncodePairs(pairs: seq<Pair>): Text {
    if pairs == [] then []
    else if |pairs| == 1 then EncodePair(pairs[0])
    else EncodePair(pairs[0]) + ['&'] + EncodePairs(pairs[1..])
  }

  /** One piece between ampersands; pieces that are empty, hold a semicolon or do not unescape are skipped. */
  function ParsePiece(piece: Text): seq<Pair> {
    if piece == [] || ';' in piece then []
    else
      var parts := Cut(piece, '=');
      var key, value := Unescape(parts.0), Unescape(parts.1);
      if key.None? || value.None? then [] else [(key.value, value.value)]
  }

  function ParsePairs(s: Text): seq<Pair>
    decreases |s|
  {
    if s == [] then [] else ParsePiece(Cut(s, '&').0) + ParsePairs(Cut(s, '&').1)
  }

  lemma PieceReads(p: Pair)
    ensures ParsePiece(EncodePair(p)) == [p] && '&' !in EncodePair(p) && '\n' !in EncodePair(p)
  {
    var key, value := Escape(p.0), Escape(p.1);
    EscapeIsQuiet(p.0);
    EscapeIsQuiet(p.1);
    assert Lacks(key, '=') && Lacks(key, '&') && Lacks(key, ';') && Lacks(key, '\n');
    assert Lacks(value, '&') && Lacks(value, ';') && Lacks(value, '\n');
    CutAt(key, '=', value);
    UnescapeOfEscape(p.0);
    UnescapeOfEscape(p.1);
  }

  /** A piece is cut at its first equals sign, is a key alone without one, and is skipped if it holds a semicolon. */
  lemma PieceCases(key: Text, value: Text)
    requires '=' !in key
    ensures ';' !in key + ['='] + value ==>
      ParsePiece(key + ['='] + value) ==
        if Unescape(key).Some? && Unescape(value).Some? then [(Unescape(key).value, Unescape(value).value)] else []
    ensures ';' !in key && key != [] ==> ParsePiece(key) == if Unescape(key).Some? then [(Unescape(key).value, [])] else []
    ensures ';' in key ==> ParsePiece(key) == [] && ParsePiece(key + ['='] + value) == []
  {
    CutAt(key, '=', value);
    assert Unescape([]) == Some([]);
    if ';' in key {
      var i :| 0 <= i < |key| && key[i] == ';';
      assert (key + ['='] + value)[i] == ';';
    }
  }

  predicate Lacks(s: Text, c: Octet) {
    c !in s
  }

  lemma {:induction false} ParseOfEncodePairs(pairs: seq<Pair>)
    ensures ParsePairs(EncodePairs(pairs)) == pairs
    ensures '\n' !in EncodePairs(pairs)
  {
    if pairs != [] {
      var first := EncodePair(pairs[0]);
      PieceReads(pairs[0]);
      ParseOfEncodePairs(pairs[1..]);
      CutAt(first, '&', EncodePairs(pairs[1..]));
      assert [pairs[0]] + pairs[1..] == pairs;
    }
  }

  // ---------- Sorted keys ----------

  predicate AtMost(a: Text, b: Text) {
    a == [] || (b != [] && (a[0] < b[0] || (a[0] == b[0] && AtMost(a[1..], b[1..]))))
  }

  lemma {:induction false} AtMostIsTotal(a: Text, b: Text)
    ensures AtMost(a, b) || AtMost(b, a)
    ensures AtMost(a, b) && AtMost(b, a) ==> a == b
  {
    if a != [] && b != [] && a[0] == b[0] {
      AtMostIsTotal(a[1..], b[1..]);
      assert a == [a[0]] + a[1..] && b == [b[0]] + b[1..];
    }
  }

  lemma {:induction false} AtMostIsTransitive(a: Text, b: Text, c: Text)
    requires AtMost(a, b) && AtMost(b, c)
    ensures AtMost(a, c)
  {
    if a != [] && a[0] == b[0] && b[0] == c[0] {
      AtMostIsTransitive(a[1..], b[1..], c[1..]);
    }
  }

  predicate IsLeast(keys: set<Text>, k: Text) {
    k in keys && forall j | j in keys :: AtMost(k, j)
  }

  lemma {:induction false} LeastExists(keys: set<Text>) returns (k: Text)
    requires keys != {}
    ensures IsLeast(keys, k)
    decreases keys
  {
    k := Pick(keys);
    var first := k;
    AtMostIsTotal(k, k);
    if keys - {first} != {} {
      var m := LeastExists(keys - {first});
      AtMostIsTotal(first, m);
      if !AtMost(first, m) {
        k := m;
      }
      forall j | j in keys
        ensures AtMost(k, j)
      {
        if j != first && AtMost(first, m) {
          AtMostIsTransitive(first, m, j);
        }
      }
    } else {
      assert keys == {first};
    }
  }

  function Least(keys: set<Text>): (k: Text)
    requires keys != {}
    ensures IsLeast(keys, k)
  {
    LeastExistsAndIsUnique(keys);
    var k :| IsLeast(keys, k);
    k
  }

  lemma LeastExistsAndIsUnique(keys: set<Text>)
    requires keys != {}
    ensures exists k | k in keys :: IsLeast(keys, k)
    ensures forall k, j | IsLeast(keys, k) && IsLeast(keys, j) :: k == j
  {
    var k := LeastExists(keys);
    forall k, j | IsLeast(keys, k) && IsLeast(keys, j)
      ensures k == j
    {
      AtMostIsTotal(k, j);
    }
  }

  function SortedKeys(keys: set<Text>): (sorted: seq<Text>)
    ensures forall k :: k in sorted <==> k in keys
    decreases keys
  {
    if keys == {} then []
    else
      var k := Least(keys);
      [k] + SortedKeys(keys - {k})
  }

  /** Keys are ascending, byte by byte. */
  lemma {:induction false} KeysAscend(keys: set<Text>, i: nat, j: nat)
    requires i < j < |SortedKeys(keys)|
    ensures AtMost(SortedKeys(keys)[i], SortedKeys(keys)[j]) && SortedKeys(keys)[i] != SortedKeys(keys)[j]
    decreases keys
  {
    var rest := SortedKeys(keys - {Least(keys)});
    if i == 0 {
      assert SortedKeys(keys)[j] == rest[j - 1] && rest[j - 1] in rest;
    } else {
      KeysAscend(keys - {Least(keys)}, i - 1, j - 1);
    }
  }

  /** One begins the other, or the first byte in which they differ decides. */
  lemma {:induction false} AtMostIff(a: Text, b: Text)
    ensures AtMost(a, b) <==> a <= b || exists k :: 0 <= k < |a| && k < |b| && a[..k] == b[..k] && a[k] < b[k]
  {
    if a != [] && b != [] && a[0] == b[0] {
      var c, d := a[1..], b[1..];
      AtMostIff(c, d);
      assert a == [a[0]] + c && b == [b[0]] + d;
      if k :| 0 <= k < |c| && k < |d| && c[..k] == d[..k] && c[k] < d[k] {
        assert a[..k + 1] == [a[0]] + c[..k] && b[..k + 1] == [b[0]] + d[..k];
        assert a[k + 1] < b[k + 1];
      }
      if k :| 0 <= k < |a| && k < |b| && a[..k] == b[..k] && a[k] < b[k] {
        assert k > 0 && a[..k][1..] == c[..k - 1] && b[..k][1..] == d[..k - 1];
        assert c[k - 1] < d[k - 1];
      }
    } else if a != [] && b != [] && a[0] < b[0] {
      assert a[..0] == b[..0] && a[0] < b[0];
    }
  }

  // ---------- Encoding and parsing ----------

  function Tagged(key: Text, values: seq<Text>): seq<Pair> {
    if values == [] then [] else [(key, values[0])] + Tagged(key, values[1..])
  }

  function PairsOf(q: Query, keys: seq<Text>): seq<Pair> {
    if keys == [] then []
    else (if keys[0] in q then Tagged(keys[0], q[keys[0]]) else []) + PairsOf(q, keys[1..])
  }

  function Encode(q: Query): Text {
    EncodePairs(PairsOf(q, SortedKeys(q.Keys)))
  }

  function Get(q: Query, key: Text): Text {
    if key in q && q[key] != [] then q[key][0] else []
  }

  function ValuesOf(q: Query, key: Text): seq<Text> {
    if key in q then q[key] else []
  }

  function Added(q: Query, p: Pair): Query {
    q[p.0 := ValuesOf(q, p.0) + [p.1]]
  }

  function Gather(q: Query, pairs: seq<Pair>): Query
    decreases |pairs|
  {
    if pairs == [] then q else Gather(Added(q, pairs[0]), pairs[1..])
  }

  function Parse(s: Text): Query {
    Gather(map[], ParsePairs(s))
  }

  predicate NoEmptyKey(q: Query) {
    forall k | k in q :: q[k] != []
  }

  lemma {:induction false} GatherJoin(q: Query, a: seq<Pair>, b: seq<Pair>)
    ensures Gather(q, a + b) == Gather(Gather(q, a), b)
    decreases |a|
  {
    if a == [] {
      assert a + b == b;
    } else {
      GatherJoin(Added(q, a[0]), a[1..], b);
      assert (a + b)[1..] == a[1..] + b;
    }
  }

  lemma {:induction false} GatherTagged(q: Query, key: Text, values: seq<Text>)
    requires values != []
    ensures Gather(q, Tagged(key, values)) == q[key := ValuesOf(q, key) + values]
    decreases |values|
  {
    var q' := Added(q, (key, values[0]));
    assert Tagged(key, values) == [(key, values[0])] + Tagged(key, values[1..]);
    assert Tagged(key, values)[1..] == Tagged(key, values[1..]);
    if |values| > 1 {
      GatherTagged(q', key, values[1..]);
      assert ValuesOf(q', key) + values[1..] == ValuesOf(q, key) + values;
    } else {
      assert Gather(q', []) == q';
      assert [values[0]] == values;
    }
  }

  function Joined(q: Query, extra: Query): Query {
    map k | k in q.Keys + extra.Keys :: if k in extra then extra[k] else q[k]
  }

  function NonEmpty(q: Query, keys: set<Text>): Query {
    map k | k in q && k in keys && q[k] != [] :: q[k]
  }

  lemma JoinedStep(into: Query, q: Query, keys: set<Text>, k: Text)
    requires k in keys && keys <= q.Keys && into.Keys !! keys
    ensures
      var into' := if q[k] == [] then into else into[k := q[k]];
      Joined(into', NonEmpty(q, keys - {k})) == Joined(into, NonEmpty(q, keys))
  {
    var into' := if q[k] == [] then into else into[k := q[k]];
    var a, b := NonEmpty(q, keys - {k}), NonEmpty(q, keys);
    assert forall j :: j in b <==> j in a || (j == k && q[k] != []);
    assert Joined(into', a).Keys == Joined(into, b).Keys;
  }

  lemma {:induction false} GatherSorted(into: Query, q: Query, keys: set<Text>)
    requires keys <= q.Keys && into.Keys !! keys
    ensures Gather(into, PairsOf(q, SortedKeys(keys))) == Joined(into, NonEmpty(q, keys))
    decreases keys
  {
    if keys == {} {
      assert Joined(into, NonEmpty(q, keys)) == into;
    } else {
      var k := Least(keys);
      var later := PairsOf(q, SortedKeys(keys - {k}));
      var into' := if q[k] == [] then into else into[k := q[k]];
      assert SortedKeys(keys)[1..] == SortedKeys(keys - {k});
      GatherJoin(into, Tagged(k, q[k]), later);
      assert Gather(into, Tagged(k, q[k])) == into' by {
        if q[k] != [] {
          GatherTagged(into, k, q[k]);
          assert ValuesOf(into, k) + q[k] == q[k];
        }
      }
      GatherSorted(into', q, keys - {k});
      JoinedStep(into, q, keys, k);
    }
  }

  lemma JoinedNothing(q: Query)
    ensures Joined(map[], q) == q
  {
  }

  /** Parsing an encoded query gives it back, but for keys without values. */
  lemma {:induction false} ParseGathers(q: Query)
    ensures Parse(Encode(q)) == NonEmpty(q, q.Keys)
  {
    assert Parse(Encode(q)) == Gather(map[], PairsOf(q, SortedKeys(q.Keys))) by {
      ParseOfEncodePairs(PairsOf(q, SortedKeys(q.Keys)));
    }
    GatherSorted(map[], q, q.Keys);
    JoinedNothing(NonEmpty(q, q.Keys));
  }

  /** So it gives back exactly the queries whose every key has a value; and the encoding has no newline. */
  lemma {:induction false} ParseOfEncode(q: Query)
    ensures Parse(Encode(q)) == q <==> NoEmptyKey(q)
    ensures '\n' !in Encode(q)
  {
    ParseGathers(q);
    ParseOfEncodePairs(PairsOf(q, SortedKeys(q.Keys)));
    if NoEmptyKey(q) {
      assert NonEmpty(q, q.Keys) == q;
    }
  }

  lemma {:induction false} GatherHasValues(q: Query, pairs: seq<Pair>)
    requires NoEmptyKey(q)
    ensures NoEmptyKey(Gather(q, pairs))
    decreases |pairs|
  {
    if pairs != [] {
      GatherHasValues(Added(q, pairs[0]), pairs[1..]);
    }
  }

  /** A parsed query has no key without values, so queries with the same encoding are the same. */
  lemma EncodeInjective(a: Query, b: Query)
    requires NoEmptyKey(a) && NoEmptyKey(b) && Encode(a) == Encode(b)
    ensures a == b
  {
    ParseOfEncode(a);
    ParseOfEncode(b);
  }
}
