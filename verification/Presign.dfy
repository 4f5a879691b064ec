/**
 Presigned URLs: a signature over method, path and canonical query, with an expiry inside the query.
 The MAC is any function; what is asked of it is stated lemma by lemma.
 */
module Presign {
  import opened Collections
  import opened UrlQuery
  import Paths

  /** The parts of a URL that are signed: the decoded path and the query as written. */
  datatype Url = Url(path: Text, rawQuery: Text)

  type Mac = (Text, Text) -> Text

  const SIGNATURE: Text := "X-Amz-Signature"
  const EXPIRES: Text := "Expires"
  const ALGORITHM: Text := "X-Amz-Algorithm"
  const CREDENTIAL: Text := "X-Amz-Credential"
  const DATE: Text := "X-Amz-Date"
  const LIFETIME: Text := "X-Amz-Expires"

  // ---------- Decimal numbers ----------

  const MAX_INT64: int := 0x7FFF_FFFF_FFFF_FFFF

  type int64 = x: int | -MAX_INT64 - 1 <= x <= MAX_INT64

  function Digits(n: nat): (s: Text)
    ensures |s| >= 1 && AllDigits(s) && Paths.Value(s) == n
  {
    var s := Paths.Decimal(n);
    assert forall i | 0 <= i < |s| :: s[i] in "0123456789";
    Paths.ValueOfDecimal(n);
    s
  }

  /** FormatInt, base ten. */
  function FormatInt(x: int): Text {
    if x < 0 then ['-'] + Digits(-x) else Digits(x)
  }

  predicate AllDigits(s: Text) {
    forall i | 0 <= i < |s| :: '0' <= s[i] <= '9'
  }

  function InRange(x: int): Option<int64> {
    if -MAX_INT64 - 1 <= x <= MAX_INT64 then Some(x) else None
  }

  /** ParseInt, base ten and 64 bits: an optional sign and at least one digit, in range. */
  function ParseInt(s: Text): (r: Option<int64>) {
    var digits := if s != [] && (s[0] == '-' || s[0] == '+') then s[1..] else s;
    if digits == [] || !AllDigits(digits) then None
    else InRange(if s[0] == '-' then -Paths.Value(digits) else Paths.Value(digits))
  }

  lemma {:induction false} ParseOfFormat(x: int64)
    ensures ParseInt(FormatInt(x)) == Some(x)
  {
    var s := FormatInt(x);
    if x < 0 {
      assert s[1..] == Digits(-(x as int));
    } else {
      assert '0' <= s[0] <= '9';
    }
  }

  /** What is read: a number of 64 bits, or none. */
  predicate Reads(s: Text, n: int) {
    if -9_223_372_036_854_775_808 <= n <= 9_223_372_036_854_775_807 then ParseInt(s).Some? && ParseInt(s).value == n
    else ParseInt(s).None?
  }

  /** A sign of either kind is read, and exactly the numbers of 64 bits. */
  lemma ParseIntReads(n: nat)
    ensures Reads(Digits(n), n) && Reads(['+'] + Digits(n), n) && Reads(['-'] + Digits(n), 0 - n)
  {
    var s := Digits(n);
    SignedReads('+', s);
    SignedReads('-', s);
    assert '0' <= s[0] <= '9';
  }

  lemma SignedReads(sign: Octet, digits: Text)
    requires digits != [] && AllDigits(digits) && (sign == '+' || sign == '-')
    ensures ParseInt([sign] + digits) == InRange(if sign == '-' then -Paths.Value(digits) else Paths.Value(digits))
  {
    var s := [sign] + digits;
    assert s[0] == sign && s[1..] == digits;
  }

  /** Nothing else: not the empty text, no sign alone, no other character. */
  lemma ParseIntRefuses(s: Text, i: nat)
    requires i < |s| && !('0' <= s[i] <= '9') && (i > 0 || (s[0] != '+' && s[0] != '-'))
    ensures ParseInt(s) == ParseInt([]) == ParseInt("+") == ParseInt("-") == None
  {
    if s[0] == '-' || s[0] == '+' {
      assert s[1..][i - 1] == s[i];
    }
  }

  // ---------- Signing ----------

  function StringToSign(httpMethod: Text, path: Text, query: Query): Text {
    httpMethod + ['\n'] + path + ['\n'] + Encode(query)
  }

  function WithoutSignature(q: Query): Query {
    q - {SIGNATURE}
  }

  /** Seconds since the epoch, and the whole seconds of a duration, from nanoseconds. */
  function UnixSeconds(nanos: int): int {
    nanos / 1_000_000_000
  }

  function WholeSeconds(nanos: int): int {
    if nanos < 0 then -(-nanos / 1_000_000_000) else nanos / 1_000_000_000
  }

  function Set(q: Query, key: Text, value: Text): Query {
    q[key := [value]]
  }

  /** The query that is signed: that of the URL, with the five parameters set. */
  function SignedQuery(q: Query, accessKey: Text, date: Text, expiry: int, expiresAt: int): Query {
    var q := Set(Set(q, ALGORITHM, "HMAC-SHA256"), CREDENTIAL, accessKey);
    Set(Set(Set(q, DATE, date), LIFETIME, FormatInt(WholeSeconds(expiry))), EXPIRES, FormatInt(expiresAt))
  }

  lemma SetFrame(q: Query, key: Text, value: Text)
    ensures Get(Set(q, key, value), key) == value
    ensures |key| != |SIGNATURE| ==> (SIGNATURE in Set(q, key, value) <==> SIGNATURE in q)
    ensures NoEmptyKey(q) ==> NoEmptyKey(Set(q, key, value))
  {
  }

  /** Signing sets the expiry, and neither adds nor removes a signature. */
  lemma SignedQueryKeeps(q: Query, accessKey: Text, date: Text, expiry: int, expiresAt: int)
    requires NoEmptyKey(q)
    ensures
      var r := SignedQuery(q, accessKey, date, expiry, expiresAt);
      (SIGNATURE in r <==> SIGNATURE in q) && Get(r, EXPIRES) == FormatInt(expiresAt) && NoEmptyKey(r)
  {
    var a := Set(q, ALGORITHM, "HMAC-SHA256");
    SetFrame(q, ALGORITHM, "HMAC-SHA256");
    var b := Set(a, CREDENTIAL, accessKey);
    SetFrame(a, CREDENTIAL, accessKey);
    var c := Set(b, DATE, date);
    SetFrame(b, DATE, date);
    var d := Set(c, LIFETIME, FormatInt(WholeSeconds(expiry)));
    SetFrame(c, LIFETIME, FormatInt(WholeSeconds(expiry)));
    SetFrame(d, EXPIRES, FormatInt(expiresAt));
  }

  /** The five parameters, by name, and what they hold; everything else stays. */
  lemma SignedQueryHolds(q: Query, accessKey: Text, date: Text, expiry: int64, expiresAt: int)
    ensures
      var r := SignedQuery(q, accessKey, date, expiry, expiresAt);
      && Get(r, "X-Amz-Algorithm") == "HMAC-SHA256" && Get(r, "X-Amz-Credential") == accessKey && Get(r, "X-Amz-Date") == date
      && Get(r, "X-Amz-Expires") == FormatInt(WholeSeconds(expiry)) && Get(r, "Expires") == FormatInt(expiresAt)
      && r.Keys == q.Keys + {"X-Amz-Algorithm", "X-Amz-Credential", "X-Amz-Date", "X-Amz-Expires", "Expires"}
      && (forall k | k in q && k !in {"X-Amz-Algorithm", "X-Amz-Credential", "X-Amz-Date", "X-Amz-Expires", "Expires"} :: r[k] == q[k])
  {
    NamesDiffer();
    FiveSet(q, ALGORITHM, "HMAC-SHA256", CREDENTIAL, accessKey, DATE, date, LIFETIME, FormatInt(WholeSeconds(expiry)),
            EXPIRES, FormatInt(expiresAt));
  }

  lemma FiveSet(q: Query, a: Text, x: Text, b: Text, y: Text, c: Text, z: Text, d: Text, u: Text, e: Text, v: Text)
    requires a != b && a != c && a != d && a != e && b != c && b != d && b != e && c != d && c != e && d != e
    ensures
      var r := Set(Set(Set(Set(Set(q, a, x), b, y), c, z), d, u), e, v);
      && Get(r, a) == x && Get(r, b) == y && Get(r, c) == z && Get(r, d) == u && Get(r, e) == v
      && r.Keys == q.Keys + {a, b, c, d, e} && forall k | k in q && k !in {a, b, c, d, e} :: r[k] == q[k]
  {
  }

  /** The lifetime parameter reads as the whole seconds of the expiry, cut towards zero. */
  lemma LifetimeIsWholeSeconds(expiry: int64)
    ensures
      var lifetime := ParseInt(FormatInt(WholeSeconds(expiry)));
      && lifetime.Some?
      && (expiry >= 0 ==> lifetime.value * 1_000_000_000 <= expiry < (lifetime.value + 1) * 1_000_000_000)
      && (expiry < 0 ==> (lifetime.value - 1) * 1_000_000_000 < expiry <= lifetime.value * 1_000_000_000)
  {
    ParseOfFormat(WholeSeconds(expiry));
  }

  lemma NamesDiffer()
    ensures |ALGORITHM| == 15 && |CREDENTIAL| == 16 && |DATE| == 10 && |LIFETIME| == 13 && |EXPIRES| == 7
    ensures ALGORITHM == "X-Amz-Algorithm" && CREDENTIAL == "X-Amz-Credential" && DATE == "X-Amz-Date"
    ensures LIFETIME == "X-Amz-Expires" && EXPIRES == "Expires"
  {
  }

  /** The URL that is handed out. */
  function Presigned(mac: Mac, httpMethod: Text, url: Url, accessKey: Text, secret: Text, now: int, date: Text, expiry: int): Url {
    var q := SignedQuery(Parse(url.rawQuery), accessKey, date, expiry, UnixSeconds(now + expiry));
    Url(url.path, Encode(Set(q, SIGNATURE, mac(secret, StringToSign(httpMethod, url.path, q)))))
  }

  /** A request is accepted when its signature is that of its method, path and remaining query, and it has not expired. */
  predicate Accepts(mac: Mac, httpMethod: Text, url: Url, secret: Text, now: int) {
    var q := Parse(url.rawQuery);
    var signature, expires := Get(q, SIGNATURE), ParseInt(Get(q, EXPIRES));
    && signature != [] && expires.Some? && now <= expires.value
    && signature == mac(secret, StringToSign(httpMethod, url.path, WithoutSignature(q)))
  }

  method GeneratePresignedURL(mac: Mac, httpMethod: Text, url: Url, accessKey: Text, secret: Text,
                              now: int, date: Text, expiry: int) returns (signed: Url)
    ensures signed == Presigned(mac, httpMethod, url, accessKey, secret, now, date, expiry)
  {
    var expiresAt := UnixSeconds(now + expiry);
    var query := Parse(url.rawQuery);
    query := Set(query, ALGORITHM, "HMAC-SHA256");
    query := Set(query, CREDENTIAL, accessKey);
    query := Set(query, DATE, date);
    query := Set(query, LIFETIME, FormatInt(WholeSeconds(expiry)));
    query := Set(query, EXPIRES, FormatInt(expiresAt));
    assert query == SignedQuery(Parse(url.rawQuery), accessKey, date, expiry, expiresAt);
    var signature := mac(secret, httpMethod + ['\n'] + url.path + ['\n'] + Encode(query));
    query := Set(query, SIGNATURE, signature);
    signed := Url(url.path, Encode(query));
  }

  method ValidatePresignedURL(mac: Mac, httpMethod: Text, url: Url, secret: Text, now: int) returns (valid: bool)
    ensures valid == Accepts(mac, httpMethod, url, secret, now)
  {
    var query := Parse(url.rawQuery);
    var signature := Get(query, SIGNATURE);
    if signature == [] {
      return false;
    }
    var expiresAt := ParseInt(Get(query, EXPIRES));
    if expiresAt.None? || now > expiresAt.value {
      return false;
    }
    query := query - {SIGNATURE};
    var expected := mac(secret, httpMethod + ['\n'] + url.path + ['\n'] + Encode(query));
    valid := signature == expected;
  }

  // ---------- What a generated URL is good for ----------

  lemma ParsedHasValues(s: Text)
    ensures NoEmptyKey(Parse(s))
  {
    GatherHasValues(map[], ParsePairs(s));
  }

  /** What the server reads back from a generated URL. */
  lemma {:induction false} PresignedReads(mac: Mac, httpMethod: Text, url: Url, accessKey: Text, secret: Text, now: int, date: Text, expiry: int)
    ensures
      var q := SignedQuery(Parse(url.rawQuery), accessKey, date, expiry, UnixSeconds(now + expiry));
      var signed := Presigned(mac, httpMethod, url, accessKey, secret, now, date, expiry);
      && signed.path == url.path
      && Parse(signed.rawQuery) == Set(q, SIGNATURE, mac(secret, StringToSign(httpMethod, url.path, q)))
  {
    var q := SignedQuery(Parse(url.rawQuery), accessKey, date, expiry, UnixSeconds(now + expiry));
    ParsedHasValues(url.rawQuery);
    SignedQueryKeeps(Parse(url.rawQuery), accessKey, date, expiry, UnixSeconds(now + expiry));
    ParseOfEncode(Set(q, SIGNATURE, mac(secret, StringToSign(httpMethod, url.path, q))));
  }

  /**
   A generated URL is accepted, for its method and secret, exactly until it expires, provided the URL
   carried no signature of its own: in every second up to its nanosecond of generation plus the expiry. If it did, that signature is signed but not checked, and the URL
   is good only if the MAC happens not to tell the two apart.
   */
  lemma {:induction false} GeneratedIsAcceptedIff(mac: Mac, httpMethod: Text, url: Url, accessKey: Text, secret: Text,
                               now: int, date: Text, expiry: int, later: int)
    requires -MAX_INT64 - 1 <= UnixSeconds(now + expiry) <= MAX_INT64
    requires forall k, m :: mac(k, m) != []
    ensures
      var expiresAt := UnixSeconds(now + expiry);
      var q := SignedQuery(Parse(url.rawQuery), accessKey, date, expiry, expiresAt);
      var full, checked := StringToSign(httpMethod, url.path, q), StringToSign(httpMethod, url.path, WithoutSignature(q));
      var signed := Presigned(mac, httpMethod, url, accessKey, secret, now, date, expiry);
      && (Accepts(mac, httpMethod, signed, secret, later) <==>
            later <= expiresAt && mac(secret, full) == mac(secret, checked))
      && (full == checked <==> SIGNATURE !in Parse(url.rawQuery))
    ensures "X-Amz-Signature" !in Parse(url.rawQuery) ==>
      (Accepts(mac, httpMethod, Presigned(mac, httpMethod, url, accessKey, secret, now, date, expiry), secret, later) <==>
         later * 1_000_000_000 <= now + expiry)
  {
    var expiresAt := UnixSeconds(now + expiry);
    var q := SignedQuery(Parse(url.rawQuery), accessKey, date, expiry, expiresAt);
    PresignedReads(mac, httpMethod, url, accessKey, secret, now, date, expiry);
    ParseOfFormat(expiresAt);
    AddedSignature(q, mac(secret, StringToSign(httpMethod, url.path, q)));
    ParsedHasValues(url.rawQuery);
    SignedQueryKeeps(Parse(url.rawQuery), accessKey, date, expiry, expiresAt);
    SignatureMatters(httpMethod, url.path, q);
  }

  lemma AddedSignature(q: Query, signature: Text)
    ensures
      var read := Set(q, SIGNATURE, signature);
      && WithoutSignature(read) == WithoutSignature(q)
      && Get(read, EXPIRES) == Get(q, EXPIRES) && Get(read, SIGNATURE) == signature
  {
  }

  lemma SignatureMatters(httpMethod: Text, path: Text, q: Query)
    requires NoEmptyKey(q)
    ensures StringToSign(httpMethod, path, q) == StringToSign(httpMethod, path, WithoutSignature(q)) <==> SIGNATURE !in q
  {
    if StringToSign(httpMethod, path, q) == StringToSign(httpMethod, path, WithoutSignature(q)) {
      SignedPartsAreFixed(httpMethod, path, q, httpMethod, path, WithoutSignature(q));
    }
    if SIGNATURE !in q {
      assert WithoutSignature(q) == q;
    }
  }

  /**
   A request that carries the signature made for some method, path and query is accepted exactly when
   it is that method, that path and that query, and has not expired; given a MAC that does not collide
   on the two strings, and methods without newlines, as HTTP has them. The path may contain newlines.
   */
  lemma {:induction false} SignatureCoversIff(mac: Mac, secret: Text, httpMethod: Text, path: Text, signed: Query,
                           asked: Text, url: Url, now: int)
    requires '\n' !in httpMethod && '\n' !in asked && NoEmptyKey(signed)
    requires Get(Parse(url.rawQuery), SIGNATURE) == mac(secret, StringToSign(httpMethod, path, signed))
    requires
      var a, b := StringToSign(httpMethod, path, signed), StringToSign(asked, url.path, WithoutSignature(Parse(url.rawQuery)));
      mac(secret, a) == mac(secret, b) ==> a == b
    ensures
      var expires := ParseInt(Get(signed, EXPIRES));
      Accepts(mac, asked, url, secret, now) <==>
        && asked == httpMethod && url.path == path && WithoutSignature(Parse(url.rawQuery)) == signed
        && mac(secret, StringToSign(httpMethod, path, signed)) != [] && expires.Some? && now <= expires.value
  {
    var q := Parse(url.rawQuery);
    ParsedHasValues(url.rawQuery);
    assert Get(WithoutSignature(q), EXPIRES) == Get(q, EXPIRES);
    if StringToSign(httpMethod, path, signed) == StringToSign(asked, url.path, WithoutSignature(q)) {
      SignedPartsAreFixed(httpMethod, path, signed, asked, url.path, WithoutSignature(q));
    }
  }

  /** The newlines in the string to sign cannot be misplaced: the query has none, and the method has none. */
  lemma {:induction false} SignedPartsAreFixed(m1: Text, p1: Text, q1: Query, m2: Text, p2: Text, q2: Query)
    requires NoEmptyKey(q1) && NoEmptyKey(q2)
    requires m1 == m2 || ('\n' !in m1 && '\n' !in m2)
    requires StringToSign(m1, p1, q1) == StringToSign(m2, p2, q2)
    ensures m1 == m2 && p1 == p2 && q1 == q2
  {
    ParseOfEncode(q1);
    ParseOfEncode(q2);
    SameThree(m1, p1, Encode(q1), m2, p2, Encode(q2));
    EncodeInjective(q1, q2);
  }

  lemma SameThree(m1: Text, p1: Text, e1: Text, m2: Text, p2: Text, e2: Text)
    requires m1 + ['\n'] + p1 + ['\n'] + e1 == m2 + ['\n'] + p2 + ['\n'] + e2
    requires m1 == m2 || ('\n' !in m1 && '\n' !in m2)
    requires '\n' !in e1 && '\n' !in e2
    ensures m1 == m2 && p1 == p2 && e1 == e2
  {
    var rest1, rest2 := p1 + ['\n'] + e1, p2 + ['\n'] + e2;
    assert m1 + ['\n'] + p1 + ['\n'] + e1 == m1 + ['\n'] + rest1;
    assert m2 + ['\n'] + p2 + ['\n'] + e2 == m2 + ['\n'] + rest2;
    SameHead(m1, rest1, m2, rest2);
    SameTail(p1, e1, p2, e2);
  }

  lemma SameHead(a: Text, rest1: Text, b: Text, rest2: Text)
    requires a + ['\n'] + rest1 == b + ['\n'] + rest2
    requires a == b || ('\n' !in a && '\n' !in b)
    ensures a == b && rest1 == rest2
  {
    var s, t := a + ['\n'] + rest1, b + ['\n'] + rest2;
    if a == b {
      assert rest1 == s[|a| + 1..] && rest2 == t[|b| + 1..];
    } else {
      CutAt(a, '\n', rest1);
      CutAt(b, '\n', rest2);
    }
  }

  lemma SameTail(p1: Text, e1: Text, p2: Text, e2: Text)
    requires p1 + ['\n'] + e1 == p2 + ['\n'] + e2
    requires '\n' !in e1 && '\n' !in e2
    ensures p1 == p2 && e1 == e2
  {
    var s, t := p1 + ['\n'] + e1, p2 + ['\n'] + e2;
    assert s[|p1|] == '\n' && t[|p2|] == '\n';
    assert forall i | 0 <= i < |e1| :: s[|p1| + 1 + i] == e1[i];
    assert forall i | 0 <= i < |e2| :: t[|p2| + 1 + i] == e2[i];
    assert p1 == s[..|p1|] && p2 == t[..|p2|] && e1 == s[|p1| + 1..] && e2 == t[|p2| + 1..];
  }

  /** Found in the code: signed for a method with a newline, the same string also stands for a shorter method and a longer path. */
  lemma {:induction false} NewlineInMethodIsAmbiguous(httpMethod: Text, more: Text, path: Text, q: Query)
    ensures StringToSign(httpMethod + ['\n'] + more, path, q) == StringToSign(httpMethod, more + ['\n'] + path, q)
  {
    assert (httpMethod + ['\n'] + more) + ['\n'] + path == httpMethod + ['\n'] + (more + ['\n'] + path);
  }
}
