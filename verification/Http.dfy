/** HTTP responses as Poco header collections, and the copying of one response onto another.

    Header names are written in their case-folded form, since Poco compares them without case.
    A collection is the sequence of its (name, value) entries; only the order of the values of
    one name is ever observed. */
module Http {
  import opened Wrappers

  datatype Header = Header(name: string, value: string)

  datatype Response = Response(status: int, headers: seq<Header>)

  const SET_COOKIE := "set-cookie"
  const CONTENT_TYPE := "content-type"
  const HTTP_OK := 200

  /** A default-constructed Poco HTTPResponse. */
  const EMPTY := Response(HTTP_OK, [])

  /** All values stored under `name`, in order. */
  function Values(hs: seq<Header>, name: string): seq<string> {
    if hs == [] then []
    else (if hs[0].name == name then [hs[0].value] else []) + Values(hs[1..], name)
  }

  /** `get`, which returns the first value only; None is `!has(name)`. */
  function First(hs: seq<Header>, name: string): Option<string> {
    var vs := Values(hs, name);
    if vs == [] then None else Some(vs[0])
  }

  /** `getContentType`: an absent header reads as the empty string. */
  function ContentType(hs: seq<Header>): string {
    match First(hs, CONTENT_TYPE)
    case None => ""
    case Some(v) => v
  }

  function Erase(hs: seq<Header>, name: string): seq<Header> {
    if hs == [] then []
    else (if hs[0].name == name then [] else [hs[0]]) + Erase(hs[1..], name)
  }

  /** `set`: overwrites the first value of `name`, or appends one. */
  function SetFirst(hs: seq<Header>, name: string, value: string): seq<Header> {
    if hs == [] then [Header(name, value)]
    else if hs[0].name == name then [Header(name, value)] + hs[1..]
    else [hs[0]] + SetFirst(hs[1..], name, value)
  }

  /** `setContentType`: the empty string erases the header. */
  function WithContentType(hs: seq<Header>, value: string): seq<Header> {
    if value == "" then Erase(hs, CONTENT_TYPE) else SetFirst(hs, CONTENT_TYPE, value)
  }

  function CookieHeaders(cookies: seq<string>): (hs: seq<Header>)
    ensures |hs| == |cookies|
  {
    seq(|cookies|, i requires 0 <= i < |cookies| => Header(SET_COOKIE, cookies[i]))
  }

  /** What copyResponseObj leaves in the destination. */
  function CopyOnto(from: Response, to: Response): Response {
    Response(from.status,
             WithContentType(to.headers + from.headers + CookieHeaders(Values(from.headers, SET_COOKIE)),
                             ContentType(from.headers)))
  }

  class HttpMessage {
    var status: int
    var headers: seq<Header>

    function State(): Response
      reads this
    {
      Response(status, headers)
    }

    constructor ()
      ensures State() == EMPTY
    {
      status, headers := HTTP_OK, [];
    }

    method Add(name: string, value: string)
      modifies this`headers
      ensures headers == old(headers) + [Header(name, value)]
    {
      headers := headers + [Header(name, value)];
    }

    method SetContentType(value: string)
      modifies this`headers
      ensures headers == WithContentType(old(headers), value)
    {
      headers := WithContentType(headers, value);
    }
  }

  method CopyResponseObj(from: HttpMessage, to: HttpMessage)
    requires from != to
    modifies to
    ensures to.State() == CopyOnto(from.State(), old(to.State()))
  {
    var i := 0;
    while i < |from.headers|
      invariant 0 <= i <= |from.headers|
      invariant to.headers == old(to.headers) + from.headers[..i]
    {
      to.Add(from.headers[i].name, from.headers[i].value);
      i := i + 1;
    }
    assert from.headers[..i] == from.headers;

    var cookies := Values(from.headers, SET_COOKIE);
    i := 0;
    while i < |cookies|
      invariant 0 <= i <= |cookies|
      invariant to.headers == old(to.headers) + from.headers + CookieHeaders(cookies)[..i]
    {
      to.Add(SET_COOKIE, cookies[i]);
      i := i + 1;
    }
    assert CookieHeaders(cookies)[..i] == CookieHeaders(cookies);

    to.status := from.status;
    to.SetContentType(ContentType(from.headers));
  }

  // ---- How the value lists move through one copy ----

  lemma {:induction false} ValuesConcat(a: seq<Header>, b: seq<Header>, name: string)
    ensures Values(a + b, name) == Values(a, name) + Values(b, name)
  {
    if a == [] {
      assert a + b == b;
    } else {
      ValuesConcat(a[1..], b, name);
      assert (a + b)[1..] == a[1..] + b;
    }
  }

  lemma {:induction false} ValuesOfCookies(cookies: seq<string>, name: string)
    ensures Values(CookieHeaders(cookies), name) == if name == SET_COOKIE then cookies else []
  {
    if cookies != [] {
      ValuesOfCookies(cookies[1..], name);
      assert CookieHeaders(cookies)[1..] == CookieHeaders(cookies[1..]);
    }
  }

  lemma {:induction false} ValuesErase(hs: seq<Header>, erased: string, name: string)
    ensures Values(Erase(hs, erased), name) == if name == erased then [] else Values(hs, name)
  {
    if hs != [] {
      ValuesErase(hs[1..], erased, name);
      ValuesConcat(if hs[0].name == erased then [] else [hs[0]], Erase(hs[1..], erased), name);
    }
  }

  lemma {:induction false} ValuesSetFirst(hs: seq<Header>, changed: string, value: string, name: string)
    ensures name != changed ==> Values(SetFirst(hs, changed, value), name) == Values(hs, name)
    ensures Values(SetFirst(hs, changed, value), changed)
            == [value] + (if Values(hs, changed) == [] then [] else Values(hs, changed)[1..])
  {
    if hs != [] {
      ValuesSetFirst(hs[1..], changed, value, name);
      var s := SetFirst(hs, changed, value);
      assert s[1..] == if hs[0].name == changed then hs[1..] else SetFirst(hs[1..], changed, value);
    }
  }

  /** The values under one name just before the content type is overwritten. */
  lemma AppendedValues(from: Response, to: Response, name: string)
    ensures var cookies := Values(from.headers, SET_COOKIE);
            Values(to.headers + from.headers + CookieHeaders(cookies), name)
            == Values(to.headers, name) + Values(from.headers, name) + if name == SET_COOKIE then cookies else []
  {
    var cookies := Values(from.headers, SET_COOKIE);
    ValuesConcat(to.headers, from.headers, name);
    ValuesConcat(to.headers + from.headers, CookieHeaders(cookies), name);
    ValuesOfCookies(cookies, name);
  }

  /** One copy, for any destination: every name's values are appended, cookies twice over. The content type
      is then overwritten, or erased when the source has none or an empty one. */
  lemma CopyValues(from: Response, to: Response, name: string)
    requires name != CONTENT_TYPE
    ensures CopyOnto(from, to).status == from.status
    ensures Values(CopyOnto(from, to).headers, name)
            == Values(to.headers, name) + Values(from.headers, name)
               + if name == SET_COOKIE then Values(from.headers, name) else []
  {
    var all := to.headers + from.headers + CookieHeaders(Values(from.headers, SET_COOKIE));
    AppendedValues(from, to, name);
    ValuesErase(all, CONTENT_TYPE, name);
    ValuesSetFirst(all, CONTENT_TYPE, ContentType(from.headers), name);
  }

  lemma CopyContentType(from: Response, to: Response)
    requires Values(to.headers, CONTENT_TYPE) == []
    ensures Values(CopyOnto(from, to).headers, CONTENT_TYPE)
            == if ContentType(from.headers) == "" then [] else Values(from.headers, CONTENT_TYPE)
  {
    var all := to.headers + from.headers + CookieHeaders(Values(from.headers, SET_COOKIE));
    AppendedValues(from, to, CONTENT_TYPE);
    assert SET_COOKIE[0] != CONTENT_TYPE[0];
    ValuesErase(all, CONTENT_TYPE, CONTENT_TYPE);
    ValuesSetFirst(all, CONTENT_TYPE, ContentType(from.headers), CONTENT_TYPE);
  }

  // ---- Chains of copies ----

  function Pow2(n: nat): nat {
    if n == 0 then 1 else 2 * Pow2(n - 1)
  }

  /** `r` after `n` copies, each onto a fresh response. */
  function Chain(r: Response, n: nat): Response {
    if n == 0 then r else CopyOnto(Chain(r, n - 1), EMPTY)
  }

  /** How often `cookie` occurs among the cookies of `r`. */
  function Multiplicity(r: Response, cookie: string): nat {
    multiset(Values(r.headers, SET_COOKIE))[cookie]
  }

  lemma CopyMultiplicity(from: Response, to: Response, cookie: string)
    ensures Multiplicity(CopyOnto(from, to), cookie) == Multiplicity(to, cookie) + 2 * Multiplicity(from, cookie)
  {
    assert SET_COOKIE[0] != CONTENT_TYPE[0];
    CopyValues(from, to, SET_COOKIE);
    var own, sent := Values(to.headers, SET_COOKIE), Values(from.headers, SET_COOKIE);
    assert multiset(own + sent + sent) == multiset(own) + multiset(sent) + multiset(sent);
  }

  lemma CopyToEmpty(from: Response, name: string)
    requires name != SET_COOKIE && name != CONTENT_TYPE
    ensures CopyOnto(from, EMPTY).status == from.status
    ensures Values(CopyOnto(from, EMPTY).headers, name) == Values(from.headers, name)
  {
    CopyValues(from, EMPTY, name);
  }

  /** Conservation through any number of copies: status and every value list survive. */
  lemma {:induction false} ChainConserves(r: Response, n: nat, name: string)
    requires name != SET_COOKIE && name != CONTENT_TYPE
    ensures Chain(r, n).status == r.status
    ensures Values(Chain(r, n).headers, name) == Values(r.headers, name)
  {
    if n > 0 {
      var before := Chain(r, n - 1);
      ChainConserves(r, n - 1, name);
      assert Chain(r, n) == CopyOnto(before, EMPTY);
      CopyToEmpty(before, name);
    }
  }

  lemma DoubledProduct(a: nat, b: nat)
    ensures (2 * a) * b == 2 * (a * b)
  {
  }

  /** Each cookie is multiplied by exactly 2^n; in particular none is lost and none is invented. */
  lemma {:induction false} ChainMultipliesCookies(r: Response, n: nat, cookie: string)
    ensures Multiplicity(Chain(r, n), cookie) == Pow2(n) * Multiplicity(r, cookie)
  {
    if n > 0 {
      var before, after := Multiplicity(Chain(r, n - 1), cookie), Multiplicity(Chain(r, n), cookie);
      assert after == 2 * before by {
        CopyMultiplicity(Chain(r, n - 1), EMPTY, cookie);
        assert Values(EMPTY.headers, SET_COOKIE) == [];
      }
      ChainMultipliesCookies(r, n - 1, cookie);
      DoubledProduct(Pow2(n - 1), Multiplicity(r, cookie));
    }
  }

  /** The content type is the one header a copy can lose: it survives exactly when its first value is not empty. */
  lemma {:induction false} ChainKeepsContentTypeIff(r: Response, n: nat)
    requires n > 0
    ensures Values(Chain(r, n).headers, CONTENT_TYPE) == Values(r.headers, CONTENT_TYPE)
            <==> First(r.headers, CONTENT_TYPE) != Some("")
  {
    CopyContentType(Chain(r, n - 1), EMPTY);
    if n > 1 {
      ChainKeepsContentTypeIff(r, n - 1);
      if First(r.headers, CONTENT_TYPE) == Some("") {
        ChainLosesEmptyContentType(r, n - 1);
      }
    }
  }

  lemma {:induction false} ChainLosesEmptyContentType(r: Response, n: nat)
    requires n > 0 && First(r.headers, CONTENT_TYPE) == Some("")
    ensures Values(Chain(r, n).headers, CONTENT_TYPE) == []
  {
    CopyContentType(Chain(r, n - 1), EMPTY);
    if n > 1 {
      ChainLosesEmptyContentType(r, n - 1);
    }
  }

  /** The client of a hit gets each origin cookie eight times and the client of a miss gets it twice, next to
      whatever the server already put in its reply; no other value list differs. */
  lemma HitRepeatsCookies(origin: Response, reply: Response, name: string, cookie: string)
    requires name != SET_COOKIE && name != CONTENT_TYPE
    ensures var hit, miss := CopyOnto(Chain(origin, 2), reply), CopyOnto(origin, reply);
            && hit.status == miss.status == origin.status
            && Values(hit.headers, name) == Values(miss.headers, name)
            && Multiplicity(miss, cookie) == Multiplicity(reply, cookie) + 2 * Multiplicity(origin, cookie)
            && Multiplicity(hit, cookie) == Multiplicity(reply, cookie) + 8 * Multiplicity(origin, cookie)
  {
    var cached := Chain(origin, 2);
    assert cached.status == origin.status && Values(cached.headers, name) == Values(origin.headers, name) by {
      ChainConserves(origin, 2, name);
    }
    assert Multiplicity(cached, cookie) == 4 * Multiplicity(origin, cookie) by {
      ChainMultipliesCookies(origin, 2, cookie);
      assert Pow2(2) == 4 by { assert Pow2(1) == 2 * Pow2(0); }
    }
    CopyValues(cached, reply, name);
    CopyValues(origin, reply, name);
    CopyMultiplicity(cached, reply, cookie);
    CopyMultiplicity(origin, reply, cookie);
  }
}
