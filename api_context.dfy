/** The API context of the front end: which token a request carries, the
    loading counter shared by all requests, and the URLs of the endpoint
    groups. */
module ApiContext {
  import opened Wrappers
  import opened Strings
  import opened Collections
  import opened JsonValues

  // ---------------------------------------------------------------------
  // The token

  /** What a token lookup gives: a token, none, or the error thrown by
      `decodeURIComponent` on a malformed value. */
  datatype TokenLookup = Token(value: string) | NoToken | DecodeError

  /** `decodeURIComponent` is given as `decode`; `None` is a throw. */
  function Decoded(d: Option<string>): (r: TokenLookup)
    ensures r.Token? <==> d.Some?
    ensures d.Some? ==> r.value == d.value
  {
    if d.Some? then Token(d.value) else DecodeError
  }

  /** The lookup as written: each part is trimmed and split on every `=`;
      the first part named `name` gives the text between its first and
      second `=`, or `undefined` when it has no `=` at all. */
  function LookupAsWritten(parts: seq<string>, name: string, decode: string -> Option<string>): TokenLookup
    decreases |parts|
  {
    if parts == [] then NoToken
    else
      var kv := Split(Strip(parts[0]), '=');
      if kv[0] == name then Decoded(decode(if |kv| >= 2 then kv[1] else "undefined"))
      else LookupAsWritten(parts[1..], name, decode)
  }

  /** `obtenerTokenDeCookie` as written; `cookie` is `document.cookie`,
      `None` when there is no document. */
  method CookieTokenAsWritten(cookie: Option<string>, name: string, decode: string -> Option<string>) returns (r: TokenLookup)
    ensures cookie.None? ==> r == NoToken
    ensures cookie.Some? ==> r == LookupAsWritten(Split(cookie.value, ';'), name, decode)
  {
    if cookie.None? {
      return NoToken;
    }
    var cookies := Split(cookie.value, ';');
    var i := 0;
    while i < |cookies|
      invariant 0 <= i <= |cookies|
      invariant LookupAsWritten(cookies[i..], name, decode) == LookupAsWritten(cookies, name, decode)
    {
      assert cookies[i..][1..] == cookies[i + 1..];
      var kv := Split(Strip(cookies[i]), '=');
      if kv[0] == name {
        var valor := if |kv| >= 2 then kv[1] else "undefined";
        return Decoded(decode(valor));
      }
      i := i + 1;
    }
    return NoToken;
  }

  /** A cookie entry's name and value: the text before the first `=` and
      everything after it; an entry without `=` has neither. */
  function Pair(entry: string): (r: Option<(string, string)>)
    ensures r.None? <==> '=' !in entry
    ensures r.Some? ==> '=' !in r.value.0 && entry == r.value.0 + "=" + r.value.1
  {
    if '=' !in entry then None
    else
      var k := IndexOf(entry, '=');
      assert entry == entry[..k] + "=" + entry[k + 1..];
      Some((entry[..k], entry[k + 1..]))
  }

  /** An entry whose name has no `=` splits back into that name and value. */
  lemma PairOf(n: string, v: string)
    requires '=' !in n
    ensures Pair(n + "=" + v) == Some((n, v))
  {
    var e := n + "=" + v;
    assert e[|n|] == '=';
    var k := IndexOf(e, '=');
    assert forall j :: 0 <= j < |n| ==> e[j] == n[j];
    assert k == |n|;
    assert e[..|n|] == n && e[|n| + 1..] == v;
  }

  /** The lookup: the first trimmed entry named `name` gives its whole value,
      decoded. */
  function Lookup(parts: seq<string>, name: string, decode: string -> Option<string>): TokenLookup
    decreases |parts|
  {
    if parts == [] then NoToken
    else
      var p := Pair(Strip(parts[0]));
      if p.Some? && p.value.0 == name then Decoded(decode(p.value.1))
      else Lookup(parts[1..], name, decode)
  }

  lemma LookupStep(parts: seq<string>, i: nat, name: string, decode: string -> Option<string>)
    requires i < |parts|
    ensures var p := Pair(Strip(parts[i]));
      Lookup(parts[i..], name, decode) ==
        if p.Some? && p.value.0 == name then Decoded(decode(p.value.1)) else Lookup(parts[i + 1..], name, decode)
  {
    assert parts[i..][1..] == parts[i + 1..];
  }

  /** `obtenerTokenDeCookie`, keeping the whole value of the entry. */
  method CookieToken(cookie: Option<string>, name: string, decode: string -> Option<string>) returns (r: TokenLookup)
    ensures cookie.None? ==> r == NoToken
    ensures cookie.Some? ==> r == Lookup(Split(cookie.value, ';'), name, decode)
  {
    if cookie.None? {
      return NoToken;
    }
    var cookies := Split(cookie.value, ';');
    var i := 0;
    while i < |cookies|
      invariant 0 <= i <= |cookies|
      invariant Lookup(cookies[i..], name, decode) == Lookup(cookies, name, decode)
    {
      LookupStep(cookies, i, name, decode);
      var p := Pair(Strip(cookies[i]));
      if p.Some? && p.value.0 == name {
        return Decoded(decode(p.value.1));
      }
      i := i + 1;
    }
    return NoToken;
  }

  /** The value of the first pair named `name`. */
  function FirstValue(pairs: seq<(string, string)>, name: string): (r: Option<string>)
    ensures r.Some? ==> exists i :: 0 <= i < |pairs| && pairs[i] == (name, r.value)
    ensures r.None? ==> forall i :: 0 <= i < |pairs| ==> pairs[i].0 != name
    decreases |pairs|
  {
    if pairs == [] then None
    else if pairs[0].0 == name then Some(pairs[0].1)
    else
      var r := FirstValue(pairs[1..], name);
      assert forall i :: 1 <= i < |pairs| ==> pairs[i] == pairs[1..][i - 1];
      r
  }

  /** The entries of a cookie string, each `name=value` once trimmed. */
  predicate Entries(pieces: seq<string>, pairs: seq<(string, string)>) {
    && |pieces| == |pairs|
    && forall i :: 0 <= i < |pieces| ==>
         ';' !in pieces[i] && '=' !in pairs[i].0 && Strip(pieces[i]) == pairs[i].0 + "=" + pairs[i].1
  }

  lemma {:induction false} LookupEntries(pieces: seq<string>, pairs: seq<(string, string)>, name: string, decode: string -> Option<string>)
    requires Entries(pieces, pairs)
    ensures Lookup(pieces, name, decode) == (if FirstValue(pairs, name).Some? then Decoded(decode(FirstValue(pairs, name).value)) else NoToken)
    decreases |pieces|
  {
    if pieces != [] {
      PairOf(pairs[0].0, pairs[0].1);
      assert Entries(pieces[1..], pairs[1..]) by {
        forall i | 0 <= i < |pieces[1..]|
          ensures ';' !in pieces[1..][i] && '=' !in pairs[1..][i].0 && Strip(pieces[1..][i]) == pairs[1..][i].0 + "=" + pairs[1..][i].1
        {
          assert pieces[1..][i] == pieces[i + 1] && pairs[1..][i] == pairs[i + 1];
        }
      }
      LookupEntries(pieces[1..], pairs[1..], name, decode);
    }
  }

  /** Reading a cookie string whose entries are `name=value` pairs: the
      value of the first pair with the name, decoded, and nothing when no
      pair has it. */
  lemma CookieRoundTrip(pieces: seq<string>, pairs: seq<(string, string)>, name: string, decode: string -> Option<string>)
    requires pieces != [] && Entries(pieces, pairs)
    ensures var r := Lookup(Split(Join(pieces, ";"), ';'), name, decode);
      && (FirstValue(pairs, name).Some? ==> r == Decoded(decode(FirstValue(pairs, name).value)))
      && (FirstValue(pairs, name).None? ==> r == NoToken)
  {
    SplitJoin(pieces, ';');
    assert Join(pieces, [';']) == Join(pieces, ";");
    LookupEntries(pieces, pairs, name, decode);
  }

  /** A cookie string of one entry, without surrounding space. */
  lemma OneEntry(cookie: string)
    requires ';' !in cookie && cookie != [] && !IsSpace(cookie[0]) && !IsSpace(cookie[|cookie| - 1])
    ensures Split(cookie, ';') == [cookie] && Strip(cookie) == cookie
  {
    SplitFirst(cookie, ';');
    StripOfStripped(cookie);
  }

  lemma TruncatedPieces(n: string, v1: string, v2: string)
    requires '=' !in n && '=' !in v1
    ensures var kv := Split(n + "=" + v1 + "=" + v2, '=');
      |kv| >= 2 && kv[0] == n && kv[1] == v1
  {
    assert n + "=" + v1 + "=" + v2 == n + ['='] + (v1 + ['='] + v2);
    SplitPrefix(n, v1 + ['='] + v2, '=');
    SplitPrefix(v1, v2, '=');
  }

  /** As written, a value holding `=` is cut at it: `n=v1=v2` gives `v1`,
      where the whole value is `v1=v2`. */
  lemma AsWrittenTruncates(n: string, v1: string, v2: string, decode: string -> Option<string>)
    requires n != [] && !IsSpace(n[0]) && '=' !in n && ';' !in n
    requires v2 != [] && !IsSpace(v2[|v2| - 1]) && '=' !in v1 && ';' !in v1 && ';' !in v2
    ensures var cookie := n + "=" + v1 + "=" + v2;
      && LookupAsWritten(Split(cookie, ';'), n, decode) == Decoded(decode(v1))
      && Lookup(Split(cookie, ';'), n, decode) == Decoded(decode(v1 + "=" + v2))
  {
    var cookie := n + "=" + v1 + "=" + v2;
    assert ';' !in cookie;
    assert cookie[0] == n[0] && cookie[|cookie| - 1] == v2[|v2| - 1];
    OneEntry(cookie);
    TruncatedPieces(n, v1, v2);
    assert [cookie][1..] == [];
    PairOfLonger(n, v1, v2);
  }

  lemma PairOfLonger(n: string, v1: string, v2: string)
    requires '=' !in n
    ensures Pair(n + "=" + v1 + "=" + v2) == Some((n, v1 + "=" + v2))
  {
    assert n + "=" + v1 + "=" + v2 == n + "=" + (v1 + "=" + v2);
    PairOf(n, v1 + "=" + v2);
  }

  /** As written, an entry that is a bare name matches and gives
      `decodeURIComponent(undefined)`, that is, the text `undefined`; the
      lookup that keeps whole values finds no such cookie. */
  lemma AsWrittenBareName(n: string, decode: string -> Option<string>)
    requires n != [] && !IsSpace(n[0]) && !IsSpace(n[|n| - 1]) && '=' !in n && ';' !in n
    ensures LookupAsWritten(Split(n, ';'), n, decode) == Decoded(decode("undefined"))
    ensures Lookup(Split(n, ';'), n, decode) == NoToken
  {
    SplitFirst(n, ';');
    StripOfStripped(n);
    SplitFirst(n, '=');
    assert [n][1..] == [];
  }

  const TokenKey := "oauth_token"

  /** `obtenerToken`: none without a window; the stored token when it is a
      non-empty text; else the cookie of the same name. */
  method ObtainToken(hasWindow: bool, stored: Option<string>, cookie: Option<string>, decode: string -> Option<string>) returns (r: TokenLookup)
    ensures !hasWindow ==> r == NoToken
    ensures hasWindow && stored.Some? && stored.value != "" ==> r == Token(stored.value)
    ensures hasWindow && !(stored.Some? && stored.value != "") ==>
      r == (if cookie.None? then NoToken else Lookup(Split(cookie.value, ';'), TokenKey, decode))
  {
    if !hasWindow {
      return NoToken;
    }
    if stored.Some? && stored.value != "" {
      return Token(stored.value);
    }
    r := CookieToken(cookie, TokenKey, decode);
  }

  // ---------------------------------------------------------------------
  // The request interceptor

  class RequestConfig {
    var headers: Option<map<string, string>>

    constructor(headers: Option<map<string, string>>)
      ensures this.headers == headers
    {
      this.headers := headers;
    }
  }

  /** The request interceptor: a non-empty token adds `Authorization:
      Bearer <token>` to the headers (created when missing) and keeps every
      other header; no token leaves the request as it was. A token that
      cannot be decoded makes the interceptor throw (`ok` is false). */
  method Intercept(config: RequestConfig, token: TokenLookup) returns (ok: bool)
    modifies config
    ensures ok <==> !token.DecodeError?
    ensures token.Token? && token.value != "" ==>
      config.headers == Some(old(config.headers).GetOr(map[])["Authorization" := "Bearer " + token.value])
    ensures !(token.Token? && token.value != "") ==> config.headers == old(config.headers)
  {
    if token.DecodeError? {
      return false;
    }
    if token.Token? && token.value != "" {
      var headers := config.headers.GetOr(map[]);
      headers := headers["Authorization" := "Bearer " + token.value];
      config.headers := Some(headers);
    }
    return true;
  }

  // ---------------------------------------------------------------------
  // The loading counter

  /** `setLoading`: one up for `true`, one down for `false`, never below 0. */
  function Loaded(count: nat, val: bool): (n: nat)
    ensures val ==> n == count + 1
    ensures !val ==> n == if count == 0 then 0 else count - 1
  {
    var c := count + (if val then 1 else -1);
    if c < 0 then 0 else c
  }

  /** A run of `setLoading` calls. */
  function Replay(count: nat, calls: seq<bool>): nat
    decreases |calls|
  {
    if calls == [] then count else Replay(Loaded(count, calls[0]), calls[1..])
  }

  function Raises(calls: seq<bool>): nat { Count(calls, true) }
  function Drops(calls: seq<bool>): nat { Count(calls, false) }

  /** In a run where no prefix drops more often than it raises, the floor is
      never reached and the count is the raises minus the drops. */
  lemma {:induction false} ReplayBalanced(count: nat, calls: seq<bool>)
    requires forall k :: 0 <= k <= |calls| ==> Drops(calls[..k]) <= count + Raises(calls[..k])
    ensures Replay(count, calls) == count + Raises(calls) - Drops(calls)
    decreases |calls|
  {
    if calls != [] {
      var rest := calls[1..];
      var next := Loaded(count, calls[0]);
      assert Drops(calls[..1]) <= count + Raises(calls[..1]);
      assert calls[..1] == [calls[0]];
      CountCons(calls[0], [], true);
      CountCons(calls[0], [], false);
      forall k | 0 <= k <= |rest| ensures Drops(rest[..k]) <= next + Raises(rest[..k]) {
        assert calls[..k + 1] == [calls[0]] + rest[..k];
        CountCons(calls[0], rest[..k], true);
        CountCons(calls[0], rest[..k], false);
        assert Drops(calls[..k + 1]) <= count + Raises(calls[..k + 1]);
      }
      ReplayBalanced(next, rest);
      assert calls == [calls[0]] + rest;
      CountCons(calls[0], rest, true);
      CountCons(calls[0], rest, false);
    }
  }

  lemma CountCons(x: bool, s: seq<bool>, y: bool)
    ensures Count([x] + s, y) == Count(s, y) + (if x == y then 1 else 0)
  {
    assert ([x] + s)[1..] == s;
  }

  /** What `requestHandler` gives back: the response, the failed request's
      response (possibly none) for an HTTP error, or the error rethrown. */
  datatype Outcome = Succeeded(response: Json) | HttpFailed(errorResponse: Option<Json>) | Crashed
  datatype Handled = Returned(response: Option<Json>) | Rethrown

  class LoadCounter {
    var count: nat

    constructor()
      ensures count == 0 && !LoadingScreenShown()
    {
      count := 0;
    }

    method SetLoading(val: bool)
      modifies this
      ensures count == Loaded(old(count), val)
    {
      var c := count + (if val then 1 else -1);
      count := if c < 0 then 0 else c;
    }

    /** The loading screen is shown exactly while the count is not zero. */
    function LoadingScreenShown(): (b: bool)
      reads this
      ensures b <==> count > 0
    {
      count != 0
    }

    /** `requestHandler`: the count goes up for the request and down again
        whatever its outcome, so it ends where it started. */
    method Request(outcome: Outcome) returns (r: Handled)
      modifies this
      ensures count == old(count)
      ensures outcome.Succeeded? ==> r == Returned(Some(outcome.response))
      ensures outcome.HttpFailed? ==> r == Returned(outcome.errorResponse)
      ensures outcome.Crashed? ==> r == Rethrown
    {
      SetLoading(true);
      match outcome {
        case Succeeded(resp) => r := Returned(Some(resp));
        case HttpFailed(resp) => r := Returned(resp);
        case Crashed => r := Rethrown;
      }
      SetLoading(false);
    }
  }

  // ---------------------------------------------------------------------
  // Endpoints

  /** `BASE_URL`: the first of the three settings that is defined, else the
      deployed API. */
  function BaseUrl(backendUrl: Option<string>, apiUrl: Option<string>, viteUrl: Option<string>): (r: string)
    ensures backendUrl.Some? ==> r == backendUrl.value
    ensures backendUrl.None? && apiUrl.Some? ==> r == apiUrl.value
    ensures backendUrl.None? && apiUrl.None? && viteUrl.Some? ==> r == viteUrl.value
    ensures backendUrl.None? && apiUrl.None? && viteUrl.None? ==> r == "https://stellar-minds-api-v2.vercel.app"
  {
    backendUrl.OrElse(apiUrl).OrElse(viteUrl).GetOr("https://stellar-minds-api-v2.vercel.app")
  }

  /** What calling an endpoint does: an HTTP request or an alert. */
  datatype Call = Get(url: string) | Post(url: string, body: Option<Json>) | Put(url: string, body: Option<Json>) | Delete(url: string) | Alert(text: string)

  /** The arguments of an endpoint call; a missing `params` is empty. */
  datatype Args = Args(id: string, params: Option<string>, body: Option<Json>)

  type Endpoint = Args -> Call

  /** The entity's collection URL: `${BASE_URL}/api/${version}/${entity}`. */
  function EntityUrl(base: string, version: string, entity: string): string {
    base + "/api/" + version + "/" + entity
  }

  /** `createEndpointMethods`: the five base calls on the entity's URL, then
      the extra endpoints, which replace base calls with the same name. */
  function EndpointMethods(base: string, entity: string, version: string, extras: map<string, Endpoint>): (g: map<string, Endpoint>)
    ensures g.Keys == {"getAll", "getById", "create", "update", "delete"} + extras.Keys
    ensures forall k :: k in extras ==> g[k] == extras[k]
  {
    BaseMethods(EntityUrl(base, version, entity)) + extras
  }

  /** The five calls every entity group starts from, on the entity's URL. */
  function BaseMethods(url: string): (g: map<string, Endpoint>)
    ensures g.Keys == {"getAll", "getById", "create", "update", "delete"}
  {
    map[
      "getAll" := (a: Args) => Get(url + a.params.GetOr("")),
      "getById" := (a: Args) => Get(url + "/" + a.id + a.params.GetOr("")),
      "create" := (a: Args) => Post(url + a.params.GetOr(""), a.body),
      "update" := (a: Args) => Put(url + "/" + a.id, a.body),
      "delete" := (a: Args) => Delete(url + "/" + a.id)
    ]
  }

  /** A base call not overridden reaches the entity's URL, with `/id` for
      the calls on one item and the parameters where they are taken. */
  lemma EndpointUrls(base: string, entity: string, version: string, extras: map<string, Endpoint>, a: Args)
    ensures var g := EndpointMethods(base, entity, version, extras);
      var url := EntityUrl(base, version, entity);
      && ("getAll" !in extras ==> g["getAll"](a) == Get(url + a.params.GetOr("")))
      && ("getById" !in extras ==> g["getById"](a) == Get(url + "/" + a.id + a.params.GetOr("")))
      && ("create" !in extras ==> g["create"](a) == Post(url + a.params.GetOr(""), a.body))
      && ("update" !in extras ==> g["update"](a) == Put(url + "/" + a.id, a.body))
      && ("delete" !in extras ==> g["delete"](a) == Delete(url + "/" + a.id))
  {
  }

  const Unavailable := "Method not available"

  /** The media group: items cannot be updated or deleted; both calls only
      alert. */
  function MediaApi(base: string): map<string, Endpoint> {
    EndpointMethods(base, "media", "v3", map[
      "update" := (a: Args) => Alert(Unavailable),
      "delete" := (a: Args) => Alert(Unavailable)
    ])
  }

  lemma MediaApiSpec(base: string, a: Args)
    ensures MediaApi(base).Keys == {"getAll", "getById", "create", "update", "delete"}
    ensures MediaApi(base)["update"](a) == Alert(Unavailable) && MediaApi(base)["delete"](a) == Alert(Unavailable)
    ensures MediaApi(base)["getById"](a) == Get(base + "/api/" + "v3" + "/" + "media" + "/" + a.id + a.params.GetOr(""))
  {
    var extras: map<string, Endpoint> := map["update" := (a: Args) => Alert(Unavailable), "delete" := (a: Args) => Alert(Unavailable)];
    EndpointUrls(base, "media", "v3", extras, a);
  }

  /** The chat calls: a session is created with a GET on the chats URL and a
      message is posted to the session's messages. */
  function ChatCreate(base: string): Call { Get(base + "/api/v1/chats") }

  function ChatSend(base: string, chatUuid: string, body: Json): (c: Call)
    ensures c.Post? && c.body == Some(body)
    ensures c.url == ChatCreate(base).url + "/" + chatUuid + "/messages"
  {
    Post(base + "/api/v1/chats/" + chatUuid + "/messages", Some(body))
  }

  /** The assay search, relative to the client's base URL, with the query
      encoded by `encode` (`encodeURIComponent`). */
  function AssaySearch(query: string, encode: string -> string): (c: Call)
    ensures c.Get? && StartsWith(c.url, AssaySearchPath)
    ensures c.url[|AssaySearchPath|..] == encode(query)
  {
    Get(AssaySearchPath + encode(query))
  }

  const AssaySearchPath := "/assays/search?q="

  /** With an encoding that tells texts apart, two searches call the same
      URL only for the same query. */
  lemma AssaySearchDistinct(q1: string, q2: string, encode: string -> string)
    requires forall x, y :: encode(x) == encode(y) ==> x == y
    ensures AssaySearch(q1, encode) == AssaySearch(q2, encode) <==> q1 == q2
  {
    if AssaySearch(q1, encode) == AssaySearch(q2, encode) {
      assert encode(q1) == AssaySearch(q1, encode).url[|AssaySearchPath|..];
    }
  }
}
