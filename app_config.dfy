/** The API application's rate-limit client key and its CORS origin list. */
module AppConfig {
  import opened Wrappers
  import opened Strings
  import opened Collections

  /** `key_func`: the first address of a non-empty `X-Forwarded-For` header,
      stripped, else the client host. */
  function KeyFunc(forwardedFor: Option<string>, host: string): (key: string)
    ensures forwardedFor.Some? && forwardedFor.value != "" ==> ',' !in key
    ensures forwardedFor.Some? && forwardedFor.value != "" ==> key == [] || (!IsSpace(key[0]) && !IsSpace(key[|key| - 1]))
    ensures forwardedFor.None? || forwardedFor.value == "" ==> key == host
  {
    if forwardedFor.Some? && forwardedFor.value != "" then
      var first := Split(forwardedFor.value, ',')[0];
      StripIn(first, ',');
      Strip(first)
    else host
  }

  /** Stripping a field only removes its ends: whatever was not in the
      field is not in its Strip. */
  lemma StripIn(s: string, c: char)
    requires c !in s
    ensures c !in Strip(s)
  {
    var i := StripInfix(s);
    assert forall k :: 0 <= k < |Strip(s)| ==> Strip(s)[k] == s[i + k];
  }

  /** The key read from a header is the stripped text before its first
      comma, or the whole header stripped when it has none. */
  lemma KeyFuncSpec(header: string, host: string)
    requires header != ""
    ensures ',' !in header ==> KeyFunc(Some(header), host) == Strip(header)
    ensures ',' in header ==> exists k :: (0 <= k < |header| && header[k] == ',' && ',' !in header[..k]
      && KeyFunc(Some(header), host) == Strip(header[..k]))
  {
    SplitFirst(header, ',');
  }

  /** A header naming the client first, then the proxies, gives the client. */
  lemma KeyFuncFirstHop(client: string, proxies: string, host: string)
    requires ',' !in client
    ensures KeyFunc(Some(client + "," + proxies), host) == Strip(client)
  {
    SplitPrefix(client, proxies, ',');
    assert client + "," + proxies == client + [','] + proxies;
  }

  predicate NonEmpty(o: string) { o != "" }

  /** The comma-separated pieces of the setting, each stripped. */
  function Pieces(urls: string): (ps: seq<string>)
    ensures |ps| == |Split(urls, ',')|
    ensures forall j :: 0 <= j < |ps| ==> ps[j] == Strip(Split(urls, ',')[j]) && ',' !in ps[j]
  {
    forall j | 0 <= j < |Split(urls, ',')| ensures ',' !in Strip(Split(urls, ',')[j]) {
      StripIn(Split(urls, ',')[j], ',');
    }
    Map(Split(urls, ','), Strip)
  }

  /** The `allow_origins` comprehension over `FRONTEND_URLS`: the stripped
      comma-separated entries that are not empty, in order, or `["*"]` when
      there are none. */
  function AllowOrigins(urls: string): (origins: seq<string>)
    ensures origins != []
    ensures forall i :: 0 <= i < |origins| ==> origins[i] != "" && ',' !in origins[i]
    ensures forall j :: 0 <= j < |Pieces(urls)| && Pieces(urls)[j] != "" ==> Pieces(urls)[j] in origins
    ensures (exists j :: 0 <= j < |Pieces(urls)| && Pieces(urls)[j] != "") ==> forall i :: 0 <= i < |origins| ==> origins[i] in Pieces(urls)
    ensures (forall j :: 0 <= j < |Pieces(urls)| ==> Pieces(urls)[j] == "") ==> origins == ["*"]
  {
    var ps := Pieces(urls);
    var entries := Filter(ps, NonEmpty);
    assert entries != [] ==> entries[0] in ps;
    if entries == [] then ["*"] else entries
  }

  /** A list of origins written comma-separated, each already stripped, is
      read back as that list. */
  lemma AllowOriginsRoundTrip(origins: seq<string>)
    requires origins != []
    requires forall i :: 0 <= i < |origins| ==> origins[i] != "" && ',' !in origins[i] && Strip(origins[i]) == origins[i]
    ensures AllowOrigins(Join(origins, ",")) == origins
  {
    SplitJoin(origins, ',');
    assert Map(origins, Strip) == origins;
    FilterAll(origins, NonEmpty);
  }

  /** Blank or comma-only settings, and every entry being blank, allow any
      origin. */
  lemma AllowOriginsDefault(urls: string)
    requires forall i :: 0 <= i < |Split(urls, ',')| ==> Strip(Split(urls, ',')[i]) == ""
    ensures AllowOrigins(urls) == ["*"]
  {
    assert forall j :: 0 <= j < |Pieces(urls)| ==> Pieces(urls)[j] == "";
  }
}
