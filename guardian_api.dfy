/** The search URL of the review import
    (management/commands/import_artist_reviews.py, `api_url`): the default
    parameters, overridden by keyword arguments and then by the page
    parameters, form-encoded after the end point. */
module GuardianApi {
  import opened Base
  import opened Dates

  const ApiEndPoint: string := "http://content.guardianapis.com/search"

  /** `API_PARAMETERS`; the API key comes from the settings. */
  function ApiParameters(apiKey: string): map<string, string>
  {
    map["api-key" := apiKey, "section" := "music", "tag" := "tone/reviews",
        "page-size" := "50", "order-by" := "oldest", "format" := "json",
        "show-fields" := "headline,byline,trail-text,star-rating",
        "show-references" := "musicbrainz", "reference-type" := "musicbrainz"]
  }

  datatype UrlError = YearBefore1900

  /** `from_date.strftime("%Y-%m-%d")`: the date as "YYYY-MM-DD"; Python
      2's `strftime` raises ValueError for a year before 1900. */
  function FromDateText(d: Date): (r: Result<string, UrlError>)
    requires ValidDate(d)
    ensures r.Ok? <==> d.year >= 1900
    ensures r.Ok? ==> ParseIsoDate(r.value) == Some(d)
  {
    IsoRoundTrip(d);
    if d.year < 1900 then Err(YearBefore1900) else Ok(IsoFormat(d))
  }

  /** `api_params` as `api_url` builds it: the defaults, then the keyword
      arguments over them, then "page" and, when a date text is given,
      "from-date" over both. */
  function PageParams(defaults: map<string, string>, kwargs: map<string, string>, page: nat, fromText: Option<string>)
    : (params: map<string, string>)
    ensures params.Keys == defaults.Keys + kwargs.Keys + {"page"} + (if fromText.Some? then {"from-date"} else {})
    ensures params["page"] == NatToString(page)
    ensures fromText.Some? ==> params["from-date"] == fromText.value
    ensures forall k :: k in kwargs && k != "page" && (fromText.Some? ==> k != "from-date")
                        ==> params[k] == kwargs[k]
    ensures forall k :: k in defaults && k !in kwargs && k != "page" && (fromText.Some? ==> k != "from-date")
                        ==> params[k] == defaults[k]
  {
    var pageParameters := map["page" := NatToString(page)];
    var pageParameters := if fromText.Some? then pageParameters["from-date" := fromText.value] else pageParameters;
    defaults + kwargs + pageParameters
  }

  /** `api_url(page, from_date, **kwargs)`'s parameters; Err where the
      date cannot be formatted. */
  function ApiParams(apiKey: string, page: nat, fromDate: Option<Date>, kwargs: map<string, string>)
    : (r: Result<map<string, string>, UrlError>)
    requires fromDate.Some? ==> ValidDate(fromDate.value)
    ensures r.Err? <==> fromDate.Some? && fromDate.value.year < 1900
    ensures r.Ok? && fromDate.Some? ==> "from-date" in r.value && ParseIsoDate(r.value["from-date"]) == fromDate
  {
    match fromDate
    case None => Ok(PageParams(ApiParameters(apiKey), kwargs, page, None))
    case Some(d) =>
      match FromDateText(d)
      case Err(e) => Err(e)
      case Ok(text) => Ok(PageParams(ApiParameters(apiKey), kwargs, page, Some(text)))
  }

  /** Without a date there is no "from-date" parameter unless a keyword
      argument supplies one. */
  lemma NoFromDate(apiKey: string, page: nat, kwargs: map<string, string>)
    ensures ApiParams(apiKey, page, None, kwargs).Ok?
    ensures "from-date" in ApiParams(apiKey, page, None, kwargs).value <==> "from-date" in kwargs
  {
    assert "from-date" !in ApiParameters(apiKey);
  }

  /** The per-artist search of the second stage: page 1, every date, and
      the artist's MusicBrainz reference. */
  lemma ArtistSearchParams(apiKey: string, mbid: string)
    ensures var r := ApiParams(apiKey, 1, None, map["reference" := "musicbrainz/" + mbid]);
      r.Ok? && r.value["page"] == "1" && r.value["reference"] == "musicbrainz/" + mbid
      && "from-date" !in r.value && r.value["order-by"] == "oldest"
  {
    assert NatToString(1) == "1";
    assert "from-date" !in ApiParameters(apiKey);
  }

  // ---------------------------------------------------------------------
  // urllib.urlencode

  /** The characters Python 2's `quote_plus` leaves as they are. */
  predicate AlwaysSafe(c: char)
  {
    'A' <= c <= 'Z' || 'a' <= c <= 'z' || '0' <= c <= '9' || c == '_' || c == '.' || c == '-'
  }

  /** A Python 2 byte string: every character is one byte. */
  predicate IsByteString(s: string)
  {
    forall i :: 0 <= i < |s| ==> s[i] as int < 256
  }

  function HexDigit(n: nat): (c: char)
    requires n < 16
  {
    if n < 10 then (48 + n) as char else (55 + n) as char
  }

  /** The value of a hexadecimal digit in either case. */
  function HexValue(c: char): (r: Option<nat>)
    ensures r.Some? ==> r.value < 16
  {
    if '0' <= c <= '9' then Some(c as int - 48)
    else if 'A' <= c <= 'F' then Some(c as int - 55)
    else if 'a' <= c <= 'f' then Some(c as int - 87)
    else None
  }

  lemma HexDigitValue(n: nat)
    requires n < 16
    ensures HexValue(HexDigit(n)) == Some(n)
  {
  }

  /** One byte as `quote_plus` writes it: a safe character as itself, a
      space as "+", anything else as "%XY" in upper-case hexadecimal. */
  function QuoteChar(c: char): (r: string)
    requires c as int < 256
    ensures 1 <= |r| <= 3 && '&' !in r && '=' !in r
  {
    if AlwaysSafe(c) then [c]
    else if c == ' ' then "+"
    else ['%', HexDigit(c as int / 16), HexDigit(c as int % 16)]
  }

  /** `urllib.quote_plus(s)`. */
  function QuotePlus(s: string): (r: string)
    requires IsByteString(s)
    ensures '&' !in r && '=' !in r
  {
    if s == [] then [] else QuoteChar(s[0]) + QuotePlus(s[1..])
  }

  /** Decodes what `quote_plus` writes: "+" is a space, "%XY" the byte
      with that hexadecimal value, a safe character itself; None on
      anything else. */
  function UnquotePlus(s: string): (r: Option<string>)
    decreases |s|
  {
    if s == [] then Some([])
    else if s[0] == '%' then
      if |s| >= 3 && HexValue(s[1]).Some? && HexValue(s[2]).Some? then
        match UnquotePlus(s[3..])
        case None => None
        case Some(rest) => Some([(HexValue(s[1]).value * 16 + HexValue(s[2]).value) as char] + rest)
      else None
    else if s[0] == '+' then
      match UnquotePlus(s[1..])
      case None => None
      case Some(rest) => Some([' '] + rest)
    else if AlwaysSafe(s[0]) then
      match UnquotePlus(s[1..])
      case None => None
      case Some(rest) => Some([s[0]] + rest)
    else None
  }

  /** Decoding one quoted byte in front of more text. */
  lemma UnquoteChar(c: char, rest: string)
    requires c as int < 256
    ensures UnquotePlus(QuoteChar(c) + rest) ==
      match UnquotePlus(rest)
      case None => None
      case Some(t) => Some([c] + t)
  {
    var q := QuoteChar(c);
    assert (q + rest)[|q|..] == rest;
    if !AlwaysSafe(c) && c != ' ' {
      HexDigitValue(c as int / 16);
      HexDigitValue(c as int % 16);
    }
  }

  /** Quoting loses nothing: decoding gives the byte string back. */
  lemma {:induction false} QuoteRoundTrip(s: string)
    requires IsByteString(s)
    ensures UnquotePlus(QuotePlus(s)) == Some(s)
  {
    if s != [] {
      QuoteRoundTrip(s[1..]);
      UnquoteChar(s[0], QuotePlus(s[1..]));
      assert [s[0]] + s[1..] == s;
    }
  }

  /** Every key and value of the parameters is a byte string. */
  predicate ByteParams(params: map<string, string>)
  {
    forall k :: k in params ==> IsByteString(k) && IsByteString(params[k])
  }

  /** `quote_plus(k) + "=" + quote_plus(v)` for each item. */
  function EncodedPairs(params: map<string, string>, keys: seq<string>): seq<string>
    requires forall i :: 0 <= i < |keys| ==> keys[i] in params
    requires ByteParams(params)
  {
    seq(|keys|, i requires 0 <= i < |keys| => QuotePlus(keys[i]) + "=" + QuotePlus(params[keys[i]]))
  }

  /** `urllib.urlencode(params)`; `keys` is the order the dictionary yields
      its items in. */
  function UrlEncode(params: map<string, string>, keys: seq<string>): string
    requires ItemOrder(params, keys) && ByteParams(params)
  {
    Join(EncodedPairs(params, keys), '&')
  }

  /** `"%s?%s" % (OPENPLATFORM_API_END_POINT, urlencode(params))`. */
  function ApiUrl(params: map<string, string>, keys: seq<string>): (url: string)
    requires ItemOrder(params, keys) && ByteParams(params)
    ensures |url| > |ApiEndPoint| && url[..|ApiEndPoint| + 1] == ApiEndPoint + "?"
  {
    var query := UrlEncode(params, keys);
    assert (ApiEndPoint + "?" + query)[..|ApiEndPoint| + 1] == ApiEndPoint + "?";
    ApiEndPoint + "?" + query
  }

  /** Reads a form-encoded query back: split at "&", then each piece at
      its first "=", and decode both halves. */
  function ParseQuery(query: string): Option<seq<(string, string)>>
  {
    ParsePairs(Split(query, '&'))
  }

  function ParsePairs(pieces: seq<string>): Option<seq<(string, string)>>
  {
    if pieces == [] then Some([])
    else if '=' !in pieces[0] then None
    else
      var i := IndexOf(pieces[0], '=');
      var k, v := UnquotePlus(pieces[0][..i]), UnquotePlus(pieces[0][i + 1..]);
      var rest := ParsePairs(pieces[1..]);
      if k.Some? && v.Some? && rest.Some? then Some([(k.value, v.value)] + rest.value)
      else None
  }

  /** The items of the parameters in dictionary order. */
  function Items(params: map<string, string>, keys: seq<string>): seq<(string, string)>
    requires forall i :: 0 <= i < |keys| ==> keys[i] in params
  {
    seq(|keys|, i requires 0 <= i < |keys| => (keys[i], params[keys[i]]))
  }

  /** One encoded item reads back as its key and value. */
  lemma ParsePair(k: string, v: string)
    requires IsByteString(k) && IsByteString(v)
    ensures var piece := QuotePlus(k) + "=" + QuotePlus(v);
      '=' in piece && piece[..IndexOf(piece, '=')] == QuotePlus(k)
      && piece[IndexOf(piece, '=') + 1..] == QuotePlus(v)
  {
    var qk := QuotePlus(k);
    var piece := qk + "=" + QuotePlus(v);
    assert piece[|qk|] == '=';
    var i := IndexOf(piece, '=');
    assert piece[..|qk|] == qk;
  }

  lemma {:induction false} ParseEncodedPairs(params: map<string, string>, keys: seq<string>)
    requires forall i :: 0 <= i < |keys| ==> keys[i] in params
    requires ByteParams(params)
    ensures ParsePairs(EncodedPairs(params, keys)) == Some(Items(params, keys))
    decreases |keys|
  {
    if keys != [] {
      var k := keys[0];
      ParseEncodedPairs(params, keys[1..]);
      PairsCons(params, keys);
      ParsePairsCons(k, params[k], EncodedPairs(params, keys[1..]), Items(params, keys[1..]));
    } else {
      assert EncodedPairs(params, keys) == [] && Items(params, keys) == [];
    }
  }

  /** The encoded pieces and the items of a non-empty key order start
      with its first key. */
  lemma PairsCons(params: map<string, string>, keys: seq<string>)
    requires keys != [] && forall i :: 0 <= i < |keys| ==> keys[i] in params
    requires ByteParams(params)
    ensures EncodedPairs(params, keys)
              == [QuotePlus(keys[0]) + "=" + QuotePlus(params[keys[0]])] + EncodedPairs(params, keys[1..])
    ensures Items(params, keys) == [(keys[0], params[keys[0]])] + Items(params, keys[1..])
  {
    assert EncodedPairs(params, keys)
             == [QuotePlus(keys[0]) + "=" + QuotePlus(params[keys[0]])] + EncodedPairs(params, keys[1..]);
  }

  /** An encoded item in front of pieces that read back. */
  lemma ParsePairsCons(k: string, v: string, rest: seq<string>, items: seq<(string, string)>)
    requires IsByteString(k) && IsByteString(v)
    requires ParsePairs(rest) == Some(items)
    ensures ParsePairs([QuotePlus(k) + "=" + QuotePlus(v)] + rest) == Some([(k, v)] + items)
  {
    var pieces := [QuotePlus(k) + "=" + QuotePlus(v)] + rest;
    assert pieces[1..] == rest;
    ParsePair(k, v);
    QuoteRoundTrip(k);
    QuoteRoundTrip(v);
  }

  /** Form-encoding loses nothing: the query reads back as the items of
      the parameters, in the order they were written. */
  lemma UrlEncodeRoundTrip(params: map<string, string>, keys: seq<string>)
    requires ItemOrder(params, keys) && ByteParams(params)
    ensures ParseQuery(UrlEncode(params, keys)) == Some(Items(params, keys))
    ensures |Items(params, keys)| == |params|
  {
    var pieces := EncodedPairs(params, keys);
    forall i | 0 <= i < |pieces|
      ensures '&' !in pieces[i]
    {
      assert pieces[i] == QuotePlus(keys[i]) + "=" + QuotePlus(params[keys[i]]);
    }
    SplitJoin(pieces, '&');
    ParseEncodedPairs(params, keys);
    KeysCount(params, keys);
  }
}
