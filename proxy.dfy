/** The local proxy server (server.js): the mirror prober behind
    `GET /audio/surah/:number`, the static file server, and the request
    dispatch that writes status, headers and body to the response. */
module Proxy {
  import opened Wrappers
  import opened Text
  import Fallback

  const Placeholder: string := "{num}"

  /** Mirror URL templates, in priority order; each holds `{num}` once. Each
      is written as host, path, placeholder and suffix. */
  const AudioSources: seq<string> := [
    "https://everyayah.com" + "/quran/" + Placeholder + ".mp3",
    "https://data.alquran.cloud" + "/files/audio/alafasy/" + Placeholder + ".mp3",
    "https://www.quranaudio.com" + "/quran/" + Placeholder + "_Muhammad_al-Jibaly.mp3",
    "https://www.mp3quran.net" + "/api/v3/files/get_file?file_id=" + Placeholder + "_jbreen_128"
  ]

  // ---------------------------------------------------------------- mirrors

  /** What an upstream mirror answered: its status and the two headers the
      proxy reads. The audio bytes themselves are streamed, not modelled. */
  datatype Upstream = Upstream(statusCode: int, contentType: Option<string>, contentLength: Option<string>)

  /** The outcome of one outbound GET, supplied from outside the model. */
  datatype FetchOutcome =
    | NetworkError(message: string)
    | TimedOut
    | Responded(response: Upstream)

  /** A header value as JavaScript's `value || fallback` reads it: missing and
      empty values both give the fallback. */
  function HeaderOr(h: Option<string>, fallback: string): (r: string)
    ensures h.Some? && h.value != "" ==> r == h.value
    ensures (h.None? || h.value == "") ==> r == fallback
  {
    if h.Some? && h.value != "" then h.value else fallback
  }

  /** The accept rule of `fetchAudio`: status 200 and a content type that
      mentions `audio` or `octet-stream`; a missing content type reads as "". */
  predicate Acceptable(outcome: FetchOutcome) {
    && outcome.Responded?
    && outcome.response.statusCode == 200
    && (Contains(HeaderOr(outcome.response.contentType, ""), "audio")
        || Contains(HeaderOr(outcome.response.contentType, ""), "octet-stream"))
  }

  /** The error `fetchAudio` rejects with when the rule is not met. */
  function RejectReason(sourceUrl: string, outcome: FetchOutcome): string {
    match outcome
    case NetworkError(m) => "Fetch failed: " + m
    case TimedOut => "Timeout fetching audio"
    case Responded(resp) =>
      if resp.statusCode != 200 then "HTTP " + IntToString(resp.statusCode) + " from " + sourceUrl
      else "Invalid content-type: " + HeaderOr(resp.contentType, "")
  }

  /** `fetchAudio`: an accepted answer is handed back as it came; anything else
      is a failure carrying the reason. */
  function FetchAudio(sourceUrl: string, outcome: FetchOutcome): (r: Result<Upstream, string>)
    ensures r.Success? <==> Acceptable(outcome)
    ensures r.Success? ==> r.value == outcome.response
    ensures r.Failure? ==> r.error == RejectReason(sourceUrl, outcome)
  {
    match outcome
    case NetworkError(_) => Failure(RejectReason(sourceUrl, outcome))
    case TimedOut => Failure(RejectReason(sourceUrl, outcome))
    case Responded(resp) =>
      var contentType := HeaderOr(resp.contentType, "");
      if resp.statusCode != 200 then Failure(RejectReason(sourceUrl, outcome))
      else if !Contains(contentType, "audio") && !Contains(contentType, "octet-stream") then
        Failure(RejectReason(sourceUrl, outcome))
      else Success(resp)
  }

  /** The surah number as it appears in mirror URLs: `String(n).padStart(3, '0')`. */
  function PaddedNumber(surahNum: int): string {
    PadStart(IntToString(surahNum), 3, '0')
  }

  /** The URL of one mirror for a surah: the template with `{num}` replaced. */
  function MirrorUrl(template: string, surahNum: int): string {
    ReplaceFirst(template, Placeholder, PaddedNumber(surahNum))
  }

  /** All mirror URLs for a surah, in the order they are tried. */
  function MirrorUrls(sources: seq<string>, surahNum: int): (r: seq<string>)
    ensures |r| == |sources|
    ensures forall i :: 0 <= i < |r| ==> r[i] == MirrorUrl(sources[i], surahNum)
  {
    seq(|sources|, i requires 0 <= i < |sources| => MirrorUrl(sources[i], surahNum))
  }

  /** One attempt of the prober on a URL, against the given network. */
  function Accepted(network: string -> FetchOutcome, url: string): Option<Upstream> {
    if Acceptable(network(url)) then Some(network(url).response) else None
  }

  function AttemptFor(network: string -> FetchOutcome): string -> Option<Upstream> {
    url => Accepted(network, url)
  }

  function ExhaustedMessage(surahNum: int): string {
    "All audio sources failed for Surah " + IntToString(surahNum)
  }

  /** What `getAudioFromSources` settles with: the first accepted mirror, or the
      exhaustion error. */
  function MirrorOutcome(sources: seq<string>, surahNum: int, network: string -> FetchOutcome): Result<Upstream, string> {
    match Fallback.FirstValue(MirrorUrls(sources, surahNum), AttemptFor(network))
    case Some(u) => Success(u)
    case None => Failure(ExhaustedMessage(surahNum))
  }

  /** `getAudioFromSources`: the mirrors are tried in order, each by one GET,
      and the loop stops at the first accepted answer. `tried` lists the URLs
      requested, in order. The server passes `AudioSources` as `sources`. */
  method GetAudioFromSources(sources: seq<string>, surahNum: int, network: string -> FetchOutcome)
    returns (result: Result<Upstream, string>, tried: seq<string>)
    ensures result == MirrorOutcome(sources, surahNum, network)
    ensures tried == MirrorUrls(sources, surahNum)[..Fallback.AttemptCount(MirrorUrls(sources, surahNum), AttemptFor(network))]
  {
    var paddedNum := PaddedNumber(surahNum);
    tried := [];
    var i := 0;
    while i < |sources|
      invariant 0 <= i <= |sources|
      invariant |tried| == i
      invariant forall j :: 0 <= j < i ==> tried[j] == MirrorUrl(sources[j], surahNum)
      invariant forall j :: 0 <= j < i ==> Accepted(network, MirrorUrl(sources[j], surahNum)).None?
    {
      var sourceUrl, response := TryMirror(sources[i], paddedNum, network);
      tried := tried + [sourceUrl];
      if response.Success? {
        ProbeStopsAt(sources, surahNum, network, tried);
        return Success(response.value), tried;
      }
      i := i + 1;
    }
    ProbeExhausted(sources, surahNum, network, tried);
    result := Failure(ExhaustedMessage(surahNum));
  }

  /** One pass of the loop of `getAudioFromSources`: fill the template with the
      padded number and request the URL; the answer is kept exactly when the
      accept rule holds. */
  method TryMirror(template: string, paddedNum: string, network: string -> FetchOutcome)
    returns (sourceUrl: string, response: Result<Upstream, string>)
    ensures sourceUrl == ReplaceFirst(template, Placeholder, paddedNum)
    ensures response.Success? <==> Acceptable(network(sourceUrl))
    ensures response.Success? ==> response.value == network(sourceUrl).response
  {
    sourceUrl := ReplaceFirst(template, Placeholder, paddedNum);
    response := FetchAudio(sourceUrl, network(sourceUrl));
  }

  /** The prober stops at the mirror after `tried`'s earlier ones, all refused. */
  lemma ProbeStopsAt(sources: seq<string>, surahNum: int, network: string -> FetchOutcome, tried: seq<string>)
    requires 0 < |tried| <= |sources|
    requires forall j :: 0 <= j < |tried| ==> tried[j] == MirrorUrl(sources[j], surahNum)
    requires Acceptable(network(MirrorUrl(sources[|tried| - 1], surahNum)))
    requires forall j :: 0 <= j < |tried| - 1 ==> Accepted(network, MirrorUrl(sources[j], surahNum)).None?
    ensures MirrorOutcome(sources, surahNum, network) == Success(network(MirrorUrl(sources[|tried| - 1], surahNum)).response)
    ensures tried == MirrorUrls(sources, surahNum)[..Fallback.AttemptCount(MirrorUrls(sources, surahNum), AttemptFor(network))]
  {
    var urls, attempt, i := MirrorUrls(sources, surahNum), AttemptFor(network), |tried| - 1;
    forall j | 0 <= j < i ensures attempt(urls[j]).None? {
      assert urls[j] == MirrorUrl(sources[j], surahNum);
    }
    assert attempt(urls[i]) == Some(network(urls[i]).response);
    Fallback.FirstSuccessAt(urls, attempt, i);
    assert tried == urls[..|tried|];
  }

  /** With every mirror refused, the prober has requested all of them. */
  lemma ProbeExhausted(sources: seq<string>, surahNum: int, network: string -> FetchOutcome, tried: seq<string>)
    requires |tried| == |sources|
    requires forall j :: 0 <= j < |tried| ==> tried[j] == MirrorUrl(sources[j], surahNum)
    requires forall j :: 0 <= j < |sources| ==> Accepted(network, MirrorUrl(sources[j], surahNum)).None?
    ensures MirrorOutcome(sources, surahNum, network) == Failure(ExhaustedMessage(surahNum))
    ensures tried == MirrorUrls(sources, surahNum)[..Fallback.AttemptCount(MirrorUrls(sources, surahNum), AttemptFor(network))]
  {
    var urls, attempt := MirrorUrls(sources, surahNum), AttemptFor(network);
    forall j | 0 <= j < |urls| ensures attempt(urls[j]).None? {
      assert urls[j] == MirrorUrl(sources[j], surahNum);
    }
    Fallback.AllFail(urls, attempt);
    assert tried == urls[..|tried|];
  }

  /** For surahs 1 to 114 the padded number is three digits that read back as
      the surah number. */
  lemma PaddedNumberOfSurah(n: int)
    requires 1 <= n <= 114
    ensures |PaddedNumber(n)| == 3
    ensures ParseInt10(PaddedNumber(n)) == Some(n)
  {
    if n >= 100 {
      assert NatToString(n) == NatToString(n / 10) + [DigitChar(n % 10)];
      assert NatToString(n / 10) == NatToString(n / 100) + [DigitChar((n / 10) % 10)];
    } else if n >= 10 {
      assert NatToString(n) == NatToString(n / 10) + [DigitChar(n % 10)];
    }
    ParsePaddedDecimal(n, 3, []);
    assert PadStart(NatToString(n), 3, '0') + [] == PaddedNumber(n);
  }

  /** A template of the form `prefix{num}suffix`, with no `{` before the
      placeholder, becomes `prefix`, the padded number, `suffix`. */
  lemma MirrorUrlOfTemplate(prefix: string, suffix: string, n: int)
    requires '{' !in prefix
    ensures MirrorUrl(prefix + Placeholder + suffix, n) == prefix + PaddedNumber(n) + suffix
  {
    ReplaceFirstAt(prefix, Placeholder, suffix, PaddedNumber(n));
  }

  lemma EveryAyahMirrorUrl(n: int)
    ensures MirrorUrl(AudioSources[0], n) == "https://everyayah.com" + "/quran/" + PaddedNumber(n) + ".mp3"
  {
    MirrorUrlOfTemplate("https://everyayah.com" + "/quran/", ".mp3", n);
  }

  lemma AlquranCloudMirrorUrl(n: int)
    ensures MirrorUrl(AudioSources[1], n) == "https://data.alquran.cloud" + "/files/audio/alafasy/" + PaddedNumber(n) + ".mp3"
  {
    MirrorUrlOfTemplate("https://data.alquran.cloud" + "/files/audio/alafasy/", ".mp3", n);
  }

  lemma QuranAudioMirrorUrl(n: int)
    ensures MirrorUrl(AudioSources[2], n) == "https://www.quranaudio.com" + "/quran/" + PaddedNumber(n) + "_Muhammad_al-Jibaly.mp3"
  {
    MirrorUrlOfTemplate("https://www.quranaudio.com" + "/quran/", "_Muhammad_al-Jibaly.mp3", n);
  }

  lemma Mp3QuranMirrorUrl(n: int)
    ensures MirrorUrl(AudioSources[3], n) == "https://www.mp3quran.net" + "/api/v3/files/get_file?file_id=" + PaddedNumber(n) + "_jbreen_128"
  {
    MirrorUrlOfTemplate("https://www.mp3quran.net" + "/api/v3/files/get_file?file_id=", "_jbreen_128", n);
  }

  /** The four mirror URLs for a surah are the templates with `{num}` replaced
      by the padded number, in `AUDIO_SOURCES` order. */
  lemma MirrorUrlsSpelledOut(n: int)
    ensures MirrorUrls(AudioSources, n) == [
      "https://everyayah.com" + "/quran/" + PaddedNumber(n) + ".mp3",
      "https://data.alquran.cloud" + "/files/audio/alafasy/" + PaddedNumber(n) + ".mp3",
      "https://www.quranaudio.com" + "/quran/" + PaddedNumber(n) + "_Muhammad_al-Jibaly.mp3",
      "https://www.mp3quran.net" + "/api/v3/files/get_file?file_id=" + PaddedNumber(n) + "_jbreen_128"]
  {
    EveryAyahMirrorUrl(n);
    AlquranCloudMirrorUrl(n);
    QuranAudioMirrorUrl(n);
    Mp3QuranMirrorUrl(n);
  }

  /** An accepted mirror always carries a non-empty content type, so the
      `audio/mpeg` default of the success headers is never the one sent. */
  lemma AcceptedHasContentType(outcome: FetchOutcome)
    requires Acceptable(outcome)
    ensures outcome.response.contentType.Some? && outcome.response.contentType.value != ""
  {
    var ct := HeaderOr(outcome.response.contentType, "");
    if Contains(ct, "audio") { ContainsLength(ct, "audio"); } else { ContainsLength(ct, "octet-stream"); }
  }

  // ---------------------------------------------------------------- routing

  const AudioRoute: string := "/audio/surah/"

  /** The surah number of an audio request: `parseInt` of the last path
      segment, refused when it is not a number, is 0, or lies outside 1..114. */
  function SurahNumberOf(pathname: string): (r: Option<int>)
    ensures r.Some? ==> 1 <= r.value <= 114
  {
    match ParseInt10(LastSegment(pathname))
    case None => None
    case Some(v) => if v == 0 || v < 1 || v > 114 then None else Some(v)
  }

  /** The file a non-audio request asks for, relative to the static root:
      the root itself is `/index.html`, any other path starting with `/` is
      itself, and anything else is a bad request. */
  function StaticPath(pathname: string): (r: Option<string>)
    ensures r.Some? ==> StartsWith(r.value, "/")
    ensures r.None? <==> pathname != "" && !StartsWith(pathname, "/")
    ensures pathname == "/" || pathname == "" ==> r == Some("/index.html")
    ensures pathname != "/" && StartsWith(pathname, "/") ==> r == Some(pathname)
  {
    if pathname == "/" || pathname == "" then Some("/index.html")
    else if StartsWith(pathname, "/") then Some(pathname)
    else None
  }

  /** `s` without its trailing `/` characters. */
  function StripTrailingSlashes(s: string): string
  {
    if s == [] || s[|s| - 1] != '/' then s else StripTrailingSlashes(s[..|s| - 1])
  }

  /** The index of the last occurrence of `c` in `s`. */
  function LastIndexOf(s: string, c: char): (r: Option<nat>)
    ensures r.None? ==> forall i :: 0 <= i < |s| ==> s[i] != c
    ensures r.Some? ==> r.value < |s| && s[r.value] == c && forall i :: r.value < i < |s| ==> s[i] != c
  {
    if s == [] then None
    else if s[|s| - 1] == c then Some(|s| - 1)
    else
      var r := LastIndexOf(s[..|s| - 1], c);
      assert s == s[..|s| - 1] + [s[|s| - 1]];
      r
  }

  /** The extension of one path segment, by the rule of Node's
      `path.extname`: from its last `.` to its end, or empty when it has no
      dot, its only dot comes first, or it is `..`. */
  function SegmentExt(base: string): string
  {
    match LastIndexOf(base, '.')
    case None => ""
    case Some(d) =>
      // with its last dot at index 1, the segment is `..` exactly when it
      // has length 2 and starts with a dot
      if d == 0 || (d == 1 && |base| == 2 && base[0] == '.') then "" else base[d..]
  }

  /** Node's `path.extname`: the extension of the last segment, trailing
      slashes ignored. */
  function Extname(path: string): string
  {
    SegmentExt(LastSegment(StripTrailingSlashes(path)))
  }

  /** The content-type map of the static file server, by extension. */
  const StaticContentTypes: map<string, string> := map[
    ".html" := "text/html; charset=utf-8",
    ".css" := "text/css; charset=utf-8",
    ".js" := "application/javascript; charset=utf-8",
    ".json" := "application/json; charset=utf-8"
  ]

  const DefaultContentType: string := "application/octet-stream"

  function ContentTypeFor(ext: string): string {
    if ext in StaticContentTypes then StaticContentTypes[ext] else DefaultContentType
  }

  // ---------------------------------------------------------------- responses

  /** What a response carries after its headers. */
  datatype Body =
    | NoBody
    | Text(content: string)
    | JsonError(message: string)     // `JSON.stringify({ error: message })`
    | Piped(upstream: Upstream)      // the mirror's audio stream, forwarded
    | FileBytes(bytes: seq<bv8>)

  datatype Response = Response(status: int, headers: map<string, string>, body: Body)

  /** The three CORS headers set on every response before dispatch. */
  const CorsHeaders: map<string, string> := map[
    "Access-Control-Allow-Origin" := "*",
    "Access-Control-Allow-Methods" := "GET, HEAD, OPTIONS",
    "Access-Control-Allow-Headers" := "Content-Type"
  ]

  const JsonHeaders: map<string, string> := map["Content-Type" := "application/json"]
  const PlainHeaders: map<string, string> := map["Content-Type" := "text/plain"]

  /** The headers of a proxied audio answer. */
  function AudioHeaders(u: Upstream): map<string, string> {
    map[
      "Content-Type" := HeaderOr(u.contentType, "audio/mpeg"),
      "Content-Length" := HeaderOr(u.contentLength, "0"),
      "Cache-Control" := "public, max-age=86400"
    ]
  }

  /** The answer once the mirrors have been probed: the audio forwarded with
      its headers, or 503 with the error. */
  function ProxiedAudio(base: map<string, string>, outcome: Result<Upstream, string>): Response {
    match outcome
    case Success(u) => Response(200, base + AudioHeaders(u), Piped(u))
    case Failure(m) => Response(503, base + JsonHeaders, JsonError(m))
  }

  /** The answer to `/audio/surah/...`, on top of the headers already set. */
  function AudioResponse(base: map<string, string>, pathname: string, network: string -> FetchOutcome): Response {
    match SurahNumberOf(pathname)
    case None => Response(400, base + JsonHeaders, JsonError("Invalid surah number"))
    case Some(n) => ProxiedAudio(base, MirrorOutcome(AudioSources, n, network))
  }

  /** The answer of the static file server for a file path under its root. */
  function FileResponse(base: map<string, string>, filePath: string, files: string -> Option<seq<bv8>>): Response {
    match files(filePath)
    case None => Response(404, base + PlainHeaders, Text("404 Not Found"))
    case Some(content) =>
      Response(200, base + map["Content-Type" := ContentTypeFor(Extname(filePath))], FileBytes(content))
  }

  /** The answer to any other path. */
  function StaticResponse(base: map<string, string>, pathname: string, files: string -> Option<seq<bv8>>): Response {
    match StaticPath(pathname)
    case None => Response(400, base + PlainHeaders, Text("Bad Request"))
    case Some(filePath) => FileResponse(base, filePath, files)
  }

  /** The response the server gives to one request, as a value: `network`
      answers outbound GETs and `files` reads paths under the static root. */
  function Respond(verb: string, pathname: string, network: string -> FetchOutcome,
                   files: string -> Option<seq<bv8>>): Response
  {
    if verb == "OPTIONS" then Response(200, CorsHeaders, NoBody)
    else if StartsWith(pathname, AudioRoute) then AudioResponse(CorsHeaders, pathname, network)
    else StaticResponse(CorsHeaders, pathname, files)
  }

  /** Node's `ServerResponse`, reduced to what the handler touches. */
  class ServerResponse {
    var statusCode: int
    var headers: map<string, string>
    var body: Body
    var finished: bool

    constructor ()
      ensures statusCode == 200 && headers == map[] && body == NoBody && !finished
    {
      statusCode := 200;
      headers := map[];
      body := NoBody;
      finished := false;
    }

    function Snapshot(): Response
      reads this
    {
      Response(statusCode, headers, body)
    }

    /** `res.setHeader(name, value)`. */
    method SetHeader(name: string, value: string)
      requires !finished
      modifies this
      ensures headers == old(headers)[name := value]
      ensures statusCode == old(statusCode) && body == old(body) && !finished
    {
      headers := headers[name := value];
    }

    /** `res.writeHead(status, extra)`: the extra headers win over those set before. */
    method WriteHead(status: int, extra: map<string, string>)
      requires !finished
      modifies this
      ensures statusCode == status && headers == old(headers) + extra
      ensures body == old(body) && !finished
    {
      statusCode := status;
      headers := headers + extra;
    }

    /** `res.end(content)`, or the end of a piped stream. */
    method End(content: Body)
      requires !finished
      modifies this
      ensures body == content && finished
      ensures statusCode == old(statusCode) && headers == old(headers)
    {
      body := content;
      finished := true;
    }
  }

  /** The request handler of `http.createServer`. */
  method HandleRequest(verb: string, pathname: string, network: string -> FetchOutcome,
                       files: string -> Option<seq<bv8>>, res: ServerResponse)
    requires res.headers == map[] && !res.finished
    modifies res
    ensures res.finished
    ensures res.Snapshot() == Respond(verb, pathname, network, files)
  {
    res.SetHeader("Access-Control-Allow-Origin", "*");
    res.SetHeader("Access-Control-Allow-Methods", "GET, HEAD, OPTIONS");
    res.SetHeader("Access-Control-Allow-Headers", "Content-Type");
    assert res.headers == CorsHeaders;

    if verb == "OPTIONS" {
      res.WriteHead(200, map[]);
      assert res.headers == CorsHeaders;
      res.End(NoBody);
    } else if StartsWith(pathname, AudioRoute) {
      HandleAudio(pathname, network, res);
    } else {
      HandleStatic(pathname, files, res);
    }
  }

  /** The `/audio/surah/:number` branch: validate, probe the mirrors, then
      forward the audio or report the exhaustion. */
  method HandleAudio(pathname: string, network: string -> FetchOutcome, res: ServerResponse)
    requires !res.finished
    modifies res
    ensures res.finished
    ensures res.Snapshot() == AudioResponse(old(res.headers), pathname, network)
  {
    var surahNum := ParseInt10(LastSegment(pathname));
    if surahNum.None? || surahNum.value == 0 || surahNum.value < 1 || surahNum.value > 114 {
      res.WriteHead(400, JsonHeaders);
      res.End(JsonError("Invalid surah number"));
      return;
    }
    var audio, _ := GetAudioFromSources(AudioSources, surahNum.value, network);
    match audio
    case Success(u) =>
      res.WriteHead(200, AudioHeaders(u));
      res.End(Piped(u));
    case Failure(m) =>
      res.WriteHead(503, JsonHeaders);
      res.End(JsonError(m));
  }

  /** The static branch: map the path to a file under the root, or refuse it. */
  method HandleStatic(pathname: string, files: string -> Option<seq<bv8>>, res: ServerResponse)
    requires !res.finished
    modifies res
    ensures res.finished
    ensures res.Snapshot() == StaticResponse(old(res.headers), pathname, files)
  {
    var filePath: string;
    if pathname == "/" || pathname == "" {
      filePath := "/index.html";
    } else if StartsWith(pathname, "/") {
      filePath := pathname;
    } else {
      res.WriteHead(400, PlainHeaders);
      res.End(Text("Bad Request"));
      return;
    }
    ServeStaticFile(filePath, files, res);
  }

  /** `serveStaticFile`: 404 when the file cannot be read, otherwise 200 with
      the content type its extension maps to. */
  method ServeStaticFile(filePath: string, files: string -> Option<seq<bv8>>, res: ServerResponse)
    requires !res.finished
    modifies res
    ensures res.finished
    ensures res.Snapshot() == FileResponse(old(res.headers), filePath, files)
  {
    match files(filePath)
    case None =>
      res.WriteHead(404, PlainHeaders);
      res.End(Text("404 Not Found"));
    case Some(content) =>
      var contentType := ContentTypeFor(Extname(filePath));
      res.WriteHead(200, map["Content-Type" := contentType]);
      res.End(FileBytes(content));
  }

  // ---------------------------------------------------------------- properties

  /** A preflight request is answered 200 with the CORS headers and no body,
      whatever its path. */
  lemma PreflightAnswered(pathname: string, network: string -> FetchOutcome, files: string -> Option<seq<bv8>>)
    ensures Respond("OPTIONS", pathname, network, files) == Response(200, CorsHeaders, NoBody)
  {
  }

  /** `h` holds every header of `base` with its value. */
  predicate KeepsHeaders(base: map<string, string>, h: map<string, string>) {
    forall k :: k in base ==> k in h && h[k] == base[k]
  }

  /** Every response carries the three CORS headers unchanged. */
  lemma CorsOnEveryResponse(verb: string, pathname: string, network: string -> FetchOutcome,
                            files: string -> Option<seq<bv8>>)
    ensures KeepsHeaders(CorsHeaders, Respond(verb, pathname, network, files).headers)
  {
    if verb != "OPTIONS" {
      if StartsWith(pathname, AudioRoute) {
        AudioKeepsCors(pathname, network);
      } else {
        StaticKeepsCors(pathname, files);
      }
    }
  }

  lemma AudioKeepsCors(pathname: string, network: string -> FetchOutcome)
    ensures KeepsHeaders(CorsHeaders, AudioResponse(CorsHeaders, pathname, network).headers)
  {
    var n := SurahNumberOf(pathname);
    if n.None? {
      assert AudioResponse(CorsHeaders, pathname, network).headers == CorsHeaders + JsonHeaders;
      JsonKeepsCors();
    } else {
      var outcome := MirrorOutcome(AudioSources, n.value, network);
      assert AudioResponse(CorsHeaders, pathname, network) == ProxiedAudio(CorsHeaders, outcome);
      ProxiedKeepsCors(outcome);
    }
  }

  lemma JsonKeepsCors()
    ensures KeepsHeaders(CorsHeaders, CorsHeaders + JsonHeaders)
  {
  }

  lemma ProxiedKeepsCors(outcome: Result<Upstream, string>)
    ensures KeepsHeaders(CorsHeaders, ProxiedAudio(CorsHeaders, outcome).headers)
  {
  }

  lemma StaticKeepsCors(pathname: string, files: string -> Option<seq<bv8>>)
    ensures KeepsHeaders(CorsHeaders, StaticResponse(CorsHeaders, pathname, files).headers)
  {
    match StaticPath(pathname)
    case None =>
    case Some(filePath) => FileKeepsCors(filePath, files);
  }

  lemma FileKeepsCors(filePath: string, files: string -> Option<seq<bv8>>)
    ensures KeepsHeaders(CorsHeaders, FileResponse(CorsHeaders, filePath, files).headers)
  {
    match files(filePath)
    case None =>
    case Some(_) => ContentTypeKeepsCors(ContentTypeFor(Extname(filePath)));
  }

  lemma ContentTypeKeepsCors(contentType: string)
    ensures KeepsHeaders(CorsHeaders, CorsHeaders + map["Content-Type" := contentType])
  {
  }

  /** Every response status is one of 200, 400, 404 and 503. */
  lemma StatusCodes(verb: string, pathname: string, network: string -> FetchOutcome,
                    files: string -> Option<seq<bv8>>)
    ensures Respond(verb, pathname, network, files).status in {200, 400, 404, 503}
  {
  }

  /** `/audio/surah/N` names surah N for every N in 1..114, written plainly or
      with leading zeros. */
  lemma AudioPathOfSurah(n: int, width: nat)
    requires 1 <= n <= 114
    ensures SurahNumberOf(AudioRoute + PadStart(NatToString(n), width, '0')) == Some(n)
  {
    var digits := PadStart(NatToString(n), width, '0');
    var path := AudioRoute + digits;
    assert LastSegment(path) == digits by {
      PaddedDecimalHasNoSlash(n, width);
      LastSegmentAfterSlash(AudioRoute, digits);
    }
    assert ParseInt10(digits) == Some(n) by {
      ParsePaddedDecimal(n, width, []);
      assert digits + [] == digits;
    }
    assert ParseInt10(LastSegment(path)) == Some(n);
  }

  lemma PaddedDecimalHasNoSlash(n: nat, width: nat)
    ensures '/' !in PadStart(NatToString(n), width, '0')
  {
    PaddedDecimalDigits(n, width);
  }

  /** The number of `/audio/surah/` followed by a segment without `/` is
      read from that segment alone. */
  lemma SurahNumberOfSegment(segment: string)
    requires '/' !in segment
    ensures SurahNumberOf(AudioRoute + segment) == SurahNumberOf(segment)
  {
    LastSegmentAfterSlash(AudioRoute, segment);
  }

  /** `/audio/surah/` followed by `String(k)` names surah `k` exactly when
      `k` lies in 1..114; 0, negative numbers and numbers past 114 are refused. */
  lemma SurahNumberOfInteger(k: int)
    ensures SurahNumberOf(AudioRoute + IntToString(k)) == if 1 <= k <= 114 then Some(k) else None
  {
    assert '/' !in IntToString(k) by {
      var d := NatToString(if k < 0 then -k else k);
      assert forall i :: 0 <= i < |d| ==> d[i] != '/';
      assert IntToString(k) == if k < 0 then "-" + d else d;
    }
    SurahNumberOfSegment(IntToString(k));
    ParseIntToString(k);
  }

  /** A segment that starts with something other than white space, a sign or
      a digit is not a number, and is refused. */
  lemma NonNumericSegmentRefused(segment: string)
    requires '/' !in segment && segment != []
    requires !IsJsSpace(segment[0]) && segment[0] != '-' && segment[0] != '+' && !IsDigit(segment[0])
    ensures SurahNumberOf(AudioRoute + segment) == None
  {
    SurahNumberOfSegment(segment);
    assert TrimStart(segment) == segment;
  }

  /** A path ending in `/` has an empty last segment, and is refused. */
  lemma TrailingSlashRefused(pathname: string)
    requires pathname != [] && pathname[|pathname| - 1] == '/'
    ensures SurahNumberOf(pathname) == None
  {
  }

  /** A non-preflight request under `/audio/surah/` with an invalid number is
      refused with 400 and a JSON error, before any mirror is tried. */
  lemma InvalidSurahRefused(verb: string, pathname: string, network: string -> FetchOutcome,
                            files: string -> Option<seq<bv8>>)
    requires verb != "OPTIONS" && StartsWith(pathname, AudioRoute)
    requires SurahNumberOf(pathname).None?
    ensures Respond(verb, pathname, network, files) ==
      Response(400, CorsHeaders + JsonHeaders, JsonError("Invalid surah number"))
  {
  }

  /** `getAudioFromSources` settles with an answer exactly when some mirror's
      answer is acceptable; the answer is then the first acceptable one, and
      otherwise the error names the surah. */
  lemma MirrorOutcomeFirstAccepted(sources: seq<string>, n: int, network: string -> FetchOutcome)
    ensures MirrorOutcome(sources, n, network).Success? <==>
      exists i :: 0 <= i < |sources| && Acceptable(network(MirrorUrl(sources[i], n)))
    ensures MirrorOutcome(sources, n, network).Failure? ==>
      MirrorOutcome(sources, n, network).error == ExhaustedMessage(n)
    ensures MirrorOutcome(sources, n, network).Success? ==>
      exists i :: (0 <= i < |sources| && Acceptable(network(MirrorUrl(sources[i], n)))
        && (forall j :: 0 <= j < i ==> !Acceptable(network(MirrorUrl(sources[j], n))))
        && MirrorOutcome(sources, n, network).value == network(MirrorUrl(sources[i], n)).response)
  {
    var urls := MirrorUrls(sources, n);
    var attempt := AttemptFor(network);
    var first := Fallback.FirstSuccess(urls, attempt);
    if first.Some? {
      var i := first.value;
      assert attempt(urls[i]).Some?;
      forall j | 0 <= j < i ensures !Acceptable(network(MirrorUrl(sources[j], n))) {
        assert attempt(urls[j]).None?;
      }
    } else {
      forall i | 0 <= i < |sources| ensures !Acceptable(network(MirrorUrl(sources[i], n))) {
        assert attempt(urls[i]).None?;
      }
    }
  }

  /** A probed answer is forwarded with status 200, the mirror's own content
      type and length and a one-day cache lifetime; an exhausted probe gives
      503 and the error as JSON. A mirror that sends no length is forwarded
      with `Content-Length: 0` while its body is still piped. */
  lemma ProxiedAudioAnswer(base: map<string, string>, outcome: Result<Upstream, string>)
    requires outcome.Success? ==> outcome.value.contentType.Some? && outcome.value.contentType.value != ""
    ensures var r := ProxiedAudio(base, outcome);
      && (r.status == 200 <==> outcome.Success?)
      && (r.status == 200 || r.status == 503)
      && (outcome.Failure? ==> (r.body == JsonError(outcome.error) && "Content-Type" in r.headers
                                && r.headers["Content-Type"] == "application/json"))
      && (outcome.Success? ==> (r.body == Piped(outcome.value) && "Content-Type" in r.headers
                                && r.headers["Content-Type"] == outcome.value.contentType.value
                                && "Content-Length" in r.headers
                                && r.headers["Content-Length"] == HeaderOr(outcome.value.contentLength, "0")
                                && "Cache-Control" in r.headers
                                && r.headers["Cache-Control"] == "public, max-age=86400"))
  {
  }

  /** A request other than a preflight is routed by its path alone. */
  lemma Dispatch(verb: string, pathname: string, network: string -> FetchOutcome,
                 files: string -> Option<seq<bv8>>)
    requires verb != "OPTIONS"
    ensures StartsWith(pathname, AudioRoute) ==>
      Respond(verb, pathname, network, files) == AudioResponse(CorsHeaders, pathname, network)
    ensures !StartsWith(pathname, AudioRoute) ==>
      Respond(verb, pathname, network, files) == StaticResponse(CorsHeaders, pathname, files)
  {
  }

  /** For a valid surah the server answers 200 exactly when some mirror's
      answer is acceptable, forwarding the first such answer under that
      mirror's own content type and length (0 when it sends none); otherwise it answers 503 with the
      exhaustion message. */
  lemma AudioAnswer(pathname: string, n: int, network: string -> FetchOutcome)
    requires SurahNumberOf(pathname) == Some(n)
    ensures var r := AudioResponse(CorsHeaders, pathname, network);
      && (r.status == 200 <==> exists i :: 0 <= i < |AudioSources| && Acceptable(network(MirrorUrl(AudioSources[i], n))))
      && (r.status == 200 || r.status == 503)
      && (r.status == 503 ==> r.body == JsonError(ExhaustedMessage(n)))
      && (r.status == 200 ==> (r.body.Piped? && MirrorOutcome(AudioSources, n, network) == Success(r.body.upstream)
                               && "Content-Type" in r.headers
                               && r.body.upstream.contentType == Some(r.headers["Content-Type"])
                               && "Content-Length" in r.headers
                               && r.headers["Content-Length"] == HeaderOr(r.body.upstream.contentLength, "0")))
  {
    var outcome := MirrorOutcome(AudioSources, n, network);
    MirrorOutcomeFirstAccepted(AudioSources, n, network);
    if outcome.Success? {
      var i :| 0 <= i < |AudioSources| && Acceptable(network(MirrorUrl(AudioSources[i], n)))
        && outcome.value == network(MirrorUrl(AudioSources[i], n)).response;
      AcceptedHasContentType(network(MirrorUrl(AudioSources[i], n)));
    }
    ProxiedAudioAnswer(CorsHeaders, outcome);
  }

  /** The root path serves `/index.html`, a path not starting with `/` is a
      bad request, and any other path is looked up as it is. */
  lemma StaticRouting(verb: string, pathname: string, network: string -> FetchOutcome,
                      files: string -> Option<seq<bv8>>)
    requires verb != "OPTIONS" && !StartsWith(pathname, AudioRoute)
    ensures pathname == "/" || pathname == "" ==>
      Respond(verb, pathname, network, files) == FileResponse(CorsHeaders, "/index.html", files)
    ensures pathname != "" && !StartsWith(pathname, "/") ==>
      Respond(verb, pathname, network, files) == Response(400, CorsHeaders + PlainHeaders, Text("Bad Request"))
    ensures pathname != "/" && StartsWith(pathname, "/") ==>
      Respond(verb, pathname, network, files) == FileResponse(CorsHeaders, pathname, files)
  {
  }

  /** A segment ending in `.ext`, with something before the dot, has the
      extension `.ext`. */
  lemma ExtnameOfName(stem: string, ext: string)
    requires stem != [] && stem[|stem| - 1] != '/'
    requires ext != [] && '.' !in ext && '/' !in ext
    ensures Extname(stem + "." + ext) == "." + ext
  {
    NameHasNoTrailingSlash(stem, ext);
    SegmentExtOfName(stem, ext);
  }

  lemma SegmentExtOfName(stem: string, ext: string)
    requires stem != [] && stem[|stem| - 1] != '/'
    requires ext != [] && '.' !in ext && '/' !in ext
    ensures SegmentExt(LastSegment(stem + "." + ext)) == "." + ext
  {
    SegmentOfName(stem, ext);
    SegmentExtOfSuffix(LastSegment(stem + "." + ext), ext);
  }

  lemma NameHasNoTrailingSlash(stem: string, ext: string)
    requires ext != [] && '/' !in ext
    ensures StripTrailingSlashes(stem + "." + ext) == stem + "." + ext
  {
    var path := stem + "." + ext;
    assert path[|path| - 1] == ext[|ext| - 1];
  }

  /** The last segment of `stem.ext` is longer than `.ext` and ends with it. */
  lemma SegmentOfName(stem: string, ext: string)
    requires stem != [] && stem[|stem| - 1] != '/'
    requires '/' !in ext
    ensures var base := LastSegment(stem + "." + ext);
      |base| > |ext| + 1 && base[|base| - |ext| - 1..] == "." + ext
  {
    var tail := "." + ext;
    assert stem + "." + ext == stem + tail;
    LastSegmentAppend(stem, tail);
    assert LastSegment(stem) == LastSegment(stem[..|stem| - 1]) + [stem[|stem| - 1]];
    var base := LastSegment(stem) + tail;
    assert base[|base| - |tail|..] == tail;
  }

  /** A segment ending in `.ext`, with a character before the dot and no
      other dot after it, has the extension `.ext`. */
  lemma SegmentExtOfSuffix(base: string, ext: string)
    requires ext != [] && '.' !in ext
    requires |base| > |ext| + 1 && base[|base| - |ext| - 1..] == "." + ext
    ensures SegmentExt(base) == "." + ext
  {
    var d := |base| - |ext| - 1;
    assert base[d] == '.';
    assert forall i :: d < i < |base| ==> base[i] == ext[i - d - 1];
    assert LastIndexOf(base, '.') == Some(d);
  }

  /** The content type of a served file depends on its extension alone. */
  lemma StaticContentTypeOf(stem: string, ext: string)
    requires stem != [] && stem[|stem| - 1] != '/'
    requires ext != [] && '.' !in ext && '/' !in ext
    ensures ContentTypeFor(Extname(stem + "." + ext)) == ContentTypeFor("." + ext)
  {
    ExtnameOfName(stem, ext);
  }

  /** The four mapped extensions get their text content types; anything else,
      audio included, is served as `application/octet-stream`. */
  lemma KnownContentTypes()
    ensures ContentTypeFor(".html") == "text/html; charset=utf-8"
    ensures ContentTypeFor(".css") == "text/css; charset=utf-8"
    ensures ContentTypeFor(".js") == "application/javascript; charset=utf-8"
    ensures ContentTypeFor(".json") == "application/json; charset=utf-8"
    ensures ContentTypeFor(".mp3") == "application/octet-stream"
    ensures ContentTypeFor("") == "application/octet-stream"
  {
  }
}
