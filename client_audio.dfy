/** Whole-chapter audio in the browser client (script.js, `loadRealAudio`): the
    ordered list of candidate sources for a chapter and the loop that tries
    them one after the other until the audio element can play one. */
module ClientAudio {
  import opened Wrappers
  import opened Text
  import Catalog
  import Verses
  import Fallback

  /** A candidate source: a URL to play, or an API endpoint whose first verse
      names the URL to play. */
  datatype Candidate = Direct(url: string) | Api(name: string, endpoint: string)

  const ApiCandidateName: string := "alquran.cloud API"

  function Padded(number: int): string {
    PadStart(IntToString(number), 3, '0')
  }

  function EveryAyahUrl(number: int): string {
    "https://everyayah.com/quran/" + Padded(number) + ".mp3"
  }

  function AlafasyUrl(number: int): string {
    "https://data.alquran.cloud/files/audio/alafasy/" + Padded(number) + ".mp3"
  }

  function Mp3QuranUrl(number: int): string {
    "https://www.mp3quran.net/api/v3/files/get_file?file_id=" + Padded(number) + "_jbreen_128"
  }

  /** The route of the local proxy server for a chapter. */
  function ProxyRoute(number: int): string {
    "/audio/surah/" + IntToString(number)
  }

  /** The public mirrors tried last, in order. */
  function PublicMirrors(number: int): seq<Candidate> {
    [Direct(EveryAyahUrl(number)), Direct(AlafasyUrl(number)), Direct(Mp3QuranUrl(number))]
  }

  /** The candidates `loadRealAudio` pushes, in the order it tries them: the
      chapter's own audio URL, the API endpoint, the local proxy route (only
      when served from the local host), the remote URL, then the mirrors; each
      of the first four only when present. */
  function Candidates(s: Catalog.Surah, isLocalhost: bool): seq<Candidate> {
    OwnCandidate(s) + ApiCandidate(s) + ProxyCandidate(s, isLocalhost) + RemoteCandidate(s) + PublicMirrors(s.number)
  }

  function OwnCandidate(s: Catalog.Surah): seq<Candidate> {
    if s.audioUrl != "" then [Direct(s.audioUrl)] else []
  }

  function ApiCandidate(s: Catalog.Surah): seq<Candidate> {
    if s.alquranCloudAudioUrl != "" then [Api(ApiCandidateName, s.alquranCloudAudioUrl)] else []
  }

  function ProxyCandidate(s: Catalog.Surah, isLocalhost: bool): seq<Candidate> {
    if isLocalhost then [Direct(ProxyRoute(s.number))] else []
  }

  function RemoteCandidate(s: Catalog.Surah): seq<Candidate> {
    if s.remoteAudioUrl != "" then [Direct(s.remoteAudioUrl)] else []
  }

  /** There are between three and seven candidates, the mirrors always last;
      the proxy route is there on the local host and, unless the chapter's
      own or remote URL is that route, only there. */
  lemma CandidatesShape(s: Catalog.Surah, isLocalhost: bool)
    ensures var c := Candidates(s, isLocalhost);
      && 3 <= |c| <= 7
      && c[|c| - 3..] == PublicMirrors(s.number)
      && (s.audioUrl != "" ==> c[0] == Direct(s.audioUrl))
      && (isLocalhost ==> Direct(ProxyRoute(s.number)) in c[..|c| - 3])
      && (!isLocalhost && s.audioUrl != ProxyRoute(s.number)
          && s.remoteAudioUrl != ProxyRoute(s.number)
          ==> Direct(ProxyRoute(s.number)) !in c[..|c| - 3])
      && |c| == 3 + (if s.audioUrl != "" then 1 else 0) + (if s.alquranCloudAudioUrl != "" then 1 else 0)
                  + (if isLocalhost then 1 else 0) + (if s.remoteAudioUrl != "" then 1 else 0)
  {
    var c := Candidates(s, isLocalhost);
    var head := OwnCandidate(s) + ApiCandidate(s) + ProxyCandidate(s, isLocalhost) + RemoteCandidate(s);
    assert c == head + PublicMirrors(s.number);
    assert c[..|c| - 3] == head;
  }

  /** The URL a candidate gives the audio element: its own, or the `audio`
      field of the API's first verse; `None` when the API request fails or
      sends no verse. */
  function CandidateUrl(c: Candidate, api: string -> Verses.ApiReply): (r: Option<string>)
    ensures c.Direct? ==> r == Some(c.url)
    ensures c.Api? ==> (r.Some? <==> api(c.endpoint).Ayahs? && api(c.endpoint).list != [])
    ensures c.Api? && r.Some? ==> r.value == api(c.endpoint).list[0].audio
  {
    match c
    case Direct(url) => Some(url)
    case Api(_, endpoint) =>
      match api(endpoint)
      case Ayahs(list) => if list != [] then Some(list[0].audio) else None
      case _ => None
  }

  /** One try: the URL wins when `canPlay` says the audio element reached
      `canplay` on it before an error or the timeout. */
  function Try(api: string -> Verses.ApiReply, canPlay: string -> bool, c: Candidate): Option<string> {
    match CandidateUrl(c, api)
    case None => None
    case Some(url) => if canPlay(url) then Some(url) else None
  }

  function TryFor(api: string -> Verses.ApiReply, canPlay: string -> bool): Candidate -> Option<string> {
    c => Try(api, canPlay, c)
  }

  /** The error `loadRealAudio` throws when no candidate plays. */
  function UnavailableMessage(isGitHubPages: bool, number: int, count: nat): string {
    if isGitHubPages then "Audio unavailable. Tried alquran.cloud API and fallback sources. See console for details."
    else "Audio not available for Surah " + IntToString(number) + ". Tried " + IntToString(count) + " sources."
  }

  /** What `loadRealAudio` settles with: the first URL that plays, or the
      error. */
  function LoadOutcome(candidates: seq<Candidate>, number: int, isGitHubPages: bool,
                       api: string -> Verses.ApiReply, canPlay: string -> bool): Result<string, string> {
    match Fallback.FirstValue(candidates, TryFor(api, canPlay))
    case Some(url) => Success(url)
    case None => Failure(UnavailableMessage(isGitHubPages, number, |candidates|))
  }

  /** The result is the URL of the first candidate that plays, every earlier
      one having failed; with none playing, the error counts all candidates. */
  lemma LoadOutcomeFirstPlayable(candidates: seq<Candidate>, number: int, isGitHubPages: bool,
                                 api: string -> Verses.ApiReply, canPlay: string -> bool)
    ensures var r := LoadOutcome(candidates, number, isGitHubPages, api, canPlay);
      && (r.Success? <==> exists i :: 0 <= i < |candidates| && Try(api, canPlay, candidates[i]).Some?)
      && (r.Failure? ==> r.error == UnavailableMessage(isGitHubPages, number, |candidates|))
      && (r.Success? ==> exists i :: (0 <= i < |candidates|
            && (forall j :: 0 <= j < i ==> Try(api, canPlay, candidates[j]).None?)
            && CandidateUrl(candidates[i], api) == Some(r.value) && canPlay(r.value)))
  {
    var attempt := TryFor(api, canPlay);
    var first := Fallback.FirstSuccess(candidates, attempt);
    if first.Some? {
      var i := first.value;
      assert attempt(candidates[i]).Some?;
      forall j | 0 <= j < i ensures Try(api, canPlay, candidates[j]).None? {
        assert attempt(candidates[j]).None?;
      }
    } else {
      forall i | 0 <= i < |candidates| ensures Try(api, canPlay, candidates[i]).None? {
        assert attempt(candidates[i]).None?;
      }
    }
  }

  /** An API candidate whose request fails is skipped, whatever `canPlay`
      would say. */
  lemma FailedApiSkipped(name: string, endpoint: string, api: string -> Verses.ApiReply, canPlay: string -> bool)
    requires !api(endpoint).Ayahs? || api(endpoint).list == []
    ensures Try(api, canPlay, Api(name, endpoint)).None?
  {
  }

  /** The loop of `loadRealAudio`: each candidate in turn, an API candidate
      first resolved through its endpoint (and skipped when that fails), until
      the audio element can play a URL. `tried` holds the candidates taken up,
      in order. */
  method TryCandidates(candidates: seq<Candidate>, api: string -> Verses.ApiReply, canPlay: string -> bool)
    returns (played: Option<string>, tried: seq<Candidate>)
    ensures played == Fallback.FirstValue(candidates, TryFor(api, canPlay))
    ensures tried == candidates[..Fallback.AttemptCount(candidates, TryFor(api, canPlay))]
  {
    tried := [];
    var i := 0;
    while i < |candidates|
      invariant 0 <= i <= |candidates|
      invariant tried == candidates[..i]
      invariant forall j :: 0 <= j < i ==> Try(api, canPlay, candidates[j]).None?
    {
      var candidate := candidates[i];
      tried := tried + [candidate];
      var url: string;
      match candidate {
        case Direct(u) =>
          url := u;
        case Api(_, endpoint) =>
          var reply := api(endpoint);
          if !reply.Ayahs? || reply.list == [] {
            i := i + 1;
            continue;
          }
          url := reply.list[0].audio;
      }
      if canPlay(url) {
        Fallback.FirstSuccessAt(candidates, TryFor(api, canPlay), i);
        return Some(url), tried;
      }
      i := i + 1;
    }
    Fallback.AllFail(candidates, TryFor(api, canPlay));
    played := None;
  }

  /** The audio URL the client keeps after a load. */
  class AudioState {
    var currentAudioUrl: Option<string>

    constructor ()
      ensures currentAudioUrl.None?
    {
      currentAudioUrl := None;
    }

    /** `loadRealAudio`: the first candidate that plays becomes
        `currentAudioUrl`; otherwise the error is returned and the URL kept. */
    method LoadRealAudio(s: Catalog.Surah, isLocalhost: bool, isGitHubPages: bool,
                         api: string -> Verses.ApiReply, canPlay: string -> bool)
      returns (result: Result<string, string>)
      modifies this
      ensures result == LoadOutcome(Candidates(s, isLocalhost), s.number, isGitHubPages, api, canPlay)
      ensures currentAudioUrl == if result.Success? then Some(result.value) else old(currentAudioUrl)
    {
      var candidates := Candidates(s, isLocalhost);
      var played, _ := TryCandidates(candidates, api, canPlay);
      match played
      case Some(url) =>
        currentAudioUrl := Some(url);
        result := Success(url);
      case None =>
        result := Failure(UnavailableMessage(isGitHubPages, s.number, |candidates|));
    }
  }
}
