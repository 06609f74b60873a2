/** The verses of one chapter in the browser client (script.js): the reply of
    the alquran.cloud surah endpoint, the Basmala put in front of it, and the
    text the verse list shows, with the repeated Basmala hidden from the first
    verse. */
module Verses {
  import opened Wrappers
  import opened Text

  /** A verse as the alquran.cloud API sends it; "" stands for a missing text
      or audio link and [] for a missing `audioSecondary` list. */
  datatype RawAyah = RawAyah(numberInSurah: int, text: string, audio: string, audioSecondary: seq<string>)

  /** A verse as the client keeps it in `surah.ayahs`. */
  datatype Ayah = Ayah(numberInSurah: int, text: string, audio: Option<string>, isBasmala: bool)

  /** What a request to the surah endpoint gives back: the request failed, the
      status was not ok, the body held no verse array, or the verses. */
  datatype ApiReply = Unreachable(message: string) | NotOk(status: int) | NoAyahs | Ayahs(list: seq<RawAyah>)

  const DefaultEdition: string := "ar.abdulbasitmurattal"

  /** `selectedRecitationEdition || 'ar.abdulbasitmurattal'`. */
  function EditionOr(selected: string): string {
    if selected == "" then DefaultEdition else selected
  }

  function SurahUrl(number: int, edition: string): string {
    "https://api.alquran.cloud/v1/surah/" + IntToString(number) + "/" + edition
  }

  /** `a.audio || a.audioSecondary[0] || null`. */
  function ChosenAudio(a: RawAyah): (r: Option<string>)
    ensures r.Some? ==> r.value != ""
    ensures r.Some? <==> a.audio != "" || (a.audioSecondary != [] && a.audioSecondary[0] != "")
    ensures a.audio != "" ==> r == Some(a.audio)
  {
    if a.audio != "" then Some(a.audio)
    else if a.audioSecondary != [] && a.audioSecondary[0] != "" then Some(a.audioSecondary[0])
    else None
  }

  function ToAyah(a: RawAyah): Ayah {
    Ayah(a.numberInSurah, a.text, ChosenAudio(a), false)
  }

  /** `data.data.ayahs.map(...)`. */
  function MapAyahs(raw: seq<RawAyah>): (r: seq<Ayah>)
    ensures |r| == |raw|
    ensures forall i :: 0 <= i < |r| ==> r[i] == ToAyah(raw[i])
  {
    if raw == [] then [] else [ToAyah(raw[0])] + MapAyahs(raw[1..])
  }

  /** Every chapter but the first and the ninth gets the Basmala in front. */
  predicate NeedsBasmala(number: int) {
    number > 1 && number != 9
  }

  function BasmalaVerse(a: RawAyah): Ayah {
    Ayah(0, a.text, ChosenAudio(a), true)
  }

  /** The verses after the Basmala step: the first verse of chapter 1 is put
      in front when its fetch gave one, and nothing changes otherwise. */
  function WithBasmala(mapped: seq<Ayah>, reply: ApiReply): seq<Ayah> {
    if reply.Ayahs? && reply.list != [] then [BasmalaVerse(reply.list[0])] + mapped else mapped
  }

  /** The verse list `fetchSurahAyahs` leaves in `surah.ayahs`, or the message
      of the error it throws; `api` answers each request URL. */
  function LoadAyahs(number: int, selectedEdition: string, api: string -> ApiReply): Result<seq<Ayah>, string> {
    var edition := EditionOr(selectedEdition);
    match api(SurahUrl(number, edition))
    case Unreachable(message) => Failure(message)
    case NotOk(status) => Failure("alquran.cloud HTTP " + IntToString(status))
    case NoAyahs => Failure("No ayahs in API response")
    case Ayahs(raw) =>
      var mapped := MapAyahs(raw);
      Success(if NeedsBasmala(number) then WithBasmala(mapped, api(SurahUrl(1, edition))) else mapped)
  }

  /** Loading fails exactly when the chapter's own request gives no verses;
      a failed Basmala request never makes it fail. */
  lemma LoadFailsOnlyOnChapterReply(number: int, selectedEdition: string, api: string -> ApiReply)
    ensures LoadAyahs(number, selectedEdition, api).Failure? <==> !api(SurahUrl(number, EditionOr(selectedEdition))).Ayahs?
  {
  }

  /** When the chapter's verses arrive, the result is those verses, possibly
      after one Basmala; only the first verse can be a Basmala, and one is
      there exactly when the chapter needs it and chapter 1's request gave a
      verse, which then supplies its text and audio under number 0. */
  lemma LoadedVerses(number: int, selectedEdition: string, api: string -> ApiReply, raw: seq<RawAyah>)
    requires api(SurahUrl(number, EditionOr(selectedEdition))) == Ayahs(raw)
    ensures var r := LoadAyahs(number, selectedEdition, api);
      && r.Success?
      && (forall i :: 1 <= i < |r.value| ==> !r.value[i].isBasmala)
      && var basmalaReply := api(SurahUrl(1, EditionOr(selectedEdition)));
      && var inserted := NeedsBasmala(number) && basmalaReply.Ayahs? && basmalaReply.list != [];
      && (inserted ==> r.value == [Ayah(0, basmalaReply.list[0].text, ChosenAudio(basmalaReply.list[0]), true)] + MapAyahs(raw))
      && (!inserted ==> r.value == MapAyahs(raw))
      && (r.value != [] && r.value[0].isBasmala <==> inserted)
  {
  }

  /** Chapters 1 and 9 never get a Basmala in front. */
  lemma NoBasmalaForOpeningAndRepentance(number: int, selectedEdition: string, api: string -> ApiReply)
    requires number == 1 || number == 9
    ensures forall l: seq<Ayah> :: LoadAyahs(number, selectedEdition, api) == Success(l) ==>
      forall i :: 0 <= i < |l| ==> !l[i].isBasmala
  {
  }

  // ---------------------------------------------------------------- display

  /** The marks removed by `[ؐ-ًؚ-ٟۖ-ۭ]`. */
  predicate IsDiacritic(c: char) {
    ('\U{0610}' <= c <= '\U{061A}') || ('\U{064B}' <= c <= '\U{065F}') || ('\U{06D6}' <= c <= '\U{06ED}')
  }

  const AlefWasla: char := '\U{0671}'
  const Alef: char := '\U{0627}'

  function StripDiacritics(s: string): string {
    if s == [] then [] else (if IsDiacritic(s[0]) then [] else [s[0]]) + StripDiacritics(s[1..])
  }

  /** `s.replace(/\s+/g, ' ')`: every run of white space becomes one space. */
  function CollapseSpaces(s: string): string
    decreases |s|
  {
    if s == [] then []
    else if IsJsSpace(s[0]) then [' '] + CollapseSpaces(TrimStart(s[1..]))
    else [s[0]] + CollapseSpaces(s[1..])
  }

  function ReplaceWasla(s: string): string {
    if s == [] then [] else [if s[0] == AlefWasla then Alef else s[0]] + ReplaceWasla(s[1..])
  }

  /** The `normalize` helper of `renderVersesList`. */
  function Normalize(s: string): string {
    Trim(ReplaceWasla(CollapseSpaces(StripDiacritics(s))))
  }

  /** The number of leading words two word lists share. */
  function CommonPrefixLength(a: seq<string>, b: seq<string>): (r: nat)
    ensures r <= |a| && r <= |b|
    ensures forall i :: 0 <= i < r ==> a[i] == b[i]
    ensures r < |a| && r < |b| ==> a[r] != b[r]
  {
    if a == [] || b == [] || a[0] != b[0] then 0 else 1 + CommonPrefixLength(a[1..], b[1..])
  }

  /** The word loop of `renderVersesList`: counts the leading words of the
      verse that repeat the Basmala's, stopping at the first that differs. */
  method CountMatchingWords(basmalaWords: seq<string>, candWords: seq<string>) returns (removeCount: nat)
    ensures removeCount == CommonPrefixLength(basmalaWords, candWords)
  {
    removeCount := 0;
    var i := 0;
    while i < |basmalaWords| && i < |candWords|
      invariant 0 <= i <= |basmalaWords| && i <= |candWords|
      invariant removeCount == i
      invariant forall k :: 0 <= k < i ==> basmalaWords[k] == candWords[k]
      decreases |basmalaWords| - i
    {
      if candWords[i] == basmalaWords[i] {
        removeCount := removeCount + 1;
      } else {
        break;
      }
      i := i + 1;
    }
    CommonPrefixLengthIs(basmalaWords, candWords, removeCount);
  }

  /** A count of shared leading words that stops at a difference or at the
      end of a list is the common prefix length. */
  lemma {:induction false} CommonPrefixLengthIs(a: seq<string>, b: seq<string>, n: nat)
    requires n <= |a| && n <= |b|
    requires forall i :: 0 <= i < n ==> a[i] == b[i]
    requires n == |a| || n == |b| || a[n] != b[n]
    ensures CommonPrefixLength(a, b) == n
    decreases n
  {
    if n > 0 {
      CommonPrefixLengthIs(a[1..], b[1..], n - 1);
    }
  }

  /** The text shown for the verse at position `idx` of the list. */
  function DisplayText(ayahs: seq<Ayah>, idx: nat): string
    requires idx < |ayahs|
  {
    var a := ayahs[idx];
    var hasInsertedBasmala := ayahs[0].isBasmala;
    var basmalaText := if hasInsertedBasmala then ayahs[0].text else "";
    var basmalaNorm := Normalize(basmalaText);
    var candidate := a.text;
    if hasInsertedBasmala && !a.isBasmala && idx == 1 && basmalaNorm != "" && StartsWith(Normalize(candidate), basmalaNorm) then
      if StartsWith(candidate, basmalaText) then Trim(candidate[|basmalaText|..])
      else
        var removeCount := CommonPrefixLength(SplitOn(basmalaNorm, ' '), SplitOn(Normalize(candidate), ' '));
        if removeCount > 0 then Trim(Join(SliceFrom(SplitOnSpaceRuns(candidate), removeCount), " ")) else candidate
    else candidate
  }

  /** The text `renderVersesList` shows for verse `idx`, computed with the
      word loop. */
  method RenderedText(ayahs: seq<Ayah>, idx: nat) returns (displayText: string)
    requires idx < |ayahs|
    ensures displayText == DisplayText(ayahs, idx)
  {
    var hasInsertedBasmala := ayahs[0].isBasmala;
    var basmalaText := if hasInsertedBasmala then ayahs[0].text else "";
    var basmalaNorm := Normalize(basmalaText);
    var a := ayahs[idx];
    displayText := a.text;
    if hasInsertedBasmala && !a.isBasmala && idx == 1 && basmalaNorm != "" {
      var candidate := displayText;
      var candNorm := Normalize(candidate);
      if StartsWith(candNorm, basmalaNorm) {
        if StartsWith(candidate, basmalaText) {
          displayText := Trim(candidate[|basmalaText|..]);
        } else {
          var removeCount := CountMatchingWords(SplitOn(basmalaNorm, ' '), SplitOn(candNorm, ' '));
          if removeCount > 0 {
            var originalWords := SplitOnSpaceRuns(candidate);
            displayText := Trim(Join(SliceFrom(originalWords, removeCount), " "));
          }
        }
      }
    }
  }

  /** Only the verse right after an inserted Basmala can lose a prefix; every
      other verse, and every verse of a list without a Basmala, is shown as
      it is. */
  lemma OnlyFirstVerseTrimmed(ayahs: seq<Ayah>, idx: nat)
    requires idx < |ayahs|
    requires idx != 1 || !ayahs[0].isBasmala || ayahs[idx].isBasmala
    ensures DisplayText(ayahs, idx) == ayahs[idx].text
  {
  }

  /** A first verse that starts with the Basmala's exact text loses exactly
      that text, and the white space after it. */
  lemma ExactBasmalaPrefixRemoved(ayahs: seq<Ayah>, rest: string)
    requires 2 <= |ayahs| && ayahs[0].isBasmala && !ayahs[1].isBasmala
    requires Normalize(ayahs[0].text) != ""
    requires ayahs[1].text == ayahs[0].text + rest
    requires StartsWith(Normalize(ayahs[1].text), Normalize(ayahs[0].text))
    ensures DisplayText(ayahs, 1) == Trim(rest)
  {
    var b := ayahs[0].text;
    assert StartsWith(b + rest, b) by {
      assert (b + rest)[..|b|] == b;
    }
    assert (b + rest)[|b|..] == rest;
  }

  /** Otherwise the verse loses as many of its leading words as repeat the
      Basmala's words, counted on the normalised texts: all of them when the
      normalised verse starts with every normalised Basmala word. */
  lemma WordPrefixRemoved(ayahs: seq<Ayah>)
    requires 2 <= |ayahs| && ayahs[0].isBasmala && !ayahs[1].isBasmala
    requires Normalize(ayahs[0].text) != ""
    requires StartsWith(Normalize(ayahs[1].text), Normalize(ayahs[0].text))
    requires !StartsWith(ayahs[1].text, ayahs[0].text)
    ensures var bw := SplitOn(Normalize(ayahs[0].text), ' ');
      var cw := SplitOn(Normalize(ayahs[1].text), ' ');
      var n := CommonPrefixLength(bw, cw);
      && (n > 0 ==> DisplayText(ayahs, 1) == Trim(Join(SliceFrom(SplitOnSpaceRuns(ayahs[1].text), n), " ")))
      && (n == 0 ==> DisplayText(ayahs, 1) == ayahs[1].text)
      && (|bw| <= |cw| && cw[..|bw|] == bw ==> n == |bw|)
  {
    var bw := SplitOn(Normalize(ayahs[0].text), ' ');
    var cw := SplitOn(Normalize(ayahs[1].text), ' ');
    if |bw| <= |cw| && cw[..|bw|] == bw {
      assert forall i :: 0 <= i < |bw| ==> bw[i] == cw[..|bw|][i];
      CommonPrefixLengthIs(bw, cw, |bw|);
    }
  }
}
