/** Verse-by-verse playback in the browser client (script.js): playing one
    verse, the next and previous buttons, the full-chapter mode that the
    audio element's `ended` event drives, and loading a chapter's verses. */
module Player {
  import opened Wrappers
  import opened Verses
  import Text

  const NoAudioMessage: string := "Audio not available for this verse."

  /** The text `playSurah` puts in the error box when the verses cannot be
      loaded; the thrown error's message comes last. */
  function LoadErrorMessage(message: string): string {
    "⚠️ Unable to Load Audio\nCould not find audio for this Surah. Please try another.\nError: " + message
  }

  /** The playback part of the client state: the verse index, the
      full-chapter flag, the source given to the audio element and the error
      text shown to the listener. */
  datatype Playback = Playback(currentVerseIndex: int, isPlayingFullSurah: bool, src: Option<string>, errorText: Option<string>)

  /** `playVerse(idx)` with the open chapter's verses (`open` is false when
      no chapter is open). */
  function PlayVerseOn(open: bool, ayahs: seq<Ayah>, p: Playback, idx: int): (r: Playback)
    ensures r.isPlayingFullSurah == p.isPlayingFullSurah
    ensures !open || !(0 <= idx < |ayahs|) ==> r == p
    ensures open && 0 <= idx < |ayahs| && ayahs[idx].audio.None? ==> r == p.(errorText := Some(NoAudioMessage))
    ensures open && 0 <= idx < |ayahs| && ayahs[idx].audio.Some? ==>
      r.currentVerseIndex == idx && r.src == ayahs[idx].audio && r.errorText == p.errorText
  {
    if !open || !(0 <= idx < |ayahs|) then p
    else if ayahs[idx].audio.None? then p.(errorText := Some(NoAudioMessage))
    else p.(currentVerseIndex := idx, src := ayahs[idx].audio)
  }

  /** `playNextVerse`. */
  function NextOn(open: bool, ayahs: seq<Ayah>, p: Playback): Playback {
    var next := p.currentVerseIndex + 1;
    if open && next < |ayahs| then PlayVerseOn(open, ayahs, p, next) else p
  }

  /** `playPrevVerse`. */
  function PrevOn(open: bool, ayahs: seq<Ayah>, p: Playback): Playback {
    var prev := p.currentVerseIndex - 1;
    if open && prev >= 0 then PlayVerseOn(open, ayahs, p, prev) else p
  }

  /** The play-full-chapter button. */
  function PlayFullOn(open: bool, ayahs: seq<Ayah>, p: Playback): Playback {
    PlayVerseOn(open, ayahs, p.(isPlayingFullSurah := true), 0)
  }

  /** The audio element's `ended` handler. */
  function EndedOn(open: bool, ayahs: seq<Ayah>, p: Playback): Playback {
    if p.isPlayingFullSurah then
      if p.currentVerseIndex < |ayahs| - 1 then PlayVerseOn(open, ayahs, p, p.currentVerseIndex + 1)
      else p.(isPlayingFullSurah := false)
    else p
  }

  /** `k` successive `ended` events. */
  function EndedTimes(open: bool, ayahs: seq<Ayah>, p: Playback, k: nat): Playback {
    if k == 0 then p else EndedOn(open, ayahs, EndedTimes(open, ayahs, p, k - 1))
  }

  predicate InRange(idx: int, ayahs: seq<Ayah>) {
    0 <= idx < |ayahs|
  }

  predicate AllHaveAudio(ayahs: seq<Ayah>) {
    forall i :: 0 <= i < |ayahs| ==> ayahs[i].audio.Some?
  }

  /** Playing, stepping and the `ended` event keep the verse index inside
      the verse list, and never make it negative. */
  lemma IndexStaysInRange(open: bool, ayahs: seq<Ayah>, p: Playback, idx: int)
    ensures InRange(p.currentVerseIndex, ayahs) ==>
      && InRange(PlayVerseOn(open, ayahs, p, idx).currentVerseIndex, ayahs)
      && InRange(NextOn(open, ayahs, p).currentVerseIndex, ayahs)
      && InRange(PrevOn(open, ayahs, p).currentVerseIndex, ayahs)
      && InRange(PlayFullOn(open, ayahs, p).currentVerseIndex, ayahs)
      && InRange(EndedOn(open, ayahs, p).currentVerseIndex, ayahs)
    ensures p.currentVerseIndex >= 0 ==>
      && PlayVerseOn(open, ayahs, p, idx).currentVerseIndex >= 0
      && NextOn(open, ayahs, p).currentVerseIndex >= 0
      && PrevOn(open, ayahs, p).currentVerseIndex >= 0
      && PlayFullOn(open, ayahs, p).currentVerseIndex >= 0
      && EndedOn(open, ayahs, p).currentVerseIndex >= 0
  {
  }

  /** Next at the last verse and previous at the first change nothing;
      otherwise, with audio there, they move by exactly one verse. */
  lemma StepsAtBounds(open: bool, ayahs: seq<Ayah>, p: Playback)
    requires open && InRange(p.currentVerseIndex, ayahs)
    ensures p.currentVerseIndex == |ayahs| - 1 ==> NextOn(open, ayahs, p) == p
    ensures p.currentVerseIndex == 0 ==> PrevOn(open, ayahs, p) == p
    ensures AllHaveAudio(ayahs) && p.currentVerseIndex < |ayahs| - 1 ==>
      NextOn(open, ayahs, p).currentVerseIndex == p.currentVerseIndex + 1
    ensures AllHaveAudio(ayahs) && p.currentVerseIndex > 0 ==>
      PrevOn(open, ayahs, p).currentVerseIndex == p.currentVerseIndex - 1
  {
  }

  /** Without full-chapter mode the `ended` event does nothing; in it, the
      event plays the following verse until the last one, where it only
      leaves the mode. */
  lemma EndedStep(open: bool, ayahs: seq<Ayah>, p: Playback)
    ensures !p.isPlayingFullSurah ==> EndedOn(open, ayahs, p) == p
    ensures p.isPlayingFullSurah && p.currentVerseIndex >= |ayahs| - 1 ==>
      EndedOn(open, ayahs, p) == p.(isPlayingFullSurah := false)
    ensures p.isPlayingFullSurah && open && 0 <= p.currentVerseIndex < |ayahs| - 1 && AllHaveAudio(ayahs) ==>
      var r := EndedOn(open, ayahs, p);
      r.currentVerseIndex == p.currentVerseIndex + 1 && r.isPlayingFullSurah && r.src == ayahs[r.currentVerseIndex].audio
  {
  }

  /** After the play-full-chapter button and `k` ended events, for `k` below
      the length, verse `k` is playing and the mode is still on. */
  lemma {:induction false} FullSurahProgress(ayahs: seq<Ayah>, p: Playback, k: nat)
    requires AllHaveAudio(ayahs) && k < |ayahs|
    ensures var r := EndedTimes(true, ayahs, PlayFullOn(true, ayahs, p), k);
      r.currentVerseIndex == k && r.isPlayingFullSurah && r.src == ayahs[k].audio
  {
    if k > 0 {
      FullSurahProgress(ayahs, p, k - 1);
    }
  }

  /** With every verse's audio present, it takes one `ended` event per verse
      to leave full-chapter mode on the last verse; later events do nothing. */
  lemma {:induction false} FullSurahEnds(ayahs: seq<Ayah>, p: Playback, extra: nat)
    requires AllHaveAudio(ayahs) && ayahs != []
    ensures var r := EndedTimes(true, ayahs, PlayFullOn(true, ayahs, p), |ayahs| + extra);
      r.currentVerseIndex == |ayahs| - 1 && !r.isPlayingFullSurah
    decreases extra
  {
    if extra == 0 {
      FullSurahProgress(ayahs, p, |ayahs| - 1);
    } else {
      FullSurahEnds(ayahs, p, extra - 1);
    }
  }

  /** The verses, index, flag, audio source and error text of the client. */
  class VersePlayer {
    var surahOpen: bool
    var ayahs: seq<Ayah>
    var currentVerseIndex: int
    var isPlayingFullSurah: bool
    var src: Option<string>
    var errorText: Option<string>

    function Snapshot(): Playback
      reads this
    {
      Playback(currentVerseIndex, isPlayingFullSurah, src, errorText)
    }

    /** The initial state: no chapter open, index 0, full-chapter mode off. */
    constructor ()
      ensures !surahOpen && ayahs == []
      ensures Snapshot() == Playback(0, false, None, None)
    {
      surahOpen := false;
      ayahs := [];
      currentVerseIndex := 0;
      isPlayingFullSurah := false;
      src := None;
      errorText := None;
    }

    /** `playVerse(idx)`. */
    method PlayVerse(idx: int)
      modifies this
      ensures surahOpen == old(surahOpen) && ayahs == old(ayahs)
      ensures Snapshot() == PlayVerseOn(surahOpen, ayahs, old(Snapshot()), idx)
    {
      if !surahOpen || !(0 <= idx < |ayahs|) {
        return;
      }
      var verse := ayahs[idx];
      if verse.audio.None? {
        errorText := Some(NoAudioMessage);
        return;
      }
      currentVerseIndex := idx;
      src := verse.audio;
    }

    /** The play-current-verse button. */
    method PlayCurrentVerse()
      modifies this
      ensures surahOpen == old(surahOpen) && ayahs == old(ayahs)
      ensures Snapshot() == PlayVerseOn(surahOpen, ayahs, old(Snapshot()), old(currentVerseIndex))
    {
      PlayVerse(currentVerseIndex);
    }

    /** `playNextVerse`. */
    method PlayNextVerse()
      modifies this
      ensures surahOpen == old(surahOpen) && ayahs == old(ayahs)
      ensures Snapshot() == NextOn(surahOpen, ayahs, old(Snapshot()))
    {
      var next := currentVerseIndex + 1;
      if surahOpen && next < |ayahs| {
        PlayVerse(next);
      }
    }

    /** `playPrevVerse`. */
    method PlayPrevVerse()
      modifies this
      ensures surahOpen == old(surahOpen) && ayahs == old(ayahs)
      ensures Snapshot() == PrevOn(surahOpen, ayahs, old(Snapshot()))
    {
      var prev := currentVerseIndex - 1;
      if surahOpen && prev >= 0 {
        PlayVerse(prev);
      }
    }

    /** The play-full-chapter button. */
    method PlayFullSurah()
      modifies this
      ensures surahOpen == old(surahOpen) && ayahs == old(ayahs)
      ensures Snapshot() == PlayFullOn(surahOpen, ayahs, old(Snapshot()))
    {
      isPlayingFullSurah := true;
      PlayVerse(0);
    }

    /** The audio element's `ended` handler. */
    method OnEnded()
      modifies this
      ensures surahOpen == old(surahOpen) && ayahs == old(ayahs)
      ensures Snapshot() == EndedOn(surahOpen, ayahs, old(Snapshot()))
    {
      if isPlayingFullSurah {
        if currentVerseIndex < |ayahs| - 1 {
          PlayVerse(currentVerseIndex + 1);
        } else {
          isPlayingFullSurah := false;
        }
      }
    }

    /** `closePlayerModal`: stops full-chapter playback. */
    method ClosePlayer()
      modifies this
      ensures surahOpen == old(surahOpen) && ayahs == old(ayahs)
      ensures Snapshot() == old(Snapshot()).(isPlayingFullSurah := false)
    {
      isPlayingFullSurah := false;
    }

    /** `playSurah` followed by `fetchSurahAyahs`: opens the chapter, hides the
        error box and loads its verses. On success the verses are the loaded
        list, the index is 0 and full-chapter mode is off; on failure the list
        is emptied, the error box shows the load error with the thrown message,
        and that message is returned. */
    method PlaySurah(number: int, selectedEdition: string, api: string -> ApiReply) returns (error: Option<string>)
      modifies this
      ensures surahOpen
      ensures match LoadAyahs(number, selectedEdition, api)
        case Success(l) =>
          && ayahs == l && error.None?
          && Snapshot() == old(Snapshot()).(currentVerseIndex := 0, isPlayingFullSurah := false, errorText := None)
        case Failure(m) =>
          && ayahs == [] && error == Some(m)
          && Snapshot() == old(Snapshot()).(errorText := Some(LoadErrorMessage(m)))
    {
      surahOpen := true;
      errorText := None;
      error := FetchSurahAyahs(number, selectedEdition, api);
      if error.Some? {
        errorText := Some(LoadErrorMessage(error.value));
      }
    }

    /** `fetchSurahAyahs`: fills the open chapter's verse list from the API,
        unshifting the Basmala when it applies. */
    method FetchSurahAyahs(number: int, selectedEdition: string, api: string -> ApiReply) returns (error: Option<string>)
      modifies this
      ensures surahOpen == old(surahOpen)
      ensures match LoadAyahs(number, selectedEdition, api)
        case Success(l) =>
          && ayahs == l && error.None?
          && Snapshot() == old(Snapshot()).(currentVerseIndex := 0, isPlayingFullSurah := false)
        case Failure(m) =>
          && ayahs == [] && error == Some(m)
          && Snapshot() == old(Snapshot())
    {
      var edition := EditionOr(selectedEdition);
      var reply := api(SurahUrl(number, edition));
      match reply
      case Unreachable(message) =>
        ayahs := [];
        return Some(message);
      case NotOk(status) =>
        ayahs := [];
        return Some("alquran.cloud HTTP " + Text.IntToString(status));
      case NoAyahs =>
        ayahs := [];
        return Some("No ayahs in API response");
      case Ayahs(raw) =>
        ayahs := MapAyahs(raw);
        if number > 1 && number != 9 {
          var basmalaReply := api(SurahUrl(1, edition));
          if basmalaReply.Ayahs? && basmalaReply.list != [] {
            ayahs := [BasmalaVerse(basmalaReply.list[0])] + ayahs;
          }
        }
        currentVerseIndex := 0;
        isPlayingFullSurah := false;
        return None;
    }
  }
}
