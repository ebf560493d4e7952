/** The page component's state and the handlers that change it: choosing media,
    play and pause, playback time and end of media, choosing a transcript file,
    and the incremental translator. React's state setters are field
    assignments; the translation route is a `Translator` parameter. */
module Home {
  import opened Js
  import opened Segments
  import opened SegmentTranslation

  datatype Loading = Idle | Transcribing | Translating

  class Page {
    var segments: seq<Segment>
    var transcript: string
    var translation: string
    var loading: Loading
    var error: string
    var isPlaying: bool
    var highlightIndex: Option<nat>
    /** The media object URL; the audio element (and so `audioRef.current`)
        exists exactly when it is non-empty. */
    var audioUrl: string
    /** Whether the `ended` listener is attached. The effect that attaches it
        runs once, on mount, and only when the audio element exists then. */
    var endedListener: bool

    /** The first render: nothing loaded, nothing playing, and the mount-time
        effect finds no audio element. */
    constructor ()
      ensures segments == [] && transcript == "" && translation == "" && error == ""
      ensures loading == Idle && !isPlaying && highlightIndex.None? && audioUrl == ""
      ensures !endedListener
    {
      segments, transcript, translation := [], "", "";
      loading, error := Idle, "";
      isPlaying, highlightIndex := false, None;
      audioUrl := "";
      new;
      endedListener := audioUrl != "";
    }

    /** `handleAudioChange` with the file's object URL given. */
    method ChooseAudio(url: string)
      modifies this`audioUrl
      ensures audioUrl == url
    {
      audioUrl := url;
    }

    /** `handlePlay`: playing, when there is an audio element. */
    method Play()
      modifies this`isPlaying
      ensures isPlaying == (old(isPlaying) || audioUrl != "")
    {
      if audioUrl != "" {
        isPlaying := true;
      }
    }

    /** `handlePause`: stopped, when there is an audio element. */
    method Pause()
      modifies this`isPlaying
      ensures isPlaying == (old(isPlaying) && audioUrl == "")
    {
      if audioUrl != "" {
        isPlaying := false;
      }
    }

    /** A `timeupdate` event at time `t`. The listener is attached only while
        playing with an audio element and a non-empty segment list; it sets the
        highlight to the first segment covering `t`, or to none. */
    method TimeUpdate(t: real)
      modifies this`highlightIndex
      ensures isPlaying && audioUrl != "" && |segments| > 0 ==> highlightIndex == HighlightIndex(segments, t)
      ensures !(isPlaying && audioUrl != "" && |segments| > 0) ==> highlightIndex == old(highlightIndex)
    {
      if isPlaying && audioUrl != "" && |segments| > 0 {
        highlightIndex := HighlightIndex(segments, t);
      }
    }

    /** The body of the `onEnded` handler: stop and clear the highlight. */
    method OnEnded()
      modifies this`isPlaying, this`highlightIndex
      ensures !isPlaying && highlightIndex.None?
    {
      isPlaying := false;
      highlightIndex := None;
    }

    /** The media reaching its end, as the page is written: the handler runs only
        if the mount-time effect attached it. */
    method MediaEndedAsWritten()
      modifies this`isPlaying, this`highlightIndex
      ensures endedListener ==> !isPlaying && highlightIndex.None?
      ensures !endedListener ==> isPlaying == old(isPlaying) && highlightIndex == old(highlightIndex)
    {
      if endedListener {
        OnEnded();
      }
    }

    /** The media reaching its end with the listener attached whenever the audio
        element exists. */
    method MediaEnded()
      modifies this`isPlaying, this`highlightIndex
      ensures audioUrl != "" ==> !isPlaying && highlightIndex.None?
      ensures audioUrl == "" ==> isPlaying == old(isPlaying) && highlightIndex == old(highlightIndex)
    {
      if audioUrl != "" {
        OnEnded();
      }
    }

    /** `translateSegments`: the loop over a copy of the segments, translating
        the untranslated ones in order and stopping at the first failure; the
        page shows the progress after each success and the joined translation at
        the end. Returns the texts sent. */
    method TranslateSegments(segs: seq<Segment>, tr: Translator) returns (sent: seq<string>)
      modifies this`segments, this`translation, this`loading, this`error
      ensures var r := Translate(segs, tr);
        && segments == r.segs
        && sent == r.sent
        && error == (if r.failure.Some? then r.failure.value else "")
        && translation == JoinedTranslation(r.segs)
        && loading == Idle
    {
      loading := Translating;
      error := "";
      var newSegs := new Segment[|segs|](k requires 0 <= k < |segs| => segs[k]);
      assert newSegs[..] == segs;
      sent := [];
      for i := 0 to newSegs.Length
        invariant error == ""
        invariant var r := RunFrom(newSegs[..], i, tr);
          Run(r.segs, r.failure, sent + r.sent) == Translate(segs, tr)
      {
        ghost var before := newSegs[..];
        ghost var previouslySent := sent;
        if newSegs[i].ja != "" {
          assert RunFrom(before, i, tr) == RunFrom(before, i + 1, tr);
          continue;
        }
        var reply := tr(TextOrEmpty(newSegs[i]));
        sent := sent + [TextOrEmpty(newSegs[i])];
        if reply.Err? {
          error := ErrorMessage(reply.error);
          assert RunFrom(before, i, tr) == Run(before, Some(error), [TextOrEmpty(before[i])]);
          break;
        }
        newSegs[i] := newSegs[i].(ja := reply.value);
        assert newSegs[..] == before[i := before[i].(ja := reply.value)];
        ghost var rest := RunFrom(newSegs[..], i + 1, tr);
        assert RunFrom(before, i, tr) == Run(rest.segs, rest.failure, [TextOrEmpty(before[i])] + rest.sent);
        assert sent + rest.sent == previouslySent + ([TextOrEmpty(before[i])] + rest.sent);
        segments := newSegs[..];
      }
      segments := newSegs[..];
      translation := JoinedTranslation(newSegs[..]);
      loading := Idle;
    }

    /** `handleTranscriptChange` once the file's text is read: a segmented file
        replaces the segments and is translated when some `ja` is empty (the
        joined `ja` values are shown otherwise); a plain file is kept as the
        transcript and, when non-empty, translated as a whole. Returns the texts
        sent. */
    method ChooseTranscript(text: string, parseFloat: string -> Num, tr: Translator) returns (sent: seq<string>)
      modifies this`segments, this`transcript, this`translation, this`loading, this`error
      ensures match LoadTranscript(text, parseFloat)
        case Segmented(segs) =>
          && transcript == JoinedTranscript(segs)
          && (SomeUntranslated(segs) ==>
                var r := Translate(segs, tr);
                && segments == r.segs && sent == r.sent && translation == JoinedTranslation(r.segs)
                && error == (if r.failure.Some? then r.failure.value else "") && loading == Idle)
          && (!SomeUntranslated(segs) ==>
                && segments == segs && sent == [] && translation == JoinedTranslation(segs)
                && error == old(error) && loading == old(loading))
        case PlainText(t) =>
          && segments == [] && transcript == t
          && (t == "" ==> sent == [] && translation == old(translation) && error == old(error) && loading == old(loading))
          && (t != "" ==>
                && sent == [t] && loading == Idle
                && (tr(t).Ok? ==> translation == tr(t).value && error == "")
                && (tr(t).Err? ==> translation == old(translation) && error == ErrorMessage(tr(t).error)))
    {
      match LoadTranscript(text, parseFloat)
      case Segmented(segs) =>
        segments := segs;
        transcript := JoinedTranscript(segs);
        if SomeUntranslated(segs) {
          sent := TranslateSegments(segs, tr);
        } else {
          translation := JoinedTranslation(segs);
          sent := [];
        }
      case PlainText(t) =>
        segments := [];
        transcript := t;
        sent := [];
        if t != "" {
          loading := Translating;
          error := "";
          var reply := tr(t);
          sent := [t];
          if reply.Ok? {
            translation := reply.value;
          } else {
            error := ErrorMessage(reply.error);
          }
          loading := Idle;
        }
    }
  }

  /** Play, then reach the end of the media, on the page as written: the `ended`
      listener was never attached, so the page still shows itself as playing. */
  method EndedListenerNeverAttached() returns (stillPlaying: bool)
    ensures stillPlaying
  {
    var page := new Page();
    page.ChooseAudio("blob:media");
    page.Play();
    page.MediaEndedAsWritten();
    stillPlaying := page.isPlaying;
  }

  /** The same sequence with the listener attached to the existing audio
      element: playback stops and the highlight is cleared. */
  method EndedStopsPlayback(t: real) returns (stillPlaying: bool, highlighted: Option<nat>)
    ensures !stillPlaying && highlighted.None?
  {
    var page := new Page();
    page.ChooseAudio("blob:media");
    page.Play();
    page.TimeUpdate(t);
    page.MediaEnded();
    stillPlaying, highlighted := page.isPlaying, page.highlightIndex;
  }

  /** Saving fully translated segments and choosing that file again sends
      nothing and shows the joined translations. */
  lemma ReloadOfTranslatedFileSendsNothing(segs: seq<Segment>, transcript: string, format: Num -> string,
                                           parseFloat: string -> Num, tr: Translator)
    requires |segs| > 0
    requires forall i :: 0 <= i < |segs| ==> Writable(segs[i], format, parseFloat) && !Untranslated(segs[i])
    ensures var loaded := LoadTranscript(DownloadContent(segs, transcript, format), parseFloat);
      && loaded == Segmented(Renumbered(segs))
      && !SomeUntranslated(loaded.segs)
      && Translate(loaded.segs, tr) == Run(loaded.segs, None, [])
  {
    TsvRoundTrip(segs, transcript, format, parseFloat);
    var loaded := Renumbered(segs);
    forall i | 0 <= i < |loaded|
      ensures !Untranslated(loaded[i])
    {
      assert loaded[i].ja == segs[i].ja;
    }
    NoCallsWhenAllTranslated(loaded, tr);
  }
}
