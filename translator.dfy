/** The specification of the page's incremental translator: walk the segments in
    order, skip every segment that already has a translation, ask for each of
    the others in turn, write each answer into its segment, and stop at the
    first failure. `RunFrom` is the step-by-step definition the loop in
    `Home.Page.TranslateSegments` is proved against; `FirstFailure`, `Expected`
    and `Pending` describe the outcome independently of the order of steps. */
module SegmentTranslation {
  import opened Js
  import opened Segments

  /** One request to the translation route for one text: the translation, or the
      message of the error it raised. */
  type Translator = string -> Result<string, string>

  const DefaultErrorMessage := "エラーが発生しました"

  /** `e.message || "エラーが発生しました"`. */
  function ErrorMessage(m: string): (r: string)
    ensures r != ""
    ensures m != "" ==> r == m
    ensures m == "" ==> r == DefaultErrorMessage
  {
    if m != "" then m else DefaultErrorMessage
  }

  /** `!(seg.ja && seg.ja.length > 0)`: the segment still needs a translation. */
  predicate Untranslated(seg: Segment)
  {
    seg.ja == ""
  }

  /** The outcome of a pass: the segments afterwards, the error recorded (if the
      pass stopped), and the texts sent, in order. */
  datatype Run = Run(segs: seq<Segment>, failure: Option<string>, sent: seq<string>)

  function RunFrom(s: seq<Segment>, i: nat, tr: Translator): (r: Run)
    requires i <= |s|
    ensures |r.segs| == |s|
    decreases |s| - i
  {
    if i == |s| then Run(s, None, [])
    else if !Untranslated(s[i]) then RunFrom(s, i + 1, tr)
    else match tr(TextOrEmpty(s[i]))
      case Ok(t) =>
        var r := RunFrom(s[i := s[i].(ja := t)], i + 1, tr);
        Run(r.segs, r.failure, [TextOrEmpty(s[i])] + r.sent)
      case Err(m) => Run(s, Some(ErrorMessage(m)), [TextOrEmpty(s[i])])
  }

  /** A whole pass over the segments. */
  function Translate(s: seq<Segment>, tr: Translator): (r: Run)
    ensures |r.segs| == |s|
  {
    RunFrom(s, 0, tr)
  }

  /** Segment `k` needs a translation and its request fails. */
  predicate FailsAt(s: seq<Segment>, tr: Translator, k: nat)
    requires k < |s|
  {
    Untranslated(s[k]) && tr(TextOrEmpty(s[k])).Err?
  }

  /** The lowest failing index at or after `i`, or |s| when none fails. */
  function FirstFailure(s: seq<Segment>, tr: Translator, i: nat): (k: nat)
    requires i <= |s|
    ensures i <= k <= |s|
    ensures k < |s| ==> FailsAt(s, tr, k)
    ensures forall j :: i <= j < k ==> !FailsAt(s, tr, j)
    decreases |s| - i
  {
    if i == |s| then |s| else if FailsAt(s, tr, i) then i else FirstFailure(s, tr, i + 1)
  }

  /** Segment `j` after a pass that stops at `k`: translated when it needed it and
      lies before `k`, untouched otherwise. */
  function Expected(s: seq<Segment>, tr: Translator, k: nat, j: nat): Segment
    requires j < |s|
  {
    if j < k && Untranslated(s[j]) then
      match tr(TextOrEmpty(s[j]))
      case Ok(t) => s[j].(ja := t)
      case Err(_) => s[j]
    else s[j]
  }

  /** The texts of the untranslated segments in [lo, hi), in order. */
  function Pending(s: seq<Segment>, lo: nat, hi: nat): seq<string>
    requires lo <= hi <= |s|
    decreases hi - lo
  {
    if lo == hi then [] else (if Untranslated(s[lo]) then [TextOrEmpty(s[lo])] else []) + Pending(s, lo + 1, hi)
  }

  /** The end of the segments that a pass which stops at `k` sends requests for. */
  function SentLimit(s: seq<Segment>, k: nat): nat
    requires k <= |s|
  {
    if k < |s| then k + 1 else |s|
  }

  predicate SameFrom(s: seq<Segment>, s': seq<Segment>, i: nat)
  {
    |s| == |s'| && forall j :: i <= j < |s| ==> s[j] == s'[j]
  }

  lemma {:induction false} FirstFailureSameFrom(s: seq<Segment>, s': seq<Segment>, tr: Translator, i: nat)
    requires i <= |s| && SameFrom(s, s', i)
    ensures FirstFailure(s, tr, i) == FirstFailure(s', tr, i)
    decreases |s| - i
  {
    if i < |s| {
      FirstFailureSameFrom(s, s', tr, i + 1);
    }
  }

  lemma {:induction false} PendingSameFrom(s: seq<Segment>, s': seq<Segment>, lo: nat, hi: nat)
    requires lo <= hi <= |s| && SameFrom(s, s', lo)
    ensures Pending(s, lo, hi) == Pending(s', lo, hi)
    decreases hi - lo
  {
    if lo < hi {
      PendingSameFrom(s, s', lo + 1, hi);
    }
  }

  /** What a pass from `i` does, stated without reference to its steps: it
      changes nothing before `i`; from `i` on, it translates exactly the
      untranslated segments before the first failure; it records that failure's
      message, if any; and it sends the texts of the untranslated segments up to
      and including the failing one. */
  lemma {:induction false} RunFromSpec(s: seq<Segment>, i: nat, tr: Translator)
    requires i <= |s|
    ensures var r := RunFrom(s, i, tr);
      var k := FirstFailure(s, tr, i);
      && |r.segs| == |s|
      && (forall j :: 0 <= j < i ==> r.segs[j] == s[j])
      && (forall j :: i <= j < |s| ==> r.segs[j] == Expected(s, tr, k, j))
      && r.failure == (if k < |s| then Some(ErrorMessage(tr(TextOrEmpty(s[k])).error)) else None)
      && r.sent == Pending(s, i, SentLimit(s, k))
    decreases |s| - i, 1
  {
    var k := FirstFailure(s, tr, i);
    if i == |s| {
    } else if !Untranslated(s[i]) {
      RunFromSpec(s, i + 1, tr);
    } else if tr(TextOrEmpty(s[i])).Ok? {
      RunFromSpecAfterSuccess(s, i, tr);
    } else {
      assert k == i;
      assert Pending(s, i + 1, i + 1) == [];
    }
  }

  /** The step of `RunFromSpec` where segment `i` is translated successfully:
      the rest of the pass runs on the updated segments, which agree with the
      original ones from `i + 1` on. */
  lemma {:induction false} RunFromSpecAfterSuccess(s: seq<Segment>, i: nat, tr: Translator)
    requires i < |s| && Untranslated(s[i]) && tr(TextOrEmpty(s[i])).Ok?
    ensures var r := RunFrom(s, i, tr);
      var k := FirstFailure(s, tr, i);
      && |r.segs| == |s|
      && (forall j :: 0 <= j < i ==> r.segs[j] == s[j])
      && (forall j :: i <= j < |s| ==> r.segs[j] == Expected(s, tr, k, j))
      && r.failure == (if k < |s| then Some(ErrorMessage(tr(TextOrEmpty(s[k])).error)) else None)
      && r.sent == Pending(s, i, SentLimit(s, k))
    decreases |s| - i, 0
  {
    var k := FirstFailure(s, tr, i);
    var s' := s[i := s[i].(ja := tr(TextOrEmpty(s[i])).value)];
    assert SameFrom(s, s', i + 1);
    RunFromSpec(s', i + 1, tr);
    FirstFailureSameFrom(s, s', tr, i + 1);
    PendingSameFrom(s, s', i + 1, SentLimit(s, k));
    var r := RunFrom(s', i + 1, tr);
    assert RunFrom(s, i, tr) == Run(r.segs, r.failure, [TextOrEmpty(s[i])] + r.sent);
    forall j | i + 1 <= j < |s|
      ensures Expected(s', tr, k, j) == Expected(s, tr, k, j)
    {
    }
  }

  // ---------------------------------------------------------------------------
  // Consequences for a whole pass.

  /** A segment that already has a translation is never sent and keeps it; so a
      pass over fully translated segments makes no request and changes nothing. */
  lemma NoCallsWhenAllTranslated(s: seq<Segment>, tr: Translator)
    requires forall j :: 0 <= j < |s| ==> !Untranslated(s[j])
    ensures Translate(s, tr) == Run(s, None, [])
  {
    RunFromSpec(s, 0, tr);
    var r := Translate(s, tr);
    NoPending(s, 0, SentLimit(s, FirstFailure(s, tr, 0)));
    assert r.segs == s;
  }

  lemma {:induction false} NoPending(s: seq<Segment>, lo: nat, hi: nat)
    requires lo <= hi <= |s|
    requires forall j :: lo <= j < hi ==> !Untranslated(s[j])
    ensures Pending(s, lo, hi) == []
    decreases hi - lo
  {
    if lo < hi {
      NoPending(s, lo + 1, hi);
    }
  }

  /** Only `ja` fields change, and only those that were empty. */
  lemma TranslationTouchesOnlyJa(s: seq<Segment>, tr: Translator)
    ensures var r := Translate(s, tr);
      && |r.segs| == |s|
      && (forall j :: 0 <= j < |s| ==> r.segs[j].(ja := s[j].ja) == s[j])
      && (forall j :: 0 <= j < |s| && !Untranslated(s[j]) ==> r.segs[j] == s[j])
  {
    RunFromSpec(s, 0, tr);
  }

  /** A pass stops exactly when some untranslated segment's request fails. */
  lemma StopsIffSomeFailure(s: seq<Segment>, tr: Translator)
    ensures Translate(s, tr).failure.Some? <==> exists k :: 0 <= k < |s| && FailsAt(s, tr, k)
  {
    RunFromSpec(s, 0, tr);
    var k := FirstFailure(s, tr, 0);
    if k < |s| {
      assert FailsAt(s, tr, k);
    }
  }

  /** When a pass stops, the first failing segment `k` decides everything: the
      error recorded is its message, the segments before it that needed
      translation now hold their translations, and it and every later segment
      are unchanged. */
  lemma FailureHaltsPass(s: seq<Segment>, tr: Translator)
    ensures var r := Translate(s, tr);
      var k := FirstFailure(s, tr, 0);
      r.failure.Some? ==>
        && k < |s| && FailsAt(s, tr, k)
        && r.failure == Some(ErrorMessage(tr(TextOrEmpty(s[k])).error))
        && (forall j :: 0 <= j < k && Untranslated(s[j]) ==> tr(TextOrEmpty(s[j])).Ok? && r.segs[j].ja == tr(TextOrEmpty(s[j])).value)
        && (forall j :: k <= j < |s| ==> r.segs[j] == s[j])
  {
    var r := Translate(s, tr);
    var k := FirstFailure(s, tr, 0);
    RunFromSpec(s, 0, tr);
    if k < |s| {
      forall j | 0 <= j < k && Untranslated(s[j])
        ensures tr(TextOrEmpty(s[j])).Ok? && r.segs[j].ja == tr(TextOrEmpty(s[j])).value
      {
        assert !FailsAt(s, tr, j);
        assert r.segs[j] == Expected(s, tr, k, j);
      }
    }
  }

  /** A pass that records no error has translated every segment that needed it. */
  lemma CompletedPassTranslatesAll(s: seq<Segment>, tr: Translator)
    ensures var r := Translate(s, tr);
      r.failure.None? ==>
        forall j :: 0 <= j < |s| && Untranslated(s[j]) ==> tr(TextOrEmpty(s[j])).Ok? && r.segs[j].ja == tr(TextOrEmpty(s[j])).value
  {
    RunFromSpec(s, 0, tr);
    var r := Translate(s, tr);
    var k := FirstFailure(s, tr, 0);
    if r.failure.None? {
      forall j | 0 <= j < |s| && Untranslated(s[j])
        ensures tr(TextOrEmpty(s[j])).Ok? && r.segs[j].ja == tr(TextOrEmpty(s[j])).value
      {
        assert !FailsAt(s, tr, j);
        assert r.segs[j] == Expected(s, tr, k, j);
      }
    }
  }

  /** Three untranslated segments A, B, C where B's request fails: A is
      translated, B and C keep their empty translation, B's error is recorded, and
      C is never sent. */
  lemma PartialFailureScenario(a: Segment, b: Segment, c: Segment, tr: Translator)
    requires Untranslated(a) && Untranslated(b) && Untranslated(c)
    requires tr(TextOrEmpty(a)).Ok? && tr(TextOrEmpty(b)).Err?
    ensures Translate([a, b, c], tr)
         == Run([a.(ja := tr(TextOrEmpty(a)).value), b, c], Some(ErrorMessage(tr(TextOrEmpty(b)).error)), [TextOrEmpty(a), TextOrEmpty(b)])
  {
    var s := [a, b, c];
    RunFromSpec(s, 0, tr);
    assert !FailsAt(s, tr, 0) && FailsAt(s, tr, 1);
    assert FirstFailure(s, tr, 0) == 1;
    var r := Translate(s, tr);
    assert r.segs == [a.(ja := tr(TextOrEmpty(a)).value), b, c];
    assert Pending(s, 0, 2) == [TextOrEmpty(a), TextOrEmpty(b)];
  }

  /** After a pass that completed and received non-empty translations, a second
      pass, whatever the answers, sends nothing. */
  lemma SecondPassSendsNothing(s: seq<Segment>, tr: Translator, tr2: Translator)
    requires Translate(s, tr).failure.None?
    requires forall j :: 0 <= j < |s| && Untranslated(s[j]) && tr(TextOrEmpty(s[j])).Ok? ==> tr(TextOrEmpty(s[j])).value != ""
    ensures Translate(Translate(s, tr).segs, tr2) == Run(Translate(s, tr).segs, None, [])
  {
    RunFromSpec(s, 0, tr);
    CompletedPassTranslatesAll(s, tr);
    var r := Translate(s, tr);
    assert forall j :: 0 <= j < |r.segs| ==> !Untranslated(r.segs[j]);
    NoCallsWhenAllTranslated(r.segs, tr2);
  }

  /** The flat translation after a pass: every `ja`, joined with a space. */
  function JoinedTranslation(segs: seq<Segment>): string
  {
    Join(seq(|segs|, i requires 0 <= i < |segs| => segs[i].ja), " ")
  }

  /** The flat transcript of loaded segments: every text, joined with a space. */
  function JoinedTranscript(segs: seq<Segment>): string
  {
    Join(seq(|segs|, i requires 0 <= i < |segs| => TextOrEmpty(segs[i])), " ")
  }

  /** `segs.some((s) => !s.ja)`. */
  predicate SomeUntranslated(segs: seq<Segment>)
  {
    exists j :: 0 <= j < |segs| && Untranslated(segs[j])
  }
}
