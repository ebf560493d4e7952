/** The pure logic of the page around timed segments: which segment is active at
    a playback time, the tab-separated transcript file written by the download
    button and read back by the transcript picker, and the two row arrays of the
    bilingual view. */
module Segments {
  import opened Js

  /** A JavaScript number as the page uses it: a finite value or NaN (what
      `parseFloat` gives for a column that is missing or not numeric). */
  datatype Num = Finite(value: real) | NaN

  /** A transcript segment. A `text` read from a line with fewer than three
      columns is undefined (`None`). A missing `ja` is the empty string: the page
      only ever reads it through `ja || ""`, a truthiness test, or `join`, which
      prints `undefined` as "". */
  datatype Segment = Segment(id: int, start: Num, end: Num, text: Option<string>, ja: string)

  /** The text wherever the page reads it as a string: `join` and `text || ''`
      show an undefined text as "", and a request whose body leaves `text` out
      is answered like one with an empty text. */
  function TextOrEmpty(seg: Segment): string
  {
    if seg.text.Some? then seg.text.value else ""
  }

  /** `${seg.text}`: an undefined text is written as the word `undefined`. */
  function TextCell(seg: Segment): string
  {
    if seg.text.Some? then seg.text.value else "undefined"
  }

  // ---------------------------------------------------------------------------
  // Highlight.

  /** `current >= seg.start && current < seg.end`; every comparison with NaN is false. */
  predicate Covers(seg: Segment, t: real)
  {
    seg.start.Finite? && seg.end.Finite? && seg.start.value <= t < seg.end.value
  }

  /** `segments.findIndex(covers)` with -1 mapped to null: the lowest index whose
      segment covers `t`, or None when none does. */
  function HighlightIndex(segs: seq<Segment>, t: real): (r: Option<nat>)
    ensures r.Some? ==> r.value < |segs| && Covers(segs[r.value], t)
    ensures r.Some? ==> forall j :: 0 <= j < r.value ==> !Covers(segs[j], t)
    ensures r.None? <==> forall j :: 0 <= j < |segs| ==> !Covers(segs[j], t)
    decreases |segs|
  {
    if segs == [] then None
    else if Covers(segs[0], t) then Some(0)
    else match HighlightIndex(segs[1..], t)
      case None =>
        assert forall j :: 1 <= j < |segs| ==> segs[j] == segs[1..][j - 1];
        None
      case Some(k) =>
        assert forall j :: 1 <= j < k + 1 ==> segs[j] == segs[1..][j - 1];
        Some(k + 1)
  }

  // ---------------------------------------------------------------------------
  // The tab-separated transcript file.

  /** Text that fits in one cell of the file: no tab and no line feed. */
  predicate CellSafe(s: string)
  {
    '\t' !in s && '\n' !in s
  }

  /** Every cell of the segment's line fits in its cell. */
  predicate CellsSafe(seg: Segment, format: Num -> string)
  {
    CellSafe(format(seg.start)) && CellSafe(format(seg.end)) && CellSafe(TextCell(seg)) && CellSafe(seg.ja)
  }

  /** Four tab-free cells joined with tabs split back into those cells. */
  lemma {:induction false} SplitFourCells(a: string, b: string, c: string, d: string)
    requires '\t' !in a && '\t' !in b && '\t' !in c && '\t' !in d
    ensures Split(a + "\t" + b + "\t" + c + "\t" + d, '\t') == [a, b, c, d]
  {
    var cd := c + ['\t'] + d;
    var bcd := b + ['\t'] + cd;
    assert a + "\t" + b + "\t" + c + "\t" + d == a + ['\t'] + bcd;
    SplitNoSeparator(d, '\t');
    SplitAtSeparator(c, '\t', d);
    SplitAtSeparator(b, '\t', cd);
    SplitAtSeparator(a, '\t', bcd);
  }

  /** `${start}\t${end}\t${text}\t${ja || ""}`, with number formatting as a
      parameter: when every cell fits, one line whose four tab-separated columns
      are the four cells. */
  function TsvLine(seg: Segment, format: Num -> string): (line: string)
    ensures CellsSafe(seg, format) ==>
      && '\n' !in line
      && Split(line, '\t') == [format(seg.start), format(seg.end), TextCell(seg), seg.ja]
  {
    var line := format(seg.start) + "\t" + format(seg.end) + "\t" + TextCell(seg) + "\t" + seg.ja;
    assert CellsSafe(seg, format) ==> Split(line, '\t') == [format(seg.start), format(seg.end), TextCell(seg), seg.ja] by {
      if CellsSafe(seg, format) {
        SplitFourCells(format(seg.start), format(seg.end), TextCell(seg), seg.ja);
      }
    }
    line
  }

  /** The lines of a saved file, one per segment. The ensures give the
      elements to the lemmas about the file, without unfolding the body. */
  function SavedLines(segs: seq<Segment>, format: Num -> string): (lines: seq<string>)
    ensures |lines| == |segs|
    ensures forall i :: 0 <= i < |segs| ==> lines[i] == TsvLine(segs[i], format)
  {
    seq(|segs|, i requires 0 <= i < |segs| => TsvLine(segs[i], format))
  }

  /** The segment lines joined with "\n": empty for no segments, and otherwise
      split back at line feeds into exactly the segment lines, when every cell
      fits. */
  function TsvContent(segs: seq<Segment>, format: Num -> string): (content: string)
    ensures |segs| == 0 ==> content == ""
    ensures |segs| > 0 && (forall i :: 0 <= i < |segs| ==> CellsSafe(segs[i], format)) ==>
      Split(content, '\n') == SavedLines(segs, format)
  {
    var lines := SavedLines(segs, format);
    var content := Join(lines, "\n");
    assert |segs| > 0 && (forall i :: 0 <= i < |segs| ==> CellsSafe(segs[i], format)) ==>
      Split(content, '\n') == lines by {
      if |segs| > 0 && (forall i :: 0 <= i < |segs| ==> CellsSafe(segs[i], format)) {
        assert "\n" == ['\n'];
        SplitOfJoin(lines, '\n');
      }
    }
    content
  }

  /** What the download button saves: the segment lines when there are segments,
      else the flat transcript (`""` when there is none). */
  function DownloadContent(segs: seq<Segment>, transcript: string, format: Num -> string): (content: string)
    ensures |segs| > 0 ==> content == TsvContent(segs, format)
    ensures |segs| == 0 ==> content == transcript
  {
    if |segs| > 0 then TsvContent(segs, format) else if transcript != "" then transcript else ""
  }

  /** A chosen transcript file is either read as segments or kept as plain text. */
  datatype Loaded = Segmented(segs: seq<Segment>) | PlainText(text: string)

  function NumColumn(cols: seq<string>, k: nat, parseFloat: string -> Num): Num
  {
    if k < |cols| then parseFloat(cols[k]) else NaN
  }

  /** One line of a segmented file: `id` is the line index, `start` and `end` are
      `parseFloat` of the first two columns (NaN when missing), `text` is the
      third column (undefined when missing), and `ja` is the fourth column or "". */
  function ParseLine(line: string, idx: nat, parseFloat: string -> Num): (seg: Segment)
    ensures var cols := Split(line, '\t');
      && seg.id == idx
      && seg.start == parseFloat(cols[0])
      && (seg.end == if |cols| > 1 then parseFloat(cols[1]) else NaN)
      && (seg.text == if |cols| > 2 then Some(cols[2]) else None)
      && (seg.ja == if |cols| > 3 then cols[3] else "")
  {
    var cols := Split(line, '\t');
    Segment(idx, NumColumn(cols, 0, parseFloat), NumColumn(cols, 1, parseFloat),
            if |cols| > 2 then Some(cols[2]) else None, if |cols| > 3 then cols[3] else "")
  }

  /** A file is segmented exactly when its first line has at least three
      tab-separated fields; then every line, the first included, becomes one
      segment, read by `ParseLine` with its line index. Otherwise the text is
      kept unchanged. */
  function LoadTranscript(text: string, parseFloat: string -> Num): (r: Loaded)
    ensures r.Segmented? <==> |Split(SplitLines(text)[0], '\t')| >= 3
    ensures r.Segmented? ==> |r.segs| == |SplitLines(text)| >= 1
    ensures r.Segmented? ==> forall i :: 0 <= i < |r.segs| ==> r.segs[i] == ParseLine(SplitLines(text)[i], i, parseFloat)
    ensures r.PlainText? ==> r.text == text
  {
    var lines := SplitLines(text);
    if |Split(lines[0], '\t')| >= 3 then
      Segmented(seq(|lines|, i requires 0 <= i < |lines| => ParseLine(lines[i], i, parseFloat)))
    else PlainText(text)
  }

  /** A segment that survives the file: its text is defined, no cell holds a tab
      or a line feed, its last cell does not end with a carriage return (which
      the reader would take as part of a CRLF), and `parseFloat` reads its two
      formatted times back. */
  predicate Writable(seg: Segment, format: Num -> string, parseFloat: string -> Num)
  {
    && seg.text.Some? && CellsSafe(seg, format) && !EndsWithCR(seg.ja)
    && parseFloat(format(seg.start)) == seg.start && parseFloat(format(seg.end)) == seg.end
  }

  /** The segments with their ids replaced by their positions. The ensures give
      the elements to the round-trip lemmas, without unfolding the body. */
  function Renumbered(segs: seq<Segment>): (r: seq<Segment>)
    ensures |r| == |segs|
    ensures forall i :: 0 <= i < |segs| ==> r[i] == segs[i].(id := i)
  {
    seq(|segs|, i requires 0 <= i < |segs| => segs[i].(id := i))
  }

  /** A line written for a segment whose cells fit ends with a carriage return
      only if its `ja` does. */
  lemma TsvLineEnd(seg: Segment, format: Num -> string)
    requires CellsSafe(seg, format) && !EndsWithCR(seg.ja)
    ensures !EndsWithCR(TsvLine(seg, format))
  {
    var line := TsvLine(seg, format);
    if seg.ja != "" {
      assert line[|line| - 1] == seg.ja[|seg.ja| - 1];
    }
  }

  /** A file whose lines are known and whose first line has at least three
      fields is read line by line. */
  lemma LoadLines(text: string, lines: seq<string>, parseFloat: string -> Num)
    requires SplitLines(text) == lines
    requires |Split(lines[0], '\t')| >= 3
    ensures LoadTranscript(text, parseFloat)
         == Segmented(seq(|lines|, i requires 0 <= i < |lines| => ParseLine(lines[i], i, parseFloat)))
  {
  }

  /** The line written for a writable segment reads back as that segment, renumbered. */
  lemma ParseTsvLine(seg: Segment, idx: nat, format: Num -> string, parseFloat: string -> Num)
    requires Writable(seg, format, parseFloat)
    ensures ParseLine(TsvLine(seg, format), idx, parseFloat) == seg.(id := idx)
    ensures |Split(TsvLine(seg, format), '\t')| == 4
    ensures '\n' !in TsvLine(seg, format) && !EndsWithCR(TsvLine(seg, format))
  {
    TsvLineEnd(seg, format);
  }

  /** Each line written for writable segments is a single line whose fields
      read back as its segment. */
  lemma SavedLinesReadBack(segs: seq<Segment>, format: Num -> string, parseFloat: string -> Num)
    requires |segs| > 0
    requires forall i :: 0 <= i < |segs| ==> Writable(segs[i], format, parseFloat)
    ensures var lines := SavedLines(segs, format);
      && |Split(lines[0], '\t')| == 4
      && forall i :: 0 <= i < |lines| ==>
           && ParseLine(lines[i], i, parseFloat) == segs[i].(id := i)
           && '\n' !in lines[i] && !EndsWithCR(lines[i])
  {
    var lines := SavedLines(segs, format);
    forall i | 0 <= i < |segs|
      ensures ParseLine(lines[i], i, parseFloat) == segs[i].(id := i)
      ensures '\n' !in lines[i] && !EndsWithCR(lines[i])
    {
      ParseTsvLine(segs[i], i, format, parseFloat);
    }
    ParseTsvLine(segs[0], 0, format, parseFloat);
  }

  /** Saving segments and reading the file back gives the same segments, renumbered
      0..n-1, provided every segment is writable: its cells hold no tab or line
      break and its times are read back by `parseFloat`. */
  lemma TsvRoundTrip(segs: seq<Segment>, transcript: string, format: Num -> string, parseFloat: string -> Num)
    requires |segs| > 0
    requires forall i :: 0 <= i < |segs| ==> Writable(segs[i], format, parseFloat)
    ensures LoadTranscript(DownloadContent(segs, transcript, format), parseFloat) == Segmented(Renumbered(segs))
  {
    var lines := SavedLines(segs, format);
    SavedLinesReadBack(segs, format, parseFloat);
    SplitLinesOfJoin(lines);
    LoadLines(TsvContent(segs, format), lines, parseFloat);
  }

  /** The reader accepts a first line with only three fields (the file's own
      writer always produces four); the fourth column then reads as "". */
  lemma ThreeFieldsSuffice(start: string, end: string, text: string, parseFloat: string -> Num)
    requires CellSafe(start) && CellSafe(end) && CellSafe(text)
    ensures LoadTranscript(start + "\t" + end + "\t" + text, parseFloat)
         == Segmented([Segment(0, parseFloat(start), parseFloat(end), Some(text), "")])
  {
    var line := start + "\t" + end + "\t" + text;
    assert [start, end, text][1..][1..] == [text];
    assert Join([start, end, text][1..], "\t") == end + "\t" + text;
    assert Join([start, end, text], "\t") == line;
    SplitOfJoin([start, end, text], '\t');
    SplitNoSeparator(line, '\n');
  }

  /** A saved file with a line feed added at its end reads back with one extra
      segment: undefined text, empty translation and a NaN end time. */
  lemma TrailingNewlineAddsSegment(segs: seq<Segment>, format: Num -> string, parseFloat: string -> Num)
    requires |segs| > 0
    requires forall i :: 0 <= i < |segs| ==> Writable(segs[i], format, parseFloat)
    ensures LoadTranscript(TsvContent(segs, format) + "\n", parseFloat)
         == Segmented(Renumbered(segs) + [Segment(|segs|, parseFloat(""), NaN, None, "")])
  {
    var saved := SavedLines(segs, format);
    var lines := saved + [""];
    SavedLinesReadBack(segs, format, parseFloat);
    assert lines[0] == saved[0];
    JoinAppendEmpty(saved, "\n");
    SplitLinesOfJoin(lines);
    LoadLines(TsvContent(segs, format) + "\n", lines, parseFloat);
    var loaded := seq(|lines|, i requires 0 <= i < |lines| => ParseLine(lines[i], i, parseFloat));
    var expected := Renumbered(segs) + [Segment(|segs|, parseFloat(""), NaN, None, "")];
    forall i | 0 <= i < |lines|
      ensures loaded[i] == expected[i]
    {
      if i < |segs| {
        assert lines[i] == saved[i];
      } else {
        assert lines[i] == "";
      }
    }
    assert loaded == expected;
  }

  /** A segment whose text is undefined is saved with the word `undefined` in
      its text cell, so the file reads it back as the text "undefined". */
  lemma UndefinedTextComesBack(seg: Segment, idx: nat, format: Num -> string, parseFloat: string -> Num)
    requires seg.text.None?
    requires CellsSafe(seg, format)
    ensures ParseLine(TsvLine(seg, format), idx, parseFloat).text == Some("undefined")
  {
  }

  lemma {:induction false} JoinAppendEmpty(parts: seq<string>, sep: string)
    requires |parts| > 0
    ensures Join(parts + [""], sep) == Join(parts, sep) + sep
    decreases |parts|
  {
    if |parts| > 1 {
      assert (parts + [""])[1..] == parts[1..] + [""];
      JoinAppendEmpty(parts[1..], sep);
    }
  }

  // ---------------------------------------------------------------------------
  // The bilingual view.

  datatype Rows = Rows(english: seq<string>, japanese: seq<string>, maxLines: nat)

  function Max(a: nat, b: nat): nat
  {
    if a >= b then a else b
  }

  /** `transcriptSentences`, `translationSentences` and `maxLines`. Without
      segments the flat texts are cut into sentences by the two splitters, given
      as parameters; the padding branch inside that path needs segments and so
      never runs. */
  function BilingualRows(segs: seq<Segment>, transcript: string, translation: string,
                         splitEnglish: string -> seq<string>, splitJapanese: string -> seq<string>): (r: Rows)
    ensures r.maxLines == Max(|r.english|, |r.japanese|)
    ensures |segs| > 0 ==> |r.english| == |r.japanese| == r.maxLines == |segs|
    ensures |segs| > 0 ==> forall i :: 0 <= i < |segs| ==> r.english[i] == TextOrEmpty(segs[i]) && r.japanese[i] == segs[i].ja
    ensures |segs| == 0 && transcript == "" ==> r.english == []
    ensures |segs| == 0 && transcript != "" ==> r.english == splitEnglish(transcript)
    ensures |segs| == 0 && translation == "" ==> r.japanese == []
    ensures |segs| == 0 && translation != "" ==> r.japanese == splitJapanese(translation)
  {
    var english := if |segs| > 0 then seq(|segs|, i requires 0 <= i < |segs| => TextOrEmpty(segs[i]))
                   else if transcript != "" then splitEnglish(transcript) else [];
    var japanese := if |segs| > 0 then seq(|segs|, i requires 0 <= i < |segs| => segs[i].ja)
                    else if translation == "" then [] else splitJapanese(translation);
    Rows(english, japanese, Max(|english|, |japanese|))
  }

  /** `lines[idx] || ''`: a row past the end of a column shows as empty. */
  function Cell(lines: seq<string>, idx: nat): string
  {
    if idx < |lines| then lines[idx] else ""
  }

  /** With segments, row `idx` of the view pairs segment `idx`'s text with its translation. */
  lemma RowsPairSegments(segs: seq<Segment>, transcript: string, translation: string,
                         splitEnglish: string -> seq<string>, splitJapanese: string -> seq<string>, idx: nat)
    requires |segs| > 0
    ensures var r := BilingualRows(segs, transcript, translation, splitEnglish, splitJapanese);
      idx < r.maxLines <==> idx < |segs|
    ensures var r := BilingualRows(segs, transcript, translation, splitEnglish, splitJapanese);
      idx < |segs| ==> Cell(r.english, idx) == TextOrEmpty(segs[idx]) && Cell(r.japanese, idx) == segs[idx].ja
  {
  }
}
