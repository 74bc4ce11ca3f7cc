/**
 Word timings: the text between time tags, each word placed in the trimmed line that is
 shown. The tag matches of the regular expression are given by position.
 */
module WordTimes {
  import opened Counting
  import opened LyricTimeline

  /** A match of the tag pattern: its extent, whether it closes a word, its time with the offset. */
  datatype Tag = Tag(begin: nat, end: nat, closing: bool, time: int)

  /** Matches follow one another inside the body, as a global match returns them. */
  predicate Matches(body: string, tags: seq<Tag>, from: nat)
    decreases |tags|
  {
    if tags == [] then from <= |body|
    else from <= tags[0].begin <= tags[0].end <= |body| && Matches(body, tags[1..], tags[0].end)
  }

  /** The text around the tags: before the first, between two, after the last. */
  function Segments(body: string, tags: seq<Tag>, from: nat): (parts: seq<string>)
    requires Matches(body, tags, from)
    ensures |parts| == |tags| + 1
    decreases |tags|
  {
    if tags == [] then [body[from..]]
    else [body[from..tags[0].begin]] + Segments(body, tags[1..], tags[0].end)
  }

  function Concat(parts: seq<string>): string {
    if parts == [] then "" else parts[0] + Concat(parts[1..])
  }

  /** The body with its tags removed. */
  function PlainText(body: string, tags: seq<Tag>): string
    requires Matches(body, tags, 0)
  {
    Concat(Segments(body, tags, 0))
  }

  // ------------------------------------------------------------------ trimming

  function Lead(s: string, space: char -> bool): (k: nat)
    ensures k <= |s|
    ensures k < |s| ==> !space(s[k])
    ensures forall i :: 0 <= i < k ==> space(s[i])
  {
    FirstIndex(s, c => !space(c))
  }

  /** One past the last character that is no space, or 0. */
  function Tail(s: string, space: char -> bool): (k: nat)
    ensures k <= |s|
    ensures k > 0 ==> !space(s[k - 1])
    ensures forall i :: k <= i < |s| ==> space(s[i])
  {
    if s == "" then 0 else if !space(s[|s| - 1]) then |s| else Tail(s[..|s| - 1], space)
  }

  function Trim(s: string, space: char -> bool): string {
    if Lead(s, space) <= Tail(s, space) then s[Lead(s, space)..Tail(s, space)] else ""
  }

  predicate Blank(s: string, space: char -> bool) { Trim(s, space) == "" }

  lemma TrimIs(s: string, space: char -> bool)
    ensures Blank(s, space) <==> forall i :: 0 <= i < |s| ==> space(s[i])
    ensures !Blank(s, space) ==> Lead(s, space) < Tail(s, space)
    ensures !Blank(s, space) ==> |Trim(s, space)| == Tail(s, space) - Lead(s, space)
  {
    var l, t := Lead(s, space), Tail(s, space);
    if l < |s| {
      assert t > l;
      assert |s[l..t]| > 0;
    }
  }

  lemma SliceSlice(s: string, a: nat, b: nat, c: nat, d: nat)
    requires a <= b <= |s| && c <= d <= b - a
    ensures s[a..b][c..d] == s[a + c..a + d]
  {
    var x, y := s[a..b][c..d], s[a + c..a + d];
    assert |x| == |y| == d - c;
    forall i | 0 <= i < d - c ensures x[i] == y[i] {
      assert x[i] == s[a..b][c + i] == s[a + (c + i)];
    }
    assert x == y;
  }

  /** A piece of a segment, found in a stretch of the line around it. */
  lemma Placed(line: string, o: nat, s: string, l: nat, t: nat, lead: nat, tail: nat)
    requires o + |s| <= |line| && line[o..o + |s|] == s && l <= t <= |s|
    requires lead <= o + l && o + t <= tail <= |line|
    ensures line[lead..tail][o + l - lead..o + t - lead] == s[l..t]
  {
    SliceSlice(line, o, o + |s|, l, t);
    SliceSlice(line, lead, tail, o + l - lead, o + t - lead);
  }

  lemma SliceAt(s: string, a: nat, b: nat, i: nat)
    requires a <= b <= |s| && i < b - a
    ensures s[a..b][i] == s[a + i]
  {
  }

  lemma InTrim(line: string, from: nat, to: nat, space: char -> bool)
    requires from < to <= |line| && !space(line[from]) && !space(line[to - 1])
    ensures Lead(line, space) <= from && to <= Tail(line, space)
  {
  }

  /** A segment of a line that is not blank lies, trimmed, inside the trimmed line. */
  lemma SegmentInLine(line: string, o: nat, s: string, space: char -> bool)
    requires o + |s| <= |line| && line[o..o + |s|] == s && !Blank(s, space)
    ensures Lead(s, space) + |Trim(s, space)| <= |s| && |Trim(s, space)| > 0
    ensures var at, n := o + Lead(s, space) - Lead(line, space), |Trim(s, space)|;
            0 <= at && at + n <= |Trim(line, space)| && Trim(line, space)[at..at + n] == Trim(s, space)
  {
    hide FirstIndex, Tail, Lead;
    TrimIs(s, space);
    hide Blank;
    var l, t := Lead(s, space), Tail(s, space);
    SliceAt(line, o, o + |s|, l);
    SliceAt(line, o, o + |s|, t - 1);
    InTrim(line, o + l, o + t, space);
    Placed(line, o, s, l, t, Lead(line, space), Tail(line, space));
  }

  // ------------------------------------------------------------------- the words

  /** The stamp in force at segment `k`, and the stamp that closes it, or -1. */
  function Opening(tags: seq<Tag>, lineTime: int, k: nat): int
    requires k <= |tags|
  {
    if k == 0 then lineTime else tags[k - 1].time
  }

  function Closing(tags: seq<Tag>, k: nat): int
    requires k <= |tags|
  {
    if k < |tags| && tags[k].closing then tags[k].time else -1
  }

  function Positive(x: int): nat { if x > 0 then x else 0 }

  /** Where segment `k` begins in the plain text. */
  function Offset(parts: seq<string>, k: nat): nat
    requires k <= |parts|
  {
    |Concat(parts[..k])|
  }

  /** The word a segment that is not blank becomes before ends are filled in. */
  function WordOf(body: string, tags: seq<Tag>, lineTime: int, k: nat, space: char -> bool): Word
    requires Matches(body, tags, 0) && k <= |tags|
  {
    var parts := Segments(body, tags, 0);
    var previous, end := Opening(tags, lineTime, k), Closing(tags, k);
    Word(Positive(previous), if end > previous then Positive(end) else -1,
         Offset(parts, k) + Lead(parts[k], space) - Lead(Concat(parts), space), |Trim(parts[k], space)|)
  }

  function WordsBefore(body: string, tags: seq<Tag>, lineTime: int, k: nat, space: char -> bool): seq<Word>
    requires Matches(body, tags, 0) && k <= |tags| + 1
  {
    if k == 0 then []
    else
      var earlier := WordsBefore(body, tags, lineTime, k - 1, space);
      if Blank(Segments(body, tags, 0)[k - 1], space) then earlier
      else earlier + [WordOf(body, tags, lineTime, k - 1, space)]
  }

  /** A word with no end of its own ends where the next one starts, if that is later. */
  function Filled(words: seq<Word>, i: nat): Word
    requires i < |words|
  {
    if i + 1 < |words| && words[i].end < 0 && words[i + 1].time > words[i].time
    then words[i].(end := words[i + 1].time) else words[i]
  }

  // ------------------------------------------------------- what the words cut out

  ghost predicate Fits(w: Word, display: string) {
    0 <= w.start && 0 < w.length && w.start + w.length <= |display|
  }

  function Cut(w: Word, display: string): string
    requires Fits(w, display)
  {
    display[w.start..w.start + w.length]
  }

  /** The words cut these pieces out of the line, one after another. */
  ghost predicate Spans(words: seq<Word>, pieces: seq<string>, display: string) {
    && |words| == |pieces|
    && (forall i :: 0 <= i < |words| ==> Fits(words[i], display) && Cut(words[i], display) == pieces[i])
    && (forall i, j :: 0 <= i < j < |words| ==> words[i].start + words[i].length <= words[j].start)
  }

  /** The trimmed text of the segments that are not blank. */
  function Pieces(parts: seq<string>, space: char -> bool): seq<string> {
    if parts == [] then []
    else
      var earlier, last := Pieces(parts[..|parts| - 1], space), parts[|parts| - 1];
      if Blank(last, space) then earlier else earlier + [Trim(last, space)]
  }

  lemma {:induction false} ConcatAppend(a: seq<string>, b: seq<string>)
    ensures Concat(a + b) == Concat(a) + Concat(b)
  {
    if a == [] {
      ConcatEmpty(b);
      ConcatEmpty(Concat(b));
    } else {
      ConcatAppend(a[1..], b);
      assert (a + b)[1..] == a[1..] + b;
      ConcatAssoc(a[0], Concat(a[1..]), Concat(b));
    }
  }

  lemma ConcatOne(s: string)
    ensures Concat([s]) == s
  {
    assert [s][1..] == [];
    ConcatEmpty(s);
  }

  lemma NextOffset(parts: seq<string>, k: nat)
    requires k < |parts|
    ensures Offset(parts, k + 1) == Offset(parts, k) + |parts[k]|
  {
    hide Concat;
    assert parts[..k + 1] == parts[..k] + [parts[k]];
    ConcatAppend(parts[..k], [parts[k]]);
    ConcatOne(parts[k]);
  }

  /** Segment `k` is found in the plain text at its offset. */
  lemma PartAt(parts: seq<string>, k: nat)
    requires k < |parts|
    ensures Offset(parts, k + 1) == Offset(parts, k) + |parts[k]| <= |Concat(parts)|
    ensures Concat(parts)[Offset(parts, k)..Offset(parts, k + 1)] == parts[k]
  {
    hide Concat;
    assert parts[..k + 1] == parts[..k] + [parts[k]];
    assert parts == parts[..k + 1] + parts[k + 1..];
    ConcatAppend(parts[..k], [parts[k]]);
    ConcatOne(parts[k]);
    ConcatAppend(parts[..k + 1], parts[k + 1..]);
    Middle(Concat(parts[..k]), parts[k], Concat(parts[k + 1..]));
  }

  lemma Middle(a: string, b: string, c: string)
    ensures (a + b + c)[|a|..|a| + |b|] == b
  {
  }

  /** The word of a segment lies in the trimmed line and cuts out the trimmed segment. */
  lemma WordCuts(parts: seq<string>, k: nat, w: Word, space: char -> bool)
    requires k < |parts| && !Blank(parts[k], space)
    requires w.start == Offset(parts, k) + Lead(parts[k], space) - Lead(Concat(parts), space)
    requires w.length == |Trim(parts[k], space)|
    ensures var display := Trim(Concat(parts), space);
            && Fits(w, display) && Cut(w, display) == Trim(parts[k], space)
            && Offset(parts, k) <= w.start + Lead(Concat(parts), space)
            && w.start + Lead(Concat(parts), space) + w.length <= Offset(parts, k + 1)
  {
    hide Concat, Offset, Lead, Trim, Blank, Fits, Cut;
    PartAt(parts, k);
    SegmentInLine(Concat(parts), Offset(parts, k), parts[k], space);
    CutIs(w, Trim(Concat(parts), space), Trim(parts[k], space));
  }

  lemma CutIs(w: Word, display: string, piece: string)
    requires 0 <= w.start && w.length == |piece| > 0 && w.start + w.length <= |display|
    requires display[w.start..w.start + w.length] == piece
    ensures Fits(w, display) && Cut(w, display) == piece
  {
  }

  lemma NextPiece(parts: seq<string>, k: nat, space: char -> bool)
    requires k < |parts|
    ensures Pieces(parts[..k + 1], space) ==
            if Blank(parts[k], space) then Pieces(parts[..k], space)
            else Pieces(parts[..k], space) + [Trim(parts[k], space)]
  {
    assert parts[..k + 1][..k] == parts[..k];
  }

  /** All words end within the first `limit` characters of the plain text. */
  ghost predicate Below(words: seq<Word>, limit: int) {
    forall i :: 0 <= i < |words| ==> words[i].start + words[i].length <= limit
  }

  lemma SpansOneMore(words: seq<Word>, pieces: seq<string>, display: string, w: Word, limit: int)
    requires Spans(words, pieces, display) && Below(words, limit)
    requires Fits(w, display) && limit <= w.start
    ensures Spans(words + [w], pieces + [Cut(w, display)], display)
  {
  }

  lemma SpanStep(parts: seq<string>, j: nat, words: seq<Word>, w: Word, space: char -> bool)
    requires j < |parts| && !Blank(parts[j], space)
    requires Spans(words, Pieces(parts[..j], space), Trim(Concat(parts), space))
    requires Below(words, Offset(parts, j) - Lead(Concat(parts), space))
    requires w.start == Offset(parts, j) + Lead(parts[j], space) - Lead(Concat(parts), space)
    requires w.length == |Trim(parts[j], space)|
    ensures Spans(words + [w], Pieces(parts[..j + 1], space), Trim(Concat(parts), space))
    ensures Below(words + [w], Offset(parts, j + 1) - Lead(Concat(parts), space))
  {
    hide Spans, Concat, Trim, Pieces, Lead, Fits, Cut, Offset;
    NextPiece(parts, j, space);
    WordCuts(parts, j, w, space);
    NextOffset(parts, j);
    hide Blank;
    SpansOneMore(words, Pieces(parts[..j], space), Trim(Concat(parts), space), w,
                 Offset(parts, j) - Lead(Concat(parts), space));
  }

  lemma SkipStep(parts: seq<string>, j: nat, words: seq<Word>, display: string, lead: int, space: char -> bool)
    requires j < |parts| && Blank(parts[j], space)
    requires Spans(words, Pieces(parts[..j], space), display) && Below(words, Offset(parts, j) - lead)
    ensures Spans(words, Pieces(parts[..j + 1], space), display) && Below(words, Offset(parts, j + 1) - lead)
  {
    hide Spans, Concat, Pieces, Offset, Below, Blank;
    NextPiece(parts, j, space);
    NextOffset(parts, j);
    BelowMore(words, Offset(parts, j) - lead, Offset(parts, j + 1) - lead);
  }

  lemma BelowMore(words: seq<Word>, a: int, b: int)
    requires Below(words, a) && a <= b
    ensures Below(words, b)
  {
  }

  lemma SpansNone(parts: seq<string>, space: char -> bool)
    ensures Spans([], Pieces(parts[..0], space), Trim(Concat(parts), space))
    ensures Below([], Offset(parts, 0) - Lead(Concat(parts), space))
  {
    assert parts[..0] == [];
  }

  lemma {:induction false} WordsSpan(body: string, tags: seq<Tag>, lineTime: int, k: nat, space: char -> bool)
    requires Matches(body, tags, 0) && k <= |tags| + 1
    ensures var parts := Segments(body, tags, 0);
            var words := WordsBefore(body, tags, lineTime, k, space);
            && Spans(words, Pieces(parts[..k], space), Trim(Concat(parts), space))
            && Below(words, Offset(parts, k) - Lead(Concat(parts), space))
  {
    hide Spans, Concat, Trim, Pieces, Segments, Matches, Lead, Blank, WordsBefore, Offset, Below;
    var parts := Segments(body, tags, 0);
    if k == 0 {
      WordsNone(body, tags, lineTime, space);
      SpansNone(parts, space);
    } else {
      var j := k - 1;
      WordsSpan(body, tags, lineTime, j, space);
      WordsNext(body, tags, lineTime, j, space);
      var words := WordsBefore(body, tags, lineTime, j, space);
      if Blank(parts[j], space) {
        SkipStep(parts, j, words, Trim(Concat(parts), space), Lead(Concat(parts), space), space);
      } else {
        SpanStep(parts, j, words, WordOf(body, tags, lineTime, j, space), space);
      }
    }
  }

  /** Filling in ends moves no word, and no word ends before it starts. */
  lemma FilledKeepsSpans(words: seq<Word>, filled: seq<Word>, pieces: seq<string>, display: string)
    requires Spans(words, pieces, display) && |filled| == |words|
    requires forall i :: 0 <= i < |words| ==> filled[i] == Filled(words, i)
    ensures Spans(filled, pieces, display)
  {
    forall i | 0 <= i < |words|
      ensures filled[i].start == words[i].start && filled[i].length == words[i].length
    {
    }
  }

  lemma FilledLast(words: seq<Word>, filled: seq<Word>)
    requires |filled| == |words| && forall i :: 0 <= i < |words| ==> filled[i] == Filled(words, i)
    requires forall i :: 0 <= i < |words| ==> Lasts(words[i])
    ensures forall i :: 0 <= i < |filled| ==> Lasts(filled[i])
  {
  }

  predicate Lasts(w: Word) { w.time >= 0 && (w.end == -1 || w.end >= w.time) }

  lemma WordLasts(body: string, tags: seq<Tag>, lineTime: int, k: nat, space: char -> bool)
    requires Matches(body, tags, 0) && k <= |tags|
    ensures Lasts(WordOf(body, tags, lineTime, k, space))
  {
    hide Segments, Matches, Offset, Lead, Trim, Concat;
  }

  lemma {:induction false} WordsLast(body: string, tags: seq<Tag>, lineTime: int, k: nat, space: char -> bool)
    requires Matches(body, tags, 0) && k <= |tags| + 1
    ensures var words := WordsBefore(body, tags, lineTime, k, space);
            forall i :: 0 <= i < |words| ==> Lasts(words[i])
  {
    hide Segments, Matches, Blank, Lasts, WordOf, WordsBefore;
    if k > 0 {
      WordsLast(body, tags, lineTime, k - 1, space);
      WordLasts(body, tags, lineTime, k - 1, space);
      WordsNext(body, tags, lineTime, k - 1, space);
    } else {
      WordsNone(body, tags, lineTime, space);
    }
  }

  // --------------------------------------------------------------- the code itself

  lemma {:induction false} SegmentAt(body: string, tags: seq<Tag>, from: nat, k: nat)
    requires Matches(body, tags, from) && k <= |tags|
    ensures var begin := if k == 0 then from else tags[k - 1].end;
            var end := if k == |tags| then |body| else tags[k].begin;
            from <= begin <= end <= |body| && Segments(body, tags, from)[k] == body[begin..end]
    decreases k
  {
    if k > 0 {
      SegmentAt(body, tags[1..], tags[0].end, k - 1);
    } else if tags != [] {
      SegmentStarts(body, tags, from);
    }
  }

  lemma SegmentStarts(body: string, tags: seq<Tag>, from: nat)
    requires Matches(body, tags, from) && tags != []
    ensures from <= tags[0].begin <= |body| && Segments(body, tags, from)[0] == body[from..tags[0].begin]
  {
  }

  method CountLeading(s: string, space: char -> bool) returns (k: nat)
    ensures k == Lead(s, space)
  {
    k := 0;
    while k < |s| && space(s[k])
      invariant k <= |s| && forall i :: 0 <= i < k ==> space(s[i])
    {
      k := k + 1;
    }
    FirstIndexIs(s, c => !space(c), k);
  }

  /** The segment's word joins the list unless the segment is blank. */
  method Append(words: seq<Word>, segment: string, previous: int, end: int, plainCursor: nat, leadingSpace: nat,
                space: char -> bool) returns (more: seq<Word>)
    ensures more == if Blank(segment, space) then words
                    else words + [Word(Positive(previous), if end > previous then Positive(end) else -1,
                                       plainCursor + Lead(segment, space) - leadingSpace, |Trim(segment, space)|)]
  {
    hide Trim, Blank, Lead, Tail, FirstIndex;
    var first := CountLeading(segment, space);
    var last := |segment|;
    while last > first && space(segment[last - 1])
      invariant first <= last <= |segment|
      invariant forall i :: last <= i < |segment| ==> space(segment[i])
    {
      last := last - 1;
    }
    TrimIs(segment, space);
    more := words;
    if last > first {
      assert last == Tail(segment, space);
      more := more + [Word(Positive(previous), if end > previous then Positive(end) else -1,
                           plainCursor + first - leadingSpace, last - first)];
    }
  }

  /**
   The words of a line: each cuts its own trimmed text out of the trimmed line, none
   overlap, all that is not blank is covered, and every word keeps the stamps around it.
   */
  method WordTimes(body: string, lineTime: int, tags: seq<Tag>, space: char -> bool) returns (words: seq<Word>)
    requires Matches(body, tags, 0)
    ensures tags == [] ==> words == []
    ensures tags != [] ==>
              var parts := Segments(body, tags, 0);
              && Spans(words, Pieces(parts, space), Trim(PlainText(body, tags), space))
              && (forall i :: 0 <= i < |words| ==> Lasts(words[i]))
              && var raw := WordsBefore(body, tags, lineTime, |tags| + 1, space);
                 |raw| == |words| && forall i :: 0 <= i < |words| ==> words[i] == Filled(raw, i)
  {
    hide Concat, Trim, Segments, Pieces, Spans, Matches, Lead, Blank, WordsBefore, Below, Offset, Tail, FirstIndex,
         Lasts, Filled;
    words := [];
    if tags == [] { return; }
    ghost var parts := Segments(body, tags, 0);
    var plain := PlainText(body, tags);
    var leadingSpace := CountLeading(plain, space);
    var cursor, plainCursor, previous, k := 0, 0, lineTime, 0;
    WordsNone(body, tags, lineTime, space);
    while k < |tags|
      invariant k <= |tags| && cursor == (if k == 0 then 0 else tags[k - 1].end)
      invariant previous == Opening(tags, lineTime, k) && plainCursor == Offset(parts, k)
      invariant words == WordsBefore(body, tags, lineTime, k, space)
    {
      SegmentAt(body, tags, 0, k);
      var segment := body[cursor..tags[k].begin];
      words := Append(words, segment, previous, if tags[k].closing then tags[k].time else -1,
                      plainCursor, leadingSpace, space);
      WordsNext(body, tags, lineTime, k, space);
      NextOffset(parts, k);
      plainCursor := plainCursor + |segment|;
      previous, cursor := tags[k].time, tags[k].end;
      k := k + 1;
    }
    SegmentAt(body, tags, 0, k);
    assert body[cursor..] == body[cursor..|body|];
    words := Append(words, body[cursor..], previous, -1, plainCursor, leadingSpace, space);
    WordsNext(body, tags, lineTime, k, space);
    WordsSpan(body, tags, lineTime, |tags| + 1, space);
    WordsLast(body, tags, lineTime, |tags| + 1, space);
    assert parts[..|tags| + 1] == parts;
    ghost var raw := words;
    words := FillEnds(words);
    FilledLast(raw, words);
    FilledKeepsSpans(raw, words, Pieces(parts, space), Trim(PlainText(body, tags), space));
  }

  /** An open word ends where the next begins. */
  method FillEnds(raw: seq<Word>) returns (words: seq<Word>)
    ensures |words| == |raw| && forall i :: 0 <= i < |words| ==> words[i] == Filled(raw, i)
  {
    words := raw;
    var i := 0;
    while i + 1 < |words|
      invariant |words| == |raw| && 0 <= i && (i < |words| || i == 0)
      invariant forall j :: 0 <= j < i ==> words[j] == Filled(raw, j)
      invariant forall j :: i <= j < |words| ==> words[j] == raw[j]
    {
      if words[i].end < 0 && words[i + 1].time > words[i].time {
        words := words[i := words[i].(end := words[i + 1].time)];
      }
      i := i + 1;
    }
  }

  lemma WordsNone(body: string, tags: seq<Tag>, lineTime: int, space: char -> bool)
    requires Matches(body, tags, 0)
    ensures WordsBefore(body, tags, lineTime, 0, space) == []
    ensures Offset(Segments(body, tags, 0), 0) == 0
  {
    assert Segments(body, tags, 0)[..0] == [];
  }

  lemma WordsNext(body: string, tags: seq<Tag>, lineTime: int, k: nat, space: char -> bool)
    requires Matches(body, tags, 0) && k <= |tags|
    ensures WordsBefore(body, tags, lineTime, k + 1, space) ==
            if Blank(Segments(body, tags, 0)[k], space) then WordsBefore(body, tags, lineTime, k, space)
            else WordsBefore(body, tags, lineTime, k, space) + [WordOf(body, tags, lineTime, k, space)]
  {
  }
}
