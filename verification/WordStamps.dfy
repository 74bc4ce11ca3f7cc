/**
 Which tags time which word: the stamps of every word, in terms of the tags on either side
 of the piece of text it came from.
 */
module WordStamps {
  import opened LyricTimeline
  import opened WordTimes

  /** The segments that become words, in order. */
  function Sources(parts: seq<string>, space: char -> bool): seq<nat> {
    if parts == [] then []
    else
      var earlier, n := Sources(parts[..|parts| - 1], space), |parts| - 1;
      if forall i :: 0 <= i < |parts[n]| ==> space(parts[n][i]) then earlier else earlier + [n]
  }

  /** They are the segments with anything but white space in them, each once. */
  lemma {:induction false} SourcesAre(parts: seq<string>, space: char -> bool, n: nat)
    ensures n in Sources(parts, space) <==> n < |parts| && exists i :: 0 <= i < |parts[n]| && !space(parts[n][i])
    ensures forall a, b :: 0 <= a < b < |Sources(parts, space)| ==> Sources(parts, space)[a] < Sources(parts, space)[b]
    ensures forall a :: 0 <= a < |Sources(parts, space)| ==> Sources(parts, space)[a] < |parts|
  {
    if parts != [] {
      SourcesAre(parts[..|parts| - 1], space, n);
      assert n < |parts| - 1 ==> parts[..|parts| - 1][n] == parts[n];
    }
  }

  /** The time in force where segment `n` begins. */
  function Begins(tags: seq<Tag>, lineTime: int, n: nat): int
    requires n <= |tags|
  {
    if n > 0 then tags[n - 1].time else lineTime
  }

  /** The stamp behind segment `n` closes its word. */
  predicate Closes(tags: seq<Tag>, n: nat) { n < |tags| && tags[n].closing }

  /** A word from segment `n`, before ends are filled in: closed if that is later, open, or stuck at 0. */
  predicate Stamped(w: Word, tags: seq<Tag>, lineTime: int, n: nat)
    requires n <= |tags|
  {
    var from := Begins(tags, lineTime, n);
    && w.time == (if from < 0 then 0 else from)
    && w.end == if !Closes(tags, n) then (if from < -1 then 0 else -1)
                else if tags[n].time <= from then -1
                else if tags[n].time < 0 then 0
                else tags[n].time
  }

  lemma WordIsStamped(body: string, tags: seq<Tag>, lineTime: int, n: nat, space: char -> bool)
    requires Matches(body, tags, 0) && n <= |tags|
    ensures Stamped(WordOf(body, tags, lineTime, n, space), tags, lineTime, n)
  {
    hide Segments, Matches, Offset, Concat, Lead, Trim;
    assert Opening(tags, lineTime, n) == Begins(tags, lineTime, n);
  }

  ghost predicate AllStamped(words: seq<Word>, sources: seq<nat>, tags: seq<Tag>, lineTime: int) {
    && |words| == |sources|
    && forall i :: 0 <= i < |words| ==> sources[i] <= |tags| && Stamped(words[i], tags, lineTime, sources[i])
  }

  lemma {:induction false} RawStamps(body: string, tags: seq<Tag>, lineTime: int, k: nat, space: char -> bool)
    requires Matches(body, tags, 0) && k <= |tags| + 1
    ensures AllStamped(WordsBefore(body, tags, lineTime, k, space),
                       Sources(Segments(body, tags, 0)[..k], space), tags, lineTime)
  {
    hide Segments, Matches, WordOf, Stamped, Blank, Trim, WordsBefore;
    var parts := Segments(body, tags, 0);
    if k == 0 {
      WordsNone(body, tags, lineTime, space);
      assert parts[..0] == [];
    } else {
      RawStamps(body, tags, lineTime, k - 1, space);
      WordsNext(body, tags, lineTime, k - 1, space);
      WordIsStamped(body, tags, lineTime, k - 1, space);
      TrimIs(parts[k - 1], space);
      assert parts[..k][..k - 1] == parts[..k - 1] && parts[..k][k - 1] == parts[k - 1];
    }
  }

  /**
   A closing stamp that is later ends the word. An open word lasts until the next one begins,
   if that is later; but one that an offset has moved to a stamp before -1 ends at 0.
   */
  predicate Ends(words: seq<Word>, i: nat, tags: seq<Tag>, lineTime: int, n: nat)
    requires i < |words| && n <= |tags|
  {
    var from := Begins(tags, lineTime, n);
    if Closes(tags, n) && tags[n].time > from then words[i].end == if tags[n].time < 0 then 0 else tags[n].time
    else if !Closes(tags, n) && from < -1 then words[i].end == 0
    else if i + 1 < |words| && words[i + 1].time > words[i].time then words[i].end == words[i + 1].time
    else words[i].end == -1
  }

  /**
   Every word begins at the stamp in front of it, or with the line, and ends at the closing
   stamp behind it if that is later, else where the next later word begins.
   */
  lemma StampsAroundWords(body: string, tags: seq<Tag>, lineTime: int, space: char -> bool, words: seq<Word>)
    requires Matches(body, tags, 0)
    requires var raw := WordsBefore(body, tags, lineTime, |tags| + 1, space);
             |raw| == |words| && forall i :: 0 <= i < |words| ==> words[i] == Filled(raw, i)
    ensures var sources := Sources(Segments(body, tags, 0), space);
            && |words| == |sources|
            && forall i :: 0 <= i < |words| ==>
                 && sources[i] <= |tags|
                 && (var from := Begins(tags, lineTime, sources[i]); words[i].time == if from < 0 then 0 else from)
                 && Ends(words, i, tags, lineTime, sources[i])
  {
    RawStamps(body, tags, lineTime, |tags| + 1, space);
    assert Segments(body, tags, 0)[..|tags| + 1] == Segments(body, tags, 0);
    hide Segments, Matches, WordsBefore;
  }
}
