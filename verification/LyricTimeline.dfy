/**
 The lyric timeline: cues in time order, original and translation merged by time stamp, the
 active line by binary search, and word timings cut out of the displayed line.
 */
module LyricTimeline {
  import opened Counting

  datatype Word = Word(time: int, end: int, start: int, length: int)
  datatype Cue = Cue(time: int, text: string, translation: string, words: seq<Word>)

  // --------------------------------------------------------------- stable sorting

  ghost predicate Sorted(cues: seq<Cue>) {
    forall i, j :: 0 <= i <= j < |cues| ==> cues[i].time <= cues[j].time
  }

  /** The cues of one time, in their order. */
  function At(cues: seq<Cue>, time: int): (r: seq<Cue>)
    ensures forall k :: 0 <= k < |r| ==> r[k] in cues
  {
    if cues == [] then []
    else (if cues[0].time == time then [cues[0]] else []) + At(cues[1..], time)
  }

  /** Sorted by time, the cues of each time in their old order. */
  ghost predicate StablySorted(before: seq<Cue>, after: seq<Cue>) {
    Sorted(after) && forall t :: At(after, t) == At(before, t)
  }

  lemma {:induction false} AtConcat(a: seq<Cue>, b: seq<Cue>, time: int)
    ensures At(a + b, time) == At(a, time) + At(b, time)
  {
    if a == [] {
      ConcatEmpty(b);
    } else {
      AtConcat(a[1..], b, time);
      assert (a + b)[1..] == a[1..] + b;
      ConcatAssoc(if a[0].time == time then [a[0]] else [], At(a[1..], time), At(b, time));
    }
  }

  lemma AtSingle(c: Cue, time: int)
    ensures At([c], time) == if c.time == time then [c] else []
  {
    assert [c][1..] == [];
  }

  lemma {:induction false} AtNone(cues: seq<Cue>, time: int)
    requires forall i :: 0 <= i < |cues| ==> cues[i].time != time
    ensures At(cues, time) == []
  {
    if cues != [] {
      assert forall i :: 0 <= i < |cues| - 1 ==> cues[1..][i] == cues[i + 1];
      AtNone(cues[1..], time);
    }
  }

  lemma {:induction false} AtHas(cues: seq<Cue>, i: nat)
    requires i < |cues|
    ensures At(cues, cues[i].time) != []
  {
    if i > 0 { AtHas(cues[1..], i - 1); }
  }

  lemma EmptyAt(cues: seq<Cue>, time: int)
    ensures cues == [] ==> At(cues, time) == []
  {
  }

  lemma SameEmptiness(a: seq<Cue>, b: seq<Cue>)
    requires a != [] && forall t :: At(a, t) == At(b, t)
    ensures b != []
  {
    hide At;
    AtHas(a, 0);
    EmptyAt(b, a[0].time);
  }

  lemma {:induction false} SortedByClasses(a: seq<Cue>, b: seq<Cue>)
    requires Sorted(a) && Sorted(b)
    requires forall t :: At(a, t) == At(b, t)
    ensures a == b
    decreases |a|
  {
    hide At;
    if a != [] { SameEmptiness(a, b); }
    if b != [] { SameEmptiness(b, a); }
    if a != [] {
      SameHead(a, b);
      forall t ensures At(a[1..], t) == At(b[1..], t)
      {
        TailAt(a, t);
        TailAt(b, t);
      }
      SortedByClasses(a[1..], b[1..]);
      assert a == [a[0]] + a[1..] && b == [b[0]] + b[1..];
    }
  }

  /** The contract of a stable sort leaves no choice. */
  lemma StableSortIsUnique(before: seq<Cue>, a: seq<Cue>, b: seq<Cue>)
    requires StablySorted(before, a) && StablySorted(before, b)
    ensures a == b
  {
    SortedByClasses(a, b);
  }

  lemma TailAt(a: seq<Cue>, t: int)
    requires a != []
    ensures At(a[1..], t) == if a[0].time == t then At(a, t)[1..] else At(a, t)
  {
  }

  lemma HeadAt(a: seq<Cue>)
    requires a != []
    ensures At(a, a[0].time) != [] && At(a, a[0].time)[0] == a[0]
  {
  }

  lemma {:induction false} AtTimes(cues: seq<Cue>, time: int)
    ensures At(cues, time) != [] ==> exists i :: 0 <= i < |cues| && cues[i].time == time
  {
    if At(cues, time) != [] && forall i :: 0 <= i < |cues| ==> cues[i].time != time {
      AtNone(cues, time);
    }
  }

  lemma SameHead(a: seq<Cue>, b: seq<Cue>)
    requires a != [] && b != [] && Sorted(a) && Sorted(b)
    requires forall t :: At(a, t) == At(b, t)
    ensures a[0] == b[0]
  {
    hide At;
    HeadAt(a);
    HeadAt(b);
    AtTimes(b, a[0].time);
    AtTimes(a, b[0].time);
    var i :| 0 <= i < |b| && b[i].time == a[0].time;
    var j :| 0 <= j < |a| && a[j].time == b[0].time;
    assert b[0].time <= a[0].time && a[0].time <= b[0].time;
  }

  /** Where a cue goes among sorted ones: after every cue of its own time. */
  method StableSort(cues: seq<Cue>) returns (sorted: seq<Cue>)
    ensures StablySorted(cues, sorted)
  {
    hide At;
    sorted := [];
    var k := 0;
    forall t ensures At([], t) == At(cues[..0], t) { assert cues[..0] == []; }
    while k < |cues|
      invariant k <= |cues| && StablySorted(cues[..k], sorted)
    {
      var i := |sorted|;
      while i > 0 && sorted[i - 1].time > cues[k].time
        invariant 0 <= i <= |sorted| && k < |cues|
        invariant forall j :: i <= j < |sorted| ==> sorted[j].time > cues[k].time
      {
        i := i - 1;
      }
      InsertStable(cues[..k], sorted, cues[k], i);
      assert cues[..k + 1] == cues[..k] + [cues[k]];
      sorted := sorted[..i] + [cues[k]] + sorted[i..];
      k := k + 1;
    }
    assert cues[..k] == cues;
  }

  lemma InsertStable(before: seq<Cue>, sorted: seq<Cue>, c: Cue, i: nat)
    requires StablySorted(before, sorted) && i <= |sorted|
    requires forall j :: i <= j < |sorted| ==> sorted[j].time > c.time
    requires i > 0 ==> sorted[i - 1].time <= c.time
    ensures StablySorted(before + [c], sorted[..i] + [c] + sorted[i..])
  {
    hide At;
    var after := sorted[..i] + [c] + sorted[i..];
    forall t ensures At(after, t) == At(before + [c], t)
    {
      assert sorted == sorted[..i] + sorted[i..];
      AtConcat(sorted[..i] + [c], sorted[i..], t);
      AtConcat(sorted[..i], [c], t);
      AtConcat(sorted[..i], sorted[i..], t);
      AtConcat(before, [c], t);
      AtSingle(c, t);
      if t == c.time { AtNone(sorted[i..], t); }
      assert At(sorted, t) == At(before, t);
      MoveOne(At(sorted[..i], t), At([c], t), At(sorted[i..], t));
    }
  }

  lemma MoveOne<T>(a: seq<T>, b: seq<T>, c: seq<T>)
    requires b == [] || c == []
    ensures a + b + c == a + c + b
  {
  }

  // ----------------------------------------------------------- the active line

  ghost predicate Ascending(times: seq<int>) {
    forall i, j :: 0 <= i <= j < |times| ==> times[i] <= times[j]
  }

  /** `r` is the last line whose time has come, or -1 before the first. */
  ghost predicate IsActive(times: seq<int>, position: int, r: int) {
    && -1 <= r < |times|
    && (forall i :: 0 <= i <= r ==> times[i] <= position)
    && (forall i :: r < i < |times| ==> times[i] > position)
  }

  /** The linear walk stops at the first line still to come, whatever follows it. */
  method FindActiveLyricLine(times: seq<int>, current: int) returns (active: int)
    ensures -1 <= active < |times|
    ensures forall i :: 0 <= i <= active ==> times[i] <= current
    ensures active + 1 < |times| ==> times[active + 1] > current
    ensures Ascending(times) ==> IsActive(times, current, active)
  {
    active := -1;
    var index := 0;
    while index < |times|
      invariant index <= |times| && active == index - 1
      invariant forall i :: 0 <= i < index ==> times[i] <= current
    {
      if times[index] > current { break; }
      active := index;
      index := index + 1;
    }
  }

  /** `std::upper_bound` by halving, less one. */
  method IndexAt(times: seq<int>, position: int) returns (r: int)
    requires Ascending(times)
    ensures IsActive(times, position, r)
  {
    var first, count := 0, |times|;
    while count > 0
      invariant 0 <= first && 0 <= count && first + count <= |times|
      invariant forall i :: 0 <= i < first ==> times[i] <= position
      invariant forall i :: first + count <= i < |times| ==> times[i] > position
      decreases count
    {
      var step := count / 2;
      if position < times[first + step] {
        count := step;
      } else {
        first := first + step + 1;
        count := count - step - 1;
      }
    }
    return first - 1;
  }

  /** Only one line is active, so on sorted cues both searches return it. */
  lemma ActiveIsUnique(times: seq<int>, position: int, r: int, q: int)
    requires IsActive(times, position, r) && IsActive(times, position, q)
    ensures r == q
  {
    assert r + 1 < |times| ==> times[r + 1] > position;
    assert q + 1 < |times| ==> times[q + 1] > position;
  }

  /**
   A sort that is not stable may swap the texts of equal times, but not their times: every
   sorted arrangement has the same ones, so the active index does not depend on it.
   */
  lemma {:induction false} SortedTimesAreUnique(a: seq<int>, b: seq<int>)
    requires Ascending(a) && Ascending(b) && multiset(a) == multiset(b)
    ensures a == b
  {
    SameLength(a, b);
    if a != [] {
      HeadIsLeast(a, b);
      TailMultiset(a);
      TailMultiset(b);
      SortedTimesAreUnique(a[1..], b[1..]);
      assert a == [a[0]] + a[1..] && b == [b[0]] + b[1..];
    }
  }

  lemma SameLength(a: seq<int>, b: seq<int>)
    requires multiset(a) == multiset(b)
    ensures |a| == |b|
  {
    assert |multiset(a)| == |a| && |multiset(b)| == |b|;
  }

  lemma HeadIsLeast(a: seq<int>, b: seq<int>)
    requires a != [] && b != [] && Ascending(a) && Ascending(b) && multiset(a) == multiset(b)
    ensures a[0] == b[0]
  {
    assert a[0] in multiset(a) && b[0] in multiset(b);
    var i :| 0 <= i < |b| && b[i] == a[0];
    var j :| 0 <= j < |a| && a[j] == b[0];
    assert b[0] <= b[i] && a[0] <= a[j];
  }

  lemma TailMultiset(a: seq<int>)
    requires a != []
    ensures multiset(a[1..]) == multiset(a) - multiset{a[0]}
  {
    assert a == [a[0]] + a[1..];
  }

  // ------------------------------------------------------------- bilingual merging

  predicate IsBreak(c: char) { c == '\n' }

  /** `QString::split('\n')`. */
  function Split(s: string): (parts: seq<string>)
    ensures parts != []
    decreases |s|
  {
    var k := FirstIndex(s, IsBreak);
    if k == |s| then [s] else [s[..k]] + Split(s[k + 1..])
  }

  predicate OneLine(s: string) {
    s != "" && forall i :: 0 <= i < |s| ==> !IsBreak(s[i])
  }

  lemma SplitOne(s: string)
    requires forall i :: 0 <= i < |s| ==> !IsBreak(s[i])
    ensures Split(s) == [s]
  {
  }

  /** A line appended behind a line break is one more part. */
  lemma {:induction false} SplitAppend(a: string, b: string)
    requires OneLine(b)
    ensures Split(a + ['\n'] + b) == Split(a) + [b]
    decreases |a|
  {
    hide FirstIndex;
    var s := a + ['\n'] + b;
    var k := FirstIndex(a, IsBreak);
    if k == |a| {
      FirstIndexIs(s, IsBreak, k);
      assert s[..k] == a && s[k + 1..] == b;
      SplitOne(b);
      assert Split(s) == [a] + [b];
    } else {
      FirstIndexIs(s, IsBreak, k);
      var rest := a[k + 1..];
      assert s[..k] == a[..k] && s[k + 1..] == rest + ['\n'] + b;
      SplitAppend(rest, b);
      ConcatAssoc([a[..k]], Split(rest), [b]);
    }
  }

  /** The translations a merged cue lists. */
  function Lines(c: Cue): seq<string> {
    if c.translation == "" then [] else Split(c.translation)
  }

  ghost predicate Shows(c: Cue, time: int, text: string) {
    c.time == time && (c.text == text || text in Lines(c))
  }

  /** Some cue shows `text` at `time`. */
  ghost predicate Says(cues: seq<Cue>, time: int, text: string) {
    exists i :: 0 <= i < |cues| && Shows(cues[i], time, text)
  }

  /** A cue as `parse` leaves it: one nonempty line of text and no translation yet. */
  predicate Plain(c: Cue) { OneLine(c.text) && c.translation == "" }

  /** A merged cue lists every text once. */
  ghost predicate NoRepeats(c: Cue) {
    && c.text !in Lines(c)
    && forall i, j :: 0 <= i < j < |Lines(c)| ==> Lines(c)[i] != Lines(c)[j]
  }

  ghost predicate Increasing(cues: seq<Cue>) {
    forall i, j :: 0 <= i < j < |cues| ==> cues[i].time < cues[j].time
  }

  /** The merged cue keeps the text and words of the first cue of its time. */
  ghost predicate FromFirst(cues: seq<Cue>, c: Cue) {
    exists i :: 0 <= i < |cues| && cues[i].time == c.time && cues[i].text == c.text
                && cues[i].words == c.words && forall j :: 0 <= j < i ==> cues[j].time < c.time
  }

  function AddLine(c: Cue, text: string): Cue {
    if text in Split(c.translation) then c
    else c.(translation := (if c.translation == "" then "" else c.translation + ['\n']) + text)
  }

  lemma AddLineIs(c: Cue, text: string)
    requires OneLine(text)
    ensures Lines(AddLine(c, text)) == if text in Lines(c) then Lines(c) else Lines(c) + [text]
    ensures AddLine(c, text) == c.(translation := AddLine(c, text).translation)
  {
    if c.translation == "" {
      SplitOne("");
      SplitOne(text);
      assert "" + text == text;
    } else if text !in Split(c.translation) {
      hide Split;
      SplitAppend(c.translation, text);
      assert c.translation + ['\n'] + text != "";
    }
  }

  lemma SaysSnoc(cues: seq<Cue>, c: Cue, time: int, text: string)
    ensures Says(cues + [c], time, text) <==> Says(cues, time, text) || Shows(c, time, text)
  {
    hide Shows;
    var all := cues + [c];
    if Says(cues, time, text) {
      var i :| 0 <= i < |cues| && Shows(cues[i], time, text);
      assert Shows(all[i], time, text);
    }
    assert all[|cues|] == c;
    if Says(all, time, text) {
      var i :| 0 <= i < |all| && Shows(all[i], time, text);
      if i < |cues| { assert all[i] == cues[i]; }
    }
  }

  ghost predicate SameSaid(a: seq<Cue>, b: seq<Cue>) {
    forall time, text :: Says(a, time, text) <==> Says(b, time, text)
  }

  /** The merge of the first `k` cues. */
  ghost predicate Merging(cues: seq<Cue>, k: nat, result: seq<Cue>)
    requires k <= |cues|
  {
    && Increasing(result)
    && (result != [] <==> k > 0)
    && (k > 0 ==> result[|result| - 1].time == cues[k - 1].time)
    && SameSaid(result, cues[..k])
    && forall i :: 0 <= i < |result| ==> NoRepeats(result[i]) && FromFirst(cues, result[i])
  }

  lemma NewCue(cues: seq<Cue>, k: nat, result: seq<Cue>)
    requires k < |cues| && Sorted(cues) && Merging(cues, k, result) && Plain(cues[k])
    requires k > 0 ==> result[|result| - 1].time != cues[k].time
    ensures Merging(cues, k + 1, result + [cues[k]])
  {
    hide Split, Says;
    var c := cues[k];
    var next := result + [c];
    SameSaidSnoc(cues, k, result);
    forall j | 0 <= j < k ensures cues[j].time < c.time
    {
      assert cues[j].time <= cues[k - 1].time;
    }
    assert FromFirst(cues, c);
    assert NoRepeats(c);
  }

  lemma SameSaidSnoc(cues: seq<Cue>, k: nat, result: seq<Cue>)
    requires k < |cues| && SameSaid(result, cues[..k])
    ensures SameSaid(result + [cues[k]], cues[..k + 1])
  {
    hide Says, Shows;
    assert cues[..k + 1] == cues[..k] + [cues[k]];
    forall time, text
      ensures Says(result + [cues[k]], time, text) <==> Says(cues[..k + 1], time, text)
    {
      SaysSnoc(result, cues[k], time, text);
      SaysSnoc(cues[..k], cues[k], time, text);
    }
  }

  /** A cue whose text the merged cue of its time does not open with becomes a line of it. */
  lemma MergedCue(cues: seq<Cue>, k: nat, init: seq<Cue>, last: Cue)
    requires k < |cues| && Merging(cues, k, init + [last]) && Plain(cues[k])
    requires last.time == cues[k].time && last.text != cues[k].text
    ensures Merging(cues, k + 1, init + [AddLine(last, cues[k].text)])
  {
    hide Split, Says, AddLine, FromFirst, Plain, NoRepeats, Lines, SameSaid;
    var text := cues[k].text;
    var more := AddLine(last, text);
    PlainIs(cues[k]);
    AddLineIs(last, text);
    assert (init + [last])[|init|] == last;
    KeepsFirst(cues, last, more);
    OnceMore(last, more, text);
    MergedSays(cues, k, init, last, more);
    assert forall i :: 0 <= i < |init| ==> (init + [more])[i] == (init + [last])[i];
  }

  lemma MergedSays(cues: seq<Cue>, k: nat, init: seq<Cue>, last: Cue, more: Cue)
    requires k < |cues| && SameSaid(init + [last], cues[..k])
    requires last.time == cues[k].time == more.time && more.text == last.text && Lines(cues[k]) == []
    requires Lines(more) == if cues[k].text in Lines(last) then Lines(last) else Lines(last) + [cues[k].text]
    ensures SameSaid(init + [more], cues[..k + 1])
  {
    hide Says, Lines, Shows;
    assert cues[..k + 1] == cues[..k] + [cues[k]];
    forall t, x
      ensures Says(init + [more], t, x) <==> Says(cues[..k + 1], t, x)
    {
      SaysSnoc(init, last, t, x);
      SaysSnoc(init, more, t, x);
      SaysSnoc(cues[..k], cues[k], t, x);
      ShowsMore(last, more, cues[k], t, x);
    }
  }

  lemma PlainIs(c: Cue)
    requires Plain(c)
    ensures OneLine(c.text) && Lines(c) == []
  {
  }

  lemma KeepsFirst(cues: seq<Cue>, last: Cue, more: Cue)
    requires FromFirst(cues, last) && more == last.(translation := more.translation)
    ensures FromFirst(cues, more)
  {
  }

  lemma OnceMore(last: Cue, more: Cue, text: string)
    requires NoRepeats(last) && more.text == last.text != text
    requires Lines(more) == if text in Lines(last) then Lines(last) else Lines(last) + [text]
    ensures NoRepeats(more)
  {
    hide Lines;
  }

  lemma ShowsMore(last: Cue, more: Cue, c: Cue, t: int, x: string)
    requires last.time == c.time == more.time && more.text == last.text && Lines(c) == []
    requires Lines(more) == if c.text in Lines(last) then Lines(last) else Lines(last) + [c.text]
    ensures Shows(more, t, x) <==> Shows(last, t, x) || Shows(c, t, x)
  {
    hide Lines;
  }

  /** A cue that repeats the text the merged cue opens with adds nothing. */
  lemma RepeatedCue(cues: seq<Cue>, k: nat, init: seq<Cue>, last: Cue)
    requires k < |cues| && Merging(cues, k, init + [last]) && Plain(cues[k])
    requires last.time == cues[k].time && last.text == cues[k].text
    ensures Merging(cues, k + 1, init + [last])
  {
    hide Split, Says, FromFirst, NoRepeats, Plain;
    PlainIs(cues[k]);
    assert cues[..k + 1] == cues[..k] + [cues[k]];
    forall t, x
      ensures Says(init + [last], t, x) <==> Says(cues[..k + 1], t, x)
    {
      SaysSnoc(init, last, t, x);
      SaysSnoc(cues[..k], cues[k], t, x);
    }
  }

  /**
   Merging makes the times strictly increasing, loses no text of any time and adds none,
   and lists no text twice; the first cue of a time leads.
   */
  method ParseBilingual(cues: seq<Cue>) returns (result: seq<Cue>)
    requires Sorted(cues) && forall i :: 0 <= i < |cues| ==> Plain(cues[i])
    ensures Increasing(result) && SameSaid(result, cues)
    ensures forall i :: 0 <= i < |result| ==> NoRepeats(result[i]) && FromFirst(cues, result[i])
  {
    hide Split, Says, NoRepeats, FromFirst, AddLine;
    result := [];
    var k := 0;
    while k < |cues|
      invariant k <= |cues| && Merging(cues, k, result)
    {
      var cue := cues[k];
      if result == [] || result[|result| - 1].time != cue.time {
        NewCue(cues, k, result);
        result := result + [cue];
      } else {
        var init, last := result[..|result| - 1], result[|result| - 1];
        assert result == init + [last];
        if last.text != cue.text {
          MergedCue(cues, k, init, last);
          var translation := last.translation;
          if cue.text !in Split(translation) {
            if translation != "" { translation := translation + ['\n']; }
            translation := translation + cue.text;
            AddLineAs(last, cue.text, translation);
            result := init + [last.(translation := translation)];
          } else {
            AddLineAs(last, cue.text, translation);
          }
        } else {
          RepeatedCue(cues, k, init, last);
        }
      }
      k := k + 1;
    }
    assert cues[..k] == cues;
  }

  lemma AddLineAs(c: Cue, text: string, translation: string)
    requires text in Split(c.translation) ==> translation == c.translation
    requires text !in Split(c.translation) ==>
               translation == (if c.translation != "" then c.translation + ['\n'] else c.translation) + text
    ensures AddLine(c, text) == c.(translation := translation)
  {
  }
}
