/**
 Moving an invalid database and its sidecars out of the way without losing a byte. The
 file system is a map from paths to what they hold; which renames go through is an input.
 */
module Quarantine {
  import opened Decimal

  datatype Node = File(bytes: seq<nat>) | Directory
  type FileSystem = map<string, Node>

  /** What a quarantine ends with; the failures are the errors the code throws. */
  datatype Outcome =
    | Quarantined(backup: string)
    | RenameFailed
    | Restored
    | Stuck(paths: seq<string>)

  datatype Move = Move(backup: string, live: string)

  // --------------------------------------------------------------- the backup name

  function BackupName(path: string, epoch: nat, attempt: nat): string {
    path + ".invalid-" + Numeral(epoch) + "-" + Numeral(attempt)
  }

  lemma SameSuffix(a: string, b: string, c: string)
    requires a + b == a + c
    ensures b == c
  {
    assert b == (a + b)[|a|..] && c == (a + c)[|a|..];
  }

  lemma BackupNamesDiffer(path: string, epoch: nat, m: nat, n: nat)
    ensures BackupName(path, epoch, m) == BackupName(path, epoch, n) ==> m == n
  {
    hide Numeral;
    NumeralInjective(m, n);
    if BackupName(path, epoch, m) == BackupName(path, epoch, n) {
      SameSuffix(path + ".invalid-" + Numeral(epoch) + "-", Numeral(m), Numeral(n));
    }
  }

  /**
   The first backup name nothing is stored under. The search ends because the names tried
   differ and a file system holds finitely many paths.
   */
  method QuarantinePathFor(fs: FileSystem, path: string, epoch: nat) returns (candidate: string)
    ensures candidate !in fs
    ensures exists n: nat :: candidate == BackupName(path, epoch, n)
                             && forall k: nat :: k < n ==> BackupName(path, epoch, k) in fs
  {
    hide BackupName;
    var attempt := 0;
    ghost var tried: set<string> := {};
    while true
      invariant tried <= fs.Keys && |tried| == attempt
      invariant forall k: nat :: k < attempt ==> BackupName(path, epoch, k) in fs
      invariant forall t :: t in tried ==> exists k: nat :: k < attempt && t == BackupName(path, epoch, k)
      decreases |fs.Keys| - attempt
    {
      candidate := BackupName(path, epoch, attempt);
      if candidate !in fs { return; }
      forall k: nat | k < attempt ensures BackupName(path, epoch, k) != candidate
      {
        BackupNamesDiffer(path, epoch, k, attempt);
      }
      Fewer(tried + {candidate}, fs.Keys);
      tried := tried + {candidate};
      attempt := attempt + 1;
    }
  }

  lemma {:induction false} Fewer<T>(a: set<T>, b: set<T>)
    requires a <= b
    ensures |a| <= |b|
    decreases |a|
  {
    if a != {} {
      var x :| x in a;
      Fewer(a - {x}, b - {x});
    }
  }

  // ---------------------------------------------------------------------- renaming

  /** A rename replaces a plain file at its target and refuses anything else there. */
  predicate CanRename(fs: FileSystem, from: string, to: string) {
    from in fs && (to in fs ==> fs[from].File? && fs[to].File?)
  }

  function Renamed(fs: FileSystem, from: string, to: string): FileSystem
    requires from in fs
  {
    (fs - {from})[to := fs[from]]
  }

  method Rename(fs: FileSystem, from: string, to: string, may: bool) returns (after: FileSystem, ok: bool)
    ensures ok == (may && CanRename(fs, from, to))
    ensures after == if ok then Renamed(fs, from, to) else fs
  {
    ok := may && from in fs && (to in fs ==> fs[from].File? && fs[to].File?);
    after := if ok then (fs - {from})[to := fs[from]] else fs;
  }

  // ----------------------------------------------------- where the pieces are

  /** All the paths of the moves differ. */
  ghost predicate Apart(moves: seq<Move>) {
    && (forall i, j :: 0 <= i < |moves| && 0 <= j < |moves| ==> moves[i].backup != moves[j].live)
    && (forall i, j :: 0 <= i < j < |moves| ==>
          moves[i].backup != moves[j].backup && moves[i].live != moves[j].live)
  }

  /** The piece is at its live path, with its bytes, and nowhere else. */
  ghost predicate Home(before: FileSystem, now: FileSystem, m: Move) {
    m.live in before && m.live in now && now[m.live] == before[m.live] && m.backup !in now
  }

  /** The piece is at its backup path, with its bytes, and nowhere else. */
  ghost predicate Away(before: FileSystem, now: FileSystem, m: Move) {
    m.live in before && m.backup in now && now[m.backup] == before[m.live] && m.live !in now
  }

  ghost predicate Same(a: FileSystem, b: FileSystem, p: string) {
    (p in a <==> p in b) && (p in a && p in b ==> a[p] == b[p])
  }

  ghost predicate Concerns(moves: seq<Move>, p: string) {
    exists i :: 0 <= i < |moves| && (moves[i].backup == p || moves[i].live == p)
  }

  ghost predicate Backs(moves: seq<Move>, p: string) {
    exists i :: 0 <= i < |moves| && moves[i].backup == p
  }

  ghost predicate SameBut(a: FileSystem, b: FileSystem, moves: seq<Move>) {
    forall p :: !Concerns(moves, p) ==> Same(a, b, p)
  }

  /** Moving one piece, either way, leaves the others where they are. */
  lemma OthersStay(before: FileSystem, now: FileSystem, from: string, to: string, m: Move)
    requires from in now && m.live != from && m.live != to && m.backup != from && m.backup != to
    ensures Home(before, now, m) <==> Home(before, Renamed(now, from, to), m)
    ensures Away(before, now, m) <==> Away(before, Renamed(now, from, to), m)
  {
  }

  lemma RenameIsLocal(a: FileSystem, now: FileSystem, moves: seq<Move>, i: nat, back: bool)
    requires i < |moves| && SameBut(a, now, moves)
    requires (if back then moves[i].backup else moves[i].live) in now
    ensures var m := moves[i];
            SameBut(a, if back then Renamed(now, m.backup, m.live) else Renamed(now, m.live, m.backup), moves)
  {
    var m := moves[i];
    var after := if back then Renamed(now, m.backup, m.live) else Renamed(now, m.live, m.backup);
    forall p | !Concerns(moves, p) ensures Same(a, after, p)
    {
      assert p != m.backup && p != m.live;
    }
  }

  /** Where the moves stand once those from `k` on have been taken back where possible. */
  ghost predicate Undoing(before: FileSystem, now: FileSystem, moves: seq<Move>, k: int, stuck: seq<string>) {
    && (forall i :: 0 <= i < k && i < |moves| ==> Away(before, now, moves[i]))
    && (forall i :: 0 <= i < |moves| && k <= i ==>
          if moves[i].backup in stuck then Away(before, now, moves[i]) else Home(before, now, moves[i]))
    && (forall p :: p in stuck ==> exists i :: k <= i < |moves| && 0 <= i && moves[i].backup == p)
  }

  lemma UndoOne(before: FileSystem, now: FileSystem, moves: seq<Move>, k: nat, stuck: seq<string>)
    requires k < |moves| && Apart(moves) && Undoing(before, now, moves, k + 1, stuck)
    requires moves[k].backup in now
    ensures Undoing(before, Renamed(now, moves[k].backup, moves[k].live), moves, k, stuck)
  {
    var m := moves[k];
    var after := Renamed(now, m.backup, m.live);
    assert Home(before, after, m);
    assert m.backup !in stuck;
    forall i | 0 <= i < |moves| && i != k
      ensures (Away(before, now, moves[i]) <==> Away(before, after, moves[i]))
              && (Home(before, now, moves[i]) <==> Home(before, after, moves[i]))
    {
      OthersStay(before, now, m.backup, m.live, moves[i]);
    }
  }

  lemma StickOne(before: FileSystem, now: FileSystem, moves: seq<Move>, k: nat, stuck: seq<string>)
    requires k < |moves| && Apart(moves) && Undoing(before, now, moves, k + 1, stuck)
    ensures Undoing(before, now, moves, k, stuck + [moves[k].backup])
  {
    hide Away, Home;
    var more := stuck + [moves[k].backup];
    forall i | 0 <= i < |moves| && i != k
      ensures moves[i].backup in more <==> moves[i].backup in stuck
    {
      assert moves[i].backup != moves[k].backup;
    }
    assert forall p :: p in more ==> p in stuck || p == moves[k].backup;
  }

  /** What a rollback does to the moves below `k`; its renames are numbered from `base`. */
  function UndoneBy(fs: FileSystem, moved: seq<Move>, k: nat, stuck: seq<string>, may: nat -> bool, base: nat)
    : (FileSystem, seq<string>)
    requires k <= |moved|
    decreases k
  {
    if k == 0 then (fs, stuck)
    else
      var m := moved[k - 1];
      if may(base + |moved| - k) && CanRename(fs, m.backup, m.live)
      then UndoneBy(Renamed(fs, m.backup, m.live), moved, k - 1, stuck, may, base)
      else UndoneBy(fs, moved, k - 1, stuck + [m.backup], may, base)
  }

  lemma {:induction false} UndoneIs(before: FileSystem, start: FileSystem, fs: FileSystem, moved: seq<Move>, k: nat,
                                    stuck: seq<string>, may: nat -> bool, base: nat)
    requires k <= |moved| && Apart(moved) && Undoing(before, fs, moved, k, stuck) && SameBut(start, fs, moved)
    ensures var r := UndoneBy(fs, moved, k, stuck, may, base);
            Undoing(before, r.0, moved, 0, r.1) && SameBut(start, r.0, moved)
    decreases k
  {
    hide SameBut, Undoing, Apart, CanRename, Renamed;
    if k > 0 {
      var m := moved[k - 1];
      AwayBefore(before, fs, moved, k - 1, stuck);
      UndoOne(before, fs, moved, k - 1, stuck);
      RenameIsLocal(start, fs, moved, k - 1, true);
      StickOne(before, fs, moved, k - 1, stuck);
      UndoneIs(before, start, Renamed(fs, m.backup, m.live), moved, k - 1, stuck, may, base);
      UndoneIs(before, start, fs, moved, k - 1, stuck + [m.backup], may, base);
    }
  }

  /** Rolling back in reverse order: every piece goes home or is listed where it is stuck. */
  method Rollback(ghost before: FileSystem, fs: FileSystem, moved: seq<Move>, may: nat -> bool, calls: nat)
    returns (after: FileSystem, stuck: seq<string>)
    ensures (after, stuck) == UndoneBy(fs, moved, |moved|, [], may, calls)
    ensures Apart(moved) && (forall i :: 0 <= i < |moved| ==> Away(before, fs, moved[i])) ==>
              Undoing(before, after, moved, 0, stuck) && SameBut(fs, after, moved)
  {
    if Apart(moved) && forall i :: 0 <= i < |moved| ==> Away(before, fs, moved[i]) {
      UndoneIs(before, fs, fs, moved, |moved|, [], may, calls);
    }
    hide SameBut, Undoing, Apart, Away, CanRename, Renamed;
    after, stuck := fs, [];
    var k := |moved|;
    while k > 0
      invariant 0 <= k <= |moved|
      invariant UndoneBy(after, moved, k, stuck, may, calls) == UndoneBy(fs, moved, |moved|, [], may, calls)
    {
      k := k - 1;
      var next, ok := Rename(after, moved[k].backup, moved[k].live, may(calls + |moved| - 1 - k));
      after := next;
      if !ok { stuck := stuck + [moved[k].backup]; }
    }
  }

  lemma AwayBefore(before: FileSystem, now: FileSystem, moves: seq<Move>, k: nat, stuck: seq<string>)
    requires k < |moves| && Undoing(before, now, moves, k + 1, stuck)
    ensures moves[k].backup in now
  {
  }

  // -------------------------------------------------------------------- quarantine

  /** The moves that quarantine a database: its main file, write-ahead log and shared memory. */
  function Pieces(live: string, backup: string): (pieces: seq<Move>)
    ensures |pieces| == 3
  {
    [Move(backup, live), Move(backup + "-wal", live + "-wal"), Move(backup + "-shm", live + "-shm")]
  }

  /** The backup name extends the live one by a suffix of its own. */
  predicate Extends(live: string, backup: string) {
    |backup| > |live| && backup[..|live|] == live && backup[|live|] == '.'
  }

  lemma BackupNameExtends(live: string, epoch: nat, attempt: nat)
    ensures Extends(live, BackupName(live, epoch, attempt))
  {
    hide Numeral;
    var tail := ".invalid-" + Numeral(epoch) + "-" + Numeral(attempt);
    assert BackupName(live, epoch, attempt) == live + tail;
    assert tail[0] == '.';
  }

  /** The six paths are all different. */
  lemma PiecesApart(live: string, backup: string)
    requires Extends(live, backup)
    ensures Apart(Pieces(live, backup))
  {
    assert (live + "-wal")[|live|] == '-' && (live + "-shm")[|live|] == '-';
    assert (live + "-wal")[|live| + 1] == 'w' && (live + "-shm")[|live| + 1] == 's';
    assert (backup + "-wal")[|backup| + 1] == 'w' && (backup + "-shm")[|backup| + 1] == 's';
    assert (backup + "-wal")[|live|] == '.' && (backup + "-shm")[|live|] == '.';
  }

  /** No piece that is there has its backup name taken. */
  ghost predicate BackupsFree(fs: FileSystem, pieces: seq<Move>) {
    forall k :: 0 <= k < |pieces| && pieces[k].live in fs ==> pieces[k].backup !in fs
  }

  /** A piece not yet touched. */
  ghost predicate Waiting(before: FileSystem, now: FileSystem, m: Move) {
    Same(before, now, m.live) && Same(before, now, m.backup)
  }

  /** `m` is one of the first `n` pieces. */
  ghost predicate AmongFirst(pieces: seq<Move>, n: nat, m: Move) {
    exists k :: 0 <= k < n && k < |pieces| && pieces[k] == m
  }

  /** The first `n` pieces have been moved, those that were there, and `moved` lists them. */
  ghost predicate Moving(before: FileSystem, now: FileSystem, pieces: seq<Move>, n: nat, moved: seq<Move>) {
    && SameBut(before, now, pieces)
    && (forall k :: 0 <= k < n && k < |pieces| ==>
          if pieces[k].live in before then Away(before, now, pieces[k]) && pieces[k] in moved
          else Waiting(before, now, pieces[k]))
    && (forall k :: n <= k < |pieces| && 0 <= k ==> Waiting(before, now, pieces[k]))
    && Apart(moved)
    && (forall i :: 0 <= i < |moved| ==> AmongFirst(pieces, n, moved[i]))
    && (forall i :: 0 <= i < |moved| ==> Away(before, now, moved[i]))
  }

  lemma MovingStart(fs: FileSystem, pieces: seq<Move>)
    ensures Moving(fs, fs, pieces, 0, [])
  {
  }

  lemma MovingSkip(before: FileSystem, now: FileSystem, pieces: seq<Move>, n: nat, moved: seq<Move>)
    requires n < |pieces| && Moving(before, now, pieces, n, moved) && pieces[n].live !in now
    ensures Moving(before, now, pieces, n + 1, moved)
  {
    hide Apart, SameBut, Away;
  }

  lemma WaitsOn(before: FileSystem, now: FileSystem, from: string, to: string, m: Move)
    requires from in now && m.live != from && m.live != to && m.backup != from && m.backup != to
    ensures Waiting(before, now, m) ==> Waiting(before, Renamed(now, from, to), m)
  {
  }

  lemma ApartMore(pieces: seq<Move>, n: nat, moved: seq<Move>)
    requires Apart(pieces) && n < |pieces| && Apart(moved)
    requires forall i :: 0 <= i < |moved| ==> AmongFirst(pieces, n, moved[i])
    ensures Apart(moved + [pieces[n]])
    ensures forall i :: 0 <= i < |moved + [pieces[n]]| ==> AmongFirst(pieces, n + 1, (moved + [pieces[n]])[i])
    ensures forall i :: 0 <= i < |moved| ==>
              && moved[i].live != pieces[n].live && moved[i].live != pieces[n].backup
              && moved[i].backup != pieces[n].live && moved[i].backup != pieces[n].backup
  {
    forall i | 0 <= i < |moved|
      ensures moved[i].live != pieces[n].live && moved[i].live != pieces[n].backup
      ensures moved[i].backup != pieces[n].live && moved[i].backup != pieces[n].backup
    {
      var k :| 0 <= k < n && k < |pieces| && pieces[k] == moved[i];
    }
    assert pieces[n] == (moved + [pieces[n]])[|moved|];
  }

  lemma MovingNext(before: FileSystem, now: FileSystem, pieces: seq<Move>, n: nat, moved: seq<Move>)
    requires n < |pieces| && Apart(pieces) && Moving(before, now, pieces, n, moved) && pieces[n].live in now
    ensures Moving(before, Renamed(now, pieces[n].live, pieces[n].backup), pieces, n + 1, moved + [pieces[n]])
  {
    var m := pieces[n];
    var after := Renamed(now, m.live, m.backup);
    assert Away(before, after, m);
    RenameIsLocal(before, now, pieces, n, false);
    ApartMore(pieces, n, moved);
    forall k | 0 <= k < |pieces| && k != n
      ensures Away(before, now, pieces[k]) ==> Away(before, after, pieces[k])
      ensures Waiting(before, now, pieces[k]) ==> Waiting(before, after, pieces[k])
    {
      OthersStay(before, now, m.live, m.backup, pieces[k]);
      WaitsOn(before, now, m.live, m.backup, pieces[k]);
    }
    forall i | 0 <= i < |moved| ensures Away(before, after, moved[i])
    {
      OthersStay(before, now, m.live, m.backup, moved[i]);
    }
    hide Away, Waiting, SameBut, Apart, Renamed;
  }

  /** What a quarantine promises, whatever renames went through. */
  ghost predicate Promised(before: FileSystem, after: FileSystem, pieces: seq<Move>, outcome: Outcome) {
    && SameBut(before, after, pieces)
    && (forall k :: 0 <= k < |pieces| && pieces[k].live !in before ==> Waiting(before, after, pieces[k]))
    && (outcome.Quarantined? ==>
          forall k :: 0 <= k < |pieces| && pieces[k].live in before ==> Away(before, after, pieces[k]))
    && (outcome.RenameFailed? || outcome.Restored? ==>
          forall k :: 0 <= k < |pieces| && pieces[k].live in before ==> Home(before, after, pieces[k]))
    && (outcome.Stuck? ==>
          && outcome.paths != []
          && (forall p :: p in outcome.paths ==> Backs(pieces, p))
          && forall k :: 0 <= k < |pieces| && pieces[k].live in before ==>
               if pieces[k].backup in outcome.paths then Away(before, after, pieces[k])
               else Home(before, after, pieces[k]))
  }

  lemma RolledBack(before: FileSystem, now: FileSystem, after: FileSystem, pieces: seq<Move>, n: nat,
                   moved: seq<Move>, stuck: seq<string>)
    requires n < |pieces| && Apart(pieces) && BackupsFree(before, pieces) && Moving(before, now, pieces, n, moved)
    requires Undoing(before, after, moved, 0, stuck) && SameBut(now, after, moved)
    ensures Promised(before, after, pieces, if stuck != [] then Stuck(stuck) else Restored)
  {
    forall p | !Concerns(pieces, p) ensures Same(before, after, p)
    {
      if Concerns(moved, p) { ConcernsMore(pieces, n, moved, p); }
      assert Same(before, now, p);
    }
    forall k | 0 <= k < |pieces|
      ensures pieces[k].live !in before ==> Waiting(before, after, pieces[k])
      ensures pieces[k].live in before ==>
                if pieces[k].backup in stuck then Away(before, after, pieces[k]) else Home(before, after, pieces[k])
    {
      RolledBackPiece(before, now, after, pieces, n, moved, stuck, k);
    }
    forall p | p in stuck ensures Backs(pieces, p)
    {
      var i :| 0 <= i < |moved| && moved[i].backup == p;
      var k :| 0 <= k < n && k < |pieces| && pieces[k] == moved[i];
    }
    hide Away, Home, Waiting, SameBut, Apart, Undoing, Moving, Backs;
  }

  lemma ConcernsMore(pieces: seq<Move>, n: nat, moved: seq<Move>, p: string)
    requires forall i :: 0 <= i < |moved| ==> AmongFirst(pieces, n, moved[i])
    requires Concerns(moved, p)
    ensures Concerns(pieces, p)
  {
    var i :| 0 <= i < |moved| && (moved[i].backup == p || moved[i].live == p);
    var k :| 0 <= k < n && k < |pieces| && pieces[k] == moved[i];
  }

  lemma StuckConcerns(before: FileSystem, now: FileSystem, moves: seq<Move>, stuck: seq<string>, p: string)
    requires Undoing(before, now, moves, 0, stuck)
    ensures p in stuck ==> Concerns(moves, p)
  {
  }

  /** A piece that was not moved shares no path with those that were. */
  lemma Untouched(before: FileSystem, now: FileSystem, pieces: seq<Move>, n: nat, moved: seq<Move>, k: nat)
    requires n < |pieces| && k < |pieces| && Apart(pieces) && Moving(before, now, pieces, n, moved)
    requires k >= n || pieces[k].live !in before
    ensures !Concerns(moved, pieces[k].live) && !Concerns(moved, pieces[k].backup)
  {
    forall i | 0 <= i < |moved|
      ensures moved[i].live != pieces[k].live && moved[i].live != pieces[k].backup
      ensures moved[i].backup != pieces[k].live && moved[i].backup != pieces[k].backup
    {
      assert AmongFirst(pieces, n, moved[i]);
      var j :| 0 <= j < n && j < |pieces| && pieces[j] == moved[i];
      assert Away(before, now, moved[i]);
      assert j != k;
    }
  }

  lemma RolledBackPiece(before: FileSystem, now: FileSystem, after: FileSystem, pieces: seq<Move>, n: nat,
                        moved: seq<Move>, stuck: seq<string>, k: nat)
    requires n < |pieces| && Apart(pieces) && BackupsFree(before, pieces) && Moving(before, now, pieces, n, moved)
    requires Undoing(before, after, moved, 0, stuck) && SameBut(now, after, moved) && k < |pieces|
    ensures pieces[k].live !in before ==> Waiting(before, after, pieces[k])
    ensures pieces[k].live in before ==>
              if pieces[k].backup in stuck then Away(before, after, pieces[k]) else Home(before, after, pieces[k])
  {
    var m := pieces[k];
    if k < n && m.live in before {
      var i :| 0 <= i < |moved| && moved[i] == m;
    } else {
      Untouched(before, now, pieces, n, moved, k);
      assert Same(now, after, m.live) && Same(now, after, m.backup);
      StuckConcerns(before, after, moved, stuck, m.backup);
    }
  }

  /** What a quarantine does from piece `n` on; the rename of piece `n` has that number. */
  function MovedBy(fs: FileSystem, pieces: seq<Move>, n: nat, moved: seq<Move>, may: nat -> bool): (FileSystem, Outcome)
    requires n <= |pieces| && pieces != []
    decreases |pieces| - n
  {
    if n == |pieces| then (fs, Quarantined(pieces[0].backup))
    else if n > 0 && pieces[n].live !in fs then MovedBy(fs, pieces, n + 1, moved, may)
    else if may(n) && CanRename(fs, pieces[n].live, pieces[n].backup) then
      MovedBy(Renamed(fs, pieces[n].live, pieces[n].backup), pieces, n + 1, moved + [pieces[n]], may)
    else if n == 0 then (fs, RenameFailed)
    else
      var r := UndoneBy(fs, moved, |moved|, [], may, n + 1);
      (r.0, if r.1 != [] then Stuck(r.1) else Restored)
  }

  /** One turn of the loop over the pieces. */
  lemma MovedStep(fs: FileSystem, pieces: seq<Move>, n: nat, moved: seq<Move>, may: nat -> bool)
    requires n < |pieces|
    ensures MovedBy(fs, pieces, n, moved, may) ==
            if n > 0 && pieces[n].live !in fs then MovedBy(fs, pieces, n + 1, moved, may)
            else if may(n) && CanRename(fs, pieces[n].live, pieces[n].backup) then
              MovedBy(Renamed(fs, pieces[n].live, pieces[n].backup), pieces, n + 1, moved + [pieces[n]], may)
            else if n == 0 then (fs, RenameFailed)
            else
              var r := UndoneBy(fs, moved, |moved|, [], may, n + 1);
              (r.0, if r.1 != [] then Stuck(r.1) else Restored)
  {
    hide UndoneBy, Renamed, CanRename;
  }

  lemma MovedAll(fs: FileSystem, pieces: seq<Move>, moved: seq<Move>, may: nat -> bool)
    requires pieces != []
    ensures MovedBy(fs, pieces, |pieces|, moved, may) == (fs, Quarantined(pieces[0].backup))
  {
  }

  /** A sidecar is where it was, so that the main file will not be opened without it. */
  ghost predicate SidecarLeft(after: FileSystem, pieces: seq<Move>) {
    exists k :: 1 <= k < |pieces| && pieces[k].live in after
  }

  /** Whatever renames go through, in the quarantine and in its rollback, it keeps its promise. */
  lemma {:induction false} EveryRunKeepsPromise(before: FileSystem, now: FileSystem, pieces: seq<Move>, n: nat,
                                                moved: seq<Move>, may: nat -> bool)
    requires n <= |pieces| && pieces != [] && Apart(pieces) && Moving(before, now, pieces, n, moved)
    requires n == 0 ==> now == before && moved == []
    requires n > 0 ==> pieces[0].live in before
    ensures var r := MovedBy(now, pieces, n, moved, may);
            && (r.1.Quarantined? || BackupsFree(before, pieces) ==> Promised(before, r.0, pieces, r.1))
            && (r.1.Quarantined? ==> pieces[0].live in before)
            && (r.1.RenameFailed? ==> r.0 == before && n == 0)
            && (r.1.Restored? || r.1.Stuck? ==> SidecarLeft(r.0, pieces))
    decreases |pieces| - n
  {
    hide Apart, Moving, Promised, SameBut, BackupsFree, Renamed, SidecarLeft, UndoneBy;
    if n == |pieces| {
      AllMoved(before, now, pieces, moved, pieces[0].backup);
    } else if n > 0 && pieces[n].live !in now {
      MovingSkip(before, now, pieces, n, moved);
      EveryRunKeepsPromise(before, now, pieces, n + 1, moved, may);
    } else if may(n) && CanRename(now, pieces[n].live, pieces[n].backup) {
      MovingNext(before, now, pieces, n, moved);
      EveryRunKeepsPromise(before, Renamed(now, pieces[n].live, pieces[n].backup), pieces, n + 1,
                           moved + [pieces[n]], may);
    } else if n == 0 {
      if BackupsFree(before, pieces) { NothingMoved(before, pieces); }
    } else {
      RolledBackRun(before, now, pieces, n, moved, may);
    }
  }

  lemma RolledBackRun(before: FileSystem, now: FileSystem, pieces: seq<Move>, n: nat, moved: seq<Move>,
                      may: nat -> bool)
    requires 0 < n < |pieces| && Apart(pieces) && Moving(before, now, pieces, n, moved) && pieces[n].live in now
    ensures var r := UndoneBy(now, moved, |moved|, [], may, n + 1);
            && Undoing(before, r.0, moved, 0, r.1) && SameBut(now, r.0, moved)
            && (BackupsFree(before, pieces) ==>
                  Promised(before, r.0, pieces, if r.1 != [] then Stuck(r.1) else Restored))
            && SidecarLeft(r.0, pieces)
  {
    hide Promised, SameBut, BackupsFree, UndoneBy;
    MovedAway(before, now, pieces, n, moved);
    SameAsItself(now, moved);
    UndoneIs(before, now, now, moved, |moved|, [], may, n + 1);
    var r := UndoneBy(now, moved, |moved|, [], may, n + 1);
    if BackupsFree(before, pieces) { RolledBack(before, now, r.0, pieces, n, moved, r.1); }
    FailedStays(before, now, r.0, pieces, n, moved, r.1);
  }

  lemma SameAsItself(fs: FileSystem, moves: seq<Move>)
    ensures SameBut(fs, fs, moves)
  {
  }

  /** The rename of piece `i` can go through, as the file system stands before the first. */
  predicate Movable(fs: FileSystem, pieces: seq<Move>, i: nat)
    requires i < |pieces|
  {
    CanRename(fs, pieces[i].live, pieces[i].backup) || (i > 0 && pieces[i].live !in fs)
  }

  /** Nothing but a plain file is in the way of a plain piece. */
  ghost predicate CanMoveAll(fs: FileSystem, pieces: seq<Move>) {
    forall k :: 0 <= k < |pieces| && pieces[k].live in fs ==> CanRename(fs, pieces[k].live, pieces[k].backup)
  }

  /** While every rename goes through, the quarantine gets past piece `k`. */
  lemma {:induction false} Reaches(before: FileSystem, now: FileSystem, pieces: seq<Move>, n: nat, moved: seq<Move>,
                                   may: nat -> bool, k: nat) returns (there: FileSystem, done: seq<Move>)
    requires n <= k <= |pieces| && pieces != [] && Apart(pieces) && Moving(before, now, pieces, n, moved)
    requires forall i :: n <= i < k ==> may(i) && Movable(before, pieces, i)
    ensures Moving(before, there, pieces, k, done)
    ensures MovedBy(now, pieces, n, moved, may) == MovedBy(there, pieces, k, done, may)
    decreases k - n
  {
    hide Apart, Moving, Renamed, UndoneBy;
    if n == k { return now, moved; }
    assert Movable(before, pieces, n);
    StillWaiting(before, now, pieces, n, moved);
    if n > 0 && pieces[n].live !in now {
      MovingSkip(before, now, pieces, n, moved);
      there, done := Reaches(before, now, pieces, n + 1, moved, may, k);
    } else {
      MovingNext(before, now, pieces, n, moved);
      there, done := Reaches(before, Renamed(now, pieces[n].live, pieces[n].backup), pieces, n + 1,
                            moved + [pieces[n]], may, k);
    }
  }

  lemma SmoothRunSucceeds(fs: FileSystem, pieces: seq<Move>, may: nat -> bool)
    requires pieces != [] && Apart(pieces) && pieces[0].live in fs && CanMoveAll(fs, pieces)
    requires forall i :: 0 <= i < |pieces| ==> may(i)
    ensures MovedBy(fs, pieces, 0, [], may).1.Quarantined?
  {
    hide Apart, UndoneBy, Moving;
    MovingStart(fs, pieces);
    var there, done := Reaches(fs, fs, pieces, 0, [], may, |pieces|);
  }

  /**
   Whatever renames go through, in the quarantine and in its rollback: with free backup
   names every piece ends at exactly its live or its backup path, nothing else changes,
   and the outcome says which; a failure after the first move leaves a sidecar in place.
   */
  lemma QuarantineKeepsPromise(fs: FileSystem, live: string, backup: string, may: nat -> bool)
    requires Extends(live, backup)
    ensures var pieces := Pieces(live, backup);
            var (after, outcome) := MovedBy(fs, pieces, 0, [], may);
            && (outcome.Quarantined? || BackupsFree(fs, pieces) ==> Promised(fs, after, pieces, outcome))
            && (outcome.Quarantined? ==> outcome.backup == backup && live in fs)
            && (outcome.RenameFailed? ==> after == fs && !(may(0) && CanRename(fs, live, backup)))
            && (outcome.Restored? || outcome.Stuck? ==> live + "-wal" in after || live + "-shm" in after)
            && (may(0) && may(1) && may(2) && live in fs && CanMoveAll(fs, pieces) ==> outcome.Quarantined?)
  {
    var pieces := Pieces(live, backup);
    PiecesApart(live, backup);
    MovingStart(fs, pieces);
    EveryRunKeepsPromise(fs, fs, pieces, 0, [], may);
    if may(0) && may(1) && may(2) && live in fs && CanMoveAll(fs, pieces) {
      SmoothRunSucceeds(fs, pieces, may);
    }
    SuccessNames(fs, pieces, 0, [], may);
    hide Apart, Moving, Promised, Extends, BackupsFree, CanMoveAll, UndoneBy;
    assert pieces[0] == Move(backup, live);
    if may(0) && CanRename(fs, live, backup) {
      NeverBack(Renamed(fs, live, backup), pieces, 1, [] + [pieces[0]], may);
    }
  }

  lemma {:induction false} SuccessNames(fs: FileSystem, pieces: seq<Move>, n: nat, moved: seq<Move>, may: nat -> bool)
    requires n <= |pieces| && pieces != []
    ensures var outcome := MovedBy(fs, pieces, n, moved, may).1;
            outcome.Quarantined? ==> outcome.backup == pieces[0].backup
    decreases |pieces| - n
  {
    hide Renamed, UndoneBy;
    if n < |pieces| {
      SuccessNames(fs, pieces, n + 1, moved, may);
      if CanRename(fs, pieces[n].live, pieces[n].backup) {
        SuccessNames(Renamed(fs, pieces[n].live, pieces[n].backup), pieces, n + 1, moved + [pieces[n]], may);
      }
    }
  }

  /** After its first move a quarantine does not end with a failure of that move. */
  lemma {:induction false} NeverBack(fs: FileSystem, pieces: seq<Move>, n: nat, moved: seq<Move>, may: nat -> bool)
    requires 0 < n <= |pieces|
    ensures !MovedBy(fs, pieces, n, moved, may).1.RenameFailed?
    decreases |pieces| - n
  {
    hide Renamed, UndoneBy;
    if n < |pieces| {
      NeverBack(fs, pieces, n + 1, moved, may);
      if CanRename(fs, pieces[n].live, pieces[n].backup) {
        NeverBack(Renamed(fs, pieces[n].live, pieces[n].backup), pieces, n + 1, moved + [pieces[n]], may);
      }
    }
  }

  /** The quarantine as it runs; its promise is that of every run, above. */
  method QuarantineWithSidecars(fs: FileSystem, live: string, backup: string, may: nat -> bool)
    returns (after: FileSystem, outcome: Outcome)
    requires Extends(live, backup)
    ensures (after, outcome) == MovedBy(fs, Pieces(live, backup), 0, [], may)
    ensures outcome.Quarantined? ==> Promised(fs, after, Pieces(live, backup), outcome)
    ensures outcome.Quarantined? ==> outcome.backup == backup && live in fs
    ensures BackupsFree(fs, Pieces(live, backup)) ==> Promised(fs, after, Pieces(live, backup), outcome)
    ensures outcome.RenameFailed? ==> after == fs && !(may(0) && CanRename(fs, live, backup))
    ensures outcome.Restored? || outcome.Stuck? ==> live + "-wal" in after || live + "-shm" in after
    ensures may(0) && may(1) && may(2) && live in fs && CanMoveAll(fs, Pieces(live, backup)) ==> outcome.Quarantined?
  {
    QuarantineKeepsPromise(fs, live, backup, may);
    hide Apart, Promised, Extends, BackupsFree, Renamed, CanMoveAll, UndoneBy, CanRename, MovedBy, Away, Undoing;
    ghost var pieces := Pieces(live, backup);
    assert pieces[0] == Move(backup, live);
    MovedStep(fs, pieces, 0, [], may);
    var ok;
    after, ok := Rename(fs, live, backup, may(0));
    if !ok { return fs, RenameFailed; }
    var moved := [Move(backup, live)];
    assert [] + [pieces[0]] == moved;
    var suffixes := ["-wal", "-shm"];
    var n := 0;
    while n < |suffixes|
      invariant 0 <= n <= 2
      invariant MovedBy(after, pieces, n + 1, moved, may) == MovedBy(fs, pieces, 0, [], may)
    {
      var liveSidecar := live + suffixes[n];
      var backupSidecar := backup + suffixes[n];
      assert pieces[n + 1] == Move(backupSidecar, liveSidecar);
      MovedStep(after, pieces, n + 1, moved, may);
      if liveSidecar in after {
        var next;
        next, ok := Rename(after, liveSidecar, backupSidecar, may(n + 1));
        if !ok {
          var rolled, stuck := Rollback(fs, after, moved, may, n + 2);
          return rolled, if stuck != [] then Stuck(stuck) else Restored;
        }
        moved := moved + [Move(backupSidecar, liveSidecar)];
        after := next;
      }
      n := n + 1;
    }
    MovedAll(after, pieces, moved, may);
    return after, Quarantined(backup);
  }

  lemma NothingMoved(fs: FileSystem, pieces: seq<Move>)
    requires BackupsFree(fs, pieces)
    ensures Promised(fs, fs, pieces, RenameFailed)
  {
  }

  lemma AllMoved(fs: FileSystem, after: FileSystem, pieces: seq<Move>, moved: seq<Move>, backup: string)
    requires Moving(fs, after, pieces, |pieces|, moved)
    ensures Promised(fs, after, pieces, Quarantined(backup))
  {
  }

  lemma StillWaiting(fs: FileSystem, now: FileSystem, pieces: seq<Move>, n: nat, moved: seq<Move>)
    requires n < |pieces| && Moving(fs, now, pieces, n, moved)
    ensures Same(fs, now, pieces[n].live) && Same(fs, now, pieces[n].backup)
  {
    assert Waiting(fs, now, pieces[n]);
  }

  lemma MovedAway(fs: FileSystem, now: FileSystem, pieces: seq<Move>, n: nat, moved: seq<Move>)
    requires Moving(fs, now, pieces, n, moved)
    ensures Apart(moved) && forall i :: 0 <= i < |moved| ==> Away(fs, now, moved[i])
  {
  }

  /** The sidecar whose rename failed is still at its live path after the rollback. */
  lemma FailedStays(fs: FileSystem, now: FileSystem, after: FileSystem, pieces: seq<Move>, n: nat, moved: seq<Move>,
                    stuck: seq<string>)
    requires n < |pieces| && Apart(pieces) && Moving(fs, now, pieces, n, moved) && pieces[n].live in now
    requires SameBut(now, after, moved) && n > 0
    ensures SidecarLeft(after, pieces)
  {
    Untouched(fs, now, pieces, n, moved, n);
    assert Same(now, after, pieces[n].live);
    assert pieces[n].live in after;
  }

  // ------------------------------------------------------------- opening afterwards

  /** `OpenLocked` refuses when there is no main file, or an empty one, beside a sidecar. */
  predicate OpenRefuses(fs: FileSystem, path: string) {
    && (path !in fs || fs[path] == File([]))
    && (path + "-wal" in fs || path + "-shm" in fs)
  }

  method OrphanPaths(fs: FileSystem, path: string) returns (orphans: seq<string>)
    ensures orphans != [] <==> OpenRefuses(fs, path)
    ensures forall p :: p in orphans <==>
              p in fs && (p == path + "-wal" || p == path + "-shm") && (path in fs ==> fs[path] == File([]))
  {
    orphans := [];
    var missingOrEmpty := path !in fs || (fs[path].File? && fs[path].bytes == []);
    if missingOrEmpty {
      if path + "-wal" in fs { orphans := orphans + [path + "-wal"]; }
      if path + "-shm" in fs { orphans := orphans + [path + "-shm"]; }
    }
  }

  /**
   After a quarantine of a database that is not empty, the next open can create a new main
   file exactly when the quarantine succeeded: a rollback that left the main file at its
   backup path makes the open refuse, any other failure leaves the main file there to open.
   */
  lemma OpenAfterQuarantine(fs: FileSystem, after: FileSystem, live: string, backup: string, outcome: Outcome)
    requires live in fs && fs[live] != File([]) && Promised(fs, after, Pieces(live, backup), outcome)
    requires outcome.Restored? || outcome.Stuck? ==> live + "-wal" in after || live + "-shm" in after
    ensures OpenRefuses(after, live) <==> outcome.Stuck? && backup in outcome.paths
    ensures live !in after && !OpenRefuses(after, live) <==> outcome.Quarantined?
    ensures outcome.Stuck? && backup in outcome.paths ==> backup in after && after[backup] == fs[live]
  {
    var pieces := Pieces(live, backup);
    assert pieces[0] == Move(backup, live);
    assert pieces[1].live == live + "-wal" && pieces[2].live == live + "-shm";
  }

  /** The "restored in place" error is true: the file system is as it was. */
  lemma RestoredIsUnchanged(fs: FileSystem, after: FileSystem, pieces: seq<Move>)
    requires BackupsFree(fs, pieces) && Promised(fs, after, pieces, Restored)
    ensures after == fs
  {
    forall p ensures (p in fs <==> p in after) && (p in fs && p in after ==> fs[p] == after[p])
    {
      if Concerns(pieces, p) {
        var i :| 0 <= i < |pieces| && (pieces[i].backup == p || pieces[i].live == p);
      }
      assert Same(fs, after, p);
    }
  }
}
