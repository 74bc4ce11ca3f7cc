/**
 What a quarantine can do to files that are no part of the database: nothing while the
 backup names are free, and exactly when some run destroys one if they are not.
 */
module QuarantineLoss {
  import opened Quarantine

  /** Every file that was not a piece of the database is still where it was. */
  ghost predicate OthersSafe(fs: FileSystem, after: FileSystem, pieces: seq<Move>) {
    forall p :: p in fs && (forall k :: 0 <= k < |pieces| ==> p != pieces[k].live) ==> p in after && after[p] == fs[p]
  }

  /**
   A quarantine that goes through keeps every other file exactly when no backup name is
   taken by a file with other bytes.
   */
  lemma SafeExactlyWhenFree(fs: FileSystem, after: FileSystem, live: string, backup: string)
    requires Extends(live, backup) && Promised(fs, after, Pieces(live, backup), Quarantined(backup))
    ensures OthersSafe(fs, after, Pieces(live, backup)) <==>
            forall k :: 0 <= k < 3 && Pieces(live, backup)[k].live in fs && Pieces(live, backup)[k].backup in fs ==>
              fs[Pieces(live, backup)[k].backup] == fs[Pieces(live, backup)[k].live]
  {
    var pieces := Pieces(live, backup);
    PiecesApart(live, backup);
    forall k | 0 <= k < 3 && pieces[k].live in fs && pieces[k].backup in fs && OthersSafe(fs, after, pieces)
      ensures fs[pieces[k].backup] == fs[pieces[k].live]
    {
      assert Away(fs, after, pieces[k]);
    }
    if forall k :: 0 <= k < 3 && pieces[k].live in fs && pieces[k].backup in fs ==>
         fs[pieces[k].backup] == fs[pieces[k].live]
    {
      forall p | p in fs && (forall k :: 0 <= k < |pieces| ==> p != pieces[k].live)
        ensures p in after && after[p] == fs[p]
      {
        if Concerns(pieces, p) {
          var k :| 0 <= k < |pieces| && (pieces[k].backup == p || pieces[k].live == p);
        } else {
          assert Same(fs, after, p);
        }
      }
    }
  }

  /**
   The search for a backup name looks at the main name only: a sidecar of an earlier
   quarantine can stand under the name chosen, and its bytes are then overwritten.
   */
  lemma SidecarNameIsNotChecked(live: string, epoch: nat, older: seq<nat>, newer: seq<nat>)
    requires older != newer
    ensures var backup := BackupName(live, epoch, 0);
            var fs := map[live := File([1]), live + "-wal" := File(newer), backup + "-wal" := File(older)];
            && backup !in fs && CanMoveAll(fs, Pieces(live, backup))
            && forall after :: Promised(fs, after, Pieces(live, backup), Quarantined(backup)) ==>
                 && backup + "-wal" in after && after[backup + "-wal"] == File(newer)
                 && !OthersSafe(fs, after, Pieces(live, backup))
  {
    hide BackupName;
    var backup := BackupName(live, epoch, 0);
    BackupNameExtends(live, epoch, 0);
    PiecesApart(live, backup);
    var pieces := Pieces(live, backup);
    var fs := map[live := File([1]), live + "-wal" := File(newer), backup + "-wal" := File(older)];
    hide Extends;
    assert pieces[0].backup != pieces[1].backup && pieces[0].backup != pieces[1].live;
    assert pieces[2].live != pieces[1].live && pieces[2].live != pieces[0].live && pieces[2].live != pieces[1].backup;
    forall after | Promised(fs, after, pieces, Quarantined(backup))
      ensures backup + "-wal" in after && after[backup + "-wal"] == File(newer) && !OthersSafe(fs, after, pieces)
    {
      assert Away(fs, after, pieces[1]);
      assert forall k :: 0 <= k < |pieces| ==> backup + "-wal" != pieces[k].live;
      assert fs[backup + "-wal"] == File(older);
    }
  }

  /** With free backup names no other file is touched, whatever renames go through. */
  lemma SafeWhenFree(fs: FileSystem, after: FileSystem, live: string, backup: string, outcome: Outcome)
    requires Extends(live, backup) && BackupsFree(fs, Pieces(live, backup))
    requires Promised(fs, after, Pieces(live, backup), outcome)
    ensures OthersSafe(fs, after, Pieces(live, backup))
  {
    var pieces := Pieces(live, backup);
    PiecesApart(live, backup);
    forall p | p in fs && (forall k :: 0 <= k < |pieces| ==> p != pieces[k].live)
      ensures p in after && after[p] == fs[p]
    {
      if Concerns(pieces, p) {
        var k :| 0 <= k < |pieces| && (pieces[k].backup == p || pieces[k].live == p);
        assert Waiting(fs, after, pieces[k]);
      } else {
        assert Same(fs, after, p);
      }
    }
  }

  // ------------------------------------------------------- when a file can be lost

  /** The quarantine can get as far as replacing a file under the backup name of piece `k`. */
  ghost predicate Replaces(fs: FileSystem, pieces: seq<Move>, k: nat) {
    && k < |pieces| && pieces[k].live in fs && pieces[k].backup in fs
    && forall i :: 0 <= i <= k ==> Movable(fs, pieces, i)
  }

  /** There is a piece after `k`. */
  ghost predicate Follows(fs: FileSystem, pieces: seq<Move>, k: nat) {
    exists j :: k < j < |pieces| && pieces[j].live in fs
  }

  /**
   A file under a backup name can be replaced, and it has other bytes than the piece, or
   a later piece can fail and the rollback takes the name away.
   */
  ghost predicate AtRisk(fs: FileSystem, pieces: seq<Move>) {
    exists k: nat :: Replaces(fs, pieces, k)
                && (fs[pieces[k].backup] != fs[pieces[k].live] || Follows(fs, pieces, k))
  }

  // ------------------------------------------------------------ no risk, no loss

  lemma UntouchedIsSafe(before: FileSystem, after: FileSystem, pieces: seq<Move>)
    requires SameBut(before, after, pieces)
    requires forall k :: 0 <= k < |pieces| && pieces[k].backup in before ==>
               pieces[k].backup in after && after[pieces[k].backup] == before[pieces[k].backup]
    ensures OthersSafe(before, after, pieces)
  {
    forall p | p in before && (forall k :: 0 <= k < |pieces| ==> p != pieces[k].live)
      ensures p in after && after[p] == before[p]
    {
      if Concerns(pieces, p) {
        var k :| 0 <= k < |pieces| && (pieces[k].backup == p || pieces[k].live == p);
      } else {
        assert Same(before, after, p);
      }
    }
  }

  /** A quarantine that goes through leaves a replaced file's bytes if they were the piece's. */
  lemma SafeSuccess(before: FileSystem, now: FileSystem, pieces: seq<Move>, moved: seq<Move>)
    requires Moving(before, now, pieces, |pieces|, moved) && !AtRisk(before, pieces)
    requires forall i :: 0 <= i < |pieces| ==> Movable(before, pieces, i)
    ensures OthersSafe(before, now, pieces)
  {
    forall k | 0 <= k < |pieces| && pieces[k].backup in before
      ensures pieces[k].backup in now && now[pieces[k].backup] == before[pieces[k].backup]
    {
      if pieces[k].live in before {
        assert Replaces(before, pieces, k);
        assert Away(before, now, pieces[k]);
      } else {
        assert Waiting(before, now, pieces[k]);
      }
    }
    UntouchedIsSafe(before, now, pieces);
  }

  /** A rollback takes away only names that were free. */
  lemma SafeRollback(before: FileSystem, now: FileSystem, after: FileSystem, pieces: seq<Move>, n: nat,
                     moved: seq<Move>)
    requires n < |pieces| && Apart(pieces) && Moving(before, now, pieces, n, moved) && !AtRisk(before, pieces)
    requires pieces[n].live in before && SameBut(now, after, moved)
    requires forall i :: 0 <= i < n ==> Movable(before, pieces, i)
    ensures OthersSafe(before, after, pieces)
  {
    forall p | !Concerns(pieces, p) ensures Same(before, after, p)
    {
      if Concerns(moved, p) { ConcernsMore(pieces, n, moved, p); }
      assert Same(before, now, p) && Same(now, after, p);
    }
    forall k | 0 <= k < |pieces| && pieces[k].backup in before
      ensures pieces[k].backup in after && after[pieces[k].backup] == before[pieces[k].backup]
    {
      if k < n && pieces[k].live in before {
        assert Replaces(before, pieces, k) && Follows(before, pieces, k);
      }
      assert k >= n || pieces[k].live !in before;
      Untouched(before, now, pieces, n, moved, k);
      assert Same(now, after, pieces[k].backup);
      assert Waiting(before, now, pieces[k]);
    }
    UntouchedIsSafe(before, after, pieces);
  }

  lemma {:induction false} SafeWithoutRisk(before: FileSystem, now: FileSystem, pieces: seq<Move>, n: nat,
                                           moved: seq<Move>, may: nat -> bool)
    requires n <= |pieces| && pieces != [] && Apart(pieces) && Moving(before, now, pieces, n, moved)
    requires n == 0 ==> now == before
    requires !AtRisk(before, pieces) && forall i :: 0 <= i < n ==> Movable(before, pieces, i)
    ensures OthersSafe(before, MovedBy(now, pieces, n, moved, may).0, pieces)
    decreases |pieces| - n
  {
    hide Apart, Moving, SameBut, Renamed, AtRisk, OthersSafe, UndoneBy;
    if n == |pieces| {
      SafeSuccess(before, now, pieces, moved);
    } else {
      StillWaiting(before, now, pieces, n, moved);
      if n > 0 && pieces[n].live !in now {
        MovingSkip(before, now, pieces, n, moved);
        SafeWithoutRisk(before, now, pieces, n + 1, moved, may);
      } else if may(n) && CanRename(now, pieces[n].live, pieces[n].backup) {
        MovingNext(before, now, pieces, n, moved);
        SafeWithoutRisk(before, Renamed(now, pieces[n].live, pieces[n].backup), pieces, n + 1,
                        moved + [pieces[n]], may);
      } else if n == 0 {
        SafeUnmoved(before, pieces);
      } else {
        RolledBackRun(before, now, pieces, n, moved, may);
        SafeRollback(before, now, UndoneBy(now, moved, |moved|, [], may, n + 1).0, pieces, n, moved);
      }
    }
  }

  lemma SafeUnmoved(fs: FileSystem, pieces: seq<Move>)
    ensures OthersSafe(fs, fs, pieces)
  {
  }

  // --------------------------------------------------------- a run that loses a file

  /** A rollback in which every rename goes through brings every piece home. */
  lemma {:induction false} UndoneWhole(before: FileSystem, now: FileSystem, moved: seq<Move>, k: nat,
                                       may: nat -> bool, base: nat)
    requires k <= |moved| && Apart(moved) && Undoing(before, now, moved, k, [])
    requires forall i: nat :: i >= base ==> may(i)
    ensures UndoneBy(now, moved, k, [], may, base).1 == []
    ensures Undoing(before, UndoneBy(now, moved, k, [], may, base).0, moved, 0, [])
    decreases k
  {
    hide Apart, Undoing, Renamed;
    if k > 0 {
      var m := moved[k - 1];
      StillAway(before, now, moved, k - 1, []);
      UndoOne(before, now, moved, k - 1, []);
      UndoneWhole(before, Renamed(now, m.backup, m.live), moved, k - 1, may, base);
    }
  }

  lemma StillAway(before: FileSystem, now: FileSystem, moved: seq<Move>, k: nat, stuck: seq<string>)
    requires k < |moved| && Undoing(before, now, moved, k + 1, stuck)
    ensures moved[k].backup in now && moved[k].live !in now
  {
    assert Away(before, now, moved[k]);
  }

  /** A piece that was moved has left its backup path bare, or filled it with its own bytes. */
  lemma {:induction false} MovedForGood(before: FileSystem, now: FileSystem, pieces: seq<Move>, n: nat,
                                        moved: seq<Move>, may: nat -> bool, k: nat)
    requires k < n <= |pieces| && Apart(pieces) && Moving(before, now, pieces, n, moved)
    requires pieces[k].live in before
    ensures var r := MovedBy(now, pieces, n, moved, may).0;
            Home(before, r, pieces[k]) || Away(before, r, pieces[k])
    decreases |pieces| - n
  {
    hide Apart, Moving, SameBut, Renamed, UndoneBy, Home, Away, MovedBy, CanRename;
    if n == |pieces| {
      MovedAll(now, pieces, moved, may);
      MovedIsAway(before, now, pieces, n, moved, k);
    } else {
      MovedStep(now, pieces, n, moved, may);
      if pieces[n].live !in now {
        MovingSkip(before, now, pieces, n, moved);
        MovedForGood(before, now, pieces, n + 1, moved, may, k);
      } else if may(n) && CanRename(now, pieces[n].live, pieces[n].backup) {
        MovingNext(before, now, pieces, n, moved);
        MovedForGood(before, Renamed(now, pieces[n].live, pieces[n].backup), pieces, n + 1,
                     moved + [pieces[n]], may, k);
      } else {
        RolledBackRun(before, now, pieces, n, moved, may);
        UndoneMoves(before, now, pieces, n, moved, UndoneBy(now, moved, |moved|, [], may, n + 1).0,
                    UndoneBy(now, moved, |moved|, [], may, n + 1).1, k);
      }
    }
  }

  lemma MovedIsAway(before: FileSystem, now: FileSystem, pieces: seq<Move>, n: nat, moved: seq<Move>, k: nat)
    requires k < n <= |pieces| && Moving(before, now, pieces, n, moved) && pieces[k].live in before
    ensures Away(before, now, pieces[k])
  {
  }

  lemma UndoneMoves(before: FileSystem, now: FileSystem, pieces: seq<Move>, n: nat, moved: seq<Move>,
                    after: FileSystem, stuck: seq<string>, k: nat)
    requires k < n <= |pieces| && Moving(before, now, pieces, n, moved) && pieces[k].live in before
    requires Undoing(before, after, moved, 0, stuck)
    ensures Home(before, after, pieces[k]) || Away(before, after, pieces[k])
    ensures stuck == [] ==> Home(before, after, pieces[k])
  {
    var i :| 0 <= i < |moved| && moved[i] == pieces[k];
  }

  /** Replacing other bytes destroys them, whatever happens afterwards. */
  lemma OverwritingLoses(fs: FileSystem, pieces: seq<Move>, k: nat, may: nat -> bool)
    requires pieces != [] && Apart(pieces) && Replaces(fs, pieces, k)
    requires fs[pieces[k].backup] != fs[pieces[k].live] && forall i :: 0 <= i <= k ==> may(i)
    ensures !OthersSafe(fs, MovedBy(fs, pieces, 0, [], may).0, pieces)
  {
    MovingStart(fs, pieces);
    var there, done := Reaches(fs, fs, pieces, 0, [], may, k + 1);
    MovedForGood(fs, there, pieces, k + 1, done, may, k);
    assert forall i :: 0 <= i < |pieces| ==> pieces[k].backup != pieces[i].live;
  }

  /** The first piece after `k`. */
  lemma {:induction false} NextPiece(fs: FileSystem, pieces: seq<Move>, k: nat, n: nat) returns (j: nat)
    requires k < n <= |pieces| && Follows(fs, pieces, k)
    requires forall i :: k < i < n ==> pieces[i].live !in fs
    ensures n <= j < |pieces| && pieces[j].live in fs && forall i :: k < i < j ==> pieces[i].live !in fs
    decreases |pieces| - n
  {
    var f :| k < f < |pieces| && pieces[f].live in fs;
    if pieces[n].live in fs { return n; }
    j := NextPiece(fs, pieces, k, n + 1);
  }

  /**
   If only the rename of a later piece fails, everything is restored and the file under the
   backup name of piece `k` is gone, though the error says that nothing moved.
   */
  lemma RestoringLoses(fs: FileSystem, pieces: seq<Move>, k: nat, j: nat, may: nat -> bool)
    requires pieces != [] && Apart(pieces) && Replaces(fs, pieces, k)
    requires k < j < |pieces| && pieces[j].live in fs && forall i :: k < i < j ==> pieces[i].live !in fs
    requires forall i: nat :: may(i) <==> i != j
    ensures MovedBy(fs, pieces, 0, [], may).1 == Restored
    ensures pieces[k].backup !in MovedBy(fs, pieces, 0, [], may).0
    ensures !OthersSafe(fs, MovedBy(fs, pieces, 0, [], may).0, pieces)
  {
    MovingStart(fs, pieces);
    assert forall i :: 0 <= i < j ==> Movable(fs, pieces, i);
    var there, done := Reaches(fs, fs, pieces, 0, [], may, j);
    StillWaiting(fs, there, pieces, j, done);
    MovedAway(fs, there, pieces, j, done);
    AllAway(fs, there, done);
    UndoneWhole(fs, there, done, |done|, may, j + 1);
    var after := UndoneBy(there, done, |done|, [], may, j + 1).0;
    UndoneMoves(fs, there, pieces, j, done, after, [], k);
    hide UndoneBy, Moving, Replaces;
    assert pieces[k].backup in fs;
    assert forall i :: 0 <= i < |pieces| ==> pieces[k].backup != pieces[i].live;
  }

  lemma AllAway(before: FileSystem, now: FileSystem, moved: seq<Move>)
    requires forall i :: 0 <= i < |moved| ==> Away(before, now, moved[i])
    ensures Undoing(before, now, moved, |moved|, [])
  {
  }

  /** A function that lets every rename through but that of number `n`. */
  function AllBut(n: nat): nat -> bool { (i: nat) => i != n }

  /**
   Some pattern of renames makes the quarantine lose a file that is no part of the database
   exactly when the file system is at risk before it starts.
   */
  lemma LosesExactlyAtRisk(fs: FileSystem, live: string, backup: string)
    requires Extends(live, backup)
    ensures (exists may: nat -> bool ::
              !OthersSafe(fs, MovedBy(fs, Pieces(live, backup), 0, [], may).0, Pieces(live, backup)))
            <==> AtRisk(fs, Pieces(live, backup))
  {
    var pieces := Pieces(live, backup);
    PiecesApart(live, backup);
    MovingStart(fs, pieces);
    hide Apart, Moving, OthersSafe, MovedBy, Follows, Replaces, Pieces;
    if AtRisk(fs, pieces) {
      var k: nat :| Replaces(fs, pieces, k)
               && (fs[pieces[k].backup] != fs[pieces[k].live] || Follows(fs, pieces, k));
      LosingRun(fs, pieces, k);
    } else {
      forall may: nat -> bool ensures OthersSafe(fs, MovedBy(fs, pieces, 0, [], may).0, pieces)
      {
        SafeWithoutRisk(fs, fs, pieces, 0, [], may);
      }
    }
  }

  lemma LosingRun(fs: FileSystem, pieces: seq<Move>, k: nat)
    requires pieces != [] && Apart(pieces) && Replaces(fs, pieces, k)
    requires fs[pieces[k].backup] != fs[pieces[k].live] || Follows(fs, pieces, k)
    ensures exists may: nat -> bool :: !OthersSafe(fs, MovedBy(fs, pieces, 0, [], may).0, pieces)
  {
    hide OthersSafe, MovedBy, Apart;
    if fs[pieces[k].backup] != fs[pieces[k].live] {
      OverwritingLoses(fs, pieces, k, AllBut(k + 1));
    } else {
      var j := NextPiece(fs, pieces, k, k + 1);
      RestoringLoses(fs, pieces, k, j, AllBut(j));
    }
  }

  /**
   An input on which a quarantine that reports everything restored has removed an earlier
   sidecar: the log moves onto it, the shared memory fails to move, the log moves back.
   */
  lemma RestoredCanLoseASidecar(live: string, backup: string, log: Node, main: Node, shared: Node)
    requires Extends(live, backup) && log.File? && main.File?
    ensures var fs := map[live := main, live + "-wal" := log, live + "-shm" := shared, backup + "-wal" := log];
            var (after, outcome) := MovedBy(fs, Pieces(live, backup), 0, [], AllBut(2));
            outcome == Restored && backup + "-wal" in fs && backup + "-wal" !in after
  {
    var fs := map[live := main, live + "-wal" := log, live + "-shm" := shared, backup + "-wal" := log];
    var pieces := Pieces(live, backup);
    PiecesApart(live, backup);
    hide Extends, MovedBy;
    assert pieces[0] == Move(backup, live) && pieces[1] == Move(backup + "-wal", live + "-wal");
    assert pieces[2].live == live + "-shm";
    assert forall i :: 0 <= i < 3 ==> pieces[i].live in fs;
    assert pieces[0].backup != pieces[1].backup && pieces[0].backup != pieces[1].live;
    assert pieces[0].backup != pieces[0].live && pieces[0].backup != pieces[2].live;
    assert fs[pieces[1].backup] == log && fs[pieces[1].live] == log;
    assert Movable(fs, pieces, 0) && Movable(fs, pieces, 1);
    RestoringLoses(fs, pieces, 1, 2, AllBut(2));
  }
}
