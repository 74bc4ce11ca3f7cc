/**
 What a quarantine achieves, path by path: the names it uses, where each piece ends, and
 that a single refused rename is undone completely.
 */
module QuarantineRollback {
  import opened Decimal
  import opened Quarantine

  /** The backup name, spelt out. */
  lemma BackupNameIs(path: string, epoch: nat, attempt: nat)
    ensures BackupName(path, epoch, attempt) == path + ".invalid-" + ToDecimal(epoch) + "-" + ToDecimal(attempt)
  {
    hide Numeral, ToDecimal;
    NumeralIsDecimal(epoch);
    NumeralIsDecimal(attempt);
  }

  /** The database file and its two sidecars, by what is appended to its name. */
  predicate IsPiece(suffix: string) { suffix == "" || suffix == "-wal" || suffix == "-shm" }

  /** After a success every piece is at the backup name with its own suffix, and gone from the live one. */
  lemma SuccessMovesEveryPiece(fs: FileSystem, live: string, backup: string, may: nat -> bool, suffix: string)
    requires Extends(live, backup) && IsPiece(suffix) && live + suffix in fs
    ensures var (after, outcome) := MovedBy(fs, Pieces(live, backup), 0, [], may);
            outcome.Quarantined? ==>
              backup + suffix in after && after[backup + suffix] == fs[live + suffix] && live + suffix !in after
  {
    QuarantineKeepsPromise(fs, live, backup, may);
    hide MovedBy, Extends, BackupsFree, CanMoveAll, SameBut;
    var pieces := Pieces(live, backup);
    assert live + "" == live && backup + "" == backup;
    assert pieces[0] == Move(backup, live);
    assert pieces[1] == Move(backup + "-wal", live + "-wal");
    assert pieces[2] == Move(backup + "-shm", live + "-shm");
  }

  /** Rolling back takes every piece home when none of its own renames is refused. */
  lemma {:induction false} RollbackSucceeds(before: FileSystem, fs: FileSystem, moved: seq<Move>, k: nat,
                                            may: nat -> bool, base: nat)
    requires k <= |moved| && Apart(moved) && Undoing(before, fs, moved, k, [])
    requires forall j: nat :: base <= j ==> may(j)
    ensures UndoneBy(fs, moved, k, [], may, base).1 == []
    decreases k
  {
    hide Apart, Undoing, Renamed;
    if k > 0 {
      var m := moved[k - 1];
      WayHomeIsFree(before, fs, moved, k - 1);
      UndoOne(before, fs, moved, k - 1, []);
      RollbackSucceeds(before, Renamed(fs, m.backup, m.live), moved, k - 1, may, base);
    }
  }

  lemma WayHomeIsFree(before: FileSystem, fs: FileSystem, moved: seq<Move>, k: nat)
    requires k < |moved| && Undoing(before, fs, moved, k + 1, [])
    ensures moved[k].backup in fs && CanRename(fs, moved[k].backup, moved[k].live)
  {
    assert Away(before, fs, moved[k]);
  }

  /** Only the rename of sidecar `n` is refused. */
  ghost predicate OnlyRefuses(may: nat -> bool, n: nat) {
    !may(n) && forall j: nat :: j != n ==> may(j)
  }

  /** One refused sidecar, and everything is put back: the file system is as it was. */
  lemma OneRefusalIsUndone(fs: FileSystem, live: string, backup: string, may: nat -> bool, n: nat)
    requires Extends(live, backup) && BackupsFree(fs, Pieces(live, backup)) && CanMoveAll(fs, Pieces(live, backup))
    requires live in fs && 1 <= n <= 2 && Pieces(live, backup)[n].live in fs && OnlyRefuses(may, n)
    ensures MovedBy(fs, Pieces(live, backup), 0, [], may) == (fs, Restored)
  {
    var pieces := Pieces(live, backup);
    PiecesApart(live, backup);
    MovingStart(fs, pieces);
    assert pieces[0] == Move(backup, live);
    assert forall i :: 0 <= i < n ==> Movable(fs, pieces, i);
    hide Apart, Moving, UndoneBy, Renamed, CanRename, BackupsFree, CanMoveAll, Extends, Promised, Undoing, SameBut,
         Movable, SidecarLeft;
    var there, done := Reaches(fs, fs, pieces, 0, [], may, n);
    PieceIsThere(fs, there, pieces, n, done);
    MovedStep(there, pieces, n, done, may);
    RollsBackWhole(fs, there, pieces, n, done, may);
    var after := UndoneBy(there, done, |done|, [], may, n + 1).0;
    RestoredIsUnchanged(fs, after, pieces);
  }

  lemma PieceIsThere(before: FileSystem, now: FileSystem, pieces: seq<Move>, n: nat, moved: seq<Move>)
    requires n < |pieces| && Moving(before, now, pieces, n, moved) && pieces[n].live in before
    ensures pieces[n].live in now
  {
    StillWaiting(before, now, pieces, n, moved);
  }

  lemma RollsBackWhole(before: FileSystem, now: FileSystem, pieces: seq<Move>, n: nat, moved: seq<Move>,
                       may: nat -> bool)
    requires 0 < n < |pieces| && Apart(pieces) && Moving(before, now, pieces, n, moved) && pieces[n].live in now
    requires BackupsFree(before, pieces) && OnlyRefuses(may, n)
    ensures var r := UndoneBy(now, moved, |moved|, [], may, n + 1);
            r.1 == [] && Promised(before, r.0, pieces, Restored)
  {
    MovedAway(before, now, pieces, n, moved);
    AllAway(before, now, moved);
    hide Moving, Apart, Away, UndoneBy, Promised, BackupsFree, Undoing, SidecarLeft, SameBut;
    RollbackSucceeds(before, now, moved, |moved|, may, n + 1);
    RolledBackRun(before, now, pieces, n, moved, may);
  }

  lemma AllAway(before: FileSystem, now: FileSystem, moved: seq<Move>)
    requires forall i :: 0 <= i < |moved| ==> Away(before, now, moved[i])
    ensures Undoing(before, now, moved, |moved|, [])
  {
  }
}
