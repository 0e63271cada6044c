/**
 * The thumbnail path repair script: every song row with a thumbnail path
 * gets the path `thumbnails/000{digits}.png`, where the digits are the id
 * without its leading zeros, and a row is written only when its path
 * differs from that.
 *
 * The database is the list of rows the script reads plus the parameter
 * `update`, which says whether the write of a path for an id succeeded
 * (a failed write is logged and the loop goes on).
 */
module UpdateThumbnailPaths {
  import opened PyValue
  import PyText
  import ThumbnailTester

  // ---------------------------------------------------------------------
  // The path a song should have

  /** `f"thumbnails/000{song_id.lstrip('0')}.png"`. */
  function CorrectPath(songId: string): string {
    "thumbnails/000" + PyText.LStripChar(songId, '0') + ".png"
  }

  /** Ids that differ only in leading zeros get the same path. */
  lemma CorrectPathIgnoresLeadingZeros(k: nat, songId: string)
    ensures CorrectPath(PyText.Zeros(k) + songId) == CorrectPath(songId)
  {
    PyText.LStripCharRepeat('0', k, songId);
  }

  /**
   * The repaired path is the key the thumbnail tester probes exactly when
   * the id without leading zeros has three characters and no sign: the
   * "six digits with three leading zeros" the bucket layout assumes.
   */
  lemma AgreesWithTesterIff(songId: string)
    ensures var core := PyText.LStripChar(songId, '0');
      CorrectPath(songId) == ThumbnailTester.ProbePath(songId) <==> |core| == 3 && !PyText.IsSign(core[0])
  {
    var core := PyText.LStripChar(songId, '0');
    var probed := ThumbnailTester.ThumbnailId(songId);
    assert ThumbnailTester.ProbePath(songId) == "thumbnails/" + probed + ".png";
    assert CorrectPath(songId) == "thumbnails/" + ("000" + core) + ".png";
    if |core| == 3 && !PyText.IsSign(core[0]) {
      ThumbnailTester.ThumbnailIdPads(songId);
      assert PyText.Zeros(3) == "000";
      assert probed == "000" + core;
    } else if |core| != 3 {
      assert |probed| != |"000" + core|;
      assert ("thumbnails/" + probed + ".png")[11..11 + |probed|] == probed;
    } else {
      assert probed[0] == core[0] != ("000" + core)[0];
      assert ("thumbnails/" + probed + ".png")[11] == probed[0];
      assert ("thumbnails/" + ("000" + core) + ".png")[11] == '0';
    }
  }

  // ---------------------------------------------------------------------
  // One row

  /** What the loop does with one row. */
  datatype Step =
    | Skip                          // no truthy thumbnail path
    | Crash                         // the id is not a string: `lstrip` raises
    | Keep                          // the path is already the correct one
    | Update(id: string, path: string)

  /** The loop body's decision for a row, read with `song.get`. */
  function StepOf(song: Record): Step {
    var songId := Lookup(song, "id");
    var path := Lookup(song, "thumbnail_path");
    if !Truthy(path) then Skip
    else if !songId.Str? then Crash
    else if path == Str(CorrectPath(songId.s)) then Keep
    else Update(songId.s, CorrectPath(songId.s))
  }

  /**
   * A row is written exactly when it has a truthy path, a string id, and a
   * path other than the correct one, and then it is written the correct one.
   */
  lemma UpdateIff(song: Record)
    ensures StepOf(song).Update? <==>
      Truthy(Lookup(song, "thumbnail_path")) && Lookup(song, "id").Str? &&
      Lookup(song, "thumbnail_path") != Str(CorrectPath(Lookup(song, "id").s))
    ensures StepOf(song).Update? ==>
      Lookup(song, "id") == Str(StepOf(song).id) && StepOf(song).path == CorrectPath(StepOf(song).id)
    ensures !Truthy(Lookup(song, "thumbnail_path")) ==> StepOf(song) == Skip
  {
  }

  // ---------------------------------------------------------------------
  // The run

  /**
   * The writes the loop issues over `rows`, in order, and whether it stopped
   * on a row whose id is not a string.
   */
  function Attempts(rows: seq<Record>): (r: (seq<(string, string)>, bool))
  {
    if rows == [] then ([], false)
    else
      var before := Attempts(rows[..|rows| - 1]);
      if before.1 then before
      else
        match StepOf(rows[|rows| - 1])
        case Crash => (before.0, true)
        case Update(id, path) => (before.0 + [(id, path)], false)
        case _ => (before.0, false)
  }

  /** Once the loop has crashed, later rows change nothing. */
  lemma {:induction false} CrashIsFinal(rows: seq<Record>, more: seq<Record>)
    requires Attempts(rows).1
    ensures Attempts(rows + more) == Attempts(rows)
  {
    if more != [] {
      CrashIsFinal(rows, more[..|more| - 1]);
      assert (rows + more)[..|rows + more| - 1] == rows + more[..|more| - 1];
    } else {
      assert rows + more == rows;
    }
  }

  /**
   * At most one write per row, each write carries the correct path for
   * its id, and each write comes from a row whose path was different.
   */
  lemma {:induction false} AttemptsSound(rows: seq<Record>)
    ensures |Attempts(rows).0| <= |rows|
    ensures forall a :: a in Attempts(rows).0 ==> a.1 == CorrectPath(a.0)
    ensures forall a :: a in Attempts(rows).0 ==> exists i :: 0 <= i < |rows| && StepOf(rows[i]) == Update(a.0, a.1)
  {
    if rows != [] {
      var prefix := rows[..|rows| - 1];
      AttemptsSound(prefix);
      forall a | a in Attempts(rows).0
        ensures exists i :: 0 <= i < |rows| && StepOf(rows[i]) == Update(a.0, a.1)
      {
        if a in Attempts(prefix).0 {
          var i :| 0 <= i < |prefix| && StepOf(prefix[i]) == Update(a.0, a.1);
          assert rows[i] == prefix[i];
        } else {
          assert StepOf(rows[|rows| - 1]) == Update(a.0, a.1);
        }
      }
    }
  }

  /** The number of writes that succeeded. */
  function Succeeded(issued: seq<(string, string)>, update: (string, string) -> bool): (n: nat)
    ensures n <= |issued|
  {
    if issued == [] then 0
    else
      var last := issued[|issued| - 1];
      Succeeded(issued[..|issued| - 1], update) + if update(last.0, last.1) then 1 else 0
  }

  /** How the script ends. */
  datatype Outcome =
    | NoSongs                       // the query returned no rows: exit status 1
    | Crashed                       // a row's id was not a string
    | Done(updated: nat)            // the final log line's `updated_count`

  /**
   * `main` after the rows are fetched: an empty result ends the script, a
   * non-string id ends it with an error, and otherwise every row with a
   * wrong path is written and the successful writes are counted.
   */
  method UpdatePaths(songs: seq<Record>, update: (string, string) -> bool)
    returns (outcome: Outcome, issued: seq<(string, string)>)
    ensures outcome == NoSongs <==> songs == []
    ensures songs == [] ==> issued == []
    ensures songs != [] ==> issued == Attempts(songs).0 && (outcome.Crashed? <==> Attempts(songs).1)
    ensures outcome.Done? ==> outcome.updated == Succeeded(issued, update) && outcome.updated <= |songs|
  {
    if songs == [] {
      return NoSongs, [];
    }
    var updated := 0;
    issued := [];
    var i := 0;
    while i < |songs|
      invariant i <= |songs|
      invariant Attempts(songs[..i]) == (issued, false)
      invariant updated == Succeeded(issued, update)
    {
      assert songs[..i + 1][..i] == songs[..i];
      var songId := Lookup(songs[i], "id");
      var path := Lookup(songs[i], "thumbnail_path");
      if !Truthy(path) {
        i := i + 1;
        continue;
      }
      if !songId.Str? {
        CrashIsFinal(songs[..i + 1], songs[i + 1..]);
        assert songs[..i + 1] + songs[i + 1..] == songs;
        return Crashed, issued;
      }
      var correct := CorrectPath(songId.s);
      if path != Str(correct) {
        assert (issued + [(songId.s, correct)])[..|issued|] == issued;
        issued := issued + [(songId.s, correct)];
        if update(songId.s, correct) {
          updated := updated + 1;
        }
      }
      i := i + 1;
    }
    assert songs[..i] == songs;
    AttemptsSound(songs);
    outcome := Done(updated);
  }

  // ---------------------------------------------------------------------
  // Running twice

  /** The ids whose write succeeded. */
  function UpdatedIds(issued: seq<(string, string)>, update: (string, string) -> bool): set<string> {
    set a | a in issued && update(a.0, a.1) :: a.0
  }

  /** A row after the writes: `.eq('id', song_id)` rewrites every row with an updated id. */
  function ApplyRow(song: Record, done: set<string>): Record {
    var songId := Lookup(song, "id");
    if songId.Str? && songId.s in done then Put(song, "thumbnail_path", Str(CorrectPath(songId.s)))
    else song
  }

  /** The table after the writes. */
  function ApplyRows(rows: seq<Record>, done: set<string>): (rows': seq<Record>)
    ensures |rows'| == |rows|
  {
    if rows == [] then []
    else ApplyRows(rows[..|rows| - 1], done) + [ApplyRow(rows[|rows| - 1], done)]
  }

  /** A row that did not crash the loop is, after the writes, kept or skipped. */
  lemma ApplyRowSettled(song: Record, done: set<string>)
    requires StepOf(song) != Crash
    requires StepOf(song).Update? ==> StepOf(song).id in done
    ensures StepOf(ApplyRow(song, done)) == Skip || StepOf(ApplyRow(song, done)) == Keep
  {
    var songId := Lookup(song, "id");
    if songId.Str? && songId.s in done {
      var song' := ApplyRow(song, done);
      PutGet(song, "thumbnail_path", Str(CorrectPath(songId.s)), "id");
      PutGet(song, "thumbnail_path", Str(CorrectPath(songId.s)), "thumbnail_path");
      assert Lookup(song', "id") == songId;
      assert Lookup(song', "thumbnail_path") == Str(CorrectPath(songId.s));
    }
  }

  /** When the writes for every issued id took effect, a second pass issues nothing. */
  lemma {:induction false} SecondPassIssuesNothing(rows: seq<Record>, done: set<string>)
    requires !Attempts(rows).1
    requires forall a :: a in Attempts(rows).0 ==> a.0 in done
    ensures Attempts(ApplyRows(rows, done)) == ([], false)
  {
    if rows != [] {
      var prefix := rows[..|rows| - 1];
      var last := rows[|rows| - 1];
      var before := Attempts(prefix);
      assert !before.1;
      assert forall a :: a in before.0 ==> a in Attempts(rows).0;
      SecondPassIssuesNothing(prefix, done);
      assert StepOf(last) != Crash;
      assert StepOf(last).Update? ==> (StepOf(last).id, StepOf(last).path) in Attempts(rows).0;
      ApplyRowSettled(last, done);
      var applied := ApplyRows(rows, done);
      assert applied[..|applied| - 1] == ApplyRows(prefix, done);
    }
  }

  /** Re-running the script after all its writes succeeded updates nothing. */
  lemma Idempotent(songs: seq<Record>, update: (string, string) -> bool)
    requires !Attempts(songs).1
    requires forall a :: a in Attempts(songs).0 ==> update(a.0, a.1)
    ensures Attempts(ApplyRows(songs, UpdatedIds(Attempts(songs).0, update))) == ([], false)
  {
    var issued := Attempts(songs).0;
    var done := UpdatedIds(issued, update);
    assert forall a :: a in issued ==> a.0 in done;
    SecondPassIssuesNothing(songs, done);
  }
}
