/** A migration may be stopped anywhere and run again. */
module MigrationLaws {
  import opened Wrappers
  import opened Sequences
  import opened Migration

  // ----- one import loop -----

  function Imported<K(==, !new)>(rows: seq<Row<K>>, good: Raw -> bool, table: map<K, Raw>): (r: map<K, Raw>)
  {
    Put(table, Saves(rows, good, table))
  }

  /** Every entry of `a` is in `b`, unchanged. */
  ghost predicate Extends<K(!new), V(!new)>(b: map<K, V>, a: map<K, V>) {
    forall k :: k in a ==> k in b && b[k] == a[k]
  }

  /** Stopped after `n` saves and started again, a loop saves exactly what was left. */
  lemma {:induction false} SavesResume<K(!new)>(rows: seq<Row<K>>, good: Raw -> bool, table: map<K, Raw>, n: nat)
    requires n <= |Saves(rows, good, table)|
    ensures Saves(rows, good, Put(table, Saves(rows, good, table)[..n])) == Saves(rows, good, table)[n..]
    decreases |rows|
  {
    if rows != [] {
      var (row, saves) := (rows[0], Saves(rows, good, table));
      if row.0 in table || !good(row.1) {
        SavesResume(rows[1..], good, table, n);
        PutExtends(table, saves[..n], rows, good);
      } else if n > 0 {
        var table' := table[row.0 := row.1];
        SavesResume(rows[1..], good, table', n - 1);
        PutExtends(table', saves[1..n], rows[1..], good);
        assert saves[..n][1..] == saves[1..][..n - 1] == saves[1..n];
        assert Put(table, saves[..n]) == Put(table', saves[1..n]);
        assert row.0 in table' && row.0 in Put(table, saves[..n]);
        assert saves[n..] == saves[1..][n - 1..];
      } else {
        assert saves[..0] == [];
      }
    }
  }

  /** Saves never touch an entry that is there. */
  lemma {:induction false} PutExtends<K(!new)>(
      table: map<K, Raw>, saves: seq<Row<K>>, rows: seq<Row<K>>, good: Raw -> bool)
    requires saves <= Saves(rows, good, table)
    ensures Extends(Put(table, saves), table)
    decreases |rows|
  {
    if saves != [] {
      var row := rows[0];
      if row.0 in table || !good(row.1) {
        PutExtends(table, saves, rows[1..], good);
      } else {
        assert saves[1..] <= Saves(rows[1..], good, table[row.0 := row.1]);
        PutExtends(table[row.0 := row.1], saves[1..], rows[1..], good);
      }
    }
  }

  lemma {:induction false} PutAppend<K(!new)>(table: map<K, Raw>, a: seq<Row<K>>, b: seq<Row<K>>)
    ensures Put(table, a + b) == Put(Put(table, a), b)
    decreases |a|
  {
    if a == [] {
      assert a + b == b;
    } else {
      assert (a + b)[1..] == a[1..] + b;
      PutAppend(table[a[0].0 := a[0].1], a[1..], b);
    }
  }

  /** So stopping a loop and running it again imports what one run imports. */
  lemma {:induction false} ImportResumes<K(!new)>(rows: seq<Row<K>>, good: Raw -> bool, table: map<K, Raw>, n: nat)
    requires n <= |Saves(rows, good, table)|
    ensures Imported(rows, good, Put(table, Saves(rows, good, table)[..n])) == Imported(rows, good, table)
  {
    hide Saves, Put;
    var saves := Saves(rows, good, table);
    SavesResume(rows, good, table, n);
    PutAppend(table, saves[..n], saves[n..]);
    assert saves[..n] + saves[n..] == saves;
  }

  /**
   After a loop an id is in the table if it was there or a well-formed row has it, and its entry is
   the one that was there or comes from a well-formed row.
   */
  lemma {:induction false} ImportedAt<K(!new)>(rows: seq<Row<K>>, good: Raw -> bool, table: map<K, Raw>, k: K)
    ensures k in Imported(rows, good, table) <==> k in table || exists raw :: (k, raw) in rows && good(raw)
    ensures k in Imported(rows, good, table) ==>
      var raw := Imported(rows, good, table)[k];
      if k in table then raw == table[k] else (k, raw) in rows && good(raw)
    decreases |rows|
  {
    if rows != [] {
      var row := rows[0];
      assert rows == [row] + rows[1..];
      if row.0 in table || !good(row.1) {
        ImportedAt(rows[1..], good, table, k);
      } else {
        ImportedAt(rows[1..], good, table[row.0 := row.1], k);
        assert Imported(rows, good, table) == Imported(rows[1..], good, table[row.0 := row.1]);
      }
    }
  }

  // ----- a whole run -----

  ghost predicate SameKeystore(a: Disk, b: Disk) {
    a.identity == b.identity && a.sessions == b.sessions && a.prekeys == b.prekeys
  }

  lemma {:induction false} SessionWritesPrefix(saves: seq<Row<string>>, n: nat)
    requires n <= |saves|
    ensures AsSessionWrites(saves)[..n] == AsSessionWrites(saves[..n])
  {
    if n > 0 {
      SessionWritesPrefix(saves[1..], n - 1);
      assert saves[..n][1..] == saves[1..][..n - 1];
    }
  }

  lemma {:induction false} PrekeyWritesPrefix(saves: seq<Row<U16>>, n: nat)
    requires n <= |saves|
    ensures AsPrekeyWrites(saves)[..n] == AsPrekeyWrites(saves[..n])
  {
    if n > 0 {
      PrekeyWritesPrefix(saves[1..], n - 1);
      assert saves[..n][1..] == saves[1..][..n - 1];
    }
  }

  lemma {:induction false} AfterSomeSessions(disk: Disk, saves: seq<Row<string>>, n: nat)
    ensures ApplyAll(disk, Cut(AsSessionWrites(saves), n)) == disk.(sessions := Put(disk.sessions, Cut(saves, n)))
  {
    if n < |saves| {
      SessionWritesPrefix(saves, n);
    }
    AfterSessions(disk, Cut(saves, n));
  }

  lemma {:induction false} AfterSomePrekeys(disk: Disk, saves: seq<Row<U16>>, n: nat)
    ensures ApplyAll(disk, Cut(AsPrekeyWrites(saves), n)) == disk.(prekeys := Put(disk.prekeys, Cut(saves, n)))
  {
    if n < |saves| {
      PrekeyWritesPrefix(saves, n);
    }
    AfterPrekeys(disk, Cut(saves, n));
  }

  /** The disk after the identity is there: so many saves of each kind are done. */
  function Partly(
      codec: Codec, dir: Directory, disk: Disk, kp: Identity, a: nat, b: nat, legacy: Option<Raw>): (r: Disk)
  {
    Disk(
      Some(kp),
      Put(disk.sessions, Cut(SessionSaves(codec, dir, kp, disk.sessions), a)),
      Put(disk.prekeys, Cut(PrekeySaves(codec, dir, disk.prekeys), b)),
      legacy
    )
  }

  /** The legacy file goes with the first two writes, or not at all. */
  function LegacyAfter(disk: Disk, n: nat): (r: Option<Raw>)
  {
    if disk.identity.Some? || n < 2 then disk.legacy else None
  }

  /** Stopped right after the identity, with a legacy file still to be deleted. */
  lemma {:induction false} StoppedAtIdentity(codec: Codec, dir: Directory, disk: Disk, kp: Identity)
    requires dir.present && FindIdentity(codec, dir, disk) == Ok(kp)
    requires disk.identity.None? && disk.legacy.Some?
    ensures Stopped(codec, dir, disk, 1) == disk.(identity := Some(kp))
    ensures 1 < |Writes(codec, dir, disk)|
  {
    hide SessionSaves, PrekeySaves, AsSessionWrites, AsPrekeyWrites, Writes, Stopped, FindIdentity;
    Phases(codec, dir, disk, kp, 1);
    assert Cut(IdentityWrites(disk, kp), 1) == [SaveIdentity(kp)];
    assert [SaveIdentity(kp)][1..] == [];
  }

  lemma {:induction false} PutNothing<K(!new)>(table: map<K, Raw>, saves: seq<Row<K>>)
    ensures Put(table, Cut(saves, 0)) == table
  {
    assert Cut(saves, 0) == [];
  }

  /** Stopped later: so many sessions and prekeys are done. */
  lemma {:induction false} StoppedLater(codec: Codec, dir: Directory, disk: Disk, kp: Identity, n: nat)
    returns (a: nat, b: nat)
    requires dir.present && FindIdentity(codec, dir, disk) == Ok(kp)
    requires n >= |IdentityWrites(disk, kp)|
    ensures Stopped(codec, dir, disk, n) == Partly(codec, dir, disk, kp, a, b, LegacyLater(disk))
    ensures n >= |Writes(codec, dir, disk)| ==>
      a >= |SessionSaves(codec, dir, kp, disk.sessions)| && b >= |PrekeySaves(codec, dir, disk.prekeys)|
  {
    hide *;
    var first := IdentityWrites(disk, kp);
    var (sessions, prekeys) := (SessionSaves(codec, dir, kp, disk.sessions), PrekeySaves(codec, dir, disk.prekeys));
    Phases(codec, dir, disk, kp, n);
    FoundIsStored(codec, dir, disk, kp);
    AfterIdentity(disk, kp);
    var disk1 := ApplyAll(disk, first);
    a := n - |first|;
    b := if a < |sessions| then 0 else a - |sessions|;
    AfterSomeSessions(disk1, sessions, a);
    AfterSessions(disk1, sessions);
    AfterSomePrekeys(disk1.(sessions := Put(disk1.sessions, sessions)), prekeys, b);
    PartlyIs(codec, dir, disk, kp, a, b);
  }

  lemma {:induction false} FoundIsStored(codec: Codec, dir: Directory, disk: Disk, kp: Identity)
    requires FindIdentity(codec, dir, disk) == Ok(kp)
    ensures disk.identity.Some? ==> disk.identity.value == kp
  {
  }

  /** The legacy file goes with the first two writes. */
  function LegacyLater(disk: Disk): (r: Option<Raw>)
  {
    if disk.identity.Some? then disk.legacy else None
  }

  /** The same disk by phases: no prekeys before all the sessions. */
  lemma {:induction false} PartlyIs(codec: Codec, dir: Directory, disk: Disk, kp: Identity, a: nat, b: nat)
    requires a < |SessionSaves(codec, dir, kp, disk.sessions)| ==> b == 0
    ensures Partly(codec, dir, disk, kp, a, b, LegacyLater(disk)) ==
      var disk1 := disk.(identity := Some(kp), legacy := if disk.identity.Some? then disk.legacy else None);
      var (sessions, prekeys) := (SessionSaves(codec, dir, kp, disk.sessions), PrekeySaves(codec, dir, disk.prekeys));
      if a < |sessions| then disk1.(sessions := Put(disk.sessions, Cut(sessions, a)))
      else disk1.(sessions := Put(disk.sessions, sessions), prekeys := Put(disk.prekeys, Cut(prekeys, b)))
  {
    hide SessionSaves, PrekeySaves, Put;
    var (sessions, prekeys) := (SessionSaves(codec, dir, kp, disk.sessions), PrekeySaves(codec, dir, disk.prekeys));
    PutNothing(disk.prekeys, prekeys);
    assert a >= |sessions| ==> Cut(sessions, a) == sessions;
  }

  lemma {:induction false} StoppedIs(codec: Codec, dir: Directory, disk: Disk, kp: Identity, n: nat)
    returns (a: nat, b: nat)
    requires dir.present && FindIdentity(codec, dir, disk) == Ok(kp)
    requires n > 0 || disk.identity.Some?
    ensures Stopped(codec, dir, disk, n) == Partly(codec, dir, disk, kp, a, b, LegacyAfter(disk, n))
    ensures n >= |Writes(codec, dir, disk)| ==>
      a >= |SessionSaves(codec, dir, kp, disk.sessions)| && b >= |PrekeySaves(codec, dir, disk.prekeys)|
  {
    hide Stopped, Writes, FindIdentity, SessionSaves, PrekeySaves, Put;
    if disk.identity.None? && disk.legacy.Some? && n == 1 {
      StoppedAtIdentity(codec, dir, disk, kp);
      PutNothing(disk.sessions, SessionSaves(codec, dir, kp, disk.sessions));
      PutNothing(disk.prekeys, PrekeySaves(codec, dir, disk.prekeys));
      a, b := 0, 0;
    } else {
      a, b := StoppedLater(codec, dir, disk, kp, n);
    }
  }

  lemma {:induction false} CompletedIs(codec: Codec, dir: Directory, disk: Disk, kp: Identity)
    requires dir.present && FindIdentity(codec, dir, disk) == Ok(kp)
    ensures Completed(codec, dir, disk) == Disk(
      Some(kp),
      Put(disk.sessions, SessionSaves(codec, dir, kp, disk.sessions)),
      Put(disk.prekeys, PrekeySaves(codec, dir, disk.prekeys)),
      if disk.identity.Some? then disk.legacy else None)
  {
    hide *;
    var n := |Writes(codec, dir, disk)| + 2;
    CompletedIsStopped(codec, dir, disk, n);
    var a, b := StoppedIs(codec, dir, disk, kp, n);
    PartlyIsAll(codec, dir, disk, kp, a, b, n);
  }

  lemma {:induction false} CompletedIsStopped(codec: Codec, dir: Directory, disk: Disk, n: nat)
    requires n >= |Writes(codec, dir, disk)|
    ensures Completed(codec, dir, disk) == Stopped(codec, dir, disk, n)
  {
  }

  lemma {:induction false} PartlyIsAll(codec: Codec, dir: Directory, disk: Disk, kp: Identity, a: nat, b: nat, n: nat)
    requires a >= |SessionSaves(codec, dir, kp, disk.sessions)| && n >= 2
    requires b >= |PrekeySaves(codec, dir, disk.prekeys)|
    ensures Partly(codec, dir, disk, kp, a, b, LegacyAfter(disk, n)) == Disk(
      Some(kp),
      Put(disk.sessions, SessionSaves(codec, dir, kp, disk.sessions)),
      Put(disk.prekeys, PrekeySaves(codec, dir, disk.prekeys)),
      if disk.identity.Some? then disk.legacy else None)
  {
    hide SessionSaves, PrekeySaves, Put;
  }

  lemma {:induction false} SessionsResume(codec: Codec, dir: Directory, kp: Identity, table: map<string, Raw>, n: nat)
    ensures var table' := Put(table, Cut(SessionSaves(codec, dir, kp, table), n));
      Put(table', SessionSaves(codec, dir, kp, table')) == Put(table, SessionSaves(codec, dir, kp, table))
  {
    if dir.sessions.Some? {
      var saves := SessionSaves(codec, dir, kp, table);
      assert Cut(saves, n) == saves[..|Cut(saves, n)|];
      ImportResumes(dir.sessions.value, SessionGood(codec, kp), table, |Cut(saves, n)|);
    }
  }

  lemma {:induction false} PrekeysResume(codec: Codec, dir: Directory, table: map<U16, Raw>, n: nat)
    ensures var table' := Put(table, Cut(PrekeySaves(codec, dir, table), n));
      Put(table', PrekeySaves(codec, dir, table')) == Put(table, PrekeySaves(codec, dir, table))
  {
    if dir.sessions.Some? && dir.prekeys.Some? {
      var saves := PrekeySaves(codec, dir, table);
      assert Cut(saves, n) == saves[..|Cut(saves, n)|];
      ImportResumes(Parsed(dir.prekeys.value), codec.prekey, table, |Cut(saves, n)|);
    }
  }

  /**
   A run that was stopped after any number of writes, run again over the same listing, leaves the
   keystore of one uninterrupted run and answers the same. A legacy identity file is gone as well,
   unless the first run stopped between saving that identity and deleting the file.
   */
  lemma {:induction false} RerunCompletes(codec: Codec, dir: Directory, disk: Disk, n: nat)
    ensures Outcome(codec, dir, Stopped(codec, dir, disk, n)) == Outcome(codec, dir, disk)
    ensures SameKeystore(Completed(codec, dir, Stopped(codec, dir, disk, n)), Completed(codec, dir, disk))
    ensures Completed(codec, dir, Stopped(codec, dir, disk, n)).legacy ==
      if disk.identity.None? && n == 1 then Stopped(codec, dir, disk, n).legacy else Completed(codec, dir, disk).legacy
  {
    var found := FindIdentity(codec, dir, disk);
    if !dir.present || found.Err? || (n == 0 && disk.identity.None?) {
      assert Stopped(codec, dir, disk, n) == disk;
      return;
    }
    var kp := found.value;
    var a, b := StoppedIs(codec, dir, disk, kp, n);
    var stopped := Stopped(codec, dir, disk, n);
    assert FindIdentity(codec, dir, stopped) == Ok(kp);
    hide Stopped, Completed, SessionSaves, PrekeySaves, Put, FindIdentity, Parsed;
    CompletedIs(codec, dir, disk, kp);
    CompletedIs(codec, dir, stopped, kp);
    SessionsResume(codec, dir, kp, disk.sessions, a);
    PrekeysResume(codec, dir, disk.prekeys, b);
  }

  /** One listing of the directory, and the number of writes the run over it gets through. */
  type Attempt = (Directory, nat)

  function Attempts(codec: Codec, disk: Disk, attempts: seq<Attempt>): (r: Disk)
    decreases |attempts|
  {
    if attempts == [] then disk
    else Attempts(codec, Stopped(codec, attempts[0].0, disk, attempts[0].1), attempts[1..])
  }

  /** Any number of runs over one listing, each stopped anywhere, and then one that is not stopped. */
  lemma {:induction false} MigrationIsRestartable(codec: Codec, dir: Directory, disk: Disk, attempts: seq<Attempt>)
    requires forall i :: 0 <= i < |attempts| ==> attempts[i].0 == dir
    ensures Outcome(codec, dir, Attempts(codec, disk, attempts)) == Outcome(codec, dir, disk)
    ensures SameKeystore(Completed(codec, dir, Attempts(codec, disk, attempts)), Completed(codec, dir, disk))
    decreases |attempts|
  {
    hide Stopped, Completed, Outcome;
    if attempts != [] {
      MigrationIsRestartable(codec, dir, Stopped(codec, dir, disk, attempts[0].1), attempts[1..]);
      RerunCompletes(codec, dir, disk, attempts[0].1);
    }
  }

  ghost predicate KeepsEntries(before: Disk, after: Disk) {
    && (before.identity.Some? ==> after.identity == before.identity)
    && Extends(after.sessions, before.sessions)
    && Extends(after.prekeys, before.prekeys)
  }

  lemma {:induction false} SessionsKept(codec: Codec, dir: Directory, kp: Identity, table: map<string, Raw>, n: nat)
    ensures Extends(Put(table, Cut(SessionSaves(codec, dir, kp, table), n)), table)
  {
    if dir.sessions.Some? {
      PutExtends(table, Cut(SessionSaves(codec, dir, kp, table), n), dir.sessions.value, SessionGood(codec, kp));
    }
  }

  lemma {:induction false} PrekeysKept(codec: Codec, dir: Directory, table: map<U16, Raw>, n: nat)
    ensures Extends(Put(table, Cut(PrekeySaves(codec, dir, table), n)), table)
  {
    if dir.sessions.Some? && dir.prekeys.Some? {
      PutExtends(table, Cut(PrekeySaves(codec, dir, table), n), Parsed(dir.prekeys.value), codec.prekey);
    }
  }

  /** Wherever a run ends, no identity, session or prekey that was there has changed. */
  lemma {:induction false} StoppedKeepsEntries(codec: Codec, dir: Directory, disk: Disk, n: nat)
    ensures KeepsEntries(disk, Stopped(codec, dir, disk, n))
  {
    var found := FindIdentity(codec, dir, disk);
    if !dir.present || found.Err? || (n == 0 && disk.identity.None?) {
      assert Stopped(codec, dir, disk, n) == disk;
      return;
    }
    var a, b := StoppedIs(codec, dir, disk, found.value, n);
    hide Stopped, SessionSaves, PrekeySaves, Put;
    SessionsKept(codec, dir, found.value, disk.sessions, a);
    PrekeysKept(codec, dir, disk.prekeys, b);
  }

  lemma {:induction false} AttemptsKeepEntries(codec: Codec, disk: Disk, attempts: seq<Attempt>)
    ensures KeepsEntries(disk, Attempts(codec, disk, attempts))
    decreases |attempts|
  {
    if attempts != [] {
      hide Stopped;
      var (dir, n) := attempts[0];
      StoppedKeepsEntries(codec, dir, disk, n);
      AttemptsKeepEntries(codec, Stopped(codec, dir, disk, n), attempts[1..]);
    }
  }
}
