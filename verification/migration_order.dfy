/** When the order in which a migration lists its directory makes no difference. */
module MigrationOrder {
  import opened Wrappers
  import opened Sequences
  import opened Migration
  import opened MigrationLaws

  // ----- one import loop -----

  ghost predicate SameRows<K(!new)>(a: seq<Row<K>>, b: seq<Row<K>>) {
    forall row :: row in a <==> row in b
  }

  /** No id that is still to be imported has two different well-formed rows. */
  ghost predicate NoConflict<K(!new)>(rows: seq<Row<K>>, good: Raw -> bool, table: map<K, Raw>) {
    forall x, y :: x in rows && y in rows && x.0 == y.0 && x.0 !in table && good(x.1) && good(y.1) ==> x == y
  }

  /** The same rows in another order, started from any stage of the first import, lead to the same end. */
  lemma {:induction false} ImportInAnyOrder<K(!new)>(
      rows: seq<Row<K>>, rows': seq<Row<K>>, good: Raw -> bool, table: map<K, Raw>, mid: map<K, Raw>)
    requires SameRows(rows, rows') && NoConflict(rows, good, table)
    requires Extends(mid, table) && Extends(Imported(rows, good, table), mid)
    ensures Imported(rows', good, mid) == Imported(rows, good, table)
  {
    var (end, end') := (Imported(rows, good, table), Imported(rows', good, mid));
    hide Imported;
    forall k
      ensures k in end <==> k in end'
      ensures k in end ==> end'[k] == end[k]
    {
      ImportedAt(rows, good, table, k);
      ImportedAt(rows', good, mid, k);
      if k in end && k in end' && k !in mid {
        assert (k, end[k]) in rows && (k, end'[k]) in rows;
      }
    }
  }

  lemma {:induction false} ImportExtends<K(!new)>(rows: seq<Row<K>>, good: Raw -> bool, table: map<K, Raw>)
    ensures Extends(Imported(rows, good, table), table)
  {
    PutExtends(table, Saves(rows, good, table), rows, good);
  }

  /** A stopped import is a stage between the start and the end. */
  lemma {:induction false} StoppedImportIsBetween<K(!new)>(
      rows: seq<Row<K>>, good: Raw -> bool, table: map<K, Raw>, n: nat)
    ensures var mid := Put(table, Cut(Saves(rows, good, table), n));
      Extends(mid, table) && Extends(Imported(rows, good, table), mid)
  {
    var saves := Saves(rows, good, table);
    PutExtends(table, Cut(saves, n), rows, good);
    assert Cut(saves, n) == saves[..|Cut(saves, n)|];
    ImportResumes(rows, good, table, |Cut(saves, n)|);
    ImportExtends(rows, good, Put(table, Cut(saves, n)));
  }

  function ToFront<T>(s: seq<T>, i: nat): (r: seq<T>)
    requires i < |s|
    ensures multiset(r) == multiset(s)
  {
    assert s == s[..i] + [s[i]] + s[i + 1..];
    [s[i]] + (s[..i] + s[i + 1..])
  }

  /** A well-formed row that comes first is the one that is imported. */
  lemma {:induction false} FirstRowWins<K(!new)>(row: Row<K>, rest: seq<Row<K>>, good: Raw -> bool, table: map<K, Raw>)
    requires row.0 !in table && good(row.1)
    ensures row.0 in Imported([row] + rest, good, table) && Imported([row] + rest, good, table)[row.0] == row.1
  {
    assert ([row] + rest)[1..] == rest;
    var table' := table[row.0 := row.1];
    assert Saves([row] + rest, good, table)[1..] == Saves(rest, good, table');
    ImportExtends(rest, good, table');
  }

  lemma {:induction false} ConflictMatters<K(!new)>(
      rows: seq<Row<K>>, good: Raw -> bool, table: map<K, Raw>)
    returns (rows': seq<Row<K>>)
    requires !NoConflict(rows, good, table)
    ensures multiset(rows') == multiset(rows) && Imported(rows', good, table) != Imported(rows, good, table)
  {
    var x, y :| x in rows && y in rows && x.0 == y.0 && x.0 !in table && good(x.1) && good(y.1) && x != y;
    var i :| 0 <= i < |rows| && rows[i] == x;
    var j :| 0 <= j < |rows| && rows[j] == y;
    hide Imported;
    FirstRowWins(x, rows[..i] + rows[i + 1..], good, table);
    FirstRowWins(y, rows[..j] + rows[j + 1..], good, table);
    var moved := Imported(ToFront(rows, i), good, table) != Imported(rows, good, table);
    rows' := if moved then ToFront(rows, i) else ToFront(rows, j);
  }

  lemma {:induction false} SameMultisetSameRows<K(!new)>(a: seq<Row<K>>, b: seq<Row<K>>)
    requires multiset(a) == multiset(b)
    ensures SameRows(a, b)
  {
    forall row
      ensures row in a <==> row in b
    {
      assert row in a <==> row in multiset(a);
      assert row in b <==> row in multiset(b);
    }
  }

  // ----- prekey files -----

  ghost predicate Importable(file: Row<string>, good: Raw -> bool, table: map<U16, Raw>) {
    ParseU16(file.0).Some? && ParseU16(file.0).value !in table && good(file.1)
  }

  /** Every name is a prekey id, or there is nothing to import; and no id has two different prekeys to import. */
  ghost predicate PrekeysOrderFree(files: seq<Row<string>>, good: Raw -> bool, table: map<U16, Raw>) {
    && (|| (forall file :: file in files ==> ParseU16(file.0).Some?)
        || (forall file :: file in files ==> !Importable(file, good, table)))
    && (forall f, g ::
          && f in files && g in files && Importable(f, good, table) && Importable(g, good, table)
          && ParseU16(f.0) == ParseU16(g.0)
          ==> f.1 == g.1)
  }

  lemma {:induction false} ParsedRows(files: seq<Row<string>>, row: Row<U16>)
    ensures row in Parsed(files) ==> exists name :: (name, row.1) in files && ParseU16(name) == Some(row.0)
    ensures (forall file :: file in files ==> ParseU16(file.0).Some?) ==>
      (row in Parsed(files) <==> exists name :: (name, row.1) in files && ParseU16(name) == Some(row.0))
  {
    hide ParseU16;
    if files != [] && ParseU16(files[0].0).Some? {
      ParsedRows(files[1..], row);
      assert files == [files[0]] + files[1..];
    } else if files != [] {
      assert files[0] in files;
    }
  }

  lemma {:induction false} PrekeysInAnyOrder(
      files: seq<Row<string>>, files': seq<Row<string>>, good: Raw -> bool, table: map<U16, Raw>, mid: map<U16, Raw>)
    requires SameRows(files, files') && PrekeysOrderFree(files, good, table)
    requires Extends(mid, table) && Extends(Imported(Parsed(files), good, table), mid)
    ensures Imported(Parsed(files'), good, mid) == Imported(Parsed(files), good, table)
  {
    var (end, end') := (Imported(Parsed(files), good, table), Imported(Parsed(files'), good, mid));
    hide Imported, Parsed, ParseU16;
    forall k
      ensures k in end <==> k in end'
      ensures k in end ==> end'[k] == end[k]
    {
      ImportedAt(Parsed(files), good, table, k);
      ImportedAt(Parsed(files'), good, mid, k);
      if k in end && k !in mid {
        PrekeyInAnyOrder(files, files', good, table, k, end[k]);
      }
      if k in end' && k !in mid {
        PrekeyInAnyOrder(files', files, good, table, k, end'[k]);
      }
      if k in end && k in end' && k !in mid {
        ParsedRows(files, (k, end[k]));
        ParsedRows(files', (k, end'[k]));
      }
    }
  }

  /** A prekey imported in one order is there to import in the other. */
  lemma {:induction false} PrekeyInAnyOrder(
      files: seq<Row<string>>, files': seq<Row<string>>, good: Raw -> bool, table: map<U16, Raw>, k: U16, raw: Raw)
    requires SameRows(files, files') && PrekeysOrderFree(files, good, table)
    requires (k, raw) in Parsed(files) && good(raw) && k !in table
    ensures (k, raw) in Parsed(files')
  {
    hide ParseU16, Parsed;
    ParsedRows(files, (k, raw));
    ParsedRows(files', (k, raw));
    var name :| (name, raw) in files && ParseU16(name) == Some(k);
    assert Importable((name, raw), good, table);
  }

  lemma {:induction false} FirstPrekeyWins(files: seq<Row<string>>, i: nat, good: Raw -> bool, table: map<U16, Raw>)
    requires i < |files| && Importable(files[i], good, table)
    ensures var (end, id) := (Imported(Parsed(ToFront(files, i)), good, table), ParseU16(files[i].0).value);
      id in end && end[id] == files[i].1
  {
    var (id, rest) := (ParseU16(files[i].0).value, files[..i] + files[i + 1..]);
    hide ParseU16, Imported;
    assert ToFront(files, i)[1..] == rest;
    assert Parsed(ToFront(files, i)) == [(id, files[i].1)] + Parsed(rest);
    FirstRowWins((id, files[i].1), Parsed(rest), good, table);
  }

  lemma {:induction false} PrekeyOrderMatters(files: seq<Row<string>>, good: Raw -> bool, table: map<U16, Raw>)
      returns (files': seq<Row<string>>)
    requires !PrekeysOrderFree(files, good, table)
    ensures multiset(files') == multiset(files)
    ensures Imported(Parsed(files'), good, table) != Imported(Parsed(files), good, table)
  {
    var i, j := PrekeyWitnesses(files, good, table);
    var end := Imported(Parsed(files), good, table);
    files' := if Imported(Parsed(ToFront(files, i)), good, table) != end then ToFront(files, i) else ToFront(files, j);
  }

  /** Two files that lead to different ends when they come first. */
  lemma {:induction false} PrekeyWitnesses(
      files: seq<Row<string>>, good: Raw -> bool, table: map<U16, Raw>) returns (i: nat, j: nat)
    requires !PrekeysOrderFree(files, good, table)
    ensures i < |files| && j < |files|
    ensures Imported(Parsed(ToFront(files, i)), good, table) != Imported(Parsed(ToFront(files, j)), good, table)
  {
    if f, g :| f in files && g in files && Importable(f, good, table) && Importable(g, good, table)
               && ParseU16(f.0) == ParseU16(g.0) && f.1 != g.1 {
      i :| i < |files| && files[i] == f;
      j :| j < |files| && files[j] == g;
      hide Imported, Parsed, ParseU16, ToFront;
      FirstPrekeyWins(files, i, good, table);
      FirstPrekeyWins(files, j, good, table);
    } else {
      var f :| f in files && ParseU16(f.0).None?;
      var g :| g in files && Importable(g, good, table);
      i :| i < |files| && files[i] == f;
      j :| j < |files| && files[j] == g;
      assert Parsed(ToFront(files, i)) == [];
      hide Parsed, ParseU16, ToFront;
      FirstPrekeyWins(files, j, good, table);
    }
  }

  // ----- whole runs -----

  ghost predicate SameListing(a: Option<seq<Row<string>>>, b: Option<seq<Row<string>>>) {
    a.Some? == b.Some? && (a.Some? ==> multiset(a.value) == multiset(b.value))
  }

  /** Two listings of one directory. */
  ghost predicate SameDirectory(a: Directory, b: Directory) {
    && a.present == b.present && a.local == b.local
    && SameListing(a.sessions, b.sessions) && SameListing(a.prekeys, b.prekeys)
  }

  /** Whether the order of the listing can make no difference to what ends up in the keystore. */
  ghost predicate OrderFree(codec: Codec, dir: Directory, disk: Disk) {
    dir.present && dir.sessions.Some? && FindIdentity(codec, dir, disk).Ok? ==>
      && NoConflict(dir.sessions.value, SessionGood(codec, FindIdentity(codec, dir, disk).value), disk.sessions)
      && (dir.prekeys.Some? ==> PrekeysOrderFree(dir.prekeys.value, codec.prekey, disk.prekeys))
  }

  /** `mid` is a stage of the migration of `disk` from this directory. */
  ghost predicate Between(codec: Codec, dir: Directory, disk: Disk, mid: Disk) {
    && (mid == disk || mid.identity == Completed(codec, dir, disk).identity)
    && FindIdentity(codec, dir, mid) == FindIdentity(codec, dir, disk)
    && Extends(mid.sessions, disk.sessions) && Extends(Completed(codec, dir, disk).sessions, mid.sessions)
    && Extends(mid.prekeys, disk.prekeys) && Extends(Completed(codec, dir, disk).prekeys, mid.prekeys)
  }

  function SessionsEnd(codec: Codec, dir: Directory, kp: Identity, table: map<string, Raw>): (r: map<string, Raw>)
  {
    Put(table, SessionSaves(codec, dir, kp, table))
  }

  function PrekeysEnd(codec: Codec, dir: Directory, table: map<U16, Raw>): (r: map<U16, Raw>)
  {
    Put(table, PrekeySaves(codec, dir, table))
  }

  lemma {:induction false} SessionsEndInAnyOrder(
      codec: Codec, dir: Directory, dir': Directory, kp: Identity, table: map<string, Raw>, mid: map<string, Raw>)
    requires SameListing(dir.sessions, dir'.sessions)
    requires dir.sessions.Some? ==> NoConflict(dir.sessions.value, SessionGood(codec, kp), table)
    requires Extends(mid, table) && Extends(SessionsEnd(codec, dir, kp, table), mid)
    ensures SessionsEnd(codec, dir', kp, mid) == SessionsEnd(codec, dir, kp, table)
  {
    if dir.sessions.Some? {
      SameMultisetSameRows(dir.sessions.value, dir'.sessions.value);
      ImportInAnyOrder(dir.sessions.value, dir'.sessions.value, SessionGood(codec, kp), table, mid);
    } else {
      ExtendEachOther(table, mid);
    }
  }

  lemma {:induction false} PrekeysEndInAnyOrder(
      codec: Codec, dir: Directory, dir': Directory, table: map<U16, Raw>, mid: map<U16, Raw>)
    requires SameListing(dir.sessions, dir'.sessions) && SameListing(dir.prekeys, dir'.prekeys)
    requires dir.sessions.Some? && dir.prekeys.Some? ==> PrekeysOrderFree(dir.prekeys.value, codec.prekey, table)
    requires Extends(mid, table) && Extends(PrekeysEnd(codec, dir, table), mid)
    ensures PrekeysEnd(codec, dir', mid) == PrekeysEnd(codec, dir, table)
  {
    if dir.sessions.Some? && dir.prekeys.Some? {
      SameMultisetSameRows(dir.prekeys.value, dir'.prekeys.value);
      hide PrekeysOrderFree, Parsed;
      PrekeysInAnyOrder(dir.prekeys.value, dir'.prekeys.value, codec.prekey, table, mid);
    } else {
      ExtendEachOther(table, mid);
    }
  }

  lemma {:induction false} ExtendEachOther<K(!new), V(!new)>(a: map<K, V>, b: map<K, V>)
    requires Extends(a, b) && Extends(b, a)
    ensures a == b
  {
  }

  lemma {:induction false} CompletedKeystore(codec: Codec, dir: Directory, disk: Disk, kp: Identity)
    requires dir.present && FindIdentity(codec, dir, disk) == Ok(kp)
    ensures Completed(codec, dir, disk).identity == Some(kp)
    ensures Completed(codec, dir, disk).sessions == SessionsEnd(codec, dir, kp, disk.sessions)
    ensures Completed(codec, dir, disk).prekeys == PrekeysEnd(codec, dir, disk.prekeys)
  {
    hide Completed, FindIdentity, SessionSaves, PrekeySaves, Put;
    CompletedIs(codec, dir, disk, kp);
  }

  lemma {:induction false} NothingHappens(codec: Codec, dir: Directory, dir': Directory, disk: Disk, mid: Disk)
    requires SameDirectory(dir, dir') && Between(codec, dir, disk, mid)
    requires !dir.present || FindIdentity(codec, dir, disk).Err?
    ensures SameKeystore(Completed(codec, dir', mid), Completed(codec, dir, disk))
  {
    assert Completed(codec, dir, disk) == disk && Completed(codec, dir', mid) == mid;
    ExtendEachOther(mid.sessions, disk.sessions);
    ExtendEachOther(mid.prekeys, disk.prekeys);
  }

  /** From any stage, over any listing of the directory, a run that is not stopped reaches the same end. */
  lemma {:induction false} SameEnd(codec: Codec, dir: Directory, dir': Directory, disk: Disk, mid: Disk)
    requires OrderFree(codec, dir, disk) && SameDirectory(dir, dir') && Between(codec, dir, disk, mid)
    ensures SameKeystore(Completed(codec, dir', mid), Completed(codec, dir, disk))
  {
    var found := FindIdentity(codec, dir, disk);
    if !dir.present || found.Err? {
      NothingHappens(codec, dir, dir', disk, mid);
    } else {
      assert SessionsEnd(codec, dir, found.value, disk.sessions) == Completed(codec, dir, disk).sessions
        && PrekeysEnd(codec, dir, disk.prekeys) == Completed(codec, dir, disk).prekeys by {
        CompletedKeystore(codec, dir, disk, found.value);
      }
      hide Completed, SessionsEnd, PrekeysEnd, NoConflict, PrekeysOrderFree, Extends, FindIdentity;
      CompletedKeystore(codec, dir, disk, found.value);
      CompletedKeystore(codec, dir', mid, found.value);
      SessionsEndInAnyOrder(codec, dir, dir', found.value, disk.sessions, mid.sessions);
      PrekeysEndInAnyOrder(codec, dir, dir', disk.prekeys, mid.prekeys);
    }
  }

  lemma {:induction false} SessionsStage(codec: Codec, dir: Directory, kp: Identity, table: map<string, Raw>, n: nat)
    ensures var mid := Put(table, Cut(SessionSaves(codec, dir, kp, table), n));
      Extends(mid, table) && Extends(SessionsEnd(codec, dir, kp, table), mid)
  {
    if dir.sessions.Some? {
      StoppedImportIsBetween(dir.sessions.value, SessionGood(codec, kp), table, n);
    }
  }

  lemma {:induction false} PrekeysStage(codec: Codec, dir: Directory, table: map<U16, Raw>, n: nat)
    ensures var mid := Put(table, Cut(PrekeySaves(codec, dir, table), n));
      Extends(mid, table) && Extends(PrekeysEnd(codec, dir, table), mid)
  {
    if dir.sessions.Some? && dir.prekeys.Some? {
      StoppedImportIsBetween(Parsed(dir.prekeys.value), codec.prekey, table, n);
    }
  }

  lemma {:induction false} ExtendsTransitive<K(!new), V(!new)>(a: map<K, V>, b: map<K, V>, c: map<K, V>)
    requires Extends(a, b) && Extends(b, c)
    ensures Extends(a, c)
  {
  }

  /** Stopping over any listing leads from one stage to another. */
  lemma {:induction false} StoppedIsBetween(
      codec: Codec, dir: Directory, dir': Directory, disk: Disk, mid: Disk, n: nat)
    requires OrderFree(codec, dir, disk) && SameDirectory(dir, dir') && Between(codec, dir, disk, mid)
    ensures Between(codec, dir, disk, Stopped(codec, dir', mid, n))
  {
    var found := FindIdentity(codec, dir, disk);
    if !dir.present || found.Err? || (n == 0 && mid.identity.None?) {
      assert FindIdentity(codec, dir', mid) == found;
      assert Stopped(codec, dir', mid, n) == mid;
      return;
    }
    var (kp, stopped) := (found.value, Stopped(codec, dir', mid, n));
    assert FindIdentity(codec, dir', mid) == found;
    SameEnd(codec, dir, dir', disk, mid);
    var a, b := StoppedIs(codec, dir', mid, kp, n);
    hide Completed, Stopped, SessionSaves, PrekeySaves, SessionsEnd, PrekeysEnd, Extends, Put, OrderFree, SameDirectory;
    CompletedKeystore(codec, dir, disk, kp);
    CompletedKeystore(codec, dir', mid, kp);
    SessionsStage(codec, dir', kp, mid.sessions, a);
    PrekeysStage(codec, dir', mid.prekeys, b);
    ExtendsTransitive(stopped.sessions, mid.sessions, disk.sessions);
    ExtendsTransitive(stopped.prekeys, mid.prekeys, disk.prekeys);
  }

  lemma {:induction false} AttemptsAreBetween(
      codec: Codec, dir: Directory, disk: Disk, mid: Disk, attempts: seq<Attempt>)
    requires OrderFree(codec, dir, disk) && Between(codec, dir, disk, mid)
    requires forall i :: 0 <= i < |attempts| ==> SameDirectory(dir, attempts[i].0)
    ensures Between(codec, dir, disk, Attempts(codec, mid, attempts))
    decreases |attempts|
  {
    hide OrderFree, Between, SameDirectory, Stopped;
    if attempts != [] {
      var (dir', n) := attempts[0];
      StoppedIsBetween(codec, dir, dir', disk, mid, n);
      AttemptsAreBetween(codec, dir, disk, Stopped(codec, dir', mid, n), attempts[1..]);
    }
  }

  lemma {:induction false} StartIsBetween(codec: Codec, dir: Directory, disk: Disk)
    ensures Between(codec, dir, disk, disk)
  {
    if dir.present && FindIdentity(codec, dir, disk).Ok? {
      var kp := FindIdentity(codec, dir, disk).value;
      CompletedKeystore(codec, dir, disk, kp);
      hide Completed, FindIdentity, Put, SessionSaves, PrekeySaves;
      SessionsStage(codec, dir, kp, disk.sessions, 0);
      PrekeysStage(codec, dir, disk.prekeys, 0);
      PutNothing(disk.sessions, SessionSaves(codec, dir, kp, disk.sessions));
      PutNothing(disk.prekeys, PrekeySaves(codec, dir, disk.prekeys));
    }
  }

  /** Every run may list the directory in its own order and stop anywhere: the last one ends as one run would have. */
  lemma {:induction false} RestartableInAnyOrder(
      codec: Codec, dir: Directory, dir': Directory, disk: Disk, attempts: seq<Attempt>)
    requires OrderFree(codec, dir, disk) && SameDirectory(dir, dir')
    requires forall i :: 0 <= i < |attempts| ==> SameDirectory(dir, attempts[i].0)
    ensures SameKeystore(Completed(codec, dir', Attempts(codec, disk, attempts)), Completed(codec, dir, disk))
  {
    hide *;
    StartIsBetween(codec, dir, disk);
    AttemptsAreBetween(codec, dir, disk, disk, attempts);
    SameEnd(codec, dir, dir', disk, Attempts(codec, disk, attempts));
  }

  lemma {:induction false} SessionOrderMatters(
      codec: Codec, dir: Directory, disk: Disk, kp: Identity) returns (dir': Directory)
    requires dir.present && dir.sessions.Some? && FindIdentity(codec, dir, disk) == Ok(kp)
    requires !NoConflict(dir.sessions.value, SessionGood(codec, kp), disk.sessions)
    ensures SameDirectory(dir, dir') && Completed(codec, dir', disk).sessions != Completed(codec, dir, disk).sessions
  {
    var files' := ConflictMatters(dir.sessions.value, SessionGood(codec, kp), disk.sessions);
    dir' := dir.(sessions := Some(files'));
    assert FindIdentity(codec, dir', disk) == Ok(kp);
    hide Completed, Saves, Put, NoConflict, FindIdentity;
    CompletedKeystore(codec, dir, disk, kp);
    CompletedKeystore(codec, dir', disk, kp);
  }

  lemma {:induction false} PrekeyFileOrderMatters(
      codec: Codec, dir: Directory, disk: Disk, kp: Identity) returns (dir': Directory)
    requires dir.present && dir.sessions.Some? && dir.prekeys.Some? && FindIdentity(codec, dir, disk) == Ok(kp)
    requires !PrekeysOrderFree(dir.prekeys.value, codec.prekey, disk.prekeys)
    ensures SameDirectory(dir, dir') && Completed(codec, dir', disk).prekeys != Completed(codec, dir, disk).prekeys
  {
    hide Completed, Saves, Put, Parsed, PrekeysOrderFree;
    var files' := PrekeyOrderMatters(dir.prekeys.value, codec.prekey, disk.prekeys);
    dir' := dir.(prekeys := Some(files'));
    assert FindIdentity(codec, dir', disk) == Ok(kp);
    hide FindIdentity;
    CompletedKeystore(codec, dir, disk, kp);
    CompletedKeystore(codec, dir', disk, kp);
  }

  lemma {:induction false} OrderMatters(codec: Codec, dir: Directory, disk: Disk) returns (dir': Directory)
    requires !OrderFree(codec, dir, disk)
    ensures SameDirectory(dir, dir') && !SameKeystore(Completed(codec, dir', disk), Completed(codec, dir, disk))
  {
    hide Completed, NoConflict, PrekeysOrderFree, FindIdentity, SameDirectory;
    var kp := FindIdentity(codec, dir, disk).value;
    if !NoConflict(dir.sessions.value, SessionGood(codec, kp), disk.sessions) {
      dir' := SessionOrderMatters(codec, dir, disk, kp);
    } else {
      dir' := PrekeyFileOrderMatters(codec, dir, disk, kp);
    }
  }

  /** The order of the listing makes no difference exactly when `OrderFree` holds. */
  lemma {:induction false} OrderIndependence(codec: Codec, dir: Directory, disk: Disk)
    ensures OrderFree(codec, dir, disk) <==>
      forall dir' :: SameDirectory(dir, dir') ==>
        SameKeystore(Completed(codec, dir', disk), Completed(codec, dir, disk))
  {
    hide *;
    if OrderFree(codec, dir, disk) {
      forall dir' | SameDirectory(dir, dir')
        ensures SameKeystore(Completed(codec, dir', disk), Completed(codec, dir, disk))
      {
        StartIsBetween(codec, dir, disk);
        SameEnd(codec, dir, dir', disk, disk);
      }
    } else {
      var dir' := OrderMatters(codec, dir, disk);
    }
  }

  /** Two file names can be one prekey id. */
  lemma {:induction false} TwoNamesForOnePrekey()
    ensures ParseU16("7") == Some(7) && ParseU16("007") == Some(7) && ParseU16("+7") == Some(7)
    ensures ParseU16("65535") == Some(65535) && ParseU16("65536") == None
    ensures ParseU16("+") == None && ParseU16(".DS_Store") == None
  {
    assert ParseDigits("7") == Some(7) by { assert "7"[..0] == ""; }
    assert "007"[..2] == "00" && "00"[..1] == "0" && "0"[..0] == "";
    assert ParseDigits("0") == Some(0);
    assert ParseDigits("00") == Some(0);
    assert "+7"[1..] == "7" && "+"[1..] == "";
    assert "65535"[..4] == "6553" && "65536"[..4] == "6553" && "6553"[..3] == "655";
    assert "655"[..2] == "65" && "65"[..1] == "6" && "6"[..0] == "";
    assert ParseDigits("6") == Some(6);
    assert ParseDigits("65") == Some(65);
    assert ParseDigits("655") == Some(655);
    assert ParseDigits("6553") == Some(6553);
  }
}
