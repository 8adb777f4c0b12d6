/**
 Cryptobox migration (crypto/src/proteus.rs, `cryptobox_migrate_impl`): the identity, the sessions
 and the prekeys of an old directory are imported into the keystore, skipping what is there already.

 A run is described by the list of writes it makes; a run that is interrupted, or whose write
 fails, makes only the first few of them.
 */
module Migration {
  import opened Wrappers
  import opened Sequences

  type Identity(==, !new)
  type Raw(==, !new)
  newtype U16 = x: int | 0 <= x < 0x1_0000

  /** A row to import. */
  type Row<K> = (K, Raw)

  datatype LocalIdentity = Sec(kp: Identity) | Pub

  /** Deserialisation: which bytes are well formed. */
  datatype Codec = Codec(
    identity: Raw -> Option<Identity>,
    local: Raw -> Option<LocalIdentity>,
    session: (Identity, Raw) -> bool,
    prekey: Raw -> bool
  )

  /** The directory as one run lists it. `None` for a folder or file that is not there. */
  datatype Directory = Directory(
    present: bool,
    local: Option<Raw>,
    sessions: Option<seq<Row<string>>>,
    prekeys: Option<seq<Row<string>>>
  )

  /** What outlives a run: the keystore, and the legacy identity file that a run may delete. */
  datatype Disk = Disk(
    identity: Option<Identity>,
    sessions: map<string, Raw>,
    prekeys: map<U16, Raw>,
    legacy: Option<Raw>
  )

  datatype Write =
    | SaveIdentity(kp: Identity)
    | RemoveLegacy
    | SaveSession(name: string, session: Raw)
    | SavePrekey(id: U16, prekey: Raw)

  datatype MigrationError =
    ProvidedPathDoesNotExist | IdentityNotFound | ProteusError | IoError | ParseIntError | WriteFailed

  // ----- file names as prekey ids -----

  function DigitValue(c: char): (d: Option<nat>)
    ensures d.Some? ==> d.value < 10
  {
    if '0' <= c <= '9' then Some(c as int - '0' as int) else None
  }

  function ParseDigits(s: string): (v: Option<nat>)
    ensures v.Some? ==> v.value < 0x1_0000
  {
    if s == "" then Some(0)
    else
      var (high, low) := (ParseDigits(s[..|s| - 1]), DigitValue(s[|s| - 1]));
      if high.Some? && low.Some? && high.value * 10 + low.value < 0x1_0000 then Some(high.value * 10 + low.value)
      else None
  }

  /** `u16::from_str`: an optional plus sign and decimal digits, leading zeros included. */
  function ParseU16(s: string): (v: Option<U16>)
  {
    var digits := if s != "" && s[0] == '+' then s[1..] else s;
    if digits == "" || ParseDigits(digits).None? then None else Some(ParseDigits(digits).value as U16)
  }

  /** The prekey files up to the first one whose name is not a prekey id. */
  function Parsed(files: seq<Row<string>>): (rows: seq<Row<U16>>)
    ensures |rows| <= |files|
  {
    if files == [] || ParseU16(files[0].0).None? then []
    else [(ParseU16(files[0].0).value, files[0].1)] + Parsed(files[1..])
  }

  // ----- one import loop -----

  /** The rows a loop saves: well formed, and not in the table when their turn comes. */
  function Saves<K(==, !new)>(rows: seq<Row<K>>, good: Raw -> bool, table: map<K, Raw>): (saves: seq<Row<K>>)
  {
    if rows == [] then []
    else if rows[0].0 in table || !good(rows[0].1) then Saves(rows[1..], good, table)
    else [rows[0]] + Saves(rows[1..], good, table[rows[0].0 := rows[0].1])
  }

  function Put<K(==, !new)>(table: map<K, Raw>, saves: seq<Row<K>>): (r: map<K, Raw>)
    decreases |saves|
  {
    if saves == [] then table else Put(table[saves[0].0 := saves[0].1], saves[1..])
  }

  // ----- a whole run -----

  function FindIdentity(codec: Codec, dir: Directory, disk: Disk): (r: Result<Identity, MigrationError>)
  {
    if disk.identity.Some? then Ok(disk.identity.value)
    else if disk.legacy.Some? then
      match codec.identity(disk.legacy.value)
      case None => Err(ProteusError)
      case Some(kp) => Ok(kp)
    else if dir.local.Some? then
      match codec.local(dir.local.value)
      case None => Err(ProteusError)
      case Some(Pub) => Err(IdentityNotFound)
      case Some(Sec(kp)) => Ok(kp)
    else Err(IdentityNotFound)
  }

  /** An identity that came from a file is saved, and the legacy file is deleted afterwards. */
  function IdentityWrites(disk: Disk, kp: Identity): (writes: seq<Write>)
  {
    if disk.identity.Some? then []
    else [SaveIdentity(kp)] + if disk.legacy.Some? then [RemoveLegacy] else []
  }

  function AsSessionWrites(saves: seq<Row<string>>): (writes: seq<Write>)
    ensures |writes| == |saves|
  {
    if saves == [] then [] else [SaveSession(saves[0].0, saves[0].1)] + AsSessionWrites(saves[1..])
  }

  function AsPrekeyWrites(saves: seq<Row<U16>>): (writes: seq<Write>)
    ensures |writes| == |saves|
  {
    if saves == [] then [] else [SavePrekey(saves[0].0, saves[0].1)] + AsPrekeyWrites(saves[1..])
  }

  function SessionGood(codec: Codec, kp: Identity): Raw -> bool
  {
    raw => codec.session(kp, raw)
  }

  function SessionSaves(codec: Codec, dir: Directory, kp: Identity, table: map<string, Raw>): (saves: seq<Row<string>>)
  {
    if dir.sessions.None? then [] else Saves(dir.sessions.value, SessionGood(codec, kp), table)
  }

  /** A run that finds no session folder does not get as far as the prekeys. */
  function PrekeySaves(codec: Codec, dir: Directory, table: map<U16, Raw>): (saves: seq<Row<U16>>)
  {
    if dir.sessions.None? || dir.prekeys.None? then [] else Saves(Parsed(dir.prekeys.value), codec.prekey, table)
  }

  function FileWrites(codec: Codec, dir: Directory, kp: Identity, disk: Disk): (writes: seq<Write>)
  {
    AsSessionWrites(SessionSaves(codec, dir, kp, disk.sessions)) + AsPrekeyWrites(PrekeySaves(codec, dir, disk.prekeys))
  }

  /** What is answered once the identity is there. */
  function FilesOutcome(dir: Directory): (r: Result<(), MigrationError>)
  {
    if dir.sessions.None? || dir.prekeys.None? then Err(IoError)
    else if |Parsed(dir.prekeys.value)| < |dir.prekeys.value| then Err(ParseIntError)
    else Ok(())
  }

  /** Every write of a run that is not interrupted, in order. */
  function Writes(codec: Codec, dir: Directory, disk: Disk): (writes: seq<Write>)
  {
    if !dir.present then []
    else
      match FindIdentity(codec, dir, disk)
      case Err(_) => []
      case Ok(kp) => IdentityWrites(disk, kp) + FileWrites(codec, dir, kp, disk)
  }

  /** What a run that is not interrupted answers. */
  function Outcome(codec: Codec, dir: Directory, disk: Disk): (r: Result<(), MigrationError>)
  {
    if !dir.present then Err(ProvidedPathDoesNotExist)
    else
      match FindIdentity(codec, dir, disk)
      case Err(e) => Err(e)
      case Ok(_) => FilesOutcome(dir)
  }

  function Apply(disk: Disk, write: Write): (r: Disk)
  {
    match write
    case SaveIdentity(kp) => disk.(identity := Some(kp))
    case RemoveLegacy => disk.(legacy := None)
    case SaveSession(name, session) => disk.(sessions := disk.sessions[name := session])
    case SavePrekey(id, prekey) => disk.(prekeys := disk.prekeys[id := prekey])
  }

  function ApplyAll(disk: Disk, writes: seq<Write>): (r: Disk)
    decreases |writes|
  {
    if writes == [] then disk else ApplyAll(Apply(disk, writes[0]), writes[1..])
  }

  /** The disk after a run that gets through at most `left` writes. */
  function Stopped(codec: Codec, dir: Directory, disk: Disk, left: nat): (r: Disk)
  {
    ApplyAll(disk, Cut(Writes(codec, dir, disk), left))
  }

  function Completed(codec: Codec, dir: Directory, disk: Disk): (r: Disk)
  {
    ApplyAll(disk, Writes(codec, dir, disk))
  }

  lemma {:induction false} ApplyAppend(disk: Disk, a: seq<Write>, b: seq<Write>)
    ensures ApplyAll(disk, a + b) == ApplyAll(ApplyAll(disk, a), b)
    decreases |a|
  {
    if a == [] {
      assert a + b == b;
    } else {
      assert (a + b)[1..] == a[1..] + b;
      ApplyAppend(Apply(disk, a[0]), a[1..], b);
    }
  }

  lemma {:induction false} ApplyOneMore(disk: Disk, writes: seq<Write>, n: nat)
    requires n < |writes|
    ensures ApplyAll(disk, writes[..n + 1]) == Apply(ApplyAll(disk, writes[..n]), writes[n])
  {
    ApplyAppend(disk, writes[..n], [writes[n]]);
    assert writes[..n] + [writes[n]] == writes[..n + 1];
    assert ApplyAll(ApplyAll(disk, writes[..n]), [writes[n]]) == Apply(ApplyAll(disk, writes[..n]), writes[n]);
  }

  /** Doing `b` after `a` with what is left of the budget. */
  lemma {:induction false} ApplyCutAppend(disk: Disk, a: seq<Write>, b: seq<Write>, budget: nat)
    ensures ApplyAll(disk, Cut(a + b, budget))
         == if budget < |a| then ApplyAll(disk, Cut(a, budget))
            else ApplyAll(ApplyAll(disk, a), Cut(b, budget - |a|))
  {
    if budget < |a| {
      assert Cut(a + b, budget) == Cut(a, budget);
    } else {
      assert Cut(a + b, budget) == a + Cut(b, budget - |a|);
      ApplyAppend(disk, a, Cut(b, budget - |a|));
    }
  }

  lemma {:induction false} AfterIdentity(disk: Disk, kp: Identity)
    requires disk.identity.Some? ==> disk.identity.value == kp
    ensures ApplyAll(disk, IdentityWrites(disk, kp))
         == disk.(identity := Some(kp), legacy := if disk.identity.Some? then disk.legacy else None)
  {
    if disk.identity.None? {
      var writes := IdentityWrites(disk, kp);
      ApplyOneMore(disk, writes, 0);
      if disk.legacy.Some? {
        ApplyOneMore(disk, writes, 1);
        assert writes[..2] == writes;
      } else {
        assert writes[..1] == writes;
      }
    }
  }

  lemma {:induction false} AfterSessions(disk: Disk, saves: seq<Row<string>>)
    ensures ApplyAll(disk, AsSessionWrites(saves)) == disk.(sessions := Put(disk.sessions, saves))
    decreases |saves|
  {
    if saves != [] {
      AfterSessions(Apply(disk, SaveSession(saves[0].0, saves[0].1)), saves[1..]);
    }
  }

  lemma {:induction false} AfterPrekeys(disk: Disk, saves: seq<Row<U16>>)
    ensures ApplyAll(disk, AsPrekeyWrites(saves)) == disk.(prekeys := Put(disk.prekeys, saves))
    decreases |saves|
  {
    if saves != [] {
      AfterPrekeys(Apply(disk, SavePrekey(saves[0].0, saves[0].1)), saves[1..]);
    }
  }

  /** The three phases of a run, one after the other, on what is left of the budget. */
  lemma {:induction false} Phases(codec: Codec, dir: Directory, disk: Disk, kp: Identity, budget: nat)
    requires dir.present && FindIdentity(codec, dir, disk) == Ok(kp)
    ensures var first := IdentityWrites(disk, kp);
      var second := AsSessionWrites(SessionSaves(codec, dir, kp, disk.sessions));
      var third := AsPrekeyWrites(PrekeySaves(codec, dir, disk.prekeys));
      var disk1 := ApplyAll(disk, first);
      && |Writes(codec, dir, disk)| == |first| + |second| + |third|
      && Stopped(codec, dir, disk, budget) ==
           if budget < |first| then ApplyAll(disk, Cut(first, budget))
           else if budget - |first| < |second| then ApplyAll(disk1, Cut(second, budget - |first|))
           else ApplyAll(ApplyAll(disk1, second), Cut(third, budget - |first| - |second|))
  {
    hide IdentityWrites, SessionSaves, PrekeySaves, AsSessionWrites, AsPrekeyWrites, Apply, ApplyAll, Cut;
    var first := IdentityWrites(disk, kp);
    var second := AsSessionWrites(SessionSaves(codec, dir, kp, disk.sessions));
    var third := AsPrekeyWrites(PrekeySaves(codec, dir, disk.prekeys));
    ApplyCutAppend(disk, first, second + third, budget);
    if budget >= |first| {
      ApplyCutAppend(ApplyAll(disk, first), second, third, budget - |first|);
    }
  }

  /** After `n` of the writes of `todo` the disk is `disk`. */
  ghost predicate Done(before: Disk, todo: seq<Write>, n: nat, disk: Disk) {
    n <= |todo| && disk == ApplyAll(before, todo[..n])
  }

  /** What is left of `todo` is what a loop over `rows` saves. */
  ghost predicate SessionsPending(
      todo: seq<Write>, n: nat, rows: seq<Row<string>>, good: Raw -> bool, table: map<string, Raw>) {
    n <= |todo| && todo[n..] == AsSessionWrites(Saves(rows, good, table))
  }

  ghost predicate PrekeysPending(
      todo: seq<Write>, n: nat, rows: seq<Row<U16>>, good: Raw -> bool, table: map<U16, Raw>) {
    n <= |todo| && todo[n..] == AsPrekeyWrites(Saves(rows, good, table))
  }

  lemma {:induction false} DoneNext(before: Disk, todo: seq<Write>, n: nat, disk: Disk)
    requires Done(before, todo, n, disk) && n < |todo|
    ensures Done(before, todo, n + 1, Apply(disk, todo[n]))
  {
    hide Apply, ApplyAll;
    ApplyOneMore(before, todo, n);
  }

  lemma {:induction false} DoneEnds(before: Disk, todo: seq<Write>, n: nat, disk: Disk, budget: nat)
    requires Done(before, todo, n, disk) && (n == |todo| <= budget || n == budget)
    ensures disk == ApplyAll(before, Cut(todo, budget))
  {
    assert n == |todo| ==> todo[..n] == todo;
    hide ApplyAll;
  }

  lemma {:induction false} SessionsStep(
      todo: seq<Write>, n: nat, rows: seq<Row<string>>, row: Row<string>, good: Raw -> bool, table: map<string, Raw>)
    requires SessionsPending(todo, n, [row] + rows, good, table)
    ensures row.0 in table || !good(row.1) ==> SessionsPending(todo, n, rows, good, table)
    ensures row.0 !in table && good(row.1) ==>
      n < |todo| && todo[n] == SaveSession(row.0, row.1)
      && SessionsPending(todo, n + 1, rows, good, table[row.0 := row.1])
  {
    assert ([row] + rows)[1..] == rows;
    if row.0 !in table && good(row.1) {
      assert Saves([row] + rows, good, table)[1..] == Saves(rows, good, table[row.0 := row.1]);
      assert todo[n + 1..] == todo[n..][1..];
    }
  }

  lemma {:induction false} PrekeysStep(
      todo: seq<Write>, n: nat, rows: seq<Row<U16>>, row: Row<U16>, good: Raw -> bool, table: map<U16, Raw>)
    requires PrekeysPending(todo, n, [row] + rows, good, table)
    ensures row.0 in table || !good(row.1) ==> PrekeysPending(todo, n, rows, good, table)
    ensures row.0 !in table && good(row.1) ==>
      n < |todo| && todo[n] == SavePrekey(row.0, row.1)
      && PrekeysPending(todo, n + 1, rows, good, table[row.0 := row.1])
  {
    assert ([row] + rows)[1..] == rows;
    if row.0 !in table && good(row.1) {
      assert Saves([row] + rows, good, table)[1..] == Saves(rows, good, table[row.0 := row.1]);
      assert todo[n + 1..] == todo[n..][1..];
    }
  }

  // ----- the code -----

  /** The keystore and the legacy file, which take `left` more writes. */
  class Store {
    var disk: Disk
    var left: nat

    constructor (disk: Disk, left: nat)
      ensures this.disk == disk && this.left == left
    {
      this.disk, this.left := disk, left;
    }

    method Do(write: Write) returns (ok: bool)
      modifies this
      ensures ok <==> old(left) > 0
      ensures if ok then disk == Apply(old(disk), write) && left == old(left) - 1
              else disk == old(disk) && left == old(left)
    {
      ok := left > 0;
      if ok {
        disk, left := Apply(disk, write), left - 1;
      }
    }

    /** Some of `todo` is done: all of it, or as much as there was room for. */
    ghost predicate Did(before: Disk, budget: nat, todo: seq<Write>, ok: bool)
      reads this
    {
      && disk == ApplyAll(before, Cut(todo, budget))
      && (ok <==> |todo| <= budget)
      && left == if ok then budget - |todo| else 0
    }
  }

  method MigrateIdentity(store: Store, codec: Codec, dir: Directory) returns (r: Result<Identity, MigrationError>)
    requires dir.present
    modifies store
    ensures FindIdentity(codec, dir, old(store.disk)).Err? ==>
      r == FindIdentity(codec, dir, old(store.disk)) && store.disk == old(store.disk) && store.left == old(store.left)
    ensures FindIdentity(codec, dir, old(store.disk)).Ok? ==>
      var kp := FindIdentity(codec, dir, old(store.disk)).value;
      && (r == Ok(kp) || r == Err(WriteFailed))
      && store.Did(old(store.disk), old(store.left), IdentityWrites(old(store.disk), kp), r.Ok?)
  {
    var disk := store.disk;
    if disk.identity.Some? {
      return Ok(disk.identity.value);
    }
    var kp: Identity;
    if disk.legacy.Some? {
      var parsed := codec.identity(disk.legacy.value);
      if parsed.None? { return Err(ProteusError); }
      kp := parsed.value;
    } else if dir.local.Some? {
      var parsed := codec.local(dir.local.value);
      if parsed.None? { return Err(ProteusError); }
      if parsed.value.Pub? { return Err(IdentityNotFound); }
      kp := parsed.value.kp;
    } else {
      return Err(IdentityNotFound);
    }
    var saved := store.Do(SaveIdentity(kp));
    if !saved { return Err(WriteFailed); }
    assert Cut(IdentityWrites(disk, kp), 1) == [SaveIdentity(kp)];
    assert ApplyAll(disk, [SaveIdentity(kp)]) == store.disk;
    if disk.legacy.Some? {
      var removed := store.Do(RemoveLegacy);
      if !removed { return Err(WriteFailed); }
    }
    AfterIdentity(disk, kp);
    r := Ok(kp);
  }

  method MigrateSessions(store: Store, codec: Codec, dir: Directory, kp: Identity) returns (ok: bool)
    requires dir.sessions.Some?
    modifies store
    ensures store.Did(old(store.disk), old(store.left),
                      AsSessionWrites(SessionSaves(codec, dir, kp, old(store.disk.sessions))), ok)
  {
    var files := dir.sessions.value;
    ghost var n: nat, before, good := 0, store.disk, SessionGood(codec, kp);
    ghost var todo := AsSessionWrites(SessionSaves(codec, dir, kp, before.sessions));
    assert files[0..] == files && todo[0..] == todo;
    assert SessionsPending(todo, 0, files, good, before.sessions) && Done(before, todo, 0, before);
    var i := 0;
    while i < |files|
      invariant 0 <= i <= |files|
      invariant Done(before, todo, n, store.disk) && store.left + n == old(store.left)
      invariant SessionsPending(todo, n, files[i..], good, store.disk.sessions)
    {
      hide Done, SessionsPending, Saves;
      var (name, session) := files[i];
      assert files[i..] == [(name, session)] + files[i + 1..];
      SessionsStep(todo, n, files[i + 1..], (name, session), good, store.disk.sessions);
      i := i + 1;
      if name in store.disk.sessions { continue; }
      if !codec.session(kp, session) { continue; }
      DoneNext(before, todo, n, store.disk);
      var saved := store.Do(SaveSession(name, session));
      if !saved {
        DoneEnds(before, todo, n, store.disk, old(store.left));
        return false;
      }
      n := n + 1;
    }
    assert files[i..] == [] && n == |todo|;
    DoneEnds(before, todo, n, store.disk, old(store.left));
    ok := true;
  }

  method MigratePrekeys(store: Store, codec: Codec, dir: Directory) returns (r: Result<(), MigrationError>)
    requires dir.sessions.Some? && dir.prekeys.Some?
    modifies store
    ensures store.Did(old(store.disk), old(store.left),
                      AsPrekeyWrites(PrekeySaves(codec, dir, old(store.disk.prekeys))), r != Err(WriteFailed))
    ensures r == Err(WriteFailed)
         || r == if |Parsed(dir.prekeys.value)| < |dir.prekeys.value| then Err(ParseIntError) else Ok(())
  {
    var files := dir.prekeys.value;
    ghost var n: nat, before, good := 0, store.disk, codec.prekey;
    ghost var todo := AsPrekeyWrites(PrekeySaves(codec, dir, before.prekeys));
    assert files[0..] == files && todo[0..] == todo;
    assert PrekeysPending(todo, 0, Parsed(files), good, before.prekeys) && Done(before, todo, 0, before);
    var i := 0;
    while i < |files|
      invariant 0 <= i <= |files|
      invariant Done(before, todo, n, store.disk) && store.left + n == old(store.left)
      invariant |Parsed(files)| == i + |Parsed(files[i..])|
      invariant PrekeysPending(todo, n, Parsed(files[i..]), good, store.disk.prekeys)
    {
      var (name, prekey) := files[i];
      assert files[i..][1..] == files[i + 1..];
      var id := ParseU16(name);
      if id.None? {
        assert n == |todo|;
        DoneEnds(before, todo, n, store.disk, old(store.left));
        return Err(ParseIntError);
      }
      assert Parsed(files[i..]) == [(id.value, prekey)] + Parsed(files[i + 1..]);
      hide Done, PrekeysPending, Saves, Parsed, ParseU16;
      PrekeysStep(todo, n, Parsed(files[i + 1..]), (id.value, prekey), good, store.disk.prekeys);
      i := i + 1;
      if id.value in store.disk.prekeys { continue; }
      if codec.prekey(prekey) {
        DoneNext(before, todo, n, store.disk);
        var saved := store.Do(SavePrekey(id.value, prekey));
        if !saved {
          DoneEnds(before, todo, n, store.disk, old(store.left));
          return Err(WriteFailed);
        }
        n := n + 1;
      }
    }
    assert files[i..] == [] && n == |todo|;
    DoneEnds(before, todo, n, store.disk, old(store.left));
    r := Ok(());
  }

  /** The session files and then the prekey files; a missing folder ends it. */
  method MigrateFiles(
      store: Store, codec: Codec, dir: Directory, kp: Identity) returns (r: Result<(), MigrationError>)
    modifies store
    ensures store.Did(old(store.disk), old(store.left),
                      FileWrites(codec, dir, kp, old(store.disk)), r != Err(WriteFailed))
    ensures r == Err(WriteFailed) || r == FilesOutcome(dir)
  {
    ghost var (disk, budget) := (store.disk, store.left);
    ghost var saves := SessionSaves(codec, dir, kp, disk.sessions);
    ApplyCutAppend(disk, AsSessionWrites(saves), AsPrekeyWrites(PrekeySaves(codec, dir, disk.prekeys)), budget);
    AfterSessions(disk, saves);
    assert ApplyAll(disk, []) == disk && Cut<Write>([], budget) == [];
    assert dir.sessions.None? ==> saves == [];
    hide ApplyAll, Put, SessionSaves, AsSessionWrites, AsPrekeyWrites, Parsed;
    if dir.sessions.None? { return Err(IoError); }
    var ok := MigrateSessions(store, codec, dir, kp);
    if !ok { return Err(WriteFailed); }
    if dir.prekeys.None? { return Err(IoError); }
    r := MigratePrekeys(store, codec, dir);
  }

  /** However it ends, it has made the first of the writes of an uninterrupted run, as many as there was room for. */
  method CryptoboxMigrate(store: Store, codec: Codec, dir: Directory) returns (r: Result<(), MigrationError>)
    modifies store
    ensures store.disk == Stopped(codec, dir, old(store.disk), old(store.left))
    ensures r == if |Writes(codec, dir, old(store.disk))| <= old(store.left) then Outcome(codec, dir, old(store.disk))
                 else Err(WriteFailed)
  {
    if !dir.present { return Err(ProvidedPathDoesNotExist); }
    ghost var (disk, budget, found) := (store.disk, store.left, FindIdentity(codec, dir, store.disk));
    if found.Ok? {
      var first := IdentityWrites(disk, found.value);
      ApplyCutAppend(disk, first, FileWrites(codec, dir, found.value, disk), budget);
      AfterIdentity(disk, found.value);
      assert FileWrites(codec, dir, found.value, ApplyAll(disk, first)) == FileWrites(codec, dir, found.value, disk);
    }
    hide ApplyAll, IdentityWrites, FileWrites, FindIdentity, FilesOutcome;
    var identity := MigrateIdentity(store, codec, dir);
    if identity.Err? { return Err(identity.error); }
    r := MigrateFiles(store, codec, dir, identity.value);
  }
}
