/**
 What a migration that is not interrupted ends with, row by row, and what it answers; and which file
 names are prekey ids.
 */
module MigrationResults {
  import opened Wrappers
  import opened Sequences
  import opened Migration
  import opened MigrationLaws

  // ----- the identity -----

  /**
   Where the identity comes from: the keystore, or else the legacy file, or else the local file, which
   has to hold a key pair.
   */
  predicate ComesFrom(codec: Codec, dir: Directory, disk: Disk, kp: Identity) {
    || disk.identity == Some(kp)
    || (disk.identity == None && disk.legacy.Some? && codec.identity(disk.legacy.value) == Some(kp))
    || (disk.identity == None && disk.legacy == None
        && dir.local.Some? && codec.local(dir.local.value) == Some(Sec(kp)))
  }

  ghost predicate HasIdentity(codec: Codec, dir: Directory, disk: Disk) {
    exists kp :: ComesFrom(codec, dir, disk, kp)
  }

  lemma {:induction false} IdentityFound(codec: Codec, dir: Directory, disk: Disk, kp: Identity)
    ensures FindIdentity(codec, dir, disk) == Ok(kp) <==> ComesFrom(codec, dir, disk, kp)
    ensures FindIdentity(codec, dir, disk).Ok? <==> HasIdentity(codec, dir, disk)
  {
    if FindIdentity(codec, dir, disk).Ok? {
      assert ComesFrom(codec, dir, disk, FindIdentity(codec, dir, disk).value);
    }
  }

  /** The file that the identity has to be read from cannot be read. */
  predicate IdentityUnreadable(codec: Codec, dir: Directory, disk: Disk) {
    && disk.identity == None
    && if disk.legacy.Some? then codec.identity(disk.legacy.value) == None
       else dir.local.Some? && codec.local(dir.local.value) == None
  }

  /** No file has it, or the local one has a public key only. */
  predicate IdentityMissing(codec: Codec, dir: Directory, disk: Disk) {
    && disk.identity == None && disk.legacy == None
    && (dir.local == None || codec.local(dir.local.value) == Some(Pub))
  }

  /** What an uninterrupted run answers, case by case; the cases exclude each other and there is no other. */
  lemma {:induction false} OutcomeIs(codec: Codec, dir: Directory, disk: Disk)
    ensures var r := Outcome(codec, dir, disk);
      && (r == Err(ProvidedPathDoesNotExist) <==> !dir.present)
      && (r == Err(ProteusError) <==> dir.present && IdentityUnreadable(codec, dir, disk))
      && (r == Err(IdentityNotFound) <==> dir.present && IdentityMissing(codec, dir, disk))
      && (r == Err(IoError) <==>
            dir.present && HasIdentity(codec, dir, disk) && (dir.sessions == None || dir.prekeys == None))
      && (r == Err(ParseIntError) <==>
            && dir.present && HasIdentity(codec, dir, disk) && dir.sessions.Some? && dir.prekeys.Some?
            && exists file :: file in dir.prekeys.value && ParseU16(file.0) == None)
      && (r == Ok(()) <==>
            && dir.present && HasIdentity(codec, dir, disk) && dir.sessions.Some? && dir.prekeys.Some?
            && forall file :: file in dir.prekeys.value ==> ParseU16(file.0) != None)
  {
    NoIdentity(codec, dir, disk);
    if dir.prekeys.Some? {
      ParsedIs(dir.prekeys.value);
    }
    hide HasIdentity, Parsed, ParseU16;
  }

  lemma {:induction false} NoIdentity(codec: Codec, dir: Directory, disk: Disk)
    ensures HasIdentity(codec, dir, disk) <==> FindIdentity(codec, dir, disk).Ok?
  {
    if HasIdentity(codec, dir, disk) {
      var kp :| ComesFrom(codec, dir, disk, kp);
    }
    if FindIdentity(codec, dir, disk).Ok? {
      assert ComesFrom(codec, dir, disk, FindIdentity(codec, dir, disk).value);
    }
  }

  // ----- the rows -----

  /** The first well-formed row with this id. */
  ghost predicate IsFirst<K>(rows: seq<Row<K>>, good: Raw -> bool, k: K, raw: Raw) {
    exists i :: 0 <= i < |rows| && rows[i] == (k, raw) && good(raw)
      && forall j :: 0 <= j < i ==> rows[j].0 != k || !good(rows[j].1)
  }

  lemma {:induction false} FirstCons<K(!new)>(rows: seq<Row<K>>, good: Raw -> bool, k: K, raw: Raw)
    requires rows != []
    ensures IsFirst(rows, good, k, raw) <==>
      if rows[0].0 == k && good(rows[0].1) then rows[0].1 == raw else IsFirst(rows[1..], good, k, raw)
  {
    var rest := rows[1..];
    assert forall i :: 0 <= i < |rest| ==> rest[i] == rows[i + 1];
    if IsFirst(rest, good, k, raw) && !(rows[0].0 == k && good(rows[0].1)) {
      var i :| 0 <= i < |rest| && rest[i] == (k, raw) && good(raw)
        && forall j :: 0 <= j < i ==> rest[j].0 != k || !good(rest[j].1);
      assert rows[i + 1] == (k, raw);
      assert forall j :: 1 <= j < i + 1 ==> rows[j] == rest[j - 1];
    }
    if IsFirst(rows, good, k, raw) && !(rows[0].0 == k && good(rows[0].1)) {
      var i :| 0 <= i < |rows| && rows[i] == (k, raw) && good(raw)
        && forall j :: 0 <= j < i ==> rows[j].0 != k || !good(rows[j].1);
      assert i > 0 && rest[i - 1] == (k, raw);
      assert forall j :: 0 <= j < i - 1 ==> rest[j] == rows[j + 1];
    }
    if rows[0].0 == k && good(rows[0].1) && rows[0].1 == raw {
      assert rows[0] == (k, raw);
    }
  }

  /** A loop leaves what is there, and adds under each other id its first well-formed row. */
  lemma {:induction false} ImportedFirst<K(!new)>(
      rows: seq<Row<K>>, good: Raw -> bool, table: map<K, Raw>, k: K, raw: Raw)
    ensures (k in Imported(rows, good, table) && Imported(rows, good, table)[k] == raw) <==>
      if k in table then table[k] == raw else IsFirst(rows, good, k, raw)
    decreases |rows|
  {
    if rows != [] {
      var row := rows[0];
      FirstCons(rows, good, k, raw);
      if row.0 in table || !good(row.1) {
        ImportedFirst(rows[1..], good, table, k, raw);
      } else {
        ImportedFirst(rows[1..], good, table[row.0 := row.1], k, raw);
        assert Imported(rows, good, table) == Imported(rows[1..], good, table[row.0 := row.1]);
      }
    }
  }

  /** The prekey files up to the first name that is no prekey id, with their names read. */
  lemma {:induction false} ParsedIs(files: seq<Row<string>>)
    ensures var rows := Parsed(files);
      && (forall i :: 0 <= i < |rows| ==> ParseU16(files[i].0) == Some(rows[i].0) && rows[i].1 == files[i].1)
      && (|rows| < |files| ==> ParseU16(files[|rows|].0) == None)
    ensures |Parsed(files)| == |files| <==> forall file :: file in files ==> ParseU16(file.0) != None
  {
    hide ParseU16;
    if files != [] && ParseU16(files[0].0).Some? {
      var (rows, rest) := (Parsed(files), Parsed(files[1..]));
      ParsedIs(files[1..]);
      assert forall i :: 1 <= i < |files| ==> files[i] == files[1..][i - 1];
      assert rows[1..] == rest;
      assert files == [files[0]] + files[1..];
    } else if files != [] {
      assert files[0] in files;
    }
  }

  lemma {:induction false} FirstSame<K(!new)>(
      rows: seq<Row<K>>, good: Raw -> bool, good': Raw -> bool, k: K, raw: Raw)
    requires forall x :: good(x) == good'(x)
    ensures IsFirst(rows, good, k, raw) <==> IsFirst(rows, good', k, raw)
  {
  }

  predicate Holds<K>(table: map<K, Raw>, k: K, raw: Raw) {
    k in table && table[k] == raw
  }

  /** After an uninterrupted run there is the identity, and a legacy file only if it was not needed. */
  lemma {:induction false} IdentityCompleted(codec: Codec, dir: Directory, disk: Disk, kp: Identity)
    requires dir.present && ComesFrom(codec, dir, disk, kp)
    ensures Completed(codec, dir, disk).identity == Some(kp)
    ensures Completed(codec, dir, disk).legacy == if disk.identity.Some? then disk.legacy else None
  {
    IdentityFound(codec, dir, disk, kp);
    CompletedIs(codec, dir, disk, kp);
    hide Completed;
  }

  /** The sessions are those that were there, and under each other name its first well-formed file. */
  lemma {:induction false} SessionsCompleted(
      codec: Codec, dir: Directory, disk: Disk, kp: Identity, name: string, raw: Raw)
    requires dir.present && ComesFrom(codec, dir, disk, kp)
    ensures Holds(Completed(codec, dir, disk).sessions, name, raw) <==>
      if name in disk.sessions then disk.sessions[name] == raw
      else dir.sessions.Some? && IsFirst(dir.sessions.value, (x: Raw) => codec.session(kp, x), name, raw)
  {
    IdentityFound(codec, dir, disk, kp);
    CompletedIs(codec, dir, disk, kp);
    hide Completed, ComesFrom, FindIdentity, Saves, Put;
    if dir.sessions.Some? {
      var files := dir.sessions.value;
      ImportedFirst(files, SessionGood(codec, kp), disk.sessions, name, raw);
      FirstSame(files, SessionGood(codec, kp), (x: Raw) => codec.session(kp, x), name, raw);
      hide IsFirst;
    }
    assert Put(disk.sessions, []) == disk.sessions by {
      PutEmpty(disk.sessions);
    }
  }

  lemma {:induction false} PutEmpty<K(!new)>(table: map<K, Raw>)
    ensures Put(table, []) == table
  {
  }

  /** And so are the prekeys, up to the first file whose name is no prekey id. */
  lemma {:induction false} PrekeysCompleted(
      codec: Codec, dir: Directory, disk: Disk, kp: Identity, id: U16, raw: Raw)
    requires dir.present && ComesFrom(codec, dir, disk, kp)
    ensures Holds(Completed(codec, dir, disk).prekeys, id, raw) <==>
      if id in disk.prekeys then disk.prekeys[id] == raw
      else
        && dir.sessions.Some? && dir.prekeys.Some?
        && IsFirst(Parsed(dir.prekeys.value), codec.prekey, id, raw)
  {
    IdentityFound(codec, dir, disk, kp);
    CompletedIs(codec, dir, disk, kp);
    hide Completed, ComesFrom, FindIdentity, Saves, Put, IsFirst, Parsed;
    if dir.sessions.Some? && dir.prekeys.Some? {
      ImportedFirst(Parsed(dir.prekeys.value), codec.prekey, disk.prekeys, id, raw);
    }
    PutEmpty(disk.prekeys);
  }

  /** Without a directory or an identity nothing changes. */
  lemma {:induction false} NothingImported(codec: Codec, dir: Directory, disk: Disk)
    requires !dir.present || !HasIdentity(codec, dir, disk)
    ensures Completed(codec, dir, disk) == disk
  {
    NoIdentity(codec, dir, disk);
    hide HasIdentity;
  }

  /** So a completed run over a directory ends with exactly the identity that there is. */
  lemma {:induction false} CompletedIdentity(codec: Codec, dir: Directory, disk: Disk, kp: Identity)
    requires dir.present
    ensures Completed(codec, dir, disk).identity == Some(kp) <==> ComesFrom(codec, dir, disk, kp)
  {
    if HasIdentity(codec, dir, disk) {
      var kp' :| ComesFrom(codec, dir, disk, kp');
      IdentityCompleted(codec, dir, disk, kp');
    } else {
      NothingImported(codec, dir, disk);
    }
    hide Completed;
  }

  // ----- prekey ids -----

  const DIGITS := "0123456789"

  function Zeros(n: nat): (s: string)
    ensures |s| == n
  {
    seq(n, i => '0')
  }

  /** The decimal digits of a number, without leading zeros; none for zero. */
  function DigitsOf(n: nat): (s: string)
  {
    if n == 0 then "" else DigitsOf(n / 10) + [DIGITS[n % 10]]
  }

  /** The decimal text of a number. */
  function Decimal(n: nat): (s: string)
  {
    if n == 0 then "0" else DigitsOf(n)
  }

  lemma {:induction false} DigitIs(c: char, d: nat)
    ensures DigitValue(c) == Some(d) <==> d < 10 && c == DIGITS[d]
  {
    assert forall i :: 0 <= i < 10 ==> DIGITS[i] as int == '0' as int + i;
  }

  lemma {:induction false} ParseOneMore(init: string, c: char)
    ensures ParseDigits(init + [c]) ==
      var (high, low) := (ParseDigits(init), DigitValue(c));
      if high.Some? && low.Some? && high.value * 10 + low.value < 0x1_0000 then Some(high.value * 10 + low.value)
      else None
  {
    hide DigitValue;
    assert (init + [c])[..|init|] == init;
  }

  lemma {:induction false} DigitsParse(k: nat, n: nat)
    requires n < 0x1_0000
    ensures ParseDigits(Zeros(k) + DigitsOf(n)) == Some(n)
    decreases n, k
  {
    hide ParseDigits, DigitValue;
    if n > 0 {
      DigitsParse(k, n / 10);
      DigitIs(DIGITS[n % 10], n % 10);
      ParseOneMore(Zeros(k) + DigitsOf(n / 10), DIGITS[n % 10]);
      assert Zeros(k) + DigitsOf(n) == Zeros(k) + DigitsOf(n / 10) + [DIGITS[n % 10]];
    } else if k > 0 {
      DigitsParse(k - 1, 0);
      DigitIs('0', 0);
      ParseOneMore(Zeros(k - 1), '0');
      assert Zeros(k) + DigitsOf(0) == Zeros(k - 1) + ['0'] && Zeros(k - 1) + DigitsOf(0) == Zeros(k - 1);
    } else {
      ParseNothing();
    }
  }

  lemma {:induction false} ParseNothing()
    ensures ParseDigits(Zeros(0) + DigitsOf(0)) == Some(0)
  {
    assert Zeros(0) + DigitsOf(0) == "";
  }

  lemma {:induction false} ParsedDigits(s: string) returns (k: nat)
    requires ParseDigits(s).Some?
    ensures s == Zeros(k) + DigitsOf(ParseDigits(s).value)
  {
    if s == "" {
      k := 0;
      assert Zeros(0) + DigitsOf(0) == "";
    } else {
      var (init, c) := (s[..|s| - 1], s[|s| - 1]);
      assert s == init + [c];
      k := ParsedDigits(init);
      ParseOneMore(init, c);
      var (high, low) := (ParseDigits(init).value, DigitValue(c).value);
      DigitIs(c, low);
      hide ParseDigits, DigitValue;
      var n := high * 10 + low;
      assert n / 10 == high && n % 10 == low;
      if n == 0 {
        assert s == Zeros(k + 1) + DigitsOf(0);
        k := k + 1;
      } else {
        assert Zeros(k) + DigitsOf(n) == Zeros(k) + DigitsOf(high) + [DIGITS[low]];
      }
    }
  }

  /** A decimal text with any number of leading zeros, and a plus sign or none. */
  function Written(plus: bool, k: nat, n: nat): (s: string)
  {
    (if plus then "+" else "") + (Zeros(k) + Decimal(n))
  }

  ghost predicate IsWritten(s: string, plus: bool, k: nat, n: nat) {
    s == Written(plus, k, n)
  }

  lemma {:induction false} DecimalIsDigits(k: nat, n: nat)
    ensures n > 0 ==> Zeros(k) + Decimal(n) == Zeros(k) + DigitsOf(n)
    ensures Zeros(k) + Decimal(0) == Zeros(k + 1) + DigitsOf(0)
  {
  }

  lemma {:induction false} DigitsAreDigits(n: nat)
    ensures '+' !in DigitsOf(n) && (n > 0 ==> DigitsOf(n) != "")
  {
    if n > 0 {
      DigitsAreDigits(n / 10);
      assert DIGITS[n % 10] in DIGITS;
    }
  }

  /** A file name is the prekey id `n` exactly when it is `n` in decimal, so written. */
  lemma {:induction false} PrekeyIdsAreDecimal(s: string, n: nat)
    requires n < 0x1_0000
    ensures ParseU16(s) == Some(n as U16) <==> exists plus: bool, k: nat :: IsWritten(s, plus, k, n)
  {
    forall plus: bool, k: nat | IsWritten(s, plus, k, n)
      ensures ParseU16(s) == Some(n as U16)
    {
      WrittenParses(plus, k, n);
    }
    if ParseU16(s) == Some(n as U16) {
      var plus := s != "" && s[0] == '+';
      var digits := if plus then s[1..] else s;
      var k := ParsedDigits(digits);
      assert ParseDigits(digits) == Some(n);
      hide ParseU16, ParseDigits, DigitsOf;
      if n == 0 {
        DecimalIsDigits(k, 0);
        ZeroDigits();
        assert k > 0 && digits == Zeros(k - 1) + Decimal(0);
        assert IsWritten(s, plus, k - 1, 0);
      } else {
        DecimalIsDigits(k, n);
        assert IsWritten(s, plus, k, n);
      }
    }
  }

  lemma {:induction false} ZeroDigits()
    ensures DigitsOf(0) == ""
  {
  }

  lemma {:induction false} WrittenParses(plus: bool, k: nat, n: nat)
    requires n < 0x1_0000
    ensures ParseU16(Written(plus, k, n)) == Some(n as U16)
  {
    var digits := Zeros(k) + Decimal(n);
    DecimalIsDigits(k, n);
    DigitsAreDigits(n);
    if n == 0 {
      DigitsParse(k + 1, 0);
    } else {
      DigitsParse(k, n);
    }
    assert digits != "" && digits[0] != '+';
    assert plus ==> ("+" + digits)[1..] == digits;
    assert !plus ==> "" + digits == digits;
    hide ParseDigits, DigitsOf, Decimal;
  }
}
