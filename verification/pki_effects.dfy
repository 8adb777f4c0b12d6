/**
 What the registrations do: when one is accepted, what is stored then, what the rebuilt environment has
 of it, and what a CRL registration answers.
 */
module PkiEffects {
  import opened Wrappers
  import opened Sequences
  import opened Tables
  import opened Machines
  import opened PkiEnvironments
  import opened PkiRegistration
  import opened PkiLaws

  /** A usable environment to check against. */
  predicate Usable(lock: Lock) {
    !lock.poisoned && lock.env.Some?
  }

  predicate AcceptsAnchor(x: Registrar, c: Central, pem: Option<Cert>, io: Io) {
    && c.keystore.anchor.None? && io.writable
    && pem.Some? && x.usable(NO_PARAMS) && x.anchor(pem.value) && x.encode(pem.value).Some?
  }

  predicate AcceptsIntermediate(x: Registrar, c: Central, pem: Option<Cert>, io: Io) {
    && pem.Some? && io.readable && io.writable
    && c.keystore.anchor.Some? && x.x509.parse(c.keystore.anchor.value) !in {None, pem}
    && x.crlUris(pem.value).Some? && x.skiAki(pem.value).Some? && x.encode(pem.value).Some?
    && Usable(c.lock) && x.x509.check(c.lock.env.value, pem.value) == Passed
  }

  /** The CRL that the checks find in `raw`. */
  function CheckedCrl(x: Registrar, c: Central, raw: Der): (crl: Option<Crl>)
  {
    if Usable(c.lock) then x.checkCrl(c.lock.env.value, raw) else None
  }

  predicate AcceptsCrl(x: Registrar, c: Central, point: string, raw: Der, io: Io) {
    && CheckedCrl(x, c, raw).Some? && x.encodeCrl(CheckedCrl(x, c, raw).value).Some? && io.writable
    && (io.readable && point in c.keystore.crls.rows ==> x.parseCrl(c.keystore.crls.rows[point]).Some?)
  }

  // ----- what is stored -----

  /** A registration that is accepted stores what it was given, whether the environment can be rebuilt or not. */
  lemma {:induction false} AnchorStored(x: Registrar, c: Central, pem: Option<Cert>, io: Io)
    ensures Step(x, c, RegisterAcmeCa(pem, io)).0.keystore ==
      if AcceptsAnchor(x, c, pem, io) then c.keystore.(anchor := x.encode(pem.value)) else c.keystore
  {
    StepKeystore(x, c, RegisterAcmeCa(pem, io));
    hide Step;
  }

  lemma {:induction false} IntermediateStored(x: Registrar, c: Central, pem: Option<Cert>, io: Io)
    ensures var c' := Step(x, c, RegisterIntermediateCa(pem, io)).0;
      && c'.keystore.anchor == c.keystore.anchor && c'.keystore.crls == c.keystore.crls
      && c'.keystore.intermediates.rows ==
           if AcceptsIntermediate(x, c, pem, io)
           then c.keystore.intermediates.rows[x.skiAki(pem.value).value := x.encode(pem.value).value]
           else c.keystore.intermediates.rows
  {
    StepKeystore(x, c, RegisterIntermediateCa(pem, io));
    hide Step;
  }

  lemma {:induction false} CrlStored(x: Registrar, c: Central, point: string, raw: Der, io: Io)
    ensures var c' := Step(x, c, RegisterCrl(point, raw, io)).0;
      && c'.keystore.anchor == c.keystore.anchor && c'.keystore.intermediates == c.keystore.intermediates
      && c'.keystore.crls.rows ==
           if AcceptsCrl(x, c, point, raw, io)
           then c.keystore.crls.rows[point := x.encodeCrl(CheckedCrl(x, c, raw).value).value]
           else c.keystore.crls.rows
  {
    StepKeystore(x, c, RegisterCrl(point, raw, io));
    hide Step;
  }

  // ----- what the environment has of it -----

  predicate AllRead<T>(parse: Der -> Option<T>, table: Table<string, Der>) {
    forall key :: key in table.rows ==> parse(table.rows[key]).Some?
  }

  /** Every row is among what a table restores to. */
  lemma {:induction false} RowsRestored<T(!new)>(parse: Der -> Option<T>, table: Table<string, Der>)
    ensures ParseAll(parse, table.FindAll()).Ok? <==> AllRead(parse, table)
    ensures ParseAll(parse, table.FindAll()).Ok? ==>
      forall item :: item in ParseAll(parse, table.FindAll()).value <==>
        exists key :: key in table.rows && parse(table.rows[key]) == Some(item)
  {
    var rows := table.FindAll();
    ParseAllItems(parse, rows);
    var parsed := ParseAll(parse, rows);
    hide ParseAll, Rows.FindAll;
    assert forall key :: key in table.rows <==> key in Elements(table.order);
    forall key | key in table.rows
      ensures exists i :: 0 <= i < |rows| && rows[i] == (key, table.rows[key])
    {
      var i :| 0 <= i < |table.order| && table.order[i] == key;
      assert rows[i] == (key, table.rows[key]);
    }
    if parsed.Ok? {
      forall item
        ensures item in parsed.value <==> exists key :: key in table.rows && parse(table.rows[key]) == Some(item)
      {
        if item in parsed.value {
          var i :| 0 <= i < |parsed.value| && parsed.value[i] == item;
          assert parse(table.rows[rows[i].0]) == Some(item);
        }
      }
    }
  }

  /** What the keystore restores to, when its trust anchor is read (`seen`) and when it is not. */
  lemma {:induction false} Restores(x: Registrar, ks: Keystore, seen: bool)
    ensures ParamsOf(x, ks, seen).Some? <==>
      && (ks.anchor.Some? && seen ==> x.x509.parse(ks.anchor.value).Some?)
      && AllRead(x.x509.parse, ks.intermediates) && AllRead(x.parseCrl, ks.crls)
    ensures ParamsOf(x, ks, seen).Some? ==>
      var params := ParamsOf(x, ks, seen).value;
      && params.trustRoots ==
           (if ks.anchor.Some? && seen then [x.x509.parse(ks.anchor.value).value] else [])
      && (forall cert :: cert in params.intermediates <==>
            exists key :: key in ks.intermediates.rows && x.x509.parse(ks.intermediates.rows[key]) == Some(cert))
      && (forall crl :: crl in params.crls <==>
            exists key :: key in ks.crls.rows && x.parseCrl(ks.crls.rows[key]) == Some(crl))
  {
    RowsRestored(x.x509.parse, ks.intermediates);
    RowsRestored(x.parseCrl, ks.crls);
    hide ParseAll, Rows.FindAll, AllRead;
  }

  /** Rebuilding the environment works: everything can be read, the library takes it, and the lock is usable. */
  ghost predicate Rebuilds(x: Registrar, ks: Keystore, lock: Lock, io: Io) {
    && io.listed && !lock.poisoned
    && ParamsOf(x, ks, io.anchorListed).Some? && x.usable(ParamsOf(x, ks, io.anchorListed).value)
  }

  lemma {:induction false} RebuildsWhen(x: Registrar, c: Central, io: Io, answer: Answer)
    ensures var (c', reply) := InitPkiEnv(x, c, io, answer);
      && (reply.Ok? <==> Rebuilds(x, c.keystore, c.lock, io))
      && (reply.Ok? ==>
            && reply == Ok(answer)
            && c'.lock == Lock(Some(PkiEnvironment(ParamsOf(x, c.keystore, io.anchorListed).value, io.now)), false))
      && (reply.Err? ==> c'.lock == c.lock)
  {
    hide ParseAll, Rows.FindAll;
  }

  /** A client comes up exactly when its keystore can be restored. */
  lemma {:induction false} ComesUpWhen(x: Registrar, ks: Keystore, io: Io)
    ensures TryNew(x, ks, io).Ok? <==> Rebuilds(x, ks, Lock(None, false), io)
    ensures TryNew(x, ks, io).Ok? ==>
      var params := ParamsOf(x, ks, io.anchorListed).value;
      TryNew(x, ks, io) == Ok(Central(ks, Lock(Some(PkiEnvironment(params, io.now)), false)))
  {
    RebuildsWhen(x, Central(ks, Lock(None, false)), io, Done);
    hide ParamsOf;
  }

  // ----- whole registrations -----

  /** A trust anchor is registered exactly when it is accepted and the environment rebuilt; it is the root then. */
  lemma {:induction false} AnchorRegistered(x: Registrar, c: Central, pem: Option<Cert>, io: Io)
    requires x.Lawful()
    ensures var (c', reply) := Step(x, c, RegisterAcmeCa(pem, io));
      && (reply.Ok? <==> AcceptsAnchor(x, c, pem, io) && Rebuilds(x, c'.keystore, c.lock, io))
      && (reply.Ok? ==>
            && reply == Ok(Done) && c'.lock.env.Some?
            && c'.lock.env.value.params.trustRoots == if io.anchorListed then [pem.value] else [])
      && (reply == Err(TrustAnchorAlreadyRegistered) <==> c.keystore.anchor.Some? && io.readable)
  {
    AnchorStored(x, c, pem, io);
    var ks := Step(x, c, RegisterAcmeCa(pem, io)).0.keystore;
    RebuildsWhen(x, c.(keystore := ks), io, Done);
    Restores(x, ks, io.anchorListed);
    assert AcceptsAnchor(x, c, pem, io) <==> WriteAnchor(x, c.keystore, pem, io).Ok?;
    hide RestorePkiEnv, ParamsOf, AllRead;
  }

  /** An intermediate is registered exactly when it is accepted and the environment rebuilt; then it is in there. */
  lemma {:induction false} IntermediateRegistered(x: Registrar, c: Central, pem: Option<Cert>, io: Io)
    requires x.Lawful()
    ensures var (c', reply) := Step(x, c, RegisterIntermediateCa(pem, io));
      && (reply.Ok? && reply != Ok(Filtered) <==>
            AcceptsIntermediate(x, c, pem, io) && Rebuilds(x, c'.keystore, c.lock, io))
      && (reply.Ok? && reply != Ok(Filtered) ==>
            && reply == Ok(Uris(x.crlUris(pem.value).value)) && c'.lock.env.Some?
            && pem.value in c'.lock.env.value.params.intermediates)
      && (reply == Ok(Filtered) <==>
            && pem.Some? && io.readable && c.keystore.anchor.Some?
            && x.x509.parse(c.keystore.anchor.value) == pem)
  {
    IntermediateStored(x, c, pem, io);
    var c' := Step(x, c, RegisterIntermediateCa(pem, io)).0;
    var write := WriteIntermediate(x, c, pem, io);
    assert AcceptsIntermediate(x, c, pem, io) <==> write.Ok?;
    StepKeystore(x, c, RegisterIntermediateCa(pem, io));
    if write.Ok? {
      assert write.value.1 == Uris(x.crlUris(pem.value).value);
      RebuildsWhen(x, c.(keystore := write.value.0), io, write.value.1);
      Restores(x, write.value.0, io.anchorListed);
      var key := x.skiAki(pem.value).value;
      assert x.x509.parse(c'.keystore.intermediates.rows[key]) == pem;
    }
    hide InitPkiEnv, ParamsOf, AllRead, Rebuilds;
  }

  /** The CRL stored for a distribution point, as far as it can be read. */
  function Existing(x: Registrar, c: Central, point: string, readable: bool): (crl: Option<Crl>)
  {
    if readable && point in c.keystore.crls.rows then x.parseCrl(c.keystore.crls.rows[point]) else None
  }

  /**
   A CRL is registered exactly when it is accepted and the environment rebuilt; then it is in there,
   and the answer tells whether the one stored before, if it was read, revokes other certificates.
   */
  lemma {:induction false} CrlRegistered(x: Registrar, c: Central, point: string, raw: Der, io: Io)
    requires x.Lawful()
    ensures var (c', reply) := Step(x, c, RegisterCrl(point, raw, io));
      && (reply.Ok? <==> AcceptsCrl(x, c, point, raw, io) && Rebuilds(x, c'.keystore, c.lock, io))
      && (reply.Ok? ==>
            var crl := CheckedCrl(x, c, raw).value;
            var existing := Existing(x, c, point, io.readable);
            && reply.value.CrlRegistration? && reply.value.expiration == x.expiration(crl)
            && (reply.value.dirty <==> existing.Some? && x.revoked(existing.value) != x.revoked(crl))
            && c'.lock.env.Some? && crl in c'.lock.env.value.params.crls)
  {
    CrlStored(x, c, point, raw, io);
    var c' := Step(x, c, RegisterCrl(point, raw, io)).0;
    var write := WriteCrl(x, c, point, raw, io);
    assert AcceptsCrl(x, c, point, raw, io) <==> write.Ok?;
    StepKeystore(x, c, RegisterCrl(point, raw, io));
    if write.Ok? {
      var crl := CheckedCrl(x, c, raw).value;
      RebuildsWhen(x, c.(keystore := write.value.0), io, write.value.1);
      Restores(x, write.value.0, io.anchorListed);
      assert x.parseCrl(c'.keystore.crls.rows[point]) == Some(crl);
    }
    hide InitPkiEnv, ParamsOf, AllRead, Rebuilds;
  }

  // ----- whole runs -----

  /** The call stores this CRL: it passed the checks against the environment of that moment. */
  ghost predicate VetsCrl(x: Registrar, c: Central, call: Call, point: string, der: Der) {
    && call.RegisterCrl? && call.point == point
    && CheckedCrl(x, c, call.raw).Some? && x.encodeCrl(CheckedCrl(x, c, call.raw).value) == Some(der)
  }

  lemma {:induction false} StepCrls(x: Registrar, c: Central, call: Call, point: string)
    ensures var rows := Step(x, c, call).0.keystore.crls.rows;
      if call.RegisterCrl? && call.point == point && AcceptsCrl(x, c, point, call.raw, call.io) then
        point in rows && VetsCrl(x, c, call, point, rows[point])
      else
        && (point in rows <==> point in c.keystore.crls.rows)
        && (point in rows ==> rows[point] == c.keystore.crls.rows[point])
  {
    StepKeystore(x, c, call);
    if call.RegisterCrl? {
      CrlStored(x, c, call.point, call.raw, call.io);
      hide AcceptsCrl;
    }
    hide Step, Dirty;
  }

  /** Every stored CRL was there at the start, or passed the checks when some call of the run stored it. */
  lemma {:induction false} CrlsAreVetted(x: Registrar, c: Central, calls: seq<Call>, point: string) returns (i: nat)
    requires point in After(x, c, calls).keystore.crls.rows
    ensures var der := After(x, c, calls).keystore.crls.rows[point];
      if i < |calls| then VetsCrl(x, After(x, c, calls[..i]), calls[i], point, der)
      else point in c.keystore.crls.rows && c.keystore.crls.rows[point] == der
    decreases |calls|
  {
    if calls == [] {
      i := 0;
    } else {
      hide Step, After, VetsCrl;
      var n := |calls| - 1;
      var before := After(x, c, calls[..n]);
      AfterOneMore(x, c, calls);
      StepCrls(x, before, calls[n], point);
      if VetsCrl(x, before, calls[n], point, After(x, c, calls).keystore.crls.rows[point]) {
        i := n;
      } else {
        i := CrlsAreVetted(x, c, calls[..n], point);
        if i < n {
          assert calls[..n][..i] == calls[..i];
        } else {
          i := n + 1;
        }
      }
    }
  }

  /** A stored CRL stays until the next one for its distribution point. */
  lemma {:induction false} CrlStays(x: Registrar, c: Central, calls: seq<Call>, point: string)
    requires point in c.keystore.crls.rows
    requires forall i :: 0 <= i < |calls| ==> !(calls[i].RegisterCrl? && calls[i].point == point)
    ensures point in After(x, c, calls).keystore.crls.rows
    ensures After(x, c, calls).keystore.crls.rows[point] == c.keystore.crls.rows[point]
    decreases |calls|
  {
    if calls != [] {
      StepCrls(x, c, calls[0], point);
      hide Step;
      CrlStays(x, Step(x, c, calls[0]).0, calls[1..], point);
    }
  }

  /**
   Two registrations for one distribution point, and none for it in between: the second answers that
   the CRL is dirty exactly when the two revoke different certificates.
   */
  lemma {:induction false} DirtyTellsChange(
      x: Registrar, c: Central, point: string, first: Der, io: Io, between: seq<Call>, second: Der, io': Io)
    requires x.Lawful() && Step(x, c, RegisterCrl(point, first, io)).1.Ok? && io'.readable
    requires forall i :: 0 <= i < |between| ==> !(between[i].RegisterCrl? && between[i].point == point)
    requires var c' := After(x, Step(x, c, RegisterCrl(point, first, io)).0, between);
      Step(x, c', RegisterCrl(point, second, io')).1.Ok?
    ensures var c' := After(x, Step(x, c, RegisterCrl(point, first, io)).0, between);
      && CheckedCrl(x, c, first).Some? && CheckedCrl(x, c', second).Some?
      && Step(x, c', RegisterCrl(point, second, io')).1.value.CrlRegistration?
      && (Step(x, c', RegisterCrl(point, second, io')).1.value.dirty <==>
          x.revoked(CheckedCrl(x, c, first).value) != x.revoked(CheckedCrl(x, c', second).value))
  {
    var c1 := Step(x, c, RegisterCrl(point, first, io)).0;
    var c' := After(x, c1, between);
    CrlRegistered(x, c, point, first, io);
    CrlStored(x, c, point, first, io);
    CrlStays(x, c1, between, point);
    CrlRegistered(x, c', point, second, io');
    hide Step, After, Rebuilds, CheckedCrl;
  }

  // ----- the time of the environment -----

  /** What is known of the lock from the calls: the time of the environment, and whether it is poisoned. */
  datatype Watch = Watch(time: Time, poisoned: bool)

  /** A call sets the time when it refreshes it, or rebuilds the environment. */
  function Tick(w: Watch, call: Call, reply: Reply): (w': Watch)
  {
    match call
    case Panic => w.(poisoned := true)
    case Refresh(time, fails) => if w.poisoned || fails then w else w.(time := time)
    case _ => if reply.Ok? && reply != Ok(Filtered) then w.(time := call.io.now) else w
  }

  function TickAll(w: Watch, calls: seq<Call>, replies: seq<Reply>): (w': Watch)
    requires |calls| == |replies|
    decreases |calls|
  {
    if calls == [] then w else TickAll(Tick(w, calls[0], replies[0]), calls[1..], replies[1..])
  }

  ghost predicate Shows(lock: Lock, w: Watch) {
    lock.env.Some? && lock.env.value.timeOfInterest == w.time && lock.poisoned == w.poisoned
  }

  lemma {:induction false} StepTime(x: Registrar, c: Central, call: Call, w: Watch)
    requires Shows(c.lock, w)
    ensures Shows(Step(x, c, call).0.lock, Tick(w, call, Step(x, c, call).1))
  {
    if call.Reload? {
      RebuildsWhen(x, c, call.io, Done);
      InitRestores(x, c, call.io, Done);
      hide InitPkiEnv;
    } else if Registers(call) {
      NothingWritten(x, c, call);
      if Write(x, c, call).Ok? {
        var (keystore, answer) := Write(x, c, call).value;
        RebuildsWhen(x, c.(keystore := keystore), call.io, answer);
      }
      hide InitPkiEnv, Write, ParamsOf;
    }
  }

  /**
   After every run the certificates are checked as of the last call that set the time: a refresh that
   worked under a usable lock, or a registration or reload that rebuilt the environment.
   */
  lemma {:induction false} TimeIsLatest(x: Registrar, c: Central, calls: seq<Call>, w: Watch)
    requires Shows(c.lock, w)
    ensures var (end, replies) := Run(Machine(x), c, calls);
      Shows(end.lock, TickAll(w, calls, replies))
    decreases |calls|
  {
    if calls != [] {
      var (c1, reply) := Step(x, c, calls[0]);
      var replies := Run(Machine(x), c, calls).1;
      assert replies[0] == reply && replies[1..] == Run(Machine(x), c1, calls[1..]).1;
      hide Step, Tick, Shows;
      StepTime(x, c, calls[0], w);
      TimeIsLatest(x, c1, calls[1..], Tick(w, calls[0], reply));
    }
  }
}
