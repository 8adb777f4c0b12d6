/**
 Registering trust anchors, intermediates and CRLs (crypto/src/e2e_identity/init_certificates.rs).
 Each registration writes the keystore and then rebuilds the PKI environment from it.
 */
module PkiRegistration {
  import opened Wrappers
  import opened Sequences
  import opened Tables
  import opened PkiEnvironments

  type Dates(==, !new)
  type Uris(==, !new)
  type Revocations(==, !new)

  /** Parsing, encoding and checking of certificates and CRLs. */
  datatype Registrar = Registrar(
    x509: X509,
    encode: Cert -> Option<Der>,
    parseCrl: Der -> Option<Crl>,
    encodeCrl: Crl -> Option<Der>,
    checkCrl: (PkiEnvironment, Der) -> Option<Crl>,
    anchor: Cert -> bool,
    crlUris: Cert -> Option<Uris>,
    skiAki: Cert -> Option<string>,
    expiration: Crl -> Dates,
    revoked: Crl -> Revocations,
    usable: Params -> bool
  )
  {
    /** What is encoded decodes to itself. */
    ghost predicate Lawful() {
      && (forall cert :: encode(cert).Some? ==> x509.parse(encode(cert).value) == Some(cert))
      && (forall crl :: encodeCrl(crl).Some? ==> parseCrl(encodeCrl(crl).value) == Some(crl))
    }
  }

  datatype Keystore = Keystore(anchor: Option<Der>, intermediates: Table<string, Der>, crls: Table<string, Der>)

  /** Which database accesses of one call succeed, in the order the call makes them; and its time. */
  datatype Io = Io(readable: bool, writable: bool, anchorListed: bool, listed: bool, now: Time)

  datatype Error = TrustAnchorAlreadyRegistered | ConsumerError | E2eiError | KeystoreError | DecodeError | LockPoisoned

  datatype Answer = Done | Uris(uris: Uris) | Filtered | CrlRegistration(expiration: Dates, dirty: bool)

  type Reply = Result<Answer, Error>

  datatype Central = Central(keystore: Keystore, lock: Lock)

  /** `Panic` is a thread that panics while it holds the lock on the environment. */
  datatype Call =
    | RegisterAcmeCa(pem: Option<Cert>, io: Io)
    | RegisterIntermediateCa(pem: Option<Cert>, io: Io)
    | RegisterCrl(point: string, raw: Der, io: Io)
    | Reload(io: Io)
    | Refresh(time: Time, fails: bool)
    | Panic

  /** The contents of all rows, if all of them decode. */
  function ParseAll<T>(parse: Der -> Option<T>, rows: seq<(string, Der)>): (r: Result<seq<T>, Error>)
    ensures r.Err? ==> r.error == DecodeError
  {
    if rows == [] then Ok([])
    else
      match parse(rows[0].1)
      case None => Err(DecodeError)
      case Some(item) => Prepend([item], ParseAll(parse, rows[1..]))
  }

  /** The parameters that the keystore restores to; a trust anchor that cannot be read is passed over. */
  function ParamsOf(x: Registrar, ks: Keystore, anchorListed: bool): (r: Option<Params>)
  {
    var root := if ks.anchor.Some? && anchorListed then x.x509.parse(ks.anchor.value) else None;
    var intermediates := ParseAll(x.x509.parse, ks.intermediates.FindAll());
    var crls := ParseAll(x.parseCrl, ks.crls.FindAll());
    if ks.anchor.Some? && anchorListed && root.None? then None
    else if intermediates.Err? || crls.Err? then None
    else Some(Params(if root.Some? then [root.value] else [], intermediates.value, crls.value))
  }

  /** `restore_pki_env` */
  function RestorePkiEnv(x: Registrar, ks: Keystore, io: Io): (r: Result<PkiEnvironment, Error>)
  {
    if ks.anchor.Some? && io.anchorListed && x.x509.parse(ks.anchor.value).None? then Err(DecodeError)
    else if !io.listed then Err(KeystoreError)
    else
      match ParamsOf(x, ks, io.anchorListed)
      case None => Err(DecodeError)
      case Some(params) => if x.usable(params) then Ok(PkiEnvironment(params, io.now)) else Err(E2eiError)
  }

  /** `init_pki_env`, and `answer` if it works. */
  function InitPkiEnv(x: Registrar, c: Central, io: Io, answer: Answer): (r: (Central, Reply))
  {
    match RestorePkiEnv(x, c.keystore, io)
    case Err(e) => (c, Err(e))
    case Ok(env) =>
      if c.lock.poisoned then (c, Err(LockPoisoned))
      else (c.(lock := c.lock.(env := Some(env))), Ok(answer))
  }

  const NO_PARAMS: Params := Params([], [], [])

  /** A registration either stops with a reply, or has a new keystore and an answer for when that is restored. */
  type Written = Result<(Keystore, Answer), Reply>

  /** The trust anchor is inserted under a fixed key: there is no replacing it. */
  function WriteAnchor(x: Registrar, ks: Keystore, pem: Option<Cert>, io: Io): (r: Written)
  {
    if ks.anchor.Some? && io.readable then Err(Err(TrustAnchorAlreadyRegistered))
    else if !x.usable(NO_PARAMS) || pem.None? then Err(Err(E2eiError))
    else if !x.anchor(pem.value) || x.encode(pem.value).None? then Err(Err(E2eiError))
    else if ks.anchor.Some? || !io.writable then Err(Err(KeystoreError))
    else Ok((ks.(anchor := x.encode(pem.value)), Done))
  }

  function WriteIntermediate(x: Registrar, c: Central, pem: Option<Cert>, io: Io): (r: Written)
  {
    if pem.None? then Err(Err(E2eiError))
    else if c.keystore.anchor.None? || !io.readable then Err(Err(KeystoreError))
    else if x.x509.parse(c.keystore.anchor.value).None? then Err(Err(DecodeError))
    else if x.x509.parse(c.keystore.anchor.value) == pem then Err(Ok(Filtered))
    else if x.crlUris(pem.value).None? || x.skiAki(pem.value).None? then Err(Err(E2eiError))
    else if c.lock.poisoned then Err(Err(LockPoisoned))
    else if c.lock.env.None? then Err(Err(ConsumerError))
    else if x.x509.check(c.lock.env.value, pem.value) != Passed || x.encode(pem.value).None? then Err(Err(E2eiError))
    else if !io.writable then Err(Err(KeystoreError))
    else
      var rows := c.keystore.intermediates.Upsert(x.skiAki(pem.value).value, x.encode(pem.value).value);
      Ok((c.keystore.(intermediates := rows), Uris(x.crlUris(pem.value).value)))
  }

  /** Whether a CRL differs from the one stored for the same distribution point; `None` if that one does not decode. */
  function Dirty(x: Registrar, ks: Keystore, point: string, crl: Crl, readable: bool): (dirty: Option<bool>)
  {
    if point !in ks.crls.rows || !readable then Some(false)
    else
      match x.parseCrl(ks.crls.rows[point])
      case None => None
      case Some(existing) => Some(x.revoked(existing) != x.revoked(crl))
  }

  function WriteCrl(x: Registrar, c: Central, point: string, raw: Der, io: Io): (r: Written)
  {
    if c.lock.poisoned then Err(Err(LockPoisoned))
    else if c.lock.env.None? then Err(Err(ConsumerError))
    else
      match x.checkCrl(c.lock.env.value, raw)
      case None => Err(Err(E2eiError))
      case Some(crl) =>
        var dirty := Dirty(x, c.keystore, point, crl, io.readable);
        if dirty.None? || x.encodeCrl(crl).None? then Err(Err(E2eiError))
        else if !io.writable then Err(Err(KeystoreError))
        else
          var rows := c.keystore.crls.Upsert(point, x.encodeCrl(crl).value);
          Ok((c.keystore.(crls := rows), CrlRegistration(x.expiration(crl), dirty.value)))
  }

  predicate Registers(call: Call) {
    call.RegisterAcmeCa? || call.RegisterIntermediateCa? || call.RegisterCrl?
  }

  function Write(x: Registrar, c: Central, call: Call): (r: Written)
    requires Registers(call)
  {
    match call
    case RegisterAcmeCa(pem, io) => WriteAnchor(x, c.keystore, pem, io)
    case RegisterIntermediateCa(pem, io) => WriteIntermediate(x, c, pem, io)
    case RegisterCrl(point, raw, io) => WriteCrl(x, c, point, raw, io)
  }

  function Register(x: Registrar, c: Central, call: Call): (r: (Central, Reply))
    requires Registers(call)
  {
    match Write(x, c, call)
    case Err(reply) => (c, reply)
    case Ok((keystore, answer)) => InitPkiEnv(x, c.(keystore := keystore), call.io, answer)
  }

  function Step(x: Registrar, c: Central, call: Call): (r: (Central, Reply))
  {
    match call
    case Reload(io) => InitPkiEnv(x, c, io, Done)
    case Refresh(time, fails) => (c.(lock := Refreshed(c.lock, time, fails)), Ok(Done))
    case Panic => (c.(lock := c.lock.(poisoned := true)), Ok(Done))
    case _ => Register(x, c, call)
  }

  // ----- the code -----

  class Database {
    var view: Keystore

    constructor (view: Keystore)
      ensures this.view == view
    {
      this.view := view;
    }

    method FindAnchor(readable: bool) returns (der: Option<Der>)
      ensures der == if readable then view.anchor else None
    {
      der := if readable then view.anchor else None;
    }

    /** Inserts; a row that is there already makes it fail. */
    method ReplaceAnchor(der: Der, writable: bool) returns (ok: bool)
      modifies this
      ensures ok <==> writable && old(view).anchor.None?
      ensures view == if ok then old(view).(anchor := Some(der)) else old(view)
    {
      if !writable || view.anchor.Some? { return false; }
      view := view.(anchor := Some(der));
      ok := true;
    }

    method SaveIntermediate(skiAki: string, der: Der, writable: bool) returns (ok: bool)
      modifies this
      ensures ok == writable
      ensures view == if ok then old(view).(intermediates := old(view).intermediates.Upsert(skiAki, der)) else old(view)
    {
      if writable { view := view.(intermediates := view.intermediates.Upsert(skiAki, der)); }
      ok := writable;
    }

    method SaveCrl(point: string, der: Der, writable: bool) returns (ok: bool)
      modifies this
      ensures ok == writable
      ensures view == if ok then old(view).(crls := old(view).crls.Upsert(point, der)) else old(view)
    {
      if writable { view := view.(crls := view.crls.Upsert(point, der)); }
      ok := writable;
    }
  }

  method ParseEach<T>(parse: Der -> Option<T>, rows: seq<(string, Der)>) returns (r: Result<seq<T>, Error>)
    ensures r == ParseAll(parse, rows)
  {
    hide Prepend;
    var items: seq<T> := [];
    ghost var whole := ParseAll(parse, rows);
    var i := 0;
    PrependEnds([], whole);
    assert rows[0..] == rows;
    while i < |rows|
      invariant 0 <= i <= |rows|
      invariant whole == Prepend(items, ParseAll(parse, rows[i..]))
    {
      var item := parse(rows[i].1);
      assert rows[i..][1..] == rows[i + 1..];
      PrependEnds(items, ParseAll(parse, rows[i..]));
      if item.None? { return Err(DecodeError); }
      PrependTwice(items, [item.value], ParseAll(parse, rows[i + 1..]));
      items := items + [item.value];
      i := i + 1;
    }
    PrependEnds(items, whole);
    r := Ok(items);
  }

  class MlsCentral {
    const x: Registrar
    const database: Database
    const authentication: PkiEnvironmentProvider

    ghost function View(): (c: Central)
      reads database, authentication
    {
      Central(database.view, authentication.lock)
    }

    constructor (x: Registrar, database: Database, authentication: PkiEnvironmentProvider)
      ensures this.x == x && this.database == database && this.authentication == authentication
    {
      this.x, this.database, this.authentication := x, database, authentication;
    }

    method RestoreEnv(io: Io) returns (r: Result<PkiEnvironment, Error>)
      ensures r == RestorePkiEnv(x, database.view, io)
    {
      var trustRoots: seq<Cert> := [];
      var anchor := database.FindAnchor(io.anchorListed);
      if anchor.Some? {
        var root := x.x509.parse(anchor.value);
        if root.None? { return Err(DecodeError); }
        trustRoots := [root.value];
      }
      if !io.listed { return Err(KeystoreError); }
      var intermediates := ParseEach(x.x509.parse, database.view.intermediates.FindAll());
      if intermediates.Err? { return Err(intermediates.error); }
      var crls := ParseEach(x.parseCrl, database.view.crls.FindAll());
      if crls.Err? { return Err(crls.error); }
      var params := Params(trustRoots, intermediates.value, crls.value);
      r := if x.usable(params) then Ok(PkiEnvironment(params, io.now)) else Err(E2eiError);
    }

    method InitEnv(io: Io, answer: Answer) returns (r: Reply)
      modifies authentication
      ensures (View(), r) == InitPkiEnv(x, old(View()), io, answer)
    {
      var env := RestoreEnv(io);
      if env.Err? { return Err(env.error); }
      var ok := authentication.UpdateEnv(env.value);
      r := if ok then Ok(answer) else Err(LockPoisoned);
    }

    method E2eiRegisterAcmeCa(pem: Option<Cert>, io: Io) returns (r: Reply)
      modifies database, authentication
      ensures (View(), r) == Register(x, old(View()), RegisterAcmeCa(pem, io))
    {
      var existing := database.FindAnchor(io.readable);
      if existing.Some? { return Err(TrustAnchorAlreadyRegistered); }
      if !x.usable(NO_PARAMS) { return Err(E2eiError); }
      if pem.None? { return Err(E2eiError); }
      if !x.anchor(pem.value) { return Err(E2eiError); }
      var der := x.encode(pem.value);
      if der.None? { return Err(E2eiError); }
      var ok := database.ReplaceAnchor(der.value, io.writable);
      if !ok { return Err(KeystoreError); }
      r := InitEnv(io, Done);
    }

    method E2eiRegisterIntermediateCa(pem: Option<Cert>, io: Io) returns (r: Reply)
      modifies database, authentication
      ensures (View(), r) == Register(x, old(View()), RegisterIntermediateCa(pem, io))
    {
      if pem.None? { return Err(E2eiError); }
      var anchor := database.FindAnchor(io.readable);
      if anchor.None? { return Err(KeystoreError); }
      var root := x.x509.parse(anchor.value);
      if root.None? { return Err(DecodeError); }
      if root == pem { return Ok(Filtered); }
      var (uris, skiAki) := (x.crlUris(pem.value), x.skiAki(pem.value));
      if uris.None? || skiAki.None? { return Err(E2eiError); }
      if authentication.lock.poisoned { return Err(LockPoisoned); }
      if authentication.lock.env.None? { return Err(ConsumerError); }
      if x.x509.check(authentication.lock.env.value, pem.value) != Passed { return Err(E2eiError); }
      var der := x.encode(pem.value);
      if der.None? { return Err(E2eiError); }
      var ok := database.SaveIntermediate(skiAki.value, der.value, io.writable);
      if !ok { return Err(KeystoreError); }
      r := InitEnv(io, Uris(uris.value));
    }

    method E2eiRegisterCrl(point: string, raw: Der, io: Io) returns (r: Reply)
      modifies database, authentication
      ensures (View(), r) == Register(x, old(View()), RegisterCrl(point, raw, io))
    {
      if authentication.lock.poisoned { return Err(LockPoisoned); }
      if authentication.lock.env.None? { return Err(ConsumerError); }
      var crl := x.checkCrl(authentication.lock.env.value, raw);
      if crl.None? { return Err(E2eiError); }
      var dirty := false;
      if point in database.view.crls.rows && io.readable {
        var existing := x.parseCrl(database.view.crls.rows[point]);
        if existing.None? { return Err(E2eiError); }
        dirty := x.revoked(existing.value) != x.revoked(crl.value);
      }
      var der := x.encodeCrl(crl.value);
      if der.None? { return Err(E2eiError); }
      var ok := database.SaveCrl(point, der.value, io.writable);
      if !ok { return Err(KeystoreError); }
      r := InitEnv(io, CrlRegistration(x.expiration(crl.value), dirty));
    }
  }
}
