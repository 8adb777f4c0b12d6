/** The PKI environment over whole runs: it is always set, and always comes from the keystore. */
module PkiLaws {
  import opened Wrappers
  import opened Tables
  import opened Machines
  import opened PkiEnvironments
  import opened PkiRegistration

  function Machine(x: Registrar): (Central, Call) -> (Central, Reply)
  {
    (c, call) => Step(x, c, call)
  }

  function After(x: Registrar, c: Central, calls: seq<Call>): (r: Central)
  {
    Run(Machine(x), c, calls).0
  }

  /** `try_new`, as far as it concerns the environment. */
  function TryNew(x: Registrar, ks: Keystore, io: Io): (r: Result<Central, Error>)
  {
    match RestorePkiEnv(x, ks, io)
    case Err(e) => Err(e)
    case Ok(env) => Ok(Central(ks, Lock(Some(env), false)))
  }

  // ----- what a restored environment holds -----

  lemma {:induction false} ParseAllItems<T(!new)>(parse: Der -> Option<T>, rows: seq<(string, Der)>)
    ensures ParseAll(parse, rows).Ok? <==> forall i :: 0 <= i < |rows| ==> parse(rows[i].1).Some?
    ensures ParseAll(parse, rows).Ok? ==>
      && |ParseAll(parse, rows).value| == |rows|
      && forall i :: 0 <= i < |rows| ==> parse(rows[i].1) == Some(ParseAll(parse, rows).value[i])
  {
    if rows != [] {
      ParseAllItems(parse, rows[1..]);
      assert forall i :: 1 <= i < |rows| ==> rows[i] == rows[1..][i - 1];
      if parse(rows[0].1).Some? && ParseAll(parse, rows[1..]).Ok? {
        assert ParseAll(parse, rows).value == [parse(rows[0].1).value] + ParseAll(parse, rows[1..]).value;
      }
    }
  }

  /** Every stored intermediate and CRL is in the environment once, in the order of the table, and nothing else is. */
  lemma {:induction false} EnvListsStore(x: Registrar, ks: Keystore)
    requires ParamsOf(x, ks, true).Some?
    ensures var params := ParamsOf(x, ks, true).value;
      && (if ks.anchor.None? then params.trustRoots == []
          else |params.trustRoots| == 1 && x.x509.parse(ks.anchor.value) == Some(params.trustRoots[0]))
      && |params.intermediates| == |ks.intermediates.order| && |params.crls| == |ks.crls.order|
      && (forall i :: 0 <= i < |params.intermediates| ==>
            x.x509.parse(ks.intermediates.FindAll()[i].1) == Some(params.intermediates[i]))
      && (forall i :: 0 <= i < |params.crls| ==> x.parseCrl(ks.crls.FindAll()[i].1) == Some(params.crls[i]))
  {
    hide Rows.FindAll;
    ParseAllItems(x.x509.parse, ks.intermediates.FindAll());
    ParseAllItems(x.parseCrl, ks.crls.FindAll());
  }

  // ----- one call -----

  lemma {:induction false} InitRestores(x: Registrar, c: Central, io: Io, answer: Answer)
    ensures var (c', reply) := InitPkiEnv(x, c, io, answer);
      && c'.keystore == c.keystore
      && (if reply.Err? then c' == c
          else reply == Ok(answer) && c'.lock.env.Some? && c'.lock.env.value.timeOfInterest == io.now
               && ParamsOf(x, c.keystore, io.anchorListed) == Some(c'.lock.env.value.params))
  {
    hide ParamsOf;
  }

  /** A registration that writes nothing fails, or found that it is the trust anchor. */
  lemma {:induction false} NothingWritten(x: Registrar, c: Central, call: Call)
    requires Registers(call)
    ensures match Write(x, c, call)
            case Err(reply) => reply.Err? || reply == Ok(Filtered)
            case Ok((_, answer)) => answer != Filtered
  {
    hide Dirty;
  }

  /** An environment stays set; it changes in its time only, or is what the keystore restores to now. */
  lemma {:induction false} StepEnv(x: Registrar, c: Central, call: Call)
    requires c.lock.env.Some?
    ensures var c' := Step(x, c, call).0;
      && c'.lock.env.Some?
      && (c'.lock.env.value.params == c.lock.env.value.params
          || ((call.Reload? || Registers(call))
              && ParamsOf(x, c'.keystore, call.io.anchorListed) == Some(c'.lock.env.value.params)))
  {
    hide ParamsOf, Write, InitPkiEnv;
    if call.Reload? {
      InitRestores(x, c, call.io, Done);
    } else if Registers(call) && Write(x, c, call).Ok? {
      var (keystore, answer) := Write(x, c, call).value;
      InitRestores(x, c.(keystore := keystore), call.io, answer);
    }
  }

  lemma {:induction false} SeenParams(x: Registrar, ks: Keystore, seen: bool)
    requires ParamsOf(x, ks, seen).Some?
    ensures ParamsOf(x, ks, true) == ParamsOf(x, ks, seen) <==> seen || ks.anchor.None?
  {
    hide ParseAll, Rows.FindAll;
  }

  /**
   After a registration that stored something and succeeded the environment is the restoration of
   the keystore as it is now, exactly when the trust anchor, if there is one, could be read back.
   */
  lemma {:induction false} RegistrationRestores(x: Registrar, c: Central, call: Call)
    requires Registers(call) && Step(x, c, call).1.Ok? && Step(x, c, call).1 != Ok(Filtered)
    ensures var c' := Step(x, c, call).0;
      && c'.lock.env.Some? && c'.lock.env.value.timeOfInterest == call.io.now
      && (ParamsOf(x, c'.keystore, true) == Some(c'.lock.env.value.params) <==>
          call.io.anchorListed || c'.keystore.anchor.None?)
  {
    hide ParamsOf, Write, InitPkiEnv;
    NothingWritten(x, c, call);
    var (keystore, answer) := Write(x, c, call).value;
    InitRestores(x, c.(keystore := keystore), call.io, answer);
    SeenParams(x, keystore, call.io.anchorListed);
  }

  /**
   Under a poisoned lock no registration succeeds, and the environment stays as it is. Only the trust
   anchor is stored before that shows: a second attempt is then refused.
   */
  lemma {:induction false} PoisonedRegistration(x: Registrar, c: Central, call: Call, again: Call)
    requires c.lock.poisoned && Registers(call)
    ensures var (c', reply) := Step(x, c, call);
      && c'.lock == c.lock && (reply.Err? || reply == Ok(Filtered))
      && (c'.keystore != c.keystore ==>
            && call.RegisterAcmeCa? && c.keystore.anchor.None?
            && c'.keystore == c.keystore.(anchor := c'.keystore.anchor)
            && (again.RegisterAcmeCa? && again.io.readable ==>
                  Step(x, c', again) == (c', Err(TrustAnchorAlreadyRegistered))))
  {
    hide RestorePkiEnv;
  }

  /** What a call leaves in the keystore: what a registration wrote, or what was there. */
  lemma {:induction false} StepKeystore(x: Registrar, c: Central, call: Call)
    ensures Step(x, c, call).0.keystore ==
      if Registers(call) && Write(x, c, call).Ok? then Write(x, c, call).value.0 else c.keystore
  {
    hide ParamsOf, Write, InitPkiEnv;
    if call.Reload? {
      InitRestores(x, c, call.io, Done);
    } else if Registers(call) && Write(x, c, call).Ok? {
      var (keystore, answer) := Write(x, c, call).value;
      InitRestores(x, c.(keystore := keystore), call.io, answer);
    }
  }

  lemma {:induction false} StepAnchor(x: Registrar, c: Central, call: Call)
    requires c.keystore.anchor.Some?
    ensures Step(x, c, call).0.keystore.anchor == c.keystore.anchor
  {
    StepKeystore(x, c, call);
    hide Dirty, Step;
  }

  /** The call stores this certificate as an intermediate: it passed the checks and is not the trust anchor. */
  ghost predicate Vets(x: Registrar, c: Central, call: Call, key: string, der: Der) {
    && call.RegisterIntermediateCa? && call.pem.Some? && !c.lock.poisoned && c.lock.env.Some? && c.keystore.anchor.Some?
    && x.encode(call.pem.value) == Some(der) && x.skiAki(call.pem.value) == Some(key)
    && x.x509.check(c.lock.env.value, call.pem.value) == Passed
    && x.x509.parse(c.keystore.anchor.value) != call.pem
  }

  lemma {:induction false} StepIntermediates(x: Registrar, c: Central, call: Call, key: string)
    requires key in Step(x, c, call).0.keystore.intermediates.rows
    ensures var der := Step(x, c, call).0.keystore.intermediates.rows[key];
      (key in c.keystore.intermediates.rows && c.keystore.intermediates.rows[key] == der) || Vets(x, c, call, key, der)
  {
    StepKeystore(x, c, call);
    hide Dirty, Step;
  }

  // ----- whole runs -----

  lemma {:induction false} AfterOneMore(x: Registrar, c: Central, calls: seq<Call>)
    requires calls != []
    ensures var n := |calls| - 1;
      After(x, c, calls) == Step(x, After(x, c, calls[..n]), calls[n]).0
  {
    hide Step;
    var n := |calls| - 1;
    RunAppend(Machine(x), c, calls[..n], [calls[n]]);
    RunOne(Machine(x), After(x, c, calls[..n]), calls[n]);
    assert calls[..n] + [calls[n]] == calls;
  }

  /** The trust anchor was read in all restorations. */
  predicate AnchorListed(call: Call) {
    call.Refresh? || call.Panic? || call.io.anchorListed
  }

  /**
   After every run of a central that came up, the environment is set and holds what the keystore
   held after some number of the calls; the trust anchor included, if it was read back each time.
   */
  lemma {:induction false} EnvIsRestored(x: Registrar, ks: Keystore, io: Io, c: Central, calls: seq<Call>)
    returns (i: nat, seen: bool)
    requires TryNew(x, ks, io) == Ok(c)
    ensures i <= |calls| && After(x, c, calls).lock.env.Some?
    ensures ParamsOf(x, After(x, c, calls[..i]).keystore, seen) == Some(After(x, c, calls).lock.env.value.params)
    ensures io.anchorListed && (forall call :: call in calls ==> AnchorListed(call)) ==> seen
    decreases |calls|
  {
    if calls == [] {
      i, seen := 0, io.anchorListed;
    } else {
      hide Step, ParamsOf, After, TryNew;
      var n := |calls| - 1;
      var (init, last) := (calls[..n], calls[n]);
      assert calls == init + [last];
      i, seen := EnvIsRestored(x, ks, io, c, init);
      AfterOneMore(x, c, calls);
      var (before, after) := (After(x, c, init), After(x, c, calls));
      StepEnv(x, before, last);
      if after.lock.env.value.params == before.lock.env.value.params {
        assert init[..i] == calls[..i];
      } else {
        assert AnchorListed(last) ==> last.io.anchorListed;
        assert calls[..n + 1] == calls;
        i, seen := n + 1, last.io.anchorListed;
      }
    }
  }

  /** A trust anchor, once stored, never changes. */
  lemma {:induction false} AnchorForever(x: Registrar, c: Central, calls: seq<Call>)
    requires c.keystore.anchor.Some?
    ensures After(x, c, calls).keystore.anchor == c.keystore.anchor
    decreases |calls|
  {
    if calls != [] {
      hide Step, After;
      AnchorForever(x, c, calls[..|calls| - 1]);
      AfterOneMore(x, c, calls);
      StepAnchor(x, After(x, c, calls[..|calls| - 1]), calls[|calls| - 1]);
    }
  }

  /**
   Every intermediate in the keystore was there at the start, or some call of the run stored it: it
   passed the checks against the environment of that moment, and is not the trust anchor, which is
   still the same.
   */
  lemma {:induction false} IntermediatesAreVetted(
      x: Registrar, c: Central, calls: seq<Call>, key: string) returns (i: nat)
    requires key in After(x, c, calls).keystore.intermediates.rows
    ensures var der := After(x, c, calls).keystore.intermediates.rows[key];
      if i < |calls| then
        && Vets(x, After(x, c, calls[..i]), calls[i], key, der)
        && After(x, c, calls).keystore.anchor == After(x, c, calls[..i]).keystore.anchor
      else key in c.keystore.intermediates.rows && c.keystore.intermediates.rows[key] == der
    decreases |calls|
  {
    if calls == [] {
      i := 0;
    } else {
      hide Step, After;
      var n := |calls| - 1;
      var before := After(x, c, calls[..n]);
      AfterOneMore(x, c, calls);
      StepIntermediates(x, before, calls[n], key);
      if before.keystore.anchor.Some? {
        StepAnchor(x, before, calls[n]);
      }
      if Vets(x, before, calls[n], key, After(x, c, calls).keystore.intermediates.rows[key]) {
        i := n;
      } else {
        i := IntermediatesAreVetted(x, c, calls[..n], key);
        if i < n {
          assert calls[..n][..i] == calls[..i];
        } else {
          i := n + 1;
        }
      }
    }
  }

  /** And what was stored decodes to a certificate other than the trust anchor. */
  lemma {:induction false} VettedDiffersFromAnchor(x: Registrar, c: Central, call: Call, key: string, der: Der)
    requires x.Lawful() && Vets(x, c, call, key, der)
    ensures x.x509.parse(der).Some? && x.x509.parse(der) != x.x509.parse(c.keystore.anchor.value)
  {
  }
}
