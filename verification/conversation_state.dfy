/**
 Whether a conversation is verified (crypto/src/e2e_identity/conversation_state.rs): a fold over the
 credentials of its members.
 */
module ConversationStates {
  import opened Wrappers
  import opened PkiEnvironments

  datatype E2eiConversationState = Verified | NotVerified | NotEnabled

  /** The leaf certificate reads as an identity, is in its validity period, and passes the checks there are. */
  predicate FullyValid(x: X509, lock: Lock, now: Time, cert: Cert) {
    && x.identity(cert)
    && x.inTime(cert, now)
    && (lock.poisoned || lock.env.None? || x.check(lock.env.value, cert) == Passed)
  }

  /** One step of the fold: the flag and the state so far. */
  function Fold(
      x: X509, lock: Lock, now: Time, isE2ei: bool, state: E2eiConversationState, credentials: seq<Credential>)
    : (r: (bool, E2eiConversationState))
    decreases |credentials|
  {
    if credentials == [] then (isE2ei, state)
    else
      match LeafCert(x, credentials[0])
      case None => Fold(x, lock, now, isE2ei, NotVerified, credentials[1..])
      case Some(cert) =>
        Fold(x, lock, now, true, if FullyValid(x, lock, now, cert) then state else NotVerified, credentials[1..])
  }

  function State(x: X509, lock: Lock, now: Time, credentials: seq<Credential>): (state: E2eiConversationState)
  {
    var (isE2ei, state) := Fold(x, lock, now, false, Verified, credentials);
    if isE2ei then state else NotEnabled
  }

  method ComputeState(
      x: X509, lock: Lock, now: Time, credentials: seq<Credential>) returns (state: E2eiConversationState)
    ensures state == State(x, lock, now, credentials)
  {
    var isE2ei := false;
    state := Verified;
    var i := 0;
    while i < |credentials|
      invariant 0 <= i <= |credentials|
      invariant Fold(x, lock, now, isE2ei, state, credentials[i..]) == Fold(x, lock, now, false, Verified, credentials)
    {
      var cert := LeafCert(x, credentials[i]);
      if cert.Some? {
        isE2ei := true;
        var invalidIdentity := !x.identity(cert.value);
        var isTimeInvalid := !x.inTime(cert.value, now);
        var isRevokedOrInvalid := !lock.poisoned && lock.env.Some? && x.check(lock.env.value, cert.value) != Passed;
        if invalidIdentity || isTimeInvalid || isRevokedOrInvalid {
          state := NotVerified;
        }
      } else {
        state := NotVerified;
      }
      assert credentials[i..][1..] == credentials[i + 1..];
      i := i + 1;
    }
    if !isE2ei { state := NotEnabled; }
  }

  predicate MemberVerified(x: X509, lock: Lock, now: Time, credential: Credential) {
    LeafCert(x, credential).Some? && FullyValid(x, lock, now, LeafCert(x, credential).value)
  }

  ghost predicate AnyCertificate(x: X509, credentials: seq<Credential>) {
    exists c :: c in credentials && LeafCert(x, c).Some?
  }

  ghost predicate AllVerified(x: X509, lock: Lock, now: Time, credentials: seq<Credential>) {
    forall c :: c in credentials ==> MemberVerified(x, lock, now, c)
  }

  lemma {:induction false} OneMore(x: X509, lock: Lock, now: Time, first: Credential, rest: seq<Credential>)
    ensures AnyCertificate(x, [first] + rest) <==> LeafCert(x, first).Some? || AnyCertificate(x, rest)
    ensures AllVerified(x, lock, now, [first] + rest) <==>
      MemberVerified(x, lock, now, first) && AllVerified(x, lock, now, rest)
  {
    hide LeafCert, FullyValid, MemberVerified;
    assert forall c :: c in [first] + rest <==> c == first || c in rest;
  }

  lemma {:induction false} FoldMeaning(
      x: X509, lock: Lock, now: Time, isE2ei: bool, state: E2eiConversationState, credentials: seq<Credential>)
    ensures Fold(x, lock, now, isE2ei, state, credentials)
         == (isE2ei || AnyCertificate(x, credentials),
             if AllVerified(x, lock, now, credentials) then state else NotVerified)
    decreases |credentials|
  {
    if credentials != [] {
      var first := credentials[0];
      OneMore(x, lock, now, first, credentials[1..]);
      assert credentials == [first] + credentials[1..];
      var cert := LeafCert(x, first);
      var next := if cert.Some? && FullyValid(x, lock, now, cert.value) then state else NotVerified;
      FoldMeaning(x, lock, now, isE2ei || cert.Some?, next, credentials[1..]);
      assert MemberVerified(x, lock, now, first) <==> cert.Some? && FullyValid(x, lock, now, cert.value);
      hide LeafCert, FullyValid, AnyCertificate, AllVerified, MemberVerified;
    }
  }

  /**
   Verified: there are members and each of them has a fully valid leaf certificate. Not enabled: no
   leaf certificate can be read at all, not even that of a first member.
   */
  lemma {:induction false} StateMeaning(x: X509, lock: Lock, now: Time, credentials: seq<Credential>)
    ensures State(x, lock, now, credentials) == Verified <==>
      credentials != [] && forall c :: c in credentials ==> MemberVerified(x, lock, now, c)
    ensures State(x, lock, now, credentials) == NotEnabled <==>
      forall c :: c in credentials ==> LeafCert(x, c).None?
  {
    hide LeafCert, FullyValid;
    FoldMeaning(x, lock, now, false, Verified, credentials);
    if credentials != [] {
      assert credentials[0] in credentials;
    }
  }

  /** The order of the members makes no difference. */
  lemma {:induction false} StateIgnoresOrder(x: X509, lock: Lock, now: Time, a: seq<Credential>, b: seq<Credential>)
    requires multiset(a) == multiset(b)
    ensures State(x, lock, now, a) == State(x, lock, now, b)
  {
    hide State, MemberVerified, LeafCert;
    forall c
      ensures c in a <==> c in b
    {
      assert (c in a <==> c in multiset(a)) && (c in b <==> c in multiset(b));
    }
    StateMeaning(x, lock, now, a);
    StateMeaning(x, lock, now, b);
    if a == [] || b == [] {
      assert |multiset(a)| == |a| && |multiset(b)| == |b|;
    }
  }

  /**
   In a verified conversation every member authenticates, under the same environment and time,
   exactly when the lock on the environment is usable: the state passes over a poisoned lock, the
   authentication does not.
   */
  lemma {:induction false} VerifiedAuthenticates(x: X509, lock: Lock, now: Time, credentials: seq<Credential>)
    requires State(x, lock, now, credentials) == Verified
    ensures (forall c :: c in credentials ==> Authenticate(x, lock, c) == Valid) <==> !lock.poisoned
  {
    StateMeaning(x, lock, now, credentials);
    hide State;
    assert credentials[0] in credentials;
    assert MemberVerified(x, lock, now, credentials[0]);
  }

  /** Under a poisoned lock a conversation can be verified while its member does not authenticate. */
  lemma {:induction false} PoisonedLockVerifies(x: X509, env: Option<PkiEnvironment>, now: Time, der: Der)
    requires x.parse(der).Some? && x.identity(x.parse(der).value) && x.inTime(x.parse(der).value, now)
    ensures State(x, Lock(env, true), now, [Certified([der])]) == Verified
    ensures Authenticate(x, Lock(env, true), Certified([der])) == Unknown
  {
    StateMeaning(x, Lock(env, true), now, [Certified([der])]);
    hide State;
  }

  // ----- members that authenticate, and still degrade the conversation -----

  predicate Revoked(check: Check) {
    check.PathValidation?
    && check.status in {CertificateRevoked, CertificateRevokedEndEntity, CertificateRevokedIntermediateCa}
  }

  /** A check that authentication lets pass: what it finds, if anything, concerns revocation only. */
  predicate Tolerated(check: Check) {
    || check in {Passed, PathValidation(PathValid)}
    || check in {PathValidation(RevocationStatusNotAvailable), PathValidation(RevocationStatusNotDetermined)}
    || Revoked(check)
  }

  /** The environment is set and can be read, and stays so when its time is refreshed. */
  predicate Usable(lock: Lock) {
    !lock.poisoned && lock.env.Some?
  }

  /**
   Which of the four answers authentication gives: for a certificate that can be checked, expired, unknown
   and invalid are each one outcome of the check; a poisoned lock makes it unknown, and a certificate that
   does not parse invalid.
   */
  lemma {:induction false} AuthenticationIs(x: X509, lock: Lock, credential: Credential)
    ensures var answer := Authenticate(x, lock, credential);
      var cert :=
        if credential.Basic? || credential.certificates == [] then None else x.parse(credential.certificates[0]);
      var check := if lock.env.Some? && cert.Some? then x.check(lock.env.value, cert.value) else Passed;
      && (answer == Unknown <==> credential.Certified? && (lock.poisoned || check == OtherError))
      && (answer == Expired <==>
            credential.Certified? && Usable(lock) && check == PathValidation(InvalidNotAfterDate))
      && (answer == Invalid <==>
            credential.Certified? && Usable(lock) && (cert.None? || check == PathValidation(OtherStatus)))
      && (answer == Valid <==>
            || credential.Basic?
            || (!lock.poisoned && (lock.env.None? || (cert.Some? && Tolerated(check)))))
  {
  }

  lemma {:induction false} AuthenticatesWhen(x: X509, lock: Lock, credential: Credential)
    requires Usable(lock)
    ensures Authenticate(x, lock, credential) == Valid <==>
      || credential.Basic?
      || (LeafCert(x, credential).Some? && Tolerated(x.check(lock.env.value, LeafCert(x, credential).value)))
  {
  }

  /** One revoked member authenticates, and yet the conversation is not verified, whoever the others are. */
  lemma {:induction false} RevokedMemberDegrades(
      x: X509, before: Lock, now: Time, fails: bool, credentials: seq<Credential>, member: Credential)
    requires Usable(before) && member in credentials && LeafCert(x, member).Some?
    requires Revoked(x.check(Refreshed(before, now, fails).env.value, LeafCert(x, member).value))
    ensures Authenticate(x, Refreshed(before, now, fails), member) == Valid
    ensures State(x, Refreshed(before, now, fails), now, credentials) == NotVerified
  {
    var lock := Refreshed(before, now, fails);
    StateMeaning(x, lock, now, credentials);
    AuthenticatesWhen(x, lock, member);
    hide State, Refreshed, LeafCert, Authenticate;
  }

  /**
   All members authenticate in a conversation that is not verified, exactly when every member has a
   basic credential or a leaf certificate with a tolerated check, and some member has no certificate,
   no identity in it, is out of its validity period, or did not pass the check.
   */
  lemma {:induction false} AuthenticatedUnverified(x: X509, lock: Lock, now: Time, credentials: seq<Credential>)
    requires Usable(lock) && credentials != []
    ensures ((forall c :: c in credentials ==> Authenticate(x, lock, c) == Valid)
             && State(x, lock, now, credentials) != Verified) <==>
            && (forall c :: c in credentials ==>
                  c.Basic? || (LeafCert(x, c).Some? && Tolerated(x.check(lock.env.value, LeafCert(x, c).value))))
            && (exists c :: c in credentials && (
                  || c.Basic?
                  || !x.identity(LeafCert(x, c).value)
                  || !x.inTime(LeafCert(x, c).value, now)
                  || x.check(lock.env.value, LeafCert(x, c).value) != Passed))
  {
    StateMeaning(x, lock, now, credentials);
    forall c | c in credentials
      ensures Authenticate(x, lock, c) == Valid <==>
        c.Basic? || (LeafCert(x, c).Some? && Tolerated(x.check(lock.env.value, LeafCert(x, c).value)))
    {
      AuthenticatesWhen(x, lock, c);
    }
    assert forall c: Credential :: c.Basic? ==> LeafCert(x, c).None?;
    hide State, LeafCert, Authenticate, Tolerated;
  }
}
