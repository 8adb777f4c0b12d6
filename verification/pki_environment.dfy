/**
 The shared PKI environment (mls-provider/src/pki.rs): the trust anchor, intermediates and CRLs
 that certificates are checked against at one moment in time.
 */
module PkiEnvironments {
  import opened Wrappers

  type Cert(==, !new)
  type Crl(==, !new)
  type Der(==, !new)
  type Time(==, !new)

  datatype Params = Params(trustRoots: seq<Cert>, intermediates: seq<Cert>, crls: seq<Crl>)

  datatype PkiEnvironment = PkiEnvironment(params: Params, timeOfInterest: Time)

  /** What checking a certificate path and its revocation answers. */
  datatype Check = Passed | PathValidation(status: PathStatus) | OtherError

  datatype PathStatus =
    | PathValid
    | RevocationStatusNotAvailable
    | RevocationStatusNotDetermined
    | CertificateRevoked
    | CertificateRevokedEndEntity
    | CertificateRevokedIntermediateCa
    | InvalidNotAfterDate
    | OtherStatus

  datatype Authentication = Valid | Unknown | Invalid | Expired

  /** X.509 parsing and path checking. */
  datatype X509 = X509(
    parse: Der -> Option<Cert>,
    check: (PkiEnvironment, Cert) -> Check,
    inTime: (Cert, Time) -> bool,
    identity: Cert -> bool
  )

  datatype Credential = Basic | Certified(certificates: seq<Der>)

  function LeafCert(x: X509, credential: Credential): (cert: Option<Cert>)
  {
    if credential.Basic? || credential.certificates == [] then None else x.parse(credential.certificates[0])
  }

  /** The shared environment behind its lock. A lock is poisoned once a thread panics while holding it. */
  datatype Lock = Lock(env: Option<PkiEnvironment>, poisoned: bool)

  /** The time of interest becomes `now`, unless there is nothing to refresh or it fails. */
  function Refreshed(lock: Lock, now: Time, fails: bool): (r: Lock)
  {
    if lock.poisoned || lock.env.None? || fails then lock
    else lock.(env := Some(lock.env.value.(timeOfInterest := now)))
  }

  /** The decision on a credential, once the time is refreshed. */
  function Authenticate(x: X509, lock: Lock, credential: Credential): (r: Authentication)
  {
    if credential.Basic? then Valid
    else if lock.poisoned then Unknown
    else if lock.env.None? then Valid
    else
      match LeafCert(x, credential)
      case None => Invalid
      case Some(cert) =>
        match x.check(lock.env.value, cert)
        case Passed => Valid
        case OtherError => Unknown
        case PathValidation(status) =>
          match status
          case PathValid => Valid
          case RevocationStatusNotAvailable => Valid
          case RevocationStatusNotDetermined => Valid
          case CertificateRevoked => Valid
          case CertificateRevokedEndEntity => Valid
          case CertificateRevokedIntermediateCa => Valid
          case InvalidNotAfterDate => Expired
          case OtherStatus => Invalid
  }

  class PkiEnvironmentProvider {
    const x509: X509
    var lock: Lock

    constructor (x509: X509)
      ensures this.x509 == x509 && lock == Lock(None, false)
    {
      this.x509, lock := x509, Lock(None, false);
    }

    method RefreshTimeOfInterest(now: Time, fails: bool)
      modifies this
      ensures lock == Refreshed(old(lock), now, fails)
    {
      if !lock.poisoned && lock.env.Some? && !fails {
        lock := lock.(env := Some(lock.env.value.(timeOfInterest := now)));
      }
    }

    method UpdateEnv(env: PkiEnvironment) returns (ok: bool)
      modifies this
      ensures ok == !old(lock).poisoned
      ensures lock == if ok then old(lock).(env := Some(env)) else old(lock)
    {
      ok := !lock.poisoned;
      if ok { lock := lock.(env := Some(env)); }
    }

    method ValidateCredential(credential: Credential, now: Time, fails: bool) returns (r: Authentication)
      modifies this
      ensures credential.Basic? ==> lock == old(lock)
      ensures !credential.Basic? ==> lock == Refreshed(old(lock), now, fails)
      ensures r == Authenticate(x509, lock, credential)
    {
      if credential.Basic? { return Valid; }
      RefreshTimeOfInterest(now, fails);
      if lock.poisoned { return Unknown; }
      if lock.env.None? { return Valid; }
      var env := lock.env.value;
      if credential.certificates == [] { return Invalid; }
      var cert := x509.parse(credential.certificates[0]);
      if cert.None? { return Invalid; }
      var check := x509.check(env, cert.value);
      if check.Passed? { return Valid; }
      if check.OtherError? { return Unknown; }
      match check.status {
        case PathValid | RevocationStatusNotAvailable | RevocationStatusNotDetermined =>
        case CertificateRevoked | CertificateRevokedEndEntity | CertificateRevokedIntermediateCa =>
        case InvalidNotAfterDate => return Expired;
        case _ => return Invalid;
      }
      r := Valid;
    }
  }
}
