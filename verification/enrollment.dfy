/**
 The enrollment of a client at an ACME server (crypto/src/e2e_identity/mod.rs): every response fills
 a slot, and later requests borrow or take what the slots hold. Sections 7.1.1 to 7.5.1 of RFC 8555
 describe the requests; their contents are opaque here.
 */
module Enrollments {
  import opened Wrappers

  type Json(==, !new)
  type Args(==, !new)
  type Directory(==, !new)
  type Account(==, !new)
  type Challenge(==, !new)
  type Order(==, !new)
  type Finalize(==, !new)

  datatype Authorization = User(challenge: Challenge) | Device(challenge: Challenge)

  /** What a request is built from. `args` are the arguments of the call: nonce, URL, access or id token. */
  datatype Request =
    | NewAccount(directory: Directory, args: Args)
    | NewOrder(directory: Directory, account: Account, args: Args)
    | NewAuthz(account: Account, args: Args)
    | DpopToken(challenge: Challenge, args: Args)
    | DpopChallenge(challenge: Challenge, account: Account, args: Args)
    | OidcChallenge(challenge: Challenge, account: Account, args: Args)
    | CheckOrder(account: Account, args: Args)
    | FinalizeOrder(order: Order, account: Account, args: Args)
    | FetchCertificate(finalize: Finalize, account: Account, args: Args)

  /** The ACME client behind an enrollment: it builds requests and reads responses, or fails to. */
  datatype Delegate = Delegate(
    build: Request -> Option<Json>,
    directory: Json -> Option<Directory>,
    account: Json -> Option<Account>,
    newOrder: Json -> bool,
    authz: Json -> Option<Authorization>,
    authzAnswer: Authorization -> bool,
    challenge: Json -> bool,
    order: Json -> Option<Order>,
    finalize: Json -> Option<Finalize>,
    certificate: (Json, Order) -> Option<Json>
  )

  datatype Error =
    | OutOfOrder(missing: string) | ImplementationError | InvalidRefreshToken | DelegateError | KeystoreError

  datatype Answer =
    | Body(json: Json)
    | TheDirectory(directory: Directory)
    | TheAuthz(authz: Authorization)
    | TheOrder(order: Order)
    | TheFinalize(finalize: Finalize)
    | Token(token: string)
    | Done

  type Reply = Result<Answer, Error>

  /** The slots of an enrollment. */
  datatype Enrollment = Enrollment(
    directory: Option<Directory>,
    account: Option<Account>,
    userAuthz: Option<Authorization>,
    deviceAuthz: Option<Authorization>,
    validOrder: Option<Order>,
    finalize: Option<Finalize>,
    refreshToken: Option<string>
  )

  datatype Call =
    | DirectoryResponse(json: Json)
    | NewAccountRequest(args: Args)
    | NewAccountResponse(json: Json)
    | NewOrderRequest(args: Args)
    | NewOrderResponse(json: Json)
    | NewAuthzRequest(args: Args)
    | NewAuthzResponse(json: Json)
    | CreateDpopToken(args: Args)
    | NewDpopChallengeRequest(args: Args)
    | NewDpopChallengeResponse(json: Json)
    | NewOidcChallengeRequest(args: Args, token: string)
    | NewOidcChallengeResponse(json: Json, writable: bool)
    | CheckOrderRequest(args: Args)
    | CheckOrderResponse(json: Json)
    | FinalizeRequest(args: Args)
    | FinalizeResponse(json: Json)
    | CertificateRequest(args: Args)
    | GetRefreshToken

  const NO_DIRECTORY := OutOfOrder("directoryResponse")
  const NO_ACCOUNT := OutOfOrder("newAccountResponse")
  const NO_AUTHZ := OutOfOrder("newAuthzResponse")
  const NO_OIDC_REQUEST := OutOfOrder("new_oidc_challenge_request")
  const NO_ORDER := OutOfOrder("checkOrderResponse")
  const NO_FINALIZE := OutOfOrder("finalizeResponse")
  const NO_TOKEN := OutOfOrder("No OIDC refresh token registered yet or it has been persisted")

  /** An enrollment and the refresh token in the keystore. */
  datatype World = World(e: Enrollment, stored: Option<string>)

  function Begin(refreshToken: Option<string>): (e: Enrollment)
  {
    Enrollment(None, None, None, None, None, None, refreshToken)
  }

  function Build(d: Delegate, request: Request): (r: Reply)
  {
    match d.build(request)
    case None => Err(DelegateError)
    case Some(json) => Ok(Body(json))
  }

  /** The challenge in a slot that is meant for device authorizations. */
  function DeviceChallenge(e: Enrollment): (r: Result<Challenge, Error>)
  {
    match e.deviceAuthz
    case None => Err(NO_AUTHZ)
    case Some(Device(challenge)) => Ok(challenge)
    case Some(User(_)) => Err(ImplementationError)
  }

  function UserChallenge(e: Enrollment): (r: Result<Challenge, Error>)
  {
    match e.userAuthz
    case None => Err(NO_AUTHZ)
    case Some(User(challenge)) => Ok(challenge)
    case Some(Device(_)) => Err(ImplementationError)
  }

  /** Calls that only look at the slots. */
  function Borrow(d: Delegate, e: Enrollment, call: Call): (r: Reply)
    requires call.NewAccountRequest? || call.NewOrderRequest? || call.NewAuthzRequest? || call.CreateDpopToken?
          || call.NewDpopChallengeRequest? || call.CheckOrderRequest? || call.FinalizeRequest?
          || call.NewOidcChallengeRequest?
  {
    match call
    case NewAccountRequest(args) =>
      if e.directory.None? then Err(NO_DIRECTORY) else Build(d, NewAccount(e.directory.value, args))
    case NewOrderRequest(args) =>
      if e.directory.None? then Err(NO_DIRECTORY)
      else if e.account.None? then Err(NO_ACCOUNT)
      else Build(d, NewOrder(e.directory.value, e.account.value, args))
    case NewAuthzRequest(args) =>
      if e.account.None? then Err(NO_ACCOUNT) else Build(d, NewAuthz(e.account.value, args))
    case CreateDpopToken(args) =>
      (match DeviceChallenge(e)
       case Err(error) => Err(error)
       case Ok(challenge) => Build(d, DpopToken(challenge, args)))
    case NewDpopChallengeRequest(args) =>
      (match DeviceChallenge(e)
       case Err(error) => Err(error)
       case Ok(challenge) =>
         if e.account.None? then Err(NO_ACCOUNT) else Build(d, DpopChallenge(challenge, e.account.value, args)))
    case NewOidcChallengeRequest(args, token) =>
      if token == "" then Err(InvalidRefreshToken)
      else
        (match UserChallenge(e)
         case Err(error) => Err(error)
         case Ok(challenge) =>
           if e.account.None? then Err(NO_ACCOUNT) else Build(d, OidcChallenge(challenge, e.account.value, args)))
    case CheckOrderRequest(args) =>
      if e.account.None? then Err(NO_ACCOUNT) else Build(d, CheckOrder(e.account.value, args))
    case FinalizeRequest(args) =>
      if e.account.None? then Err(NO_ACCOUNT)
      else if e.validOrder.None? then Err(NO_ORDER)
      else Build(d, FinalizeOrder(e.validOrder.value, e.account.value, args))
  }

  /** Responses that fill a slot, or leave everything as it is when they cannot be read. */
  function Fill(d: Delegate, e: Enrollment, call: Call): (r: (Enrollment, Reply))
    requires call.DirectoryResponse? || call.NewAccountResponse? || call.NewAuthzResponse? || call.CheckOrderResponse?
          || call.FinalizeResponse?
  {
    match call
    case DirectoryResponse(json) =>
      (match d.directory(json)
       case None => (e, Err(DelegateError))
       case Some(directory) => (e.(directory := Some(directory)), Ok(TheDirectory(directory))))
    case NewAccountResponse(json) =>
      (match d.account(json)
       case None => (e, Err(DelegateError))
       case Some(account) => (e.(account := Some(account)), Ok(Done)))
    case NewAuthzResponse(json) =>
      (match d.authz(json)
       case None => (e, Err(DelegateError))
       case Some(authz) =>
         var e' := if authz.User? then e.(userAuthz := Some(authz)) else e.(deviceAuthz := Some(authz));
         // The slot is filled even when the answer cannot be written.
         (e', if d.authzAnswer(authz) then Ok(TheAuthz(authz)) else Err(DelegateError)))
    case CheckOrderResponse(json) =>
      (match d.order(json)
       case None => (e, Err(DelegateError))
       case Some(order) => (e.(validOrder := Some(order)), Ok(TheOrder(order))))
    case FinalizeResponse(json) =>
      (match d.finalize(json)
       case None => (e, Err(DelegateError))
       case Some(finalize) => (e.(finalize := Some(finalize)), Ok(TheFinalize(finalize))))
  }

  /** Takes the account, then what the finalize response left, whatever comes of it. */
  function TakeCertificate(d: Delegate, e: Enrollment, args: Args): (r: (Enrollment, Reply))
  {
    if e.account.None? then (e, Err(NO_ACCOUNT))
    else if e.finalize.None? then (e.(account := None), Err(NO_FINALIZE))
    else (e.(account := None, finalize := None), Build(d, FetchCertificate(e.finalize.value, e.account.value, args)))
  }

  /** Takes the refresh token to store it; it is gone from memory even if the keystore refuses it. */
  function PersistToken(d: Delegate, w: World, json: Json, writable: bool): (r: (World, Reply))
  {
    if !d.challenge(json) then (w, Err(DelegateError))
    else if w.e.refreshToken.None? then (w, Err(NO_OIDC_REQUEST))
    else
      var e := w.e.(refreshToken := None);
      if writable then (World(e, w.e.refreshToken), Ok(Done)) else (World(e, w.stored), Err(KeystoreError))
  }

  function Step(d: Delegate, w: World, call: Call): (r: (World, Reply))
  {
    match call
    case DirectoryResponse(_) => var (e, r) := Fill(d, w.e, call); (World(e, w.stored), r)
    case NewAccountResponse(_) => var (e, r) := Fill(d, w.e, call); (World(e, w.stored), r)
    case NewAuthzResponse(_) => var (e, r) := Fill(d, w.e, call); (World(e, w.stored), r)
    case CheckOrderResponse(_) => var (e, r) := Fill(d, w.e, call); (World(e, w.stored), r)
    case FinalizeResponse(_) => var (e, r) := Fill(d, w.e, call); (World(e, w.stored), r)
    case NewOrderResponse(json) => (w, if d.newOrder(json) then Ok(Done) else Err(DelegateError))
    case NewDpopChallengeResponse(json) => (w, if d.challenge(json) then Ok(Done) else Err(DelegateError))
    case NewOidcChallengeRequest(_, token) =>
      var r := Borrow(d, w.e, call);
      (if r.Ok? then w.(e := w.e.(refreshToken := Some(token))) else w, r)
    case NewOidcChallengeResponse(json, writable) => PersistToken(d, w, json, writable)
    case CertificateRequest(args) => var (e, r) := TakeCertificate(d, w.e, args); (World(e, w.stored), r)
    case GetRefreshToken =>
      (w, if w.e.refreshToken.None? then Err(NO_TOKEN) else Ok(Token(w.e.refreshToken.value)))
    case _ => (w, Borrow(d, w.e, call))
  }

  /** `certificate_response` uses up the enrollment. */
  function Finish(d: Delegate, e: Enrollment, chain: Json): (r: Reply)
  {
    if e.validOrder.None? then Err(NO_ORDER)
    else
      match d.certificate(chain, e.validOrder.value)
      case None => Err(DelegateError)
      case Some(json) => Ok(Body(json))
  }

  // ----- the keystore and the enrollments it keeps -----

  type Handle(==, !new)
  type Content(==, !new)

  /** Serialisation of enrollments. */
  datatype Serde = Serde(write: Enrollment -> Option<Content>, read: Content -> Option<Enrollment>)
  {
    ghost predicate Lawful() {
      forall e :: write(e).Some? ==> read(write(e).value) == Some(e)
    }
  }

  /** What the consumer holds, what is stashed, and the stored refresh token. */
  datatype System = System(active: Option<Enrollment>, stash: map<Handle, Content>, stored: Option<string>)

  datatype SystemCall =
    | New(refreshToken: Option<string>)
    | On(call: Call)
    | Complete(chain: Json)
    | Stash(handle: Option<Handle>, writable: bool)
    | Pop(key: Handle, writable: bool)

  datatype SystemReply = Replied(reply: Reply) | Stashed(handle: Handle) | Started | Failed

  function StashOne(serde: Serde, s: System, handle: Option<Handle>, writable: bool): (r: (System, SystemReply))
    requires s.active.Some?
  {
    var content := serde.write(s.active.value);
    var s' := s.(active := None);
    if content.None? || handle.None? || handle.value in s.stash || !writable then (s', Failed)
    else (s'.(stash := s.stash[handle.value := content.value]), Stashed(handle.value))
  }

  /** What the consumer held before is dropped when the popped enrollment takes its place. */
  function PopOne(serde: Serde, s: System, handle: Handle, writable: bool): (r: (System, SystemReply))
  {
    if handle !in s.stash || !writable then (s, Failed)
    else
      var s' := s.(stash := s.stash - {handle});
      match serde.read(s.stash[handle])
      case None => (s', Failed)
      case Some(e) => (s'.(active := Some(e)), Started)
  }

  function SystemStep(d: Delegate, serde: Serde, s: System, call: SystemCall): (r: (System, SystemReply))
  {
    match call
    case New(token) => (s.(active := Some(Begin(token))), Started)
    case Pop(handle, writable) => PopOne(serde, s, handle, writable)
    case On(c) =>
      if s.active.None? then (s, Failed)
      else
        var (w, r) := Step(d, World(s.active.value, s.stored), c);
        (System(Some(w.e), s.stash, w.stored), Replied(r))
    case Complete(chain) =>
      if s.active.None? then (s, Failed) else (s.(active := None), Replied(Finish(d, s.active.value, chain)))
    case Stash(handle, writable) =>
      if s.active.None? then (s, Failed) else StashOne(serde, s, handle, writable)
  }
}
