/** The enrollment object itself, and the keystore tables it is stashed in. */
module E2eiEnrollments {
  import opened Wrappers
  import opened Enrollments

  /** `writable` says, call by call, whether the database takes the write. */
  class Keystore {
    var stash: map<Handle, Content>
    var token: Option<string>

    constructor (token: Option<string>)
      ensures this.token == token && stash == map[]
    {
      this.token, stash := token, map[];
    }

    method ReplaceRefreshToken(token: string, writable: bool) returns (ok: bool)
      modifies this
      ensures ok == writable && stash == old(stash)
      ensures this.token == if ok then Some(token) else old(this.token)
    {
      if writable { this.token := Some(token); }
      ok := writable;
    }

    /** Never overwrites an enrollment. */
    method SaveE2eiEnrollment(handle: Handle, content: Content, writable: bool) returns (ok: bool)
      modifies this
      ensures ok <==> writable && handle !in old(stash)
      ensures token == old(token) && stash == if ok then old(stash)[handle := content] else old(stash)
    {
      if handle in stash || !writable { return false; }
      stash := stash[handle := content];
      ok := true;
    }

    method PopE2eiEnrollment(handle: Handle, writable: bool) returns (content: Option<Content>)
      modifies this
      ensures content == if handle in old(stash) && writable then Some(old(stash)[handle]) else None
      ensures token == old(token) && stash == if content.Some? then old(stash) - {handle} else old(stash)
    {
      if handle !in stash || !writable { return None; }
      content := Some(stash[handle]);
      stash := stash - {handle};
    }
  }

  class E2eiEnrollment {
    const delegate: Delegate
    var directory: Option<Directory>
    var account: Option<Account>
    var userAuthz: Option<Authorization>
    var deviceAuthz: Option<Authorization>
    var validOrder: Option<Order>
    var finalize: Option<Finalize>
    var refreshToken: Option<string>

    function View(): (e: Enrollment)
      reads this
    {
      Enrollment(directory, account, userAuthz, deviceAuthz, validOrder, finalize, refreshToken)
    }

    constructor (delegate: Delegate, e: Enrollment)
      ensures this.delegate == delegate && View() == e
    {
      this.delegate := delegate;
      directory, account, userAuthz, deviceAuthz := e.directory, e.account, e.userAuthz, e.deviceAuthz;
      validOrder, finalize, refreshToken := e.validOrder, e.finalize, e.refreshToken;
    }

    method DirectoryResponse(json: Json) returns (r: Reply)
      modifies this
      ensures (View(), r) == Fill(delegate, old(View()), Call.DirectoryResponse(json))
    {
      var parsed := delegate.directory(json);
      if parsed.None? { return Err(DelegateError); }
      directory := parsed;
      r := Ok(TheDirectory(parsed.value));
    }

    method NewAccountRequest(args: Args) returns (r: Reply)
      ensures r == Borrow(delegate, View(), Call.NewAccountRequest(args))
    {
      if directory.None? { return Err(NO_DIRECTORY); }
      r := Build(delegate, NewAccount(directory.value, args));
    }

    method NewAccountResponse(json: Json) returns (r: Reply)
      modifies this
      ensures (View(), r) == Fill(delegate, old(View()), Call.NewAccountResponse(json))
    {
      var parsed := delegate.account(json);
      if parsed.None? { return Err(DelegateError); }
      account := parsed;
      r := Ok(Done);
    }

    method NewOrderRequest(args: Args) returns (r: Reply)
      ensures r == Borrow(delegate, View(), Call.NewOrderRequest(args))
    {
      if directory.None? { return Err(NO_DIRECTORY); }
      if account.None? { return Err(NO_ACCOUNT); }
      r := Build(delegate, NewOrder(directory.value, account.value, args));
    }

    method NewOrderResponse(json: Json) returns (r: Reply)
      ensures r == if delegate.newOrder(json) then Ok(Done) else Err(DelegateError)
    {
      r := if delegate.newOrder(json) then Ok(Done) else Err(DelegateError);
    }

    method NewAuthzRequest(args: Args) returns (r: Reply)
      ensures r == Borrow(delegate, View(), Call.NewAuthzRequest(args))
    {
      if account.None? { return Err(NO_ACCOUNT); }
      r := Build(delegate, NewAuthz(account.value, args));
    }

    method NewAuthzResponse(json: Json) returns (r: Reply)
      modifies this
      ensures (View(), r) == Fill(delegate, old(View()), Call.NewAuthzResponse(json))
    {
      var authz := delegate.authz(json);
      if authz.None? { return Err(DelegateError); }
      match authz.value {
        case User(_) => userAuthz := authz;
        case Device(_) => deviceAuthz := authz;
      }
      if !delegate.authzAnswer(authz.value) { return Err(DelegateError); }
      r := Ok(TheAuthz(authz.value));
    }

    method CreateDpopToken(args: Args) returns (r: Reply)
      ensures r == Borrow(delegate, View(), Call.CreateDpopToken(args))
    {
      if deviceAuthz.None? { return Err(NO_AUTHZ); }
      match deviceAuthz.value
      case Device(challenge) => r := Build(delegate, DpopToken(challenge, args));
      case User(_) => r := Err(ImplementationError);
    }

    method NewDpopChallengeRequest(args: Args) returns (r: Reply)
      ensures r == Borrow(delegate, View(), Call.NewDpopChallengeRequest(args))
    {
      if deviceAuthz.None? { return Err(NO_AUTHZ); }
      if deviceAuthz.value.User? { return Err(ImplementationError); }
      if account.None? { return Err(NO_ACCOUNT); }
      r := Build(delegate, DpopChallenge(deviceAuthz.value.challenge, account.value, args));
    }

    method NewDpopChallengeResponse(json: Json) returns (r: Reply)
      ensures r == if delegate.challenge(json) then Ok(Done) else Err(DelegateError)
    {
      r := if delegate.challenge(json) then Ok(Done) else Err(DelegateError);
    }

    method NewOidcChallengeRequest(args: Args, token: string) returns (r: Reply)
      modifies this
      ensures forall stored :: Step(delegate, World(old(View()), stored), Call.NewOidcChallengeRequest(args, token))
                            == (World(View(), stored), r)
    {
      if token == "" { return Err(InvalidRefreshToken); }
      if userAuthz.None? { return Err(NO_AUTHZ); }
      if userAuthz.value.Device? { return Err(ImplementationError); }
      if account.None? { return Err(NO_ACCOUNT); }
      r := Build(delegate, OidcChallenge(userAuthz.value.challenge, account.value, args));
      if r.Ok? {
        refreshToken := Some(token);
      }
    }

    method NewOidcChallengeResponse(keystore: Keystore, json: Json, writable: bool) returns (r: Reply)
      modifies this, keystore
      ensures (World(View(), keystore.token), r)
           == PersistToken(delegate, World(old(View()), old(keystore.token)), json, writable)
      ensures keystore.stash == old(keystore.stash)
    {
      if !delegate.challenge(json) { return Err(DelegateError); }
      var taken := refreshToken;
      refreshToken := None;
      if taken.None? { return Err(NO_OIDC_REQUEST); }
      var ok := keystore.ReplaceRefreshToken(taken.value, writable);
      r := if ok then Ok(Done) else Err(KeystoreError);
    }

    method CheckOrderRequest(args: Args) returns (r: Reply)
      ensures r == Borrow(delegate, View(), Call.CheckOrderRequest(args))
    {
      if account.None? { return Err(NO_ACCOUNT); }
      r := Build(delegate, CheckOrder(account.value, args));
    }

    method CheckOrderResponse(json: Json) returns (r: Reply)
      modifies this
      ensures (View(), r) == Fill(delegate, old(View()), Call.CheckOrderResponse(json))
    {
      var parsed := delegate.order(json);
      if parsed.None? { return Err(DelegateError); }
      validOrder := parsed;
      r := Ok(TheOrder(parsed.value));
    }

    method FinalizeRequest(args: Args) returns (r: Reply)
      ensures r == Borrow(delegate, View(), Call.FinalizeRequest(args))
    {
      if account.None? { return Err(NO_ACCOUNT); }
      if validOrder.None? { return Err(NO_ORDER); }
      r := Build(delegate, FinalizeOrder(validOrder.value, account.value, args));
    }

    method FinalizeResponse(json: Json) returns (r: Reply)
      modifies this
      ensures (View(), r) == Fill(delegate, old(View()), Call.FinalizeResponse(json))
    {
      var parsed := delegate.finalize(json);
      if parsed.None? { return Err(DelegateError); }
      finalize := parsed;
      r := Ok(TheFinalize(parsed.value));
    }

    method CertificateRequest(args: Args) returns (r: Reply)
      modifies this
      ensures (View(), r) == TakeCertificate(delegate, old(View()), args)
    {
      var takenAccount := account;
      account := None;
      if takenAccount.None? { return Err(NO_ACCOUNT); }
      var takenFinalize := finalize;
      finalize := None;
      if takenFinalize.None? { return Err(NO_FINALIZE); }
      r := Build(delegate, FetchCertificate(takenFinalize.value, takenAccount.value, args));
    }

    method CertificateResponse(chain: Json) returns (r: Reply)
      modifies this
      ensures r == Finish(delegate, old(View()), chain)
    {
      var order := validOrder;
      validOrder := None;
      if order.None? { return Err(NO_ORDER); }
      var certificates := delegate.certificate(chain, order.value);
      r := if certificates.None? then Err(DelegateError) else Ok(Body(certificates.value));
    }

    method GetRefreshToken() returns (r: Reply)
      ensures forall stored :: Step(delegate, World(View(), stored), Call.GetRefreshToken) == (World(View(), stored), r)
    {
      if refreshToken.None? { return Err(NO_TOKEN); }
      r := Ok(Token(refreshToken.value));
    }

    /** Every call on the object, and what it does to the keystore. */
    method Handle(keystore: Keystore, call: Call) returns (r: Reply)
      modifies this, keystore
      ensures (World(View(), keystore.token), r) == Step(delegate, World(old(View()), old(keystore.token)), call)
      ensures keystore.stash == old(keystore.stash)
    {
      hide Fill, Borrow, TakeCertificate, PersistToken;
      match call {
        case DirectoryResponse(json) => r := DirectoryResponse(json);
        case NewAccountRequest(args) => r := NewAccountRequest(args);
        case NewAccountResponse(json) => r := NewAccountResponse(json);
        case NewOrderRequest(args) => r := NewOrderRequest(args);
        case NewOrderResponse(json) => r := NewOrderResponse(json);
        case NewAuthzRequest(args) => r := NewAuthzRequest(args);
        case NewAuthzResponse(json) => r := NewAuthzResponse(json);
        case CreateDpopToken(args) => r := CreateDpopToken(args);
        case NewDpopChallengeRequest(args) => r := NewDpopChallengeRequest(args);
        case NewDpopChallengeResponse(json) => r := NewDpopChallengeResponse(json);
        case NewOidcChallengeRequest(args, token) => r := NewOidcChallengeRequest(args, token);
        case NewOidcChallengeResponse(json, writable) => r := NewOidcChallengeResponse(keystore, json, writable);
        case CheckOrderRequest(args) => r := CheckOrderRequest(args);
        case CheckOrderResponse(json) => r := CheckOrderResponse(json);
        case FinalizeRequest(args) => r := FinalizeRequest(args);
        case FinalizeResponse(json) => r := FinalizeResponse(json);
        case CertificateRequest(args) => r := CertificateRequest(args);
        case GetRefreshToken => r := GetRefreshToken();
      }
    }

    /** The consumer gives the enrollment up. `handle` is what the random generator yields, if it works. */
    method Stash(serde: Serde, keystore: Keystore, handle: Option<Handle>, writable: bool) returns (r: SystemReply)
      modifies keystore
      ensures (System(None, keystore.stash, keystore.token), r)
           == StashOne(serde, System(Some(View()), old(keystore.stash), old(keystore.token)), handle, writable)
    {
      var content := serde.write(View());
      if content.None? || handle.None? { return Failed; }
      var ok := keystore.SaveE2eiEnrollment(handle.value, content.value, writable);
      r := if ok then Stashed(handle.value) else Failed;
    }

    static method StashPop(delegate: Delegate, serde: Serde, keystore: Keystore, handle: Handle, writable: bool)
      returns (popped: E2eiEnrollment?)
      modifies keystore
      ensures popped != null ==> fresh(popped) && popped.delegate == delegate
      ensures var (s, r) := PopOne(serde, System(None, old(keystore.stash), old(keystore.token)), handle, writable);
        && s == System(if popped == null then None else Some(popped.View()), keystore.stash, keystore.token)
        && (r == Started <==> popped != null)
    {
      popped := null;
      var content := keystore.PopE2eiEnrollment(handle, writable);
      if content.Some? {
        var e := serde.read(content.value);
        if e.Some? {
          popped := new E2eiEnrollment(delegate, e.value);
        }
      }
    }
  }
}
