/**
 What the calls on enrollments answer, told from their history: the calls made on an enrollment since
 it began, with their replies, through every stash and pop. No slot appears in this account; what a
 request is built from is what the last responses held.
 */
module EnrollmentHistories {
  import opened Wrappers
  import opened Machines
  import opened Enrollments
  import opened EnrollmentLaws

  type Event = (Call, Reply)

  /** An enrollment's past, and the refresh token it began with. */
  datatype History = History(begun: Option<string>, events: seq<Event>)

  /** The value last left behind, unless it was taken since; `start` if neither ever happened. */
  function Latest<V>(events: seq<Event>, leaves: Event -> Option<V>, takes: Event -> bool, start: Option<V>)
    : (r: Option<V>)
  {
    if events == [] then start
    else
      var (init, last) := (events[..|events| - 1], events[|events| - 1]);
      if takes(last) then None
      else if leaves(last).Some? then leaves(last)
      else Latest(init, leaves, takes, start)
  }

  /** Left by the event at `i`, and neither taken then nor left anew or taken later. */
  ghost predicate LeftAt<V>(
    events: seq<Event>, leaves: Event -> Option<V>, takes: Event -> bool, i: nat, v: V)
  {
    && i < |events| && leaves(events[i]) == Some(v)
    && (forall j :: i <= j < |events| ==> !takes(events[j]))
    && (forall j :: i < j < |events| ==> leaves(events[j]).None?)
  }

  lemma {:induction false} LatestIs<V>(
      events: seq<Event>, leaves: Event -> Option<V>, takes: Event -> bool, start: Option<V>, v: V)
    ensures Latest(events, leaves, takes, start) == Some(v) <==>
      || (exists i :: LeftAt(events, leaves, takes, i, v))
      || (start == Some(v) && forall event :: event in events ==> !takes(event) && leaves(event).None?)
  {
    if events != [] {
      var n := |events| - 1;
      var (init, last) := (events[..n], events[n]);
      assert events == init + [last];
      LatestIs(init, leaves, takes, start, v);
      if takes(last) {
        assert forall i :: !LeftAt(events, leaves, takes, i, v);
      } else if leaves(last).Some? {
        if leaves(last) == Some(v) {
          assert LeftAt(events, leaves, takes, n, v);
        }
        assert forall i: nat :: i < n ==> !LeftAt(events, leaves, takes, i, v);
      } else {
        assert forall i :: LeftAt(events, leaves, takes, i, v) <==> LeftAt(init, leaves, takes, i, v) by {
          assert forall j :: 0 <= j < n ==> events[j] == init[j];
        }
      }
    }
  }

  // ----- what the events leave behind and take -----

  function Never(event: Event): (b: bool)
  {
    false
  }

  function DirectoryIn(d: Delegate): Event -> Option<Directory>
  {
    (event: Event) => if event.0.DirectoryResponse? && event.1.Ok? then d.directory(event.0.json) else None
  }

  function AccountIn(d: Delegate): Event -> Option<Account>
  {
    (event: Event) => if event.0.NewAccountResponse? && event.1.Ok? then d.account(event.0.json) else None
  }

  /** A certificate request takes the account, whatever it answers. */
  function TakesAccount(event: Event): (b: bool)
  {
    event.0.CertificateRequest?
  }

  /** An authorization is left behind as soon as it can be read. */
  function UserChallengeIn(d: Delegate): Event -> Option<Challenge>
  {
    (event: Event) =>
      if event.0.NewAuthzResponse? && d.authz(event.0.json).Some? && d.authz(event.0.json).value.User?
      then Some(d.authz(event.0.json).value.challenge) else None
  }

  function DeviceChallengeIn(d: Delegate): Event -> Option<Challenge>
  {
    (event: Event) =>
      if event.0.NewAuthzResponse? && d.authz(event.0.json).Some? && d.authz(event.0.json).value.Device?
      then Some(d.authz(event.0.json).value.challenge) else None
  }

  function OrderIn(d: Delegate): Event -> Option<Order>
  {
    (event: Event) => if event.0.CheckOrderResponse? && event.1.Ok? then d.order(event.0.json) else None
  }

  function FinalizeIn(d: Delegate): Event -> Option<Finalize>
  {
    (event: Event) => if event.0.FinalizeResponse? && event.1.Ok? then d.finalize(event.0.json) else None
  }

  /** A certificate request that had an account takes it. */
  function TakesFinalize(event: Event): (b: bool)
  {
    event.0.CertificateRequest? && event.1 != Err(OutOfOrder("newAccountResponse"))
  }

  function TokenIn(event: Event): (token: Option<string>)
  {
    if event.0.NewOidcChallengeRequest? && event.1.Ok? then Some(event.0.token) else None
  }

  /** An OIDC response that can be read takes the token, even if it then cannot be stored. */
  function TakesToken(event: Event): (b: bool)
  {
    event.0.NewOidcChallengeResponse? && event.1 != Err(DelegateError)
  }

  function LastDirectory(d: Delegate, h: History): (r: Option<Directory>)
  {
    Latest(h.events, DirectoryIn(d), Never, None)
  }

  function LastAccount(d: Delegate, h: History): (r: Option<Account>)
  {
    Latest(h.events, AccountIn(d), TakesAccount, None)
  }

  function LastUserChallenge(d: Delegate, h: History): (r: Option<Challenge>)
  {
    Latest(h.events, UserChallengeIn(d), Never, None)
  }

  function LastDeviceChallenge(d: Delegate, h: History): (r: Option<Challenge>)
  {
    Latest(h.events, DeviceChallengeIn(d), Never, None)
  }

  function LastOrder(d: Delegate, h: History): (r: Option<Order>)
  {
    Latest(h.events, OrderIn(d), Never, None)
  }

  function LastFinalize(d: Delegate, h: History): (r: Option<Finalize>)
  {
    Latest(h.events, FinalizeIn(d), TakesFinalize, None)
  }

  function LastToken(h: History): (r: Option<string>)
  {
    Latest(h.events, TokenIn, TakesToken, h.begun)
  }

  // ----- what the calls answer -----

  /** The reply to a request: what the delegate builds of it, or that it cannot. */
  predicate Sent(d: Delegate, request: Request, reply: Reply) {
    if d.build(request).Some? then reply == Ok(Body(d.build(request).value)) else reply == Err(DelegateError)
  }

  predicate Missing(what: string, reply: Reply) {
    reply == Err(OutOfOrder(what))
  }

  /** The nine requests: from which responses each is built, and which of them it misses first. */
  ghost predicate RequestAnswered(d: Delegate, h: History, call: Call, reply: Reply) {
    var (directory, account, order) := (LastDirectory(d, h), LastAccount(d, h), LastOrder(d, h));
    var (user, device, finalize) := (LastUserChallenge(d, h), LastDeviceChallenge(d, h), LastFinalize(d, h));
    match call
    case NewAccountRequest(args) =>
      if directory.None? then Missing("directoryResponse", reply)
      else Sent(d, NewAccount(directory.value, args), reply)
    case NewOrderRequest(args) =>
      if directory.None? then Missing("directoryResponse", reply)
      else if account.None? then Missing("newAccountResponse", reply)
      else Sent(d, NewOrder(directory.value, account.value, args), reply)
    case NewAuthzRequest(args) =>
      if account.None? then Missing("newAccountResponse", reply)
      else Sent(d, NewAuthz(account.value, args), reply)
    case CreateDpopToken(args) =>
      if device.None? then Missing("newAuthzResponse", reply) else Sent(d, DpopToken(device.value, args), reply)
    case NewDpopChallengeRequest(args) =>
      if device.None? then Missing("newAuthzResponse", reply)
      else if account.None? then Missing("newAccountResponse", reply)
      else Sent(d, DpopChallenge(device.value, account.value, args), reply)
    case NewOidcChallengeRequest(args, token) =>
      if token == "" then reply == Err(InvalidRefreshToken)
      else if user.None? then Missing("newAuthzResponse", reply)
      else if account.None? then Missing("newAccountResponse", reply)
      else Sent(d, OidcChallenge(user.value, account.value, args), reply)
    case CheckOrderRequest(args) =>
      if account.None? then Missing("newAccountResponse", reply)
      else Sent(d, CheckOrder(account.value, args), reply)
    case FinalizeRequest(args) =>
      if account.None? then Missing("newAccountResponse", reply)
      else if order.None? then Missing("checkOrderResponse", reply)
      else Sent(d, FinalizeOrder(order.value, account.value, args), reply)
    case CertificateRequest(args) =>
      if account.None? then Missing("newAccountResponse", reply)
      else if finalize.None? then Missing("finalizeResponse", reply)
      else Sent(d, FetchCertificate(finalize.value, account.value, args), reply)
    case _ => true
  }

  /** The responses, and the question for the token. */
  ghost predicate ResponseAnswered(d: Delegate, h: History, call: Call, reply: Reply) {
    match call
    case DirectoryResponse(json) =>
      if d.directory(json).Some? then reply == Ok(TheDirectory(d.directory(json).value))
      else reply == Err(DelegateError)
    case NewAccountResponse(json) => reply == if d.account(json).Some? then Ok(Done) else Err(DelegateError)
    case NewOrderResponse(json) => reply == if d.newOrder(json) then Ok(Done) else Err(DelegateError)
    case NewAuthzResponse(json) =>
      if d.authz(json).Some? && d.authzAnswer(d.authz(json).value) then reply == Ok(TheAuthz(d.authz(json).value))
      else reply == Err(DelegateError)
    case NewDpopChallengeResponse(json) => reply == if d.challenge(json) then Ok(Done) else Err(DelegateError)
    case NewOidcChallengeResponse(json, writable) =>
      if !d.challenge(json) then reply == Err(DelegateError)
      else if LastToken(h).None? then Missing("new_oidc_challenge_request", reply)
      else reply == if writable then Ok(Done) else Err(KeystoreError)
    case CheckOrderResponse(json) =>
      if d.order(json).Some? then reply == Ok(TheOrder(d.order(json).value)) else reply == Err(DelegateError)
    case FinalizeResponse(json) =>
      if d.finalize(json).Some? then reply == Ok(TheFinalize(d.finalize(json).value)) else reply == Err(DelegateError)
    case GetRefreshToken =>
      if LastToken(h).None? then Missing("No OIDC refresh token registered yet or it has been persisted", reply)
      else reply == Ok(Token(LastToken(h).value))
    case _ => true
  }

  /** A slot that a request needs was not filled, or was taken since. */
  ghost predicate Misses(d: Delegate, h: History, call: Call) {
    match call
    case NewAccountRequest(_) => LastDirectory(d, h).None?
    case NewOrderRequest(_) => LastDirectory(d, h).None? || LastAccount(d, h).None?
    case NewAuthzRequest(_) => LastAccount(d, h).None?
    case CreateDpopToken(_) => LastDeviceChallenge(d, h).None?
    case NewDpopChallengeRequest(_) => LastDeviceChallenge(d, h).None? || LastAccount(d, h).None?
    case NewOidcChallengeRequest(_, token) =>
      token != "" && (LastUserChallenge(d, h).None? || LastAccount(d, h).None?)
    case CheckOrderRequest(_) => LastAccount(d, h).None?
    case FinalizeRequest(_) => LastAccount(d, h).None? || LastOrder(d, h).None?
    case CertificateRequest(_) => LastAccount(d, h).None? || LastFinalize(d, h).None?
    case NewOidcChallengeResponse(json, _) => d.challenge(json) && LastToken(h).None?
    case GetRefreshToken => LastToken(h).None?
    case _ => false
  }

  // ----- the slots follow the history -----

  function SlotsOf(d: Delegate, h: History): (e: Enrollment)
  {
    var (user, device) := (LastUserChallenge(d, h), LastDeviceChallenge(d, h));
    Enrollment(
      LastDirectory(d, h),
      LastAccount(d, h),
      if user.None? then None else Some(User(user.value)),
      if device.None? then None else Some(Device(device.value)),
      LastOrder(d, h),
      LastFinalize(d, h),
      LastToken(h))
  }

  lemma {:induction false} LatestOneMore<V>(
      events: seq<Event>, last: Event, leaves: Event -> Option<V>, takes: Event -> bool, start: Option<V>)
    ensures Latest(events + [last], leaves, takes, start) ==
      if takes(last) then None
      else if leaves(last).Some? then leaves(last)
      else Latest(events, leaves, takes, start)
  {
    assert (events + [last])[..|events|] == events;
  }

  function Then(h: History, call: Call, reply: Reply): (h': History)
  {
    h.(events := h.events + [(call, reply)])
  }

  /** Each slot after one more event. */
  lemma {:induction false} SlotsThen(d: Delegate, h: History, call: Call, reply: Reply)
    ensures var (h', event) := (Then(h, call, reply), (call, reply));
      && LastDirectory(d, h') == (if DirectoryIn(d)(event).Some? then DirectoryIn(d)(event) else LastDirectory(d, h))
      && LastAccount(d, h') ==
           (if TakesAccount(event) then None
            else if AccountIn(d)(event).Some? then AccountIn(d)(event) else LastAccount(d, h))
      && LastUserChallenge(d, h') ==
           (if UserChallengeIn(d)(event).Some? then UserChallengeIn(d)(event) else LastUserChallenge(d, h))
      && LastDeviceChallenge(d, h') ==
           (if DeviceChallengeIn(d)(event).Some? then DeviceChallengeIn(d)(event) else LastDeviceChallenge(d, h))
      && LastOrder(d, h') == (if OrderIn(d)(event).Some? then OrderIn(d)(event) else LastOrder(d, h))
      && LastFinalize(d, h') ==
           (if TakesFinalize(event) then None
            else if FinalizeIn(d)(event).Some? then FinalizeIn(d)(event) else LastFinalize(d, h))
      && LastToken(h') ==
           (if TakesToken(event) then None
            else if TokenIn(event).Some? then TokenIn(event) else LastToken(h))
  {
    hide Latest, DirectoryIn, AccountIn, UserChallengeIn, DeviceChallengeIn, OrderIn, FinalizeIn;
    hide TokenIn, TakesAccount, TakesFinalize, TakesToken;
    LatestOneMore(h.events, (call, reply), DirectoryIn(d), Never, None);
    LatestOneMore(h.events, (call, reply), AccountIn(d), TakesAccount, None);
    LatestOneMore(h.events, (call, reply), UserChallengeIn(d), Never, None);
    LatestOneMore(h.events, (call, reply), DeviceChallengeIn(d), Never, None);
    LatestOneMore(h.events, (call, reply), OrderIn(d), Never, None);
    LatestOneMore(h.events, (call, reply), FinalizeIn(d), TakesFinalize, None);
    LatestOneMore(h.events, (call, reply), TokenIn, TakesToken, h.begun);
  }

  /** One call on an enrollment with this past: its answer. */
  lemma {:induction false} StepAnswers(d: Delegate, h: History, stored: Option<string>, call: Call)
    ensures var reply := Step(d, World(SlotsOf(d, h), stored), call).1;
      RequestAnswered(d, h, call, reply) && ResponseAnswered(d, h, call, reply)
  {
    hide LastDirectory, LastAccount, LastUserChallenge, LastDeviceChallenge, LastOrder, LastFinalize, LastToken;
  }

  /** And its slots afterwards. */
  lemma {:induction false} StepFollows(d: Delegate, h: History, stored: Option<string>, call: Call)
    ensures var (w, reply) := Step(d, World(SlotsOf(d, h), stored), call);
      && w.e == SlotsOf(d, Then(h, call, reply))
      && w.stored == (if call.NewOidcChallengeResponse? && reply.Ok? then LastToken(h) else stored)
  {
    var reply := Step(d, World(SlotsOf(d, h), stored), call).1;
    SlotsThen(d, h, call, reply);
    hide LastDirectory, LastAccount, LastUserChallenge, LastDeviceChallenge, LastOrder, LastFinalize, LastToken, Then;
  }

  /** A call answers that it came out of order exactly when a slot it needs was not filled, or was taken since. */
  lemma {:induction false} OutOfOrderWhen(d: Delegate, h: History, call: Call, reply: Reply)
    requires RequestAnswered(d, h, call, reply) && ResponseAnswered(d, h, call, reply)
    ensures (reply.Err? && reply.error.OutOfOrder?) <==> Misses(d, h, call)
  {
    hide LastDirectory, LastAccount, LastUserChallenge, LastDeviceChallenge, LastOrder, LastFinalize, LastToken;
  }

  // ----- several enrollments -----

  /** The past of the enrollment the consumer holds, and of the stashed ones. */
  datatype Histories = Histories(active: Option<History>, stash: map<Handle, History>)

  function Recorded(hs: Histories, call: SystemCall, reply: SystemReply): (hs': Histories)
  {
    match call
    case New(token) => hs.(active := Some(History(token, [])))
    case On(c) =>
      if hs.active.Some? && reply.Replied? then hs.(active := Some(Then(hs.active.value, c, reply.reply))) else hs
    case Complete(_) => hs.(active := None)
    case Stash(_, _) =>
      if hs.active.Some? && reply.Stashed? then Histories(None, hs.stash[reply.handle := hs.active.value])
      else hs.(active := None)
    case Pop(key, _) =>
      if key in hs.stash && reply == Started then Histories(Some(hs.stash[key]), hs.stash - {key}) else hs
  }

  /** What each call on the system answers, given the histories before it. */
  ghost predicate SystemAnswered(d: Delegate, serde: Serde, hs: Histories, call: SystemCall, reply: SystemReply) {
    match call
    case New(_) => reply == Started
    case On(c) =>
      if hs.active.None? then reply == Failed
      else
        && reply.Replied?
        && RequestAnswered(d, hs.active.value, c, reply.reply) && ResponseAnswered(d, hs.active.value, c, reply.reply)
    case Complete(chain) =>
      if hs.active.None? then reply == Failed
      else
        && reply.Replied?
        && var order := LastOrder(d, hs.active.value);
           if order.None? then Missing("checkOrderResponse", reply.reply)
           else
             reply.reply == if d.certificate(chain, order.value).Some?
                            then Ok(Body(d.certificate(chain, order.value).value)) else Err(DelegateError)
    case Stash(handle, writable) =>
      reply ==
        if hs.active.Some? && serde.write(SlotsOf(d, hs.active.value)).Some?
           && handle.Some? && handle.value !in hs.stash && writable
        then Stashed(handle.value) else Failed
    case Pop(key, writable) => reply == if key in hs.stash && writable then Started else Failed
  }

  /** The slots of every enrollment are those of its history. */
  ghost predicate Tracks(d: Delegate, serde: Serde, s: System, hs: Histories) {
    && s.active == (if hs.active.Some? then Some(SlotsOf(d, hs.active.value)) else None)
    && s.stash.Keys == hs.stash.Keys
    && forall k :: k in s.stash ==> serde.read(s.stash[k]) == Some(SlotsOf(d, hs.stash[k]))
  }

  lemma {:induction false} CallTracks(d: Delegate, serde: Serde, s: System, hs: Histories, c: Call)
    requires Tracks(d, serde, s, hs)
    ensures var (s', reply) := SystemStep(d, serde, s, On(c));
      SystemAnswered(d, serde, hs, On(c), reply) && Tracks(d, serde, s', Recorded(hs, On(c), reply))
  {
    if hs.active.Some? {
      StepAnswers(d, hs.active.value, s.stored, c);
      StepFollows(d, hs.active.value, s.stored, c);
      hide SlotsOf, Step, RequestAnswered, ResponseAnswered, Then;
    }
  }

  lemma {:induction false} StepTracks(d: Delegate, serde: Serde, s: System, hs: Histories, call: SystemCall)
    requires serde.Lawful() && Tracks(d, serde, s, hs)
    ensures var (s', reply) := SystemStep(d, serde, s, call);
      SystemAnswered(d, serde, hs, call, reply) && Tracks(d, serde, s', Recorded(hs, call, reply))
  {
    if call.On? {
      hide SystemStep, Tracks, SystemAnswered, Recorded;
      CallTracks(d, serde, s, hs, call.call);
    } else if call.Stash? || call.Pop? {
      hide SystemStep, Tracks, SystemAnswered, Recorded;
      StashTracks(d, serde, s, hs, call);
    } else {
      assert SlotsOf(d, History(if call.New? then call.refreshToken else None, [])) ==
        Begin(if call.New? then call.refreshToken else None);
      assert hs.active.Some? ==> SlotsOf(d, hs.active.value).validOrder == LastOrder(d, hs.active.value);
      hide SlotsOf, LastOrder, Begin;
    }
  }

  lemma {:induction false} StashTracks(d: Delegate, serde: Serde, s: System, hs: Histories, call: SystemCall)
    requires serde.Lawful() && Tracks(d, serde, s, hs) && (call.Stash? || call.Pop?)
    ensures var (s', reply) := SystemStep(d, serde, s, call);
      SystemAnswered(d, serde, hs, call, reply) && Tracks(d, serde, s', Recorded(hs, call, reply))
  {
    hide SlotsOf;
  }

  /** The histories after these calls, from their replies alone. */
  function RecordedAll(hs: Histories, calls: seq<SystemCall>, replies: seq<SystemReply>): (hs': Histories)
    requires |calls| == |replies|
    decreases |calls|
  {
    if calls == [] then hs else RecordedAll(Recorded(hs, calls[0], replies[0]), calls[1..], replies[1..])
  }

  lemma {:induction false} RunTracks(
      d: Delegate, serde: Serde, s: System, hs: Histories, calls: seq<SystemCall>, i: nat)
    requires serde.Lawful() && Tracks(d, serde, s, hs) && i < |calls|
    ensures var replies := Run(SystemMachine(d, serde), s, calls).1;
      SystemAnswered(d, serde, RecordedAll(hs, calls[..i], replies[..i]), calls[i], replies[i])
    decreases |calls|
  {
    var (s1, reply) := SystemStep(d, serde, s, calls[0]);
    var replies := Run(SystemMachine(d, serde), s, calls).1;
    assert replies[0] == reply && replies[1..] == Run(SystemMachine(d, serde), s1, calls[1..]).1;
    hide SystemStep, Tracks, SystemAnswered, Recorded;
    StepTracks(d, serde, s, hs, calls[0]);
    if i > 0 {
      RunTracks(d, serde, s1, Recorded(hs, calls[0], reply), calls[1..], i - 1);
      assert calls[..i][1..] == calls[1..][..i - 1] && replies[..i][1..] == replies[1..][..i - 1];
    }
  }

  /**
   In every run, with any enrollments begun, stashed, popped and completed, each call is answered by
   the history of the enrollment it meets: a request is built from what the last responses held, and
   comes out of order only when one of those it needs is missing or was taken since.
   */
  lemma {:induction false} RunAnswers(
      d: Delegate, serde: Serde, stored: Option<string>, calls: seq<SystemCall>, i: nat)
    requires serde.Lawful() && i < |calls|
    ensures var replies := Run(SystemMachine(d, serde), Empty(stored), calls).1;
      SystemAnswered(d, serde, RecordedAll(Histories(None, map[]), calls[..i], replies[..i]), calls[i], replies[i])
  {
    assert Tracks(d, serde, Empty(stored), Histories(None, map[]));
    hide Tracks, Empty, SystemStep, SystemAnswered;
    RunTracks(d, serde, Empty(stored), Histories(None, map[]), calls, i);
  }

  // ----- an enrollment that goes well -----

  /** The responses and arguments of an enrollment, in the order of the calls. */
  datatype Course = Course(
    directory: Json, account: Json, order: Json, user: Json, device: Json, dpop: Json, oidc: Json, check: Json,
    finalize: Json, args: Args, token: string)

  /** All responses can be read, and every request can be built. */
  ghost predicate GoesWell(d: Delegate, x: Course) {
    && (forall request :: d.build(request).Some?) && (forall authz :: d.authzAnswer(authz))
    && d.directory(x.directory).Some? && d.account(x.account).Some? && d.newOrder(x.order)
    && d.authz(x.user).Some? && d.authz(x.user).value.User?
    && d.authz(x.device).Some? && d.authz(x.device).value.Device?
    && d.challenge(x.dpop) && d.challenge(x.oidc)
    && d.order(x.check).Some? && d.finalize(x.finalize).Some? && x.token != ""
  }

  const FLOW_PARTS := 6

  /** The calls of the nominal flow up to the certificate request, three at a time. */
  function Part(x: Course, n: nat): (calls: seq<Call>)
    requires n < FLOW_PARTS
  {
    match n
    case 0 => [DirectoryResponse(x.directory), NewAccountRequest(x.args), NewAccountResponse(x.account)]
    case 1 => [NewOrderRequest(x.args), NewOrderResponse(x.order), NewAuthzRequest(x.args)]
    case 2 => [NewAuthzResponse(x.user), NewAuthzRequest(x.args), NewAuthzResponse(x.device)]
    case 3 => [CreateDpopToken(x.args), NewDpopChallengeRequest(x.args), NewDpopChallengeResponse(x.dpop)]
    case 4 =>
      [NewOidcChallengeRequest(x.args, x.token), NewOidcChallengeResponse(x.oidc, true), CheckOrderRequest(x.args)]
    case 5 => [CheckOrderResponse(x.check), FinalizeRequest(x.args), FinalizeResponse(x.finalize)]
  }

  function Flow(x: Course, n: nat): (calls: seq<Call>)
    requires n <= FLOW_PARTS
  {
    if n == 0 then [] else Flow(x, n - 1) + Part(x, n - 1)
  }

  /** What is filled after `n` parts. */
  ghost predicate Filled(d: Delegate, x: Course, w: World, n: nat) {
    && (n >= 1 ==> w.e.directory == d.directory(x.directory) && w.e.account == d.account(x.account))
    && (n >= 3 ==> w.e.userAuthz == d.authz(x.user) && w.e.deviceAuthz == d.authz(x.device))
    && (n >= 5 ==> w.stored == Some(x.token) && w.e.refreshToken == None)
    && (n >= 6 ==> w.e.validOrder == d.order(x.check) && w.e.finalize == d.finalize(x.finalize))
  }

  ghost predicate AllOk(replies: seq<Reply>) {
    forall i :: 0 <= i < |replies| ==> replies[i].Ok?
  }

  lemma {:induction false} AllOkAppend(a: seq<Reply>, b: seq<Reply>)
    requires AllOk(a) && AllOk(b)
    ensures AllOk(a + b)
  {
  }

  lemma {:induction false} PartGoesWell(d: Delegate, x: Course, w: World, n: nat)
    requires GoesWell(d, x) && n < FLOW_PARTS && Filled(d, x, w, n)
    ensures var (w', replies) := Run(Machine(d), w, Part(x, n));
      AllOk(replies) && Filled(d, x, w', n + 1)
  {
    var calls := Part(x, n);
    assert calls == [calls[0], calls[1], calls[2]];
    RunThree(Machine(d), w, calls[0], calls[1], calls[2]);
    var (w1, r0) := Step(d, w, calls[0]);
    var (w2, r1) := Step(d, w1, calls[1]);
    var (w3, r2) := Step(d, w2, calls[2]);
    hide Run;
  }

  lemma {:induction false} FlowGoesWell(d: Delegate, x: Course, w: World, n: nat)
    requires GoesWell(d, x) && n <= FLOW_PARTS
    ensures var (w', replies) := Run(Machine(d), w, Flow(x, n));
      AllOk(replies) && Filled(d, x, w', n)
  {
    if n == 0 {
      assert Run(Machine(d), w, Flow(x, 0)) == (w, []);
    } else {
      assert Flow(x, n) == Flow(x, n - 1) + Part(x, n - 1);
      hide *;
      FlowGoesWell(d, x, w, n - 1);
      var (w', replies) := Run(Machine(d), w, Flow(x, n - 1));
      PartGoesWell(d, x, w', n - 1);
      RunAppend(Machine(d), w, Flow(x, n - 1), Part(x, n - 1));
      AllOkAppend(replies, Run(Machine(d), w', Part(x, n - 1)).1);
    }
  }

  function OnAll(calls: seq<Call>): (r: seq<SystemCall>)
    ensures |r| == |calls| && forall i :: 0 <= i < |r| ==> r[i] == On(calls[i])
  {
    seq(|calls|, i requires 0 <= i < |calls| => On(calls[i]))
  }

  /** Calls on the active enrollment, among all the others. */
  lemma {:induction false} RunOn(d: Delegate, serde: Serde, s: System, calls: seq<Call>)
    requires s.active.Some?
    ensures var (w, replies) := Run(Machine(d), World(s.active.value, s.stored), calls);
      var (s', seen) := Run(SystemMachine(d, serde), s, OnAll(calls));
      s' == System(Some(w.e), s.stash, w.stored) && forall i :: 0 <= i < |calls| ==> seen[i] == Replied(replies[i])
    decreases |calls|
  {
    if calls != [] {
      hide Step;
      var s1 := SystemStep(d, serde, s, On(calls[0])).0;
      assert OnAll(calls)[1..] == OnAll(calls[1..]);
      RunOn(d, serde, s1, calls[1..]);
    }
  }

  /**
   The nominal flow succeeds, whatever the enrollment went through before and whatever is stashed: no
   call fails, the token is stored, and the certificate is requested from the account and finalize
   responses of this flow and completed with its order.
   */
  lemma {:induction false} NominalFlow(d: Delegate, serde: Serde, s: System, x: Course, chain: Json)
    requires GoesWell(d, x) && s.active.Some? && d.certificate(chain, d.order(x.check).value).Some?
    ensures var (s1, seen) := Run(SystemMachine(d, serde), s, OnAll(Flow(x, FLOW_PARTS)));
      var (s2, certificate) := SystemStep(d, serde, s1, On(CertificateRequest(x.args)));
      var (s3, complete) := SystemStep(d, serde, s2, Complete(chain));
      && (forall i :: 0 <= i < |seen| ==> Succeeds(seen[i])) && s1.stored == Some(x.token)
      && certificate == Replied(Ok(Body(
           d.build(FetchCertificate(d.finalize(x.finalize).value, d.account(x.account).value, x.args)).value)))
      && complete == Replied(Ok(Body(d.certificate(chain, d.order(x.check).value).value)))
  {
    var w := World(s.active.value, s.stored);
    FlowGoesWell(d, x, w, FLOW_PARTS);
    RunOn(d, serde, s, Flow(x, FLOW_PARTS));
    hide Run, Flow, Fill, Borrow, PersistToken;
  }
}
