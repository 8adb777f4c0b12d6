/** What holds over whole runs of enrollments. */
module EnrollmentLaws {
  import opened Wrappers
  import opened Machines
  import opened Enrollments

  function Machine(d: Delegate): (World, Call) -> (World, Reply)
  {
    (w, call) => Step(d, w, call)
  }

  function SystemMachine(d: Delegate, serde: Serde): (System, SystemCall) -> (System, SystemReply)
  {
    (s, call) => SystemStep(d, serde, s, call)
  }

  /** Nothing enrolled or stashed yet. */
  function Empty(stored: Option<string>): (s: System)
  {
    System(None, map[], stored)
  }

  // ----- the authorization slots -----

  /** Each authorization sits in the slot of its kind. */
  ghost predicate Typed(e: Enrollment) {
    && (e.userAuthz.Some? ==> e.userAuthz.value.User?)
    && (e.deviceAuthz.Some? ==> e.deviceAuthz.value.Device?)
  }

  ghost predicate TypedSystem(serde: Serde, s: System) {
    && (s.active.Some? ==> Typed(s.active.value))
    && forall h :: h in s.stash ==> serde.read(s.stash[h]).Some? ==> Typed(serde.read(s.stash[h]).value)
  }

  lemma {:induction false} StepTyped(d: Delegate, w: World, call: Call)
    requires Typed(w.e)
    ensures Typed(Step(d, w, call).0.e) && Step(d, w, call).1 != Err(ImplementationError)
  {
  }

  lemma {:induction false} SystemStepTyped(d: Delegate, serde: Serde, s: System, call: SystemCall)
    requires serde.Lawful() && TypedSystem(serde, s)
    ensures TypedSystem(serde, SystemStep(d, serde, s, call).0)
    ensures SystemStep(d, serde, s, call).1 != Replied(Err(ImplementationError))
  {
    if call.On? && s.active.Some? {
      StepTyped(d, World(s.active.value, s.stored), call.call);
    }
    hide Step, Typed;
  }

  /** Whatever is called, stashed and popped, the branches that report an implementation error are not reached. */
  lemma {:induction false} NoImplementationError(
      d: Delegate, serde: Serde, stored: Option<string>, calls: seq<SystemCall>, i: nat)
    requires serde.Lawful() && i < |calls|
    ensures Run(SystemMachine(d, serde), Empty(stored), calls).1[i] != Replied(Err(ImplementationError))
  {
    var step := SystemMachine(d, serde);
    forall s, call | TypedSystem(serde, s)
      ensures TypedSystem(serde, step(s, call).0) && step(s, call).1 != Replied(Err(ImplementationError))
    {
      SystemStepTyped(d, serde, s, call);
    }
    assert TypedSystem(serde, Empty(stored));
    hide SystemStep, TypedSystem, Empty;
    RunReplies(
      step, s => TypedSystem(serde, s), (call, reply) => reply != Replied(Err(ImplementationError)),
      Empty(stored), calls);
  }

  // ----- certificates -----

  function CertificateOk(call: SystemCall, reply: SystemReply): bool
  {
    call.On? && call.call.CertificateRequest? && reply.Replied? && reply.reply.Ok?
  }

  function AccountOk(call: SystemCall, reply: SystemReply): bool
  {
    call.On? && call.call.NewAccountResponse? && reply.Replied? && reply.reply.Ok?
  }

  function FinalizeOk(call: SystemCall, reply: SystemReply): bool
  {
    call.On? && call.call.FinalizeResponse? && reply.Replied? && reply.reply.Ok?
  }

  /** The stashed enrollments that `has` holds of. */
  function StashedWith(serde: Serde, stash: map<Handle, Content>, has: Enrollment -> bool): (r: set<Handle>)
  {
    set h | h in stash && serde.read(stash[h]).Some? && has(serde.read(stash[h]).value)
  }

  /** How many enrollments `has` holds of, stashed ones included. */
  function Credit(serde: Serde, has: Enrollment -> bool, s: System): (n: nat)
  {
    |StashedWith(serde, s.stash, has)| + if s.active.Some? && has(s.active.value) then 1 else 0
  }

  /** A slot that only one kind of call fills, and that a certificate takes. */
  ghost predicate Consumable(d: Delegate, has: Enrollment -> bool, fills: (SystemCall, SystemReply) -> bool) {
    && (forall token :: !has(Begin(token)))
    && (forall w, call :: var (w', reply) := Step(d, w, call);
         && (has(w'.e) ==> has(w.e) || fills(On(call), Replied(reply)))
         && (CertificateOk(On(call), Replied(reply)) ==> has(w.e) && !has(w'.e)))
    && (forall call, reply :: fills(call, reply) ==> call.On?)
  }

  lemma {:induction false} StashKeepsCredit(
      serde: Serde, has: Enrollment -> bool, s: System, handle: Option<Handle>, writable: bool)
    requires serde.Lawful() && s.active.Some?
    ensures Credit(serde, has, StashOne(serde, s, handle, writable).0) <= Credit(serde, has, s)
  {
    var s' := StashOne(serde, s, handle, writable).0;
    if s'.stash != s.stash {
      var stashed := StashedWith(serde, s.stash, has);
      if has(s.active.value) {
        assert StashedWith(serde, s'.stash, has) == stashed + {handle.value};
      } else {
        assert StashedWith(serde, s'.stash, has) == stashed;
      }
    }
  }

  lemma {:induction false} PopKeepsCredit(
      serde: Serde, has: Enrollment -> bool, s: System, handle: Handle, writable: bool)
    ensures Credit(serde, has, PopOne(serde, s, handle, writable).0) <= Credit(serde, has, s)
  {
    var s' := PopOne(serde, s, handle, writable).0;
    if s'.stash != s.stash {
      assert StashedWith(serde, s'.stash, has) == StashedWith(serde, s.stash, has) - {handle};
    }
  }

  lemma {:induction false} StepPays(
      d: Delegate, serde: Serde, has: Enrollment -> bool, fills: (SystemCall, SystemReply) -> bool, s: System,
      call: SystemCall)
    requires serde.Lawful() && Consumable(d, has, fills)
    ensures var (s', reply) := SystemStep(d, serde, s, call);
      Credit(serde, has, s') + (if CertificateOk(call, reply) then 1 else 0)
      <= Credit(serde, has, s) + if fills(call, reply) then 1 else 0
  {
    match call
    case New(token) =>
    case Pop(handle, writable) =>
      PopKeepsCredit(serde, has, s, handle, writable);
    case Stash(handle, writable) =>
      if s.active.Some? {
        StashKeepsCredit(serde, has, s, handle, writable);
      }
    case Complete(_) =>
    case On(c) =>
      if s.active.Some? {
        hide Step;
        var (w', reply) := Step(d, World(s.active.value, s.stored), c);
      }
  }

  /** Certificates cost one filled slot each: in every run there are no more of them than slots were filled. */
  lemma {:induction false} CertificatesCost(
      d: Delegate, serde: Serde, has: Enrollment -> bool, fills: (SystemCall, SystemReply) -> bool,
      stored: Option<string>, calls: seq<SystemCall>)
    requires serde.Lawful() && Consumable(d, has, fills)
    ensures var replies := Run(SystemMachine(d, serde), Empty(stored), calls).1;
      Count(calls, replies, CertificateOk) <= Count(calls, replies, fills)
  {
    var step := SystemMachine(d, serde);
    forall s, call
      ensures var (s', reply) := step(s, call);
        Credit(serde, has, s') + (if CertificateOk(call, reply) then 1 else 0)
        <= Credit(serde, has, s) + if fills(call, reply) then 1 else 0
    {
      StepPays(d, serde, has, fills, s, call);
    }
    assert StashedWith(serde, map[], has) == {};
    assert Credit(serde, has, Empty(stored)) == 0;
    hide SystemStep, Credit, CertificateOk, Consumable;
    RunPays(step, s => true, s => Credit(serde, has, s), fills, CertificateOk, Empty(stored), calls);
  }

  lemma {:induction false} CertificatesNeedAccounts(
      d: Delegate, serde: Serde, stored: Option<string>, calls: seq<SystemCall>)
    requires serde.Lawful()
    ensures var replies := Run(SystemMachine(d, serde), Empty(stored), calls).1;
      Count(calls, replies, CertificateOk) <= Count(calls, replies, AccountOk)
  {
    var has := (e: Enrollment) => e.account.Some?;
    assert Consumable(d, has, AccountOk);
    hide Consumable;
    CertificatesCost(d, serde, has, AccountOk, stored, calls);
  }

  lemma {:induction false} CertificatesNeedFinalize(
      d: Delegate, serde: Serde, stored: Option<string>, calls: seq<SystemCall>)
    requires serde.Lawful()
    ensures var replies := Run(SystemMachine(d, serde), Empty(stored), calls).1;
      Count(calls, replies, CertificateOk) <= Count(calls, replies, FinalizeOk)
  {
    var has := (e: Enrollment) => e.finalize.Some?;
    assert Consumable(d, has, FinalizeOk);
    hide Consumable;
    CertificatesCost(d, serde, has, FinalizeOk, stored, calls);
  }

  /** The requests that need an account. */
  predicate NeedsAccount(call: Call) {
    call.NewOrderRequest? || call.NewAuthzRequest? || call.NewDpopChallengeRequest? || call.NewOidcChallengeRequest?
    || call.CheckOrderRequest? || call.FinalizeRequest? || call.CertificateRequest?
  }

  ghost predicate HasAccount(e: Enrollment) {
    e.account.Some?
  }

  /** The consumer holds no account, and what is stashed with one is stashed under these handles. */
  ghost predicate AccountsUnder(serde: Serde, s: System, handles: set<Handle>) {
    (s.active.Some? ==> !HasAccount(s.active.value)) && StashedWith(serde, s.stash, HasAccount) <= handles
  }

  /** What brings an account to the consumer: the response to its creation, or a pop under one of these handles. */
  predicate Brings(handles: set<Handle>, call: SystemCall, reply: SystemReply) {
    AccountOk(call, reply) || (call.Pop? && call.key in handles && reply == Started)
  }

  lemma {:induction false} StepWithoutAccount(d: Delegate, w: World, call: Call)
    requires !HasAccount(w.e)
    ensures var (w', reply) := Step(d, w, call);
      && (reply.Ok? ==> !NeedsAccount(call))
      && (HasAccount(w'.e) ==> AccountOk(On(call), Replied(reply)))
  {
  }

  lemma {:induction false} StashAccounts(
      serde: Serde, s: System, handle: Option<Handle>, writable: bool, handles: set<Handle>)
    requires serde.Lawful() && s.active.Some? && AccountsUnder(serde, s, handles)
    ensures AccountsUnder(serde, StashOne(serde, s, handle, writable).0, handles)
  {
    var s' := StashOne(serde, s, handle, writable).0;
    if s'.stash != s.stash {
      assert StashedWith(serde, s'.stash, HasAccount) == StashedWith(serde, s.stash, HasAccount);
    }
  }

  lemma {:induction false} PopAccounts(serde: Serde, s: System, key: Handle, writable: bool, handles: set<Handle>)
    requires AccountsUnder(serde, s, handles)
    requires !Brings(handles, Pop(key, writable), PopOne(serde, s, key, writable).1)
    ensures AccountsUnder(serde, PopOne(serde, s, key, writable).0, handles)
  {
    var s' := PopOne(serde, s, key, writable).0;
    if s'.stash != s.stash {
      assert StashedWith(serde, s'.stash, HasAccount) == StashedWith(serde, s.stash, HasAccount) - {key};
    }
  }

  lemma {:induction false} OtherAccounts(d: Delegate, serde: Serde, s: System, call: SystemCall, handles: set<Handle>)
    requires AccountsUnder(serde, s, handles) && !call.Pop? && !call.Stash?
    requires !Brings(handles, call, SystemStep(d, serde, s, call).1)
    ensures AccountsUnder(serde, SystemStep(d, serde, s, call).0, handles)
  {
    if call.On? && s.active.Some? {
      StepWithoutAccount(d, World(s.active.value, s.stored), call.call);
    }
    hide Step, StashedWith;
  }

  lemma {:induction false} StepAccounts(d: Delegate, serde: Serde, s: System, call: SystemCall, handles: set<Handle>)
    requires serde.Lawful() && AccountsUnder(serde, s, handles)
    requires !Brings(handles, call, SystemStep(d, serde, s, call).1)
    ensures AccountsUnder(serde, SystemStep(d, serde, s, call).0, handles)
  {
    hide AccountsUnder, StashOne, PopOne;
    match call
    case Pop(key, writable) => PopAccounts(serde, s, key, writable, handles);
    case Stash(handle, writable) =>
      if s.active.Some? {
        StashAccounts(serde, s, handle, writable, handles);
      }
    case _ => OtherAccounts(d, serde, s, call, handles);
  }

  predicate Succeeds(reply: SystemReply) {
    reply.Replied? && reply.reply.Ok?
  }

  lemma {:induction false} WithoutAccount(
      d: Delegate, serde: Serde, s: System, handles: set<Handle>, calls: seq<SystemCall>, i: nat)
    requires serde.Lawful() && AccountsUnder(serde, s, handles)
    requires i < |calls| && calls[i].On? && NeedsAccount(calls[i].call)
    requires forall j :: 0 <= j < i ==> !Brings(handles, calls[j], Run(SystemMachine(d, serde), s, calls).1[j])
    ensures !Succeeds(Run(SystemMachine(d, serde), s, calls).1[i])
    decreases |calls|
  {
    var step := SystemMachine(d, serde);
    var (s1, reply) := SystemStep(d, serde, s, calls[0]);
    var replies := Run(step, s, calls).1;
    assert replies[0] == reply && replies[1..] == Run(step, s1, calls[1..]).1;
    if i == 0 {
      if s.active.Some? {
        StepWithoutAccount(d, World(s.active.value, s.stored), calls[0].call);
      }
    } else {
      hide SystemStep, AccountsUnder, Brings;
      StepAccounts(d, serde, s, calls[0], handles);
      forall j | 0 <= j < i - 1
        ensures !Brings(handles, calls[1..][j], replies[1..][j])
      {
        assert calls[1..][j] == calls[j + 1] && replies[1..][j] == replies[j + 1];
      }
      WithoutAccount(d, serde, s1, handles, calls[1..], i - 1);
    }
  }

  lemma {:induction false} CertificateTakesAccount(d: Delegate, serde: Serde, s: System, args: Args)
    requires s.active.Some?
    ensures var s' := SystemStep(d, serde, s, On(CertificateRequest(args))).0;
      AccountsUnder(serde, s', StashedWith(serde, s.stash, HasAccount))
  {
  }

  /**
   After a certificate request, successful or not, no request that needs an account succeeds, however
   the enrollment is stashed and popped or replaced in between, until an account response is read
   again, or an enrollment is popped that had been stashed with its account before.
   */
  lemma {:induction false} CertificateSpendsAccount(
      d: Delegate, serde: Serde, s: System, args: Args, calls: seq<SystemCall>, i: nat)
    requires serde.Lawful() && s.active.Some?
    requires i < |calls| && calls[i].On? && NeedsAccount(calls[i].call)
    requires var (s', handles) :=
        (SystemStep(d, serde, s, On(CertificateRequest(args))).0, StashedWith(serde, s.stash, HasAccount));
      forall j :: 0 <= j < i ==> !Brings(handles, calls[j], Run(SystemMachine(d, serde), s', calls).1[j])
    ensures var s' := SystemStep(d, serde, s, On(CertificateRequest(args))).0;
      !Succeeds(Run(SystemMachine(d, serde), s', calls).1[i])
  {
    hide *;
    CertificateTakesAccount(d, serde, s, args);
    var s' := SystemStep(d, serde, s, On(CertificateRequest(args))).0;
    WithoutAccount(d, serde, s', StashedWith(serde, s.stash, HasAccount), calls, i);
  }

  // ----- stashing -----

  /** Nothing is in the way of a stash under this handle followed by a pop. */
  predicate Stashable(serde: Serde, s: System, handle: Handle) {
    s.active.Some? && serde.write(s.active.value).Some? && handle !in s.stash
  }

  /** Stash and pop give the enrollment back, and leave everything else, exactly when neither had a reason to fail. */
  lemma {:induction false} StashThenPop(
      d: Delegate, serde: Serde, s: System, handle: Handle, writable: bool, writable': bool)
    requires serde.Lawful() && s.active.Some?
    ensures var (s1, r1) := SystemStep(d, serde, s, Stash(Some(handle), writable));
      var (s2, r2) := SystemStep(d, serde, s1, Pop(handle, writable'));
      (s2 == s && r2 == Started) <==> Stashable(serde, s, handle) && writable && writable'
  {
    var s1 := SystemStep(d, serde, s, Stash(Some(handle), writable)).0;
    var s2 := SystemStep(d, serde, s1, Pop(handle, writable')).0;
    if Stashable(serde, s, handle) && writable && writable' {
      assert s.stash[handle := serde.write(s.active.value).value] - {handle} == s.stash;
    } else if handle in s.stash && writable' {
      assert handle !in s2.stash;
    }
  }

  /** Put anywhere into a run, they change no later reply and not the end of the run. */
  lemma {:induction false} StashPopIsInvisible(
      d: Delegate, serde: Serde, s: System, a: seq<SystemCall>, handle: Handle, b: seq<SystemCall>)
    requires serde.Lawful()
    requires Stashable(serde, Run(SystemMachine(d, serde), s, a).0, handle)
    ensures var (end, replies) := Run(SystemMachine(d, serde), s, a + b);
      var (end', replies') := Run(SystemMachine(d, serde), s, a + ([Stash(Some(handle), true), Pop(handle, true)] + b));
      end' == end && replies'[|a| + 2..] == replies[|a|..]
  {
    var (step, pair) := (SystemMachine(d, serde), [Stash(Some(handle), true), Pop(handle, true)]);
    var mid := Run(step, s, a).0;
    StashThenPop(d, serde, mid, handle, true, true);
    var s1 := step(mid, pair[0]).0;
    RunOne(step, s1, pair[1]);
    RunOne(step, mid, pair[0]);
    hide SystemStep;
    RunAppend(step, mid, [pair[0]], [pair[1]]);
    assert pair == [pair[0]] + [pair[1]];
    RunAppend(step, s, a, b);
    RunAppend(step, s, a, pair + b);
    RunAppend(step, mid, pair, b);
  }

  function PoppedWith(handle: Handle): (SystemCall, SystemReply) -> bool
  {
    (call: SystemCall, reply: SystemReply) => call.Pop? && call.key == handle && reply == Started
  }

  function StashedUnder(handle: Handle): (SystemCall, SystemReply) -> bool
  {
    (call: SystemCall, reply: SystemReply) => reply == Stashed(handle)
  }

  /** A handle pops at most as often as it was given out: at most once when handles do not repeat. */
  lemma {:induction false} PopsAtMostOnce(
      d: Delegate, serde: Serde, stored: Option<string>, calls: seq<SystemCall>, handle: Handle)
    ensures var replies := Run(SystemMachine(d, serde), Empty(stored), calls).1;
      Count(calls, replies, PoppedWith(handle)) <= Count(calls, replies, StashedUnder(handle))
  {
    var step := SystemMachine(d, serde);
    var credit := (s: System) => if handle in s.stash then 1 else 0;
    forall s, call
      ensures var (s', reply) := step(s, call);
        credit(s') + (if PoppedWith(handle)(call, reply) then 1 else 0)
        <= credit(s) + if StashedUnder(handle)(call, reply) then 1 else 0
    {
      hide Step;
    }
    hide SystemStep;
    RunPays(step, s => true, credit, StashedUnder(handle), PoppedWith(handle), Empty(stored), calls);
  }

  // ----- the refresh token -----

  /** A request that put this token into the enrollment. */
  predicate Supplies(call: Call, reply: Reply, token: string) {
    call.NewOidcChallengeRequest? && reply.Ok? && call.token == token && token != ""
  }

  /** A call after which the enrollment holds another token or none. */
  predicate Supersedes(call: Call, reply: Reply) {
    (call.NewOidcChallengeRequest? || call.NewOidcChallengeResponse?) && reply.Ok?
  }

  lemma {:induction false} StepToken(d: Delegate, w: World, call: Call)
    ensures var (w', reply) := Step(d, w, call);
      && (w'.e.refreshToken.Some? ==>
            || Supplies(call, reply, w'.e.refreshToken.value)
            || (!Supersedes(call, reply) && w'.e.refreshToken == w.e.refreshToken))
      && (w'.stored != w.stored ==> call.NewOidcChallengeResponse? && reply.Ok?)
      && (call.NewOidcChallengeResponse? && reply.Ok? ==>
            w.e.refreshToken.Some? && w'.stored == w.e.refreshToken && w'.e.refreshToken.None?)
  {
  }

  /** The token in memory comes from the last request that succeeded, and has not been stored since. */
  lemma {:induction false} TokenSource(d: Delegate, w: World, calls: seq<Call>) returns (j: nat)
    requires w.e.refreshToken.None?
    requires Run(Machine(d), w, calls).0.e.refreshToken.Some?
    ensures var (end, replies) := Run(Machine(d), w, calls);
      && j < |calls| && Supplies(calls[j], replies[j], end.e.refreshToken.value)
      && forall k :: j < k < |calls| ==> !Supersedes(calls[k], replies[k])
    decreases |calls|
  {
    var (step, n) := (Machine(d), |calls| - 1);
    var (init, last) := (calls[..n], calls[n]);
    assert calls == init + [last];
    var mid := Run(step, w, init).0;
    StepToken(d, mid, last);
    RunOne(step, mid, last);
    hide Step, Supplies, Supersedes;
    RunAppend(step, w, init, [last]);
    var replies := Run(step, w, calls).1;
    assert replies[n] == step(mid, last).1;
    var token := Run(step, w, calls).0.e.refreshToken;
    if Supplies(last, replies[n], token.value) {
      j := n;
    } else {
      j := TokenSource(d, w, init);
      assert forall k :: 0 <= k < n ==> init[k] == calls[k] && Run(step, w, init).1[k] == replies[k];
    }
  }

  /**
   In a run that starts without a token, each token that is stored is the non-empty one of the last
   successful request; no other was stored in between, and none is left in memory.
   */
  lemma {:induction false} StoredTokenIsLatest(d: Delegate, w: World, calls: seq<Call>) returns (j: nat)
    requires w.e.refreshToken.None? && calls != []
    requires var (call, replies) := (calls[|calls| - 1], Run(Machine(d), w, calls).1);
      call.NewOidcChallengeResponse? && replies[|calls| - 1].Ok?
    ensures var (end, replies) := Run(Machine(d), w, calls);
      && end.e.refreshToken == None && end.stored.Some?
      && j < |calls| - 1 && Supplies(calls[j], replies[j], end.stored.value)
      && forall k :: j < k < |calls| - 1 ==> !Supersedes(calls[k], replies[k])
  {
    var (step, n) := (Machine(d), |calls| - 1);
    var (init, last) := (calls[..n], calls[n]);
    assert calls == init + [last];
    var mid := Run(step, w, init).0;
    StepToken(d, mid, last);
    RunOne(step, mid, last);
    hide Step, Supplies, Supersedes;
    RunAppend(step, w, init, [last]);
    assert Run(step, w, calls).1[n] == step(mid, last).1;
    j := TokenSource(d, w, init);
    assert forall k :: 0 <= k < n ==> init[k] == calls[k] && Run(step, w, init).1[k] == Run(step, w, calls).1[k];
  }

  /** And nothing else changes the stored token. */
  lemma {:induction false} StoredTokenOnlyReplaced(d: Delegate, w: World, calls: seq<Call>)
    requires forall i :: 0 <= i < |calls| && calls[i].NewOidcChallengeResponse? ==> Run(Machine(d), w, calls).1[i].Err?
    ensures Run(Machine(d), w, calls).0.stored == w.stored
    decreases |calls|
  {
    if calls != [] {
      StepToken(d, w, calls[0]);
      hide Step;
      var w' := Machine(d)(w, calls[0]).0;
      forall i | 0 <= i < |calls[1..]| && calls[1..][i].NewOidcChallengeResponse?
        ensures Run(Machine(d), w', calls[1..]).1[i].Err?
      {
        assert calls[1..][i] == calls[i + 1];
        assert Run(Machine(d), w, calls).1[i + 1] == Run(Machine(d), w', calls[1..]).1[i];
      }
      StoredTokenOnlyReplaced(d, w', calls[1..]);
    }
  }

  // ----- the refresh token, with several enrollments -----

  /** Replies together with the token that is stored after the call. */
  function ObservedMachine(d: Delegate, serde: Serde): (System, SystemCall) -> (System, (SystemReply, Option<string>))
  {
    (s, call) =>
      var (s', reply) := SystemStep(d, serde, s, call);
      (s', (reply, s'.stored))
  }

  /** A call that hands this token to an enrollment: when it begins, or with an OIDC challenge request. */
  function Supplying(token: string): (SystemCall, (SystemReply, Option<string>)) -> bool
  {
    (call: SystemCall, seen: (SystemReply, Option<string>)) =>
      || call == New(Some(token))
      || (call.On? && seen.0.Replied? && Supplies(call.call, seen.0.reply, token))
  }

  /** A call that stores this token. */
  function Storing(token: string): (SystemCall, (SystemReply, Option<string>)) -> bool
  {
    (call: SystemCall, seen: (SystemReply, Option<string>)) =>
      call.On? && call.call.NewOidcChallengeResponse? && Succeeds(seen.0) && seen.1 == Some(token)
  }

  function Holds(token: string): Enrollment -> bool
  {
    (e: Enrollment) => e.refreshToken == Some(token)
  }

  lemma {:induction false} TokenMoves(d: Delegate, w: World, call: Call, token: string)
    ensures var (w', reply) := Step(d, w, call);
      && (Holds(token)(w'.e) ==> Holds(token)(w.e) || Supplies(call, reply, token))
      && (call.NewOidcChallengeResponse? && reply.Ok? && w'.stored == Some(token) ==>
            Holds(token)(w.e) && !Holds(token)(w'.e))
  {
    StepToken(d, w, call);
    hide Step;
  }

  lemma {:induction false} TokenPays(d: Delegate, serde: Serde, token: string, s: System, call: SystemCall)
    requires serde.Lawful()
    ensures var (s', seen) := ObservedMachine(d, serde)(s, call);
      Credit(serde, Holds(token), s') + (if Storing(token)(call, seen) then 1 else 0)
      <= Credit(serde, Holds(token), s) + if Supplying(token)(call, seen) then 1 else 0
  {
    match call
    case New(_) =>
    case Pop(handle, writable) =>
      PopKeepsCredit(serde, Holds(token), s, handle, writable);
    case Stash(handle, writable) =>
      if s.active.Some? {
        StashKeepsCredit(serde, Holds(token), s, handle, writable);
      }
    case Complete(_) =>
    case On(c) =>
      if s.active.Some? {
        TokenMoves(d, World(s.active.value, s.stored), c, token);
        hide Step, StashedWith, Supplies, Holds;
        var (w', reply) := Step(d, World(s.active.value, s.stored), c);
        var (s', seen) := ObservedMachine(d, serde)(s, call);
        assert s' == System(Some(w'.e), s.stash, w'.stored) && seen == (Replied(reply), w'.stored);
        assert Storing(token)(call, seen) ==> Holds(token)(s.active.value) && !Holds(token)(w'.e);
        assert Holds(token)(w'.e) ==> Holds(token)(s.active.value) || Supplying(token)(call, seen);
      } else {
        assert !Succeeds(Failed);
      }
  }

  /**
   However many enrollments are begun, stashed and popped, a token is stored no more often than it
   was handed to one of them.
   */
  lemma {:induction false} TokenIsStoredOnce(
      d: Delegate, serde: Serde, stored: Option<string>, calls: seq<SystemCall>, token: string)
    requires serde.Lawful()
    ensures var seen := Run(ObservedMachine(d, serde), Empty(stored), calls).1;
      Count(calls, seen, Storing(token)) <= Count(calls, seen, Supplying(token))
  {
    var step := ObservedMachine(d, serde);
    forall s, call
      ensures var (s', seen) := step(s, call);
        Credit(serde, Holds(token), s') + (if Storing(token)(call, seen) then 1 else 0)
        <= Credit(serde, Holds(token), s) + if Supplying(token)(call, seen) then 1 else 0
    {
      TokenPays(d, serde, token, s, call);
    }
    assert StashedWith(serde, map[], Holds(token)) == {};
    assert Credit(serde, Holds(token), Empty(stored)) == 0;
    hide ObservedMachine, Credit, Storing, Supplying;
    RunPays(
      step, s => true, s => Credit(serde, Holds(token), s), Supplying(token), Storing(token), Empty(stored), calls);
  }
}
