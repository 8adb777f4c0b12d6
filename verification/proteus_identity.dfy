/** The identity a Proteus client starts with: stored once, and the same after every restart. */
module ProteusIdentity {
  import opened Wrappers
  import opened Machines
  import opened GroupStores
  import opened ProteusSpec

  type Identity(==, !new)

  /** The Proteus library: key pairs and their stored form, and the ratchet that belongs to a key pair. */
  datatype Library = Library(parse: Bytes -> Option<Identity>, raw: Identity -> Bytes, ratchet: Identity -> Ratchet)
  {
    ghost predicate Lawful() {
      forall kp :: parse(raw(kp)) == Some(kp)
    }
  }

  /** Loads the stored identity, or stores a new one: `created` is what the generator yields. */
  function LoadOrCreate(lib: Library, fails: nat -> bool, ks: Keystore, created: Identity)
    : (r: (Keystore, Result<Identity, Error>))
  {
    var ks1 := Accessed(ks);
    if fails(ks.accesses) then (ks1, Err(KeystoreError))
    else if ks.identity.Some? then
      (ks1, if lib.parse(ks.identity.value).Some? then Ok(lib.parse(ks.identity.value).value) else Err(ProteusError))
    else if fails(ks1.accesses) then (Accessed(ks1), Err(KeystoreError))
    else (Accessed(ks1).(identity := Some(lib.raw(created))), Ok(created))
  }

  /** A client starts with an identity exactly when the stored one can be read, or a new one stored. */
  lemma {:induction false} StartsWithIdentity(
      lib: Library, fails: nat -> bool, ks: Keystore, created: Identity, kp: Identity)
    ensures LoadOrCreate(lib, fails, ks, created).1 == Ok(kp) <==>
      && !fails(ks.accesses)
      && if ks.identity.Some? then lib.parse(ks.identity.value) == Some(kp)
         else kp == created && !fails(ks.accesses + 1)
    ensures LoadOrCreate(lib, fails, ks, created).1 == Ok(kp) ==>
      var ks' := LoadOrCreate(lib, fails, ks, created).0;
      ks'.identity == (if ks.identity.Some? then ks.identity else Some(lib.raw(kp))) && ks'.sessions == ks.sessions
  {
  }

  lemma {:induction false} EncryptAllKeepsIdentity(
      env: Env, c: Central, items: seq<(Id, Coins)>, plaintext: Bytes, acc: map<Id, Bytes>)
    ensures EncryptAll(env, c, items, plaintext, acc).0.store.identity == c.store.identity
    decreases |items|
  {
    hide Lru.GetFetch, Lru.Write;
    if items != [] {
      var (c1, found) := Access(env, c, items[0].0);
      if found.Ok? && found.value.None? {
        EncryptAllKeepsIdentity(env, c1, items[1..], plaintext, acc);
      } else if found.Ok? {
        var conv := found.value.value;
        var (c2, r) := Advance(env, c1, items[0].0, conv, env.ratchet.encrypt(conv.session, plaintext, items[0].1));
        if r.Text? {
          EncryptAllKeepsIdentity(env, c2, items[1..], plaintext, acc[conv.identifier := r.text]);
        }
      }
    }
  }

  lemma {:induction false} StepKeepsIdentity(env: Env, c: Central, call: Call)
    ensures Step(env, c, call).0.store.identity == c.store.identity
  {
    hide Lru.GetFetch, Lru.Insert, Lru.Write, EncryptAll, RestoreAll;
    if call.EncryptBatched? {
      EncryptAllKeepsIdentity(env, c, call.items, call.plaintext, map[]);
    }
  }

  /**
   An identity that a client started with is the one every later client over the same keystore
   starts with, whatever happens in between and whatever the generator would yield.
   */
  lemma {:induction false} RestartKeepsIdentity(
      lib: Library, env: Env, ks: Keystore, created: Identity, c: Central, calls: seq<Call>, created': Identity)
    requires lib.Lawful() && LoadOrCreate(lib, env.fails, ks, created).1.Ok?
    requires c.store.identity == LoadOrCreate(lib, env.fails, ks, created).0.identity
    ensures var again := LoadOrCreate(lib, env.fails, Run(Machine(env), c, calls).0.store, created');
      && (if env.fails(Run(Machine(env), c, calls).0.store.accesses) then again.1 == Err(KeystoreError)
          else again.1 == LoadOrCreate(lib, env.fails, ks, created).1)
      && again.0.identity == c.store.identity
  {
    var identity := c.store.identity;
    hide Step;
    forall d: Central, call: Call | d.store.identity == identity
      ensures Machine(env)(d, call).0.store.identity == identity
    {
      StepKeepsIdentity(env, d, call);
    }
    RunKeeps(Machine(env), (d: Central) => d.store.identity == identity, c, calls);
  }
}
