/** Batched encryption (crypto/src/proteus.rs, `encrypt_batched`) against one call per session. */
module ProteusBatch {
  import opened Wrappers
  import opened Sequences
  import opened Tables
  import opened GroupStores
  import opened ProteusSpec
  import opened ProteusRefinement
  import opened ProteusFailures

  /**
   Single `encrypt` calls from left to right: an unknown id is skipped, any other failure ends it,
   and a repeated id keeps its last ciphertext.
   */
  function OneByOne(env: Env, c: Central, items: seq<(Id, Coins)>, plaintext: Bytes, acc: map<Id, Bytes>)
    : (r: (Central, Reply))
    decreases |items|
  {
    if items == [] then (c, Texts(acc))
    else
      var (id, coins) := items[0];
      var (c1, reply) := Step(env, c, Encrypt(id, plaintext, coins));
      if reply.Text? then OneByOne(env, c1, items[1..], plaintext, acc[id := reply.text])
      else if reply == Failed(ConversationNotFound(id)) then OneByOne(env, c1, items[1..], plaintext, acc)
      else (c1, reply)
  }

  /** Every cached session carries the id it is cached under. */
  ghost predicate Identified(env: Env, c: Central) {
    c.sessions.Valid(env.limiter) && forall id :: id in c.sessions.entries ==> c.sessions.entries[id].identifier == id
  }

  lemma {:induction false} AccessIdentified(env: Env, c: Central, id: Id)
    requires env.limiter.len > 0 && Identified(env, c)
    ensures Identified(env, Access(env, c, id).0)
    ensures var found := Access(env, c, id).1;
      found.Ok? && found.value.Some? ==> found.value.value.identifier == id
  {
    if id in c.sessions.entries {
      PromoteValid(env.limiter, c.sessions, id);
    } else {
      var found := Read(env, c.store, id);
      if found.Ok? && found.value.Some? {
        InsertKeeps(env.limiter, c.sessions, id, found.value.value);
      }
    }
  }

  lemma {:induction false} EncryptIdentified(env: Env, c: Central, id: Id, plaintext: Bytes, coins: Coins)
    requires env.limiter.len > 0 && Identified(env, c)
    ensures Identified(env, EncryptOne(env, c, id, plaintext, coins).0)
  {
    hide Access;
    AccessIdentified(env, c, id);
  }

  /** The batch is the fold of the single calls, whatever is evicted and whichever accesses fail. */
  lemma {:induction false} BatchIsOneByOne(
      env: Env, c: Central, items: seq<(Id, Coins)>, plaintext: Bytes, acc: map<Id, Bytes>)
    requires env.limiter.len > 0 && Identified(env, c)
    ensures EncryptAll(env, c, items, plaintext, acc) == OneByOne(env, c, items, plaintext, acc)
    decreases |items|
  {
    hide Access, Advance;
    if items != [] {
      var (id, coins) := items[0];
      AccessIdentified(env, c, id);
      EncryptIdentified(env, c, id, plaintext, coins);
      FetchError(env, c, id);
      var (c1, found) := Access(env, c, id);
      var (c2, reply) := EncryptOne(env, c, id, plaintext, coins);
      assert Step(env, c, Encrypt(id, plaintext, coins)) == (c2, reply);
      if found.Ok? && found.value.None? {
        BatchIsOneByOne(env, c1, items[1..], plaintext, acc);
      } else if found.Ok? {
        AdvanceReply(env, c1, id, found.value.value, env.ratchet.encrypt(found.value.value.session, plaintext, coins));
        if reply.Text? {
          BatchIsOneByOne(env, c2, items[1..], plaintext, acc[id := reply.text]);
        }
      }
    }
  }

  lemma {:induction false} AdvanceReply(
      env: Env, c: Central, id: Id, conv: Conversation, moved: (Session, Option<Bytes>))
    ensures Advance(env, c, id, conv, moved).1 == Failed(ProteusError)
         || Advance(env, c, id, conv, moved).1 == Failed(KeystoreError)
         || Advance(env, c, id, conv, moved).1.Text?
  {
  }

  // ----- what a batch does to each session -----

  /** The draws of the entries for `id`, in order. */
  function Occurrences(items: seq<(Id, Coins)>, id: Id): (r: seq<Coins>)
    ensures r == [] <==> id !in Batched(items)
  {
    if items == [] then []
    else
      assert Batched(items) == {items[0].0} + Batched(items[1..]);
      (if items[0].0 == id then [items[0].1] else []) + Occurrences(items[1..], id)
  }

  /** One session encrypting the same text once per draw: where it ends, and its last ciphertext. */
  function Encrypted(
      ratchet: Ratchet, session: Session, plaintext: Bytes, draws: seq<Coins>): (r: (Session, Option<Bytes>))
  {
    if draws == [] then (session, None)
    else
      var (before, _) := Encrypted(ratchet, session, plaintext, draws[..|draws| - 1]);
      ratchet.encrypt(before, plaintext, draws[|draws| - 1])
  }

  lemma {:induction false} EncryptedFirst(
      ratchet: Ratchet, session: Session, plaintext: Bytes, first: Coins, rest: seq<Coins>)
    ensures var after := ratchet.encrypt(session, plaintext, first);
      Encrypted(ratchet, session, plaintext, [first] + rest)
        == if rest == [] then after else Encrypted(ratchet, after.0, plaintext, rest)
    decreases |rest|
  {
    var all := [first] + rest;
    if rest == [] {
      assert all[..0] == [];
    } else {
      var init := rest[..|rest| - 1];
      assert all[..|all| - 1] == [first] + init;
      EncryptedFirst(ratchet, session, plaintext, first, init);
      var next := ratchet.encrypt(session, plaintext, first).0;
      assert Encrypted(ratchet, next, plaintext, []).0 == next;
    }
  }

  /** The stored session of `id`, once a batch that answered with `texts` has run from `before`. */
  ghost predicate Batch(
    env: Env, before: Table<Id, Bytes>, after: Table<Id, Bytes>, items: seq<(Id, Coins)>, plaintext: Bytes,
    acc: map<Id, Bytes>, texts: map<Id, Bytes>, id: Id)
  {
    var draws := Occurrences(items, id);
    if id !in before.rows || draws == [] then
      && (id in after.rows <==> id in before.rows)
      && (id in before.rows ==> after.rows[id] == before.rows[id])
      && (id in texts <==> id in acc)
      && (id in acc ==> texts[id] == acc[id])
    else
      && env.ratchet.deserialise(before.rows[id]).Some?
      && id in after.rows && id in texts
      && var (session, text) :=
           Encrypted(env.ratchet, env.ratchet.deserialise(before.rows[id]).value, plaintext, draws);
         after.rows[id] == env.ratchet.serialise(session) && text == Some(texts[id])
  }

  lemma {:induction false} RefBatch(
      env: Env, ks: Keystore, items: seq<(Id, Coins)>, plaintext: Bytes, acc: map<Id, Bytes>, id: Id)
    requires env.Lawful()
    requires RefEncryptAll(env, ks, items, plaintext, acc).1.Texts?
    ensures var (ks1, r) := RefEncryptAll(env, ks, items, plaintext, acc);
      Batch(env, ks.sessions, ks1.sessions, items, plaintext, acc, r.texts, id)
    decreases |items|
  {
    if items != [] {
      var (x, coins) := items[0];
      var (ks1, reply) := RefEncrypt(env, ks, x, plaintext, coins);
      var acc1 := if reply.Text? then acc[x := reply.text] else acc;
      RefBatch(env, ks1, items[1..], plaintext, acc1, id);
      var rest := Occurrences(items[1..], id);
      if x == id && id in ks.sessions.rows {
        assert Occurrences(items, id) == [coins] + rest;
        assert reply.Text?;
        var session := env.ratchet.deserialise(ks.sessions.rows[id]).value;
        EncryptedFirst(env.ratchet, session, plaintext, coins, rest);
        assert ks1.sessions.rows[id] == env.ratchet.serialise(env.ratchet.encrypt(session, plaintext, coins).0);
      } else if x != id {
        assert Occurrences(items, id) == rest;
      }
    }
  }

  /**
   With successful accesses: a batch answers for exactly the requested ids that exist. Each of them
   has moved on once per occurrence, is stored as it then is, and keeps its last ciphertext; no
   other stored session has changed.
   */
  lemma {:induction false} BatchAdvancesPerOccurrence(env: Env, c: Central, items: seq<(Id, Coins)>, plaintext: Bytes)
    requires env.Lawful() && env.AccessesSucceed() && Coherent(env, c)
    requires Step(env, c, EncryptBatched(items, plaintext)).1.Texts?
    ensures var (c1, r) := Step(env, c, EncryptBatched(items, plaintext));
      && (forall id :: Batch(env, c.store.sessions, c1.store.sessions, items, plaintext, map[], r.texts, id))
      && r.texts.Keys == Batched(items) * c.store.sessions.rows.Keys
  {
    EncryptAllRefines(env, c, items, plaintext, c.store, map[]);
    var (c1, r) := EncryptAll(env, c, items, plaintext, map[]);
    forall id ensures Batch(env, c.store.sessions, c1.store.sessions, items, plaintext, map[], r.texts, id) {
      RefBatch(env, c.store, items, plaintext, map[], id);
    }
    forall id ensures id in r.texts <==> id in Batched(items) && id in c.store.sessions.rows {
      assert Batch(env, c.store.sessions, c1.store.sessions, items, plaintext, map[], r.texts, id);
    }
  }
}
