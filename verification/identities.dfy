/**
 The identities of the members of a conversation (crypto/src/e2e_identity/identity.rs), by device
 and by user. `members` is the order in which the hash map of the members happens to be gone through.
 */
module Identities {
  import opened Wrappers
  import opened Sequences
  import opened ClientIds

  type Credential(==, !new)
  type WireIdentity(==, !new)

  datatype Error = ConsumerError | InvalidIdentity

  /** `extract_identity`: none for a basic credential. */
  type Extract = Credential -> Result<Option<WireIdentity>, Error>

  type Member = (Bytes, Credential)

  /** The user of a client id: what comes before the first colon, if there is one. */
  function UserOf(id: Bytes): (user: Option<Bytes>)
  {
    if id == [] then None
    else if id[0] == COLON then Some([])
    else
      match UserOf(id[1..])
      case None => None
      case Some(rest) => Some([id[0]] + rest)
  }

  lemma {:induction false} UserOfIs(id: Bytes)
    ensures UserOf(id).Some? <==> COLON in id
    ensures UserOf(id).Some? ==> COLON !in UserOf(id).value && UserOf(id).value + [COLON] <= id
  {
    if id != [] {
      UserOfIs(id[1..]);
      assert id == [id[0]] + id[1..];
    }
  }

  /** Results one after the other, up to the first error. */
  function CollectOk<T, E>(results: seq<Result<T, E>>): (r: Result<seq<T>, E>)
  {
    if results == [] then Ok([])
    else
      match CollectOk(results[..|results| - 1])
      case Err(e) => Err(e)
      case Ok(values) =>
        match results[|results| - 1]
        case Err(e) => Err(e)
        case Ok(value) => Ok(values + [value])
  }

  /** The identities of the members that `wanted` picks, each with its key; members without one are left out. */
  function Extracted<K>(members: seq<Member>, extract: Extract, wanted: Bytes -> Option<K>)
    : (r: seq<(K, Result<WireIdentity, Error>)>)
  {
    if members == [] then []
    else
      var init := Extracted(members[..|members| - 1], extract, wanted);
      var (id, credential) := members[|members| - 1];
      if wanted(id).None? then init
      else
        match extract(credential)
        case Err(e) => init + [(wanted(id).value, Err(e))]
        case Ok(None) => init
        case Ok(Some(identity)) => init + [(wanted(id).value, Ok(identity))]
  }

  function Device(devices: seq<Bytes>): Bytes -> Option<Bytes>
  {
    id => if id in devices then Some(id) else None
  }

  function GetDeviceIdentities(members: seq<Member>, extract: Extract, devices: seq<Bytes>)
    : (r: Result<seq<WireIdentity>, Error>)
  {
    if devices == [] then Err(ConsumerError) else CollectOk(Seconds(Extracted(members, extract, Device(devices))))
  }

  function User(users: seq<Bytes>): Bytes -> Option<Bytes>
  {
    id => if UserOf(id).Some? && UserOf(id).value in users then UserOf(id) else None
  }

  /** One more item joins the last run, or starts one. */
  function Extend<K(==), V>(runs: seq<(K, seq<V>)>, key: K, value: V): (r: seq<(K, seq<V>)>)
    ensures r != [] && r[|r| - 1].0 == key
  {
    if runs != [] && runs[|runs| - 1].0 == key then
      runs[..|runs| - 1] + [(key, runs[|runs| - 1].1 + [value])]
    else
      runs + [(key, [value])]
  }

  /** `group_by`: maximal runs of adjacent items with the same key. */
  function Runs<K(==), V>(items: seq<(K, V)>): (runs: seq<(K, seq<V>)>)
  {
    if items == [] then []
    else Extend(Runs(items[..|items| - 1]), items[|items| - 1].0, items[|items| - 1].1)
  }

  /** Collected into a hash map: a later run with the same key takes the place of an earlier one. */
  function CollectRuns<K(==), T, E>(runs: seq<(K, seq<Result<T, E>>)>): (r: Result<map<K, seq<T>>, E>)
  {
    if runs == [] then Ok(map[])
    else
      match CollectRuns(runs[..|runs| - 1])
      case Err(e) => Err(e)
      case Ok(m) =>
        match CollectOk(runs[|runs| - 1].1)
        case Err(e) => Err(e)
        case Ok(values) => Ok(m[runs[|runs| - 1].0 := values])
  }

  function GetUserIdentities(members: seq<Member>, extract: Extract, users: seq<Bytes>)
    : (r: Result<map<Bytes, seq<WireIdentity>>, Error>)
  {
    if users == [] then Err(ConsumerError) else CollectRuns(Runs(Extracted(members, extract, User(users))))
  }

  // ----- what that means -----

  /** All values with this key, in order. */
  function Of<K(==), V>(items: seq<(K, V)>, key: K): (r: seq<V>)
  {
    if items == [] then []
    else
      var init := Of(items[..|items| - 1], key);
      if items[|items| - 1].0 == key then init + [items[|items| - 1].1] else init
  }

  /** The values at the end, as long as they have this key. */
  function TrailingRun<K(==), V>(items: seq<(K, V)>, key: K): (r: seq<V>)
  {
    if items == [] || items[|items| - 1].0 != key then []
    else TrailingRun(items[..|items| - 1], key) + [items[|items| - 1].1]
  }

  /** The last of the adjacent runs with this key. */
  function LastRun<K(==), V>(items: seq<(K, V)>, key: K): (r: seq<V>)
  {
    if items == [] then []
    else if items[|items| - 1].0 == key then TrailingRun(items, key)
    else LastRun(items[..|items| - 1], key)
  }

  predicate HasKey<K(==), V>(items: seq<(K, V)>, key: K) {
    exists i :: 0 <= i < |items| && items[i].0 == key
  }

  /** Nothing with another key comes between two items with this one. */
  ghost predicate Contiguous<K, V>(items: seq<(K, V)>, key: K) {
    forall i, j, k :: 0 <= i < j < k < |items| && items[i].0 == key && items[k].0 == key ==> items[j].0 == key
  }

  lemma {:induction false} LastOfRuns<K(!new), V>(items: seq<(K, V)>, key: K)
    ensures var runs := Runs(items);
      if runs != [] && runs[|runs| - 1].0 == key then runs[|runs| - 1].1 == TrailingRun(items, key)
      else TrailingRun(items, key) == []
  {
    if items != [] {
      LastOfRuns(items[..|items| - 1], key);
    }
  }

  /** Some item failed. */
  ghost predicate Fails<K, T, E>(items: seq<(K, Result<T, E>)>) {
    exists i :: 0 <= i < |items| && items[i].1.Err?
  }

  lemma {:induction false} FailsOneMore<K, T, E>(items: seq<(K, Result<T, E>)>)
    requires items != []
    ensures Fails(items) <==> Fails(items[..|items| - 1]) || items[|items| - 1].1.Err?
  {
    var init := items[..|items| - 1];
    assert forall i :: 0 <= i < |init| ==> init[i] == items[i];
  }

  lemma {:induction false} CollectRunsLast<K(!new), T, E>(
      runs: seq<(K, seq<Result<T, E>>)>, last: (K, seq<Result<T, E>>))
    ensures CollectRuns(runs + [last]) ==
      if CollectRuns(runs).Err? then CollectRuns(runs)
      else if CollectOk(last.1).Err? then Err(CollectOk(last.1).error)
      else Ok(CollectRuns(runs).value[last.0 := CollectOk(last.1).value])
  {
    assert (runs + [last])[..|runs|] == runs;
  }

  lemma {:induction false} CollectOkLast<T, E>(results: seq<Result<T, E>>, last: Result<T, E>)
    ensures CollectOk(results + [last]) ==
      if CollectOk(results).Err? then CollectOk(results)
      else if last.Err? then Err(last.error)
      else Ok(CollectOk(results).value + [last.value])
  {
    assert (results + [last])[..|results|] == results;
  }

  lemma {:induction false} SetTwice<K(!new), V>(m: map<K, V>, key: K, first: V, second: V)
    ensures m[key := first][key := second] == m[key := second]
  {
  }

  /** A run that grows by one result. */
  lemma {:induction false} RunGrows<K(!new), T, E>(
      rest: seq<(K, seq<Result<T, E>>)>, key: K, run: seq<Result<T, E>>, result: Result<T, E>)
    ensures CollectRuns(rest + [(key, run + [result])]) == Update(CollectRuns(rest + [(key, run)]), key, result, run)
  {
    hide CollectRuns, CollectOk;
    CollectRunsLast(rest, (key, run));
    CollectRunsLast(rest, (key, run + [result]));
    CollectOkLast(run, result);
    if CollectRuns(rest).Ok? && CollectOk(run).Ok? && result.Ok? {
      SetTwice(CollectRuns(rest).value, key, CollectOk(run).value, CollectOk(run + [result]).value);
    }
  }

  /** What was collected, with one more result for this key behind the last run of it. */
  function Update<K(==), T, E>(
    before: Result<map<K, seq<T>>, E>, key: K, result: Result<T, E>, run: seq<Result<T, E>>)
    : (r: Result<map<K, seq<T>>, E>)
  {
    if before.Err? then before
    else
      match CollectOk(run + [result])
      case Err(e) => Err(e)
      case Ok(values) => Ok(before.value[key := values])
  }

  lemma {:induction false} RunStarts<K(!new), T, E>(runs: seq<(K, seq<Result<T, E>>)>, key: K, result: Result<T, E>)
    ensures CollectRuns(runs + [(key, [result])]) == Update(CollectRuns(runs), key, result, [])
  {
    hide CollectRuns, CollectOk;
    CollectRunsLast(runs, (key, [result]));
    var one := [result];
    assert [] + one == one;
  }

  lemma {:induction false} CollectedExtended<K(!new), T, E>(
      runs: seq<(K, seq<Result<T, E>>)>, key: K, result: Result<T, E>, trailing: seq<Result<T, E>>)
    requires if runs != [] && runs[|runs| - 1].0 == key then runs[|runs| - 1].1 == trailing else trailing == []
    ensures CollectRuns(Extend(runs, key, result)) == Update(CollectRuns(runs), key, result, trailing)
  {
    hide CollectRuns, Update;
    if runs != [] && runs[|runs| - 1].0 == key {
      var rest := runs[..|runs| - 1];
      assert runs == rest + [(key, trailing)];
      RunGrows(rest, key, trailing, result);
    } else {
      RunStarts(runs, key, result);
    }
  }

  lemma {:induction false} CollectedOneMore<K(!new), T, E>(items: seq<(K, Result<T, E>)>)
    requires items != []
    ensures var (init, item) := (items[..|items| - 1], items[|items| - 1]);
      CollectRuns(Runs(items)) == Update(CollectRuns(Runs(init)), item.0, item.1, TrailingRun(init, item.0))
  {
    hide CollectRuns, Update, Extend;
    var (init, item) := (items[..|items| - 1], items[|items| - 1]);
    LastOfRuns(init, item.0);
    CollectedExtended(Runs(init), item.0, item.1, TrailingRun(init, item.0));
  }

  lemma {:induction false} CollectNothing<K(!new), T, E>()
    ensures CollectOk<T, E>([]) == Ok([]) && CollectRuns<K, T, E>([]) == Ok(map[])
  {
  }

  /** An item that failed makes the whole fail; otherwise each key has its last run. */
  lemma {:induction false} CollectedRuns<K(!new), T, E>(items: seq<(K, Result<T, E>)>, key: K)
    ensures CollectRuns(Runs(items)).Err? <==> Fails(items)
    ensures CollectRuns(Runs(items)).Ok? ==>
      var m := CollectRuns(Runs(items)).value;
      && (key in m <==> HasKey(items, key))
      && (key in m ==> CollectOk(LastRun(items, key)) == Ok(m[key]))
  {
    if items == [] {
      CollectNothing<K, T, E>();
    } else {
      var n := |items| - 1;
      var (init, item) := (items[..n], items[n]);
      CollectedRuns(init, key);
      CollectedOneMore(items);
      TrailingOfOk(items, item.0);
      KeyOneMore(items, key);
      FailsOneMore(items);
      assert TrailingRun(items, item.0) == TrailingRun(init, item.0) + [item.1];
      CollectOkLast(TrailingRun(init, item.0), item.1);
      hide Runs, CollectRuns, CollectOk, TrailingRun, HasKey, Fails;
    }
  }

  /** A run fails only if one of the items does. */
  lemma {:induction false} TrailingOfOk<K(!new), T, E>(items: seq<(K, Result<T, E>)>, key: K)
    ensures CollectOk(TrailingRun(items, key)).Err? ==> Fails(items)
    decreases |items|
  {
    if items != [] && items[|items| - 1].0 == key {
      var init := items[..|items| - 1];
      TrailingOfOk(init, key);
      FailsOneMore(items);
      CollectOkLast(TrailingRun(init, key), items[|items| - 1].1);
    }
  }

  lemma {:induction false} KeyOneMore<K(!new), V>(items: seq<(K, V)>, key: K)
    requires items != []
    ensures HasKey(items, key) <==> HasKey(items[..|items| - 1], key) || items[|items| - 1].0 == key
  {
    var init := items[..|items| - 1];
    assert forall i :: 0 <= i < |init| ==> init[i] == items[i];
  }

  lemma {:induction false} CollectOkLength<T, E>(results: seq<Result<T, E>>)
    ensures CollectOk(results).Ok? ==>
      |CollectOk(results).value| == |results|
      && forall i :: 0 <= i < |results| ==> results[i] == Ok(CollectOk(results).value[i])
  {
    if results != [] {
      CollectOkLength(results[..|results| - 1]);
    }
  }

  lemma {:induction false} OfNothing<K(!new), V>(items: seq<(K, V)>, key: K)
    ensures Of(items, key) == [] <==> !HasKey(items, key)
  {
    if items != [] {
      OfNothing(items[..|items| - 1], key);
      KeyOneMore(items, key);
    }
  }

  /** The run at the end starts after an item with another key, or at the beginning. */
  lemma {:induction false} TrailingSplit<K(!new), V>(items: seq<(K, V)>, key: K)
    ensures var start := |items| - |TrailingRun(items, key)|;
      && 0 <= start
      && Of(items, key) == Of(items[..start], key) + TrailingRun(items, key)
      && (start > 0 ==> items[start - 1].0 != key)
      && forall i :: start <= i < |items| ==> items[i].0 == key
  {
    if items != [] && items[|items| - 1].0 == key {
      var init := items[..|items| - 1];
      TrailingSplit(init, key);
      var start := |init| - |TrailingRun(init, key)|;
      assert items[..start] == init[..start];
    } else {
      assert items[..|items|] == items;
    }
  }

  /** The last run is all there is exactly when there is only one. */
  lemma {:induction false} LastRunIsAll<K(!new), V>(items: seq<(K, V)>, key: K)
    ensures |LastRun(items, key)| <= |Of(items, key)|
    ensures LastRun(items, key) == Of(items, key) <==> Contiguous(items, key)
    ensures |LastRun(items, key)| == |Of(items, key)| <==> Contiguous(items, key)
  {
    if items != [] {
      var n := |items| - 1;
      if items[n].0 != key {
        LastRunIsAll(items[..n], key);
        ContiguousShorter(items, key);
      } else {
        TrailingSplit(items, key);
        var start := |items| - |TrailingRun(items, key)|;
        OfNothing(items[..start], key);
        RunAtEnd(items, key, start);
      }
    }
  }

  lemma {:induction false} ContiguousShorter<K(!new), V>(items: seq<(K, V)>, key: K)
    requires items != [] && items[|items| - 1].0 != key
    ensures Contiguous(items, key) <==> Contiguous(items[..|items| - 1], key)
  {
    var init := items[..|items| - 1];
    assert forall i :: 0 <= i < |init| ==> init[i] == items[i];
    if Contiguous(init, key) {
      forall i, j, k | 0 <= i < j < k < |items| && items[i].0 == key && items[k].0 == key
        ensures items[j].0 == key
      {
        assert init[i].0 == key && init[k].0 == key;
      }
    }
    if Contiguous(items, key) {
      forall i, j, k | 0 <= i < j < k < |init| && init[i].0 == key && init[k].0 == key
        ensures init[j].0 == key
      {
        assert items[i].0 == key && items[k].0 == key;
      }
    }
  }

  lemma {:induction false} RunAtEnd<K(!new), V>(items: seq<(K, V)>, key: K, start: nat)
    requires start < |items| && (start > 0 ==> items[start - 1].0 != key)
    requires forall i :: start <= i < |items| ==> items[i].0 == key
    ensures Contiguous(items, key) <==> !HasKey(items[..start], key)
  {
    if HasKey(items[..start], key) {
      var i :| 0 <= i < start && items[..start][i].0 == key;
      assert items[i].0 == key && items[|items| - 1].0 == key;
      assert items[start - 1].0 != key;
    } else {
      assert forall i :: 0 <= i < start ==> items[..start][i].0 == items[i].0;
    }
  }

  /** Members with this user id. */
  function DevicesOf(members: seq<Member>, user: Bytes): (devices: seq<Bytes>)
  {
    if members == [] then []
    else
      var init := DevicesOf(members[..|members| - 1], user);
      var id := members[|members| - 1].0;
      if UserOf(id) == Some(user) then init + [id] else init
  }

  lemma {:induction false} DevicesOfIs(members: seq<Member>, user: Bytes, id: Bytes)
    ensures id in DevicesOf(members, user) ==> UserOf(id) == Some(user)
    ensures UserOf(id) == Some(user) && (exists i :: 0 <= i < |members| && members[i].0 == id) ==>
      id in DevicesOf(members, user)
  {
    if members != [] {
      var init := members[..|members| - 1];
      DevicesOfIs(init, user, id);
      assert forall i :: 0 <= i < |init| ==> init[i] == members[i];
    }
  }

  /** Picking out the items of one key is picking out those members to begin with. */
  lemma {:induction false} OfExtracted<K(!new), L(!new)>(
      members: seq<Member>, extract: Extract, all: Bytes -> Option<K>, some: Bytes -> Option<L>, key: K)
    requires forall i :: 0 <= i < |members| ==> (all(members[i].0) == Some(key) <==> some(members[i].0).Some?)
    ensures Of(Extracted(members, extract, all), key) == Seconds(Extracted(members, extract, some))
  {
    if members != [] {
      var n := |members| - 1;
      var init := members[..n];
      assert forall i :: 0 <= i < n ==> init[i] == members[i];
      OfExtracted(init, extract, all, some, key);
      var (id, credential) := members[n];
      var (items, items') := (Extracted(members, extract, all), Extracted(members, extract, some));
      var (before, before') := (Extracted(init, extract, all), Extracted(init, extract, some));
      if items != before {
        assert items[..|items| - 1] == before;
      }
      if items' != before' {
        assert items'[..|items'| - 1] == before';
        assert Seconds(items') == Seconds(before') + [items'[|items'| - 1].1];
      }
    }
  }

  /** The identity of a member that was asked for cannot be read. */
  ghost predicate Unreadable<K>(members: seq<Member>, extract: Extract, wanted: Bytes -> Option<K>) {
    exists i :: 0 <= i < |members| && wanted(members[i].0).Some? && extract(members[i].1).Err?
  }

  lemma {:induction false} ExtractedFails<K(!new)>(members: seq<Member>, extract: Extract, wanted: Bytes -> Option<K>)
    ensures Fails(Extracted(members, extract, wanted)) <==> Unreadable(members, extract, wanted)
  {
    if members != [] {
      var n := |members| - 1;
      var init := members[..n];
      assert forall i :: 0 <= i < n ==> init[i] == members[i];
      ExtractedFails(init, extract, wanted);
      var (items, before) := (Extracted(members, extract, wanted), Extracted(init, extract, wanted));
      if items != before {
        assert items[..|items| - 1] == before;
        FailsOneMore(items);
      }
    }
  }

  /** Some member among those asked for has this identity. */
  ghost predicate IsIdentityOf(members: seq<Member>, extract: Extract, devices: seq<Bytes>, identity: WireIdentity) {
    exists i :: 0 <= i < |members| && members[i].0 in devices && extract(members[i].1) == Ok(Some(identity))
  }

  lemma {:induction false} ExtractedHas(
      members: seq<Member>, extract: Extract, devices: seq<Bytes>, identity: WireIdentity)
    ensures Ok(identity) in Seconds(Extracted(members, extract, Device(devices))) <==>
      IsIdentityOf(members, extract, devices, identity)
  {
    if members != [] {
      var n := |members| - 1;
      var init := members[..n];
      assert forall i :: 0 <= i < n ==> init[i] == members[i];
      ExtractedHas(init, extract, devices, identity);
      var (items, before) := (Extracted(members, extract, Device(devices)), Extracted(init, extract, Device(devices)));
      if items != before {
        assert items == before + [items[|items| - 1]];
        assert Seconds(items) == Seconds(before) + [items[|items| - 1].1];
      }
    }
  }

  /**
   Asking for devices fails without any, or when the identity of a member asked for cannot be read; only
   then. Otherwise it has the identities of the members asked for, and no other.
   */
  lemma {:induction false} DeviceIdentities(
      members: seq<Member>, extract: Extract, devices: seq<Bytes>, identity: WireIdentity)
    ensures GetDeviceIdentities(members, extract, devices).Err? <==>
      devices == [] || Unreadable(members, extract, Device(devices))
    ensures GetDeviceIdentities(members, extract, devices).Ok? ==>
      (identity in GetDeviceIdentities(members, extract, devices).value <==>
       IsIdentityOf(members, extract, devices, identity))
  {
    var items := Extracted(members, extract, Device(devices));
    ExtractedFails(members, extract, Device(devices));
    ExtractedHas(members, extract, devices, identity);
    CollectOkFails(items);
    CollectOkLength(Seconds(items));
    hide Extracted, CollectOk, Unreadable, IsIdentityOf, Fails;
    var r := CollectOk(Seconds(items));
    if r.Ok? {
      if Ok(identity) in Seconds(items) {
        var i :| 0 <= i < |items| && Seconds(items)[i] == Ok(identity);
        assert r.value[i] == identity;
      }
      if identity in r.value {
        var i :| 0 <= i < |r.value| && r.value[i] == identity;
        assert Seconds(items)[i] == Ok(identity);
      }
    }
  }

  lemma {:induction false} CollectOkFails<K(!new), T, E>(items: seq<(K, Result<T, E>)>)
    ensures CollectOk(Seconds(items)).Err? <==> Fails(items)
  {
    if items != [] {
      var n := |items| - 1;
      CollectOkFails(items[..n]);
      FailsOneMore(items);
      assert Seconds(items) == Seconds(items[..n]) + [items[n].1];
      CollectOkLast(Seconds(items[..n]), items[n].1);
      hide Fails, CollectOk;
    }
  }

  /** The request fails without users, or when the identity of a member asked for cannot be read; only then. */
  lemma {:induction false} UserIdentitiesFail(members: seq<Member>, extract: Extract, users: seq<Bytes>)
    ensures GetUserIdentities(members, extract, users).Err? <==>
      users == [] || Unreadable(members, extract, User(users))
  {
    hide Unreadable, Fails, Runs, CollectRuns, Extracted;
    CollectedRuns(Extracted(members, extract, User(users)), []);
    ExtractedFails(members, extract, User(users));
  }

  /** The user that an identity, or the failure to read it, is listed under; none if it is not asked for or absent. */
  function ListedUnder<K>(member: Member, extract: Extract, wanted: Bytes -> Option<K>): (key: Option<K>)
  {
    if extract(member.1) == Ok(None) then None else wanted(member.0)
  }

  function AllListed<K>(members: seq<Member>, extract: Extract, wanted: Bytes -> Option<K>): (keys: seq<Option<K>>)
    ensures |keys| == |members|
  {
    seq(|members|, i requires 0 <= i < |members| => ListedUnder(members[i], extract, wanted))
  }

  function KeysOf<K, V>(items: seq<(K, V)>): (keys: seq<Option<K>>)
    ensures |keys| == |items|
  {
    seq(|items|, i requires 0 <= i < |items| => Some(items[i].0))
  }

  /** No other key comes between two that are this one. */
  ghost predicate Adjacent<K>(keys: seq<Option<K>>, key: K) {
    forall i, j, k :: 0 <= i < j < k < |keys| && keys[i] == keys[k] == Some(key) ==> keys[j] in {None, Some(key)}
  }

  /** No other key comes after this one. */
  ghost predicate EndsWith<K>(keys: seq<Option<K>>, key: K) {
    forall i, j :: 0 <= i < j < |keys| && keys[i] == Some(key) ==> keys[j] in {None, Some(key)}
  }

  lemma {:induction false} KeysOneMore<K(!new)>(keys: seq<Option<K>>, last: Option<K>, key: K)
    ensures Some(key) in keys + [last] <==> Some(key) in keys || last == Some(key)
    ensures EndsWith(keys + [last], key) <==>
      if last in {None, Some(key)} then EndsWith(keys, key) else Some(key) !in keys
    ensures Adjacent(keys + [last], key) <==> if last == Some(key) then EndsWith(keys, key) else Adjacent(keys, key)
  {
    var more := keys + [last];
    assert more[|keys|] == last && forall i :: 0 <= i < |keys| ==> more[i] == keys[i];
    if EndsWith(more, key) {
      assert forall i, j :: 0 <= i < j < |keys| ==> more[i] == keys[i] && more[j] == keys[j];
    }
    if Adjacent(more, key) {
      forall i, j, k | 0 <= i < j < k < |keys| && keys[i] == keys[k] == Some(key)
        ensures keys[j] in {None, Some(key)}
      {
        assert more[i] == more[k] == Some(key);
      }
      if last == Some(key) {
        forall i, j | 0 <= i < j < |keys| && keys[i] == Some(key)
          ensures keys[j] in {None, Some(key)}
        {
          assert more[i] == more[|keys|] == Some(key);
        }
      }
    }
  }

  /** Leaving out the members that are not listed changes nothing of this. */
  lemma {:induction false} SameKeys<K(!new)>(members: seq<Member>, extract: Extract, wanted: Bytes -> Option<K>, key: K)
    ensures var (listed, keys) := (AllListed(members, extract, wanted), KeysOf(Extracted(members, extract, wanted)));
      && (Some(key) in listed <==> Some(key) in keys)
      && (EndsWith(listed, key) <==> EndsWith(keys, key))
      && (Adjacent(listed, key) <==> Adjacent(keys, key))
  {
    if members != [] {
      var n := |members| - 1;
      var init := members[..n];
      SameKeys(init, extract, wanted, key);
      var last := ListedUnder(members[n], extract, wanted);
      var (items, before) := (Extracted(members, extract, wanted), Extracted(init, extract, wanted));
      assert AllListed(members, extract, wanted) == AllListed(init, extract, wanted) + [last];
      assert KeysOf(items) == KeysOf(before) + if last.Some? then [last] else [];
      hide EndsWith, Adjacent, ListedUnder, AllListed, KeysOf, Extracted;
      KeysOneMore(AllListed(init, extract, wanted), last, key);
      KeysOneMore(KeysOf(before), last, key);
      assert KeysOf(before) + [] == KeysOf(before);
    }
  }

  /** Some member of this user has an identity. */
  ghost predicate HasIdentity(members: seq<Member>, extract: Extract, user: Bytes) {
    exists i :: 0 <= i < |members|
      && UserOf(members[i].0) == Some(user) && extract(members[i].1).Ok? && extract(members[i].1).value.Some?
  }

  lemma {:induction false} ListedWhen(members: seq<Member>, extract: Extract, users: seq<Bytes>, user: Bytes)
    requires !Unreadable(members, extract, User(users))
    ensures Some(user) in AllListed(members, extract, User(users)) <==>
      user in users && HasIdentity(members, extract, user)
  {
    var listed := AllListed(members, extract, User(users));
    if Some(user) in listed {
      var i :| 0 <= i < |listed| && listed[i] == Some(user);
      assert UserOf(members[i].0) == Some(user);
    }
    if user in users && HasIdentity(members, extract, user) {
      var i :| 0 <= i < |members|
        && UserOf(members[i].0) == Some(user) && extract(members[i].1).Ok? && extract(members[i].1).value.Some?;
      assert listed[i] == Some(user);
    }
  }

  lemma {:induction false} ItemKeys<K(!new), V>(items: seq<(K, V)>, key: K)
    ensures HasKey(items, key) <==> Some(key) in KeysOf(items)
    ensures Contiguous(items, key) <==> Adjacent(KeysOf(items), key)
  {
    var keys := KeysOf(items);
    assert forall i :: 0 <= i < |items| ==> keys[i] == Some(items[i].0);
    if Contiguous(items, key) {
      forall i, j, k | 0 <= i < j < k < |keys| && keys[i] == keys[k] == Some(key)
        ensures keys[j] in {None, Some(key)}
      {
        assert items[i].0 == key && items[k].0 == key;
      }
    }
    if Adjacent(keys, key) {
      forall i, j, k | 0 <= i < j < k < |items| && items[i].0 == key && items[k].0 == key
        ensures items[j].0 == key
      {
        assert keys[i] == keys[k] == Some(key);
      }
    }
  }

  /**
   Otherwise it has an entry for each user asked for that has a member with an identity: those of the
   user's last run of adjacent devices, and all of them, each device once, exactly when no other
   listed user comes between the devices of that user.
   */
  lemma {:induction false} UserIdentities(members: seq<Member>, extract: Extract, users: seq<Bytes>, user: Bytes)
    requires GetUserIdentities(members, extract, users).Ok?
    ensures var m := GetUserIdentities(members, extract, users).value;
      var items := Extracted(members, extract, User(users));
      && (user in m <==> user in users && HasIdentity(members, extract, user))
      && (user in m ==>
            && CollectOk(LastRun(items, user)) == Ok(m[user])
            && (GetDeviceIdentities(members, extract, DevicesOf(members, user)) == Ok(m[user]) <==>
                Adjacent(AllListed(members, extract, User(users)), user)))
  {
    var (m, items) := (GetUserIdentities(members, extract, users).value, Extracted(members, extract, User(users)));
    CollectedRuns(items, user);
    UserIdentitiesFail(members, extract, users);
    hide GetUserIdentities, Runs, CollectRuns, Extracted, LastRun, Contiguous, HasKey, Adjacent, EndsWith, Unreadable;
    hide AllListed, KeysOf, HasIdentity;
    ItemKeys(items, user);
    SameKeys(members, extract, User(users), user);
    ListedWhen(members, extract, users, user);
    if user in m {
      UserIsAsked(members, extract, users, user);
      DevicesMatch(members, extract, users, user);
      LastRunIsAll(items, user);
      CollectOkLength(LastRun(items, user));
      CollectOkLength(Of(items, user));
    }
  }

  lemma {:induction false} UserIsAsked(members: seq<Member>, extract: Extract, users: seq<Bytes>, user: Bytes)
    requires HasKey(Extracted(members, extract, User(users)), user)
    ensures user in users && DevicesOf(members, user) != []
    decreases |members|
  {
    if members != [] {
      var n := |members| - 1;
      var (items, before) := (Extracted(members, extract, User(users)), Extracted(members[..n], extract, User(users)));
      if HasKey(before, user) {
        UserIsAsked(members[..n], extract, users, user);
      } else if items != before {
        assert items == before + [items[|items| - 1]];
        KeyOneMore(items, user);
      }
    }
  }

  lemma {:induction false} DevicesMatch(members: seq<Member>, extract: Extract, users: seq<Bytes>, user: Bytes)
    requires user in users && DevicesOf(members, user) != []
    ensures GetDeviceIdentities(members, extract, DevicesOf(members, user))
         == CollectOk(Of(Extracted(members, extract, User(users)), user))
  {
    var devices := DevicesOf(members, user);
    forall i | 0 <= i < |members|
      ensures User(users)(members[i].0) == Some(user) <==> Device(devices)(members[i].0).Some?
    {
      DevicesOfIs(members, user, members[i].0);
    }
    hide DevicesOf, UserOf;
    OfExtracted(members, extract, User(users), Device(devices), user);
  }

  /**
   Three members, two of one user around one of another, both users asked for: the entry of the first
   user has the identity of its second device only, although asking for its devices gives both.
   */
  lemma {:induction false} InterleavedDeviceIsLost(
      first: Member, other: Member, second: Member, extract: Extract, a: Bytes, b: Bytes)
    requires a != b && UserOf(first.0) == UserOf(second.0) == Some(a) && UserOf(other.0) == Some(b)
    requires forall member :: member in [first, other, second] ==>
      extract(member.1).Ok? && extract(member.1).value.Some?
    ensures var (x, y) := (extract(first.1).value.value, extract(second.1).value.value);
      var r := GetUserIdentities([first, other, second], extract, [a, b]);
      && r.Ok? && a in r.value && r.value[a] == [y]
      && GetDeviceIdentities([first, other, second], extract, DevicesOf([first, other, second], a)) == Ok([x, y])
  {
    var members := [first, other, second];
    var users := [a, b];
    var items := Extracted(members, extract, User(users));
    var (x, y) := (extract(first.1).value.value, extract(second.1).value.value);
    assert first in members && other in members && second in members;
    InterleavedItems(members, extract, users, a);
    UserIdentitiesFail(members, extract, users);
    assert !Unreadable(members, extract, User(users));
    assert UserOf(members[0].0) == Some(a) && a in users;
    assert HasIdentity(members, extract, a);
    hide GetUserIdentities, Extracted, Runs, CollectRuns, HasIdentity, Unreadable;
    UserIdentities(members, extract, users, a);
    CollectBoth<Error>(x, y);
    DevicesOfIs(members, a, first.0);
    assert members[0].0 == first.0;
    DevicesMatch(members, extract, users, a);
    hide LastRun, Of, CollectOk, Adjacent, DevicesOf;
  }

  /** One key around another. */
  lemma {:induction false} RunsAround<K(!new), V>(a: K, b: K, x: V, y: V, z: V)
    requires a != b
    ensures LastRun([(a, x), (b, y), (a, z)], a) == [z] && Of([(a, x), (b, y), (a, z)], a) == [x, z]
  {
    var items := [(a, x), (b, y), (a, z)];
    assert items[..2] == [(a, x), (b, y)] && items[..2][..1] == [(a, x)] && [(a, x)][..0] == [];
    assert TrailingRun(items[..2], a) == [];
    assert TrailingRun(items, a) == [] + [z] == [z];
    assert Of([(a, x)], a) == [] + [x] == [x];
    assert Of([(a, x), (b, y)], a) == [x];
    assert Of(items, a) == [x] + [z];
  }

  lemma {:induction false} InterleavedItems(members: seq<Member>, extract: Extract, users: seq<Bytes>, a: Bytes)
    requires |members| == 3 && forall i :: 0 <= i < 3 ==>
      UserOf(members[i].0).Some? && UserOf(members[i].0).value in users
      && extract(members[i].1).Ok? && extract(members[i].1).value.Some?
    requires UserOf(members[0].0) == UserOf(members[2].0) == Some(a) && UserOf(members[1].0) != Some(a)
    ensures var items := Extracted(members, extract, User(users));
      && LastRun(items, a) == [Ok(extract(members[2].1).value.value)]
      && Of(items, a) == [Ok(extract(members[0].1).value.value), Ok(extract(members[2].1).value.value)]
  {
    hide UserOf, LastRun, Of;
    var b := UserOf(members[1].0).value;
    var (x, y, z) := (extract(members[0].1).value, extract(members[1].1).value, extract(members[2].1).value);
    var ones: seq<Result<WireIdentity, Error>> := [Ok(x.value), Ok(y.value), Ok(z.value)];
    ExtractedLast(members[..1], extract, users);
    ExtractedLast(members[..2], extract, users);
    ExtractedLast(members, extract, users);
    assert members[..1][..0] == [] && members[..2][..1] == members[..1];
    assert Extracted(members, extract, User(users)) == [(a, ones[0]), (b, ones[1]), (a, ones[2])];
    RunsAround(a, b, ones[0], ones[1], ones[2]);
  }

  lemma {:induction false} ExtractedLast(members: seq<Member>, extract: Extract, users: seq<Bytes>)
    requires members != []
    requires var (id, credential) := members[|members| - 1];
      UserOf(id).Some? && UserOf(id).value in users && extract(credential).Ok? && extract(credential).value.Some?
    ensures var n := |members| - 1;
      Extracted(members, extract, User(users)) ==
        Extracted(members[..n], extract, User(users))
        + [(UserOf(members[n].0).value, Ok(extract(members[n].1).value.value))]
  {
  }

  lemma {:induction false} CollectBoth<E>(x: WireIdentity, y: WireIdentity)
    ensures CollectOk<WireIdentity, E>([Ok(y)]) == Ok([y])
    ensures CollectOk<WireIdentity, E>([Ok(x), Ok(y)]) == Ok([x, y])
  {
    CollectOne<E>(x);
    CollectOne<E>(y);
    CollectOkLast<WireIdentity, E>([Ok(x)], Ok(y));
    var both: seq<Result<WireIdentity, E>> := [Ok(x), Ok(y)];
    assert [Ok(x)] + [Ok(y)] == both && [x] + [y] == [x, y];
  }

  lemma {:induction false} CollectOne<E>(identity: WireIdentity)
    ensures CollectOk<WireIdentity, E>([Ok(identity)]) == Ok([identity])
  {
    CollectOkLast<WireIdentity, E>([], Ok(identity));
    var one: seq<Result<WireIdentity, E>> := [Ok(identity)];
    assert [] + one == one && [] + [identity] == [identity];
  }
}
