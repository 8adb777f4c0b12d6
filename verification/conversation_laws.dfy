/** What creating, fetching and asking for conversations promises, whatever the cache has evicted. */
module ConversationLaws {
  import opened Wrappers
  import opened Sequences
  import opened Tables
  import opened Machines
  import opened GroupStores
  import Lrus = LruLaws
  import opened Conversations

  // ----- fetching all of them -----

  /** The group of a row, if it parses and this client is still a member. */
  function ActiveGroup(mls: Mls, id: Id, raw: Raw): (r: Option<Conversation>)
  {
    match mls.parse(raw)
    case None => None
    case Some(group) => if mls.active(group) then Some(Conversation(id, group)) else None
  }

  function StoredActive(mls: Mls, groups: Table<Id, Raw>, id: Id): (r: Option<Conversation>)
  {
    if id in groups.rows then ActiveGroup(mls, id, groups.rows[id]) else None
  }

  lemma {:induction false} FetchAllCons(mls: Mls, row: (Id, Raw), rest: seq<(Id, Raw)>)
    requires mls.parse(row.1).Some? && FetchAll(mls, rest).Some?
    ensures var conv := ActiveGroup(mls, row.0, row.1);
      FetchAll(mls, [row] + rest) ==
        Some((if conv.Some? then [(row.0, conv.value)] else []) + FetchAll(mls, rest).value)
  {
    assert ([row] + rest)[1..] == rest;
    var tail := FetchAll(mls, rest).value;
    assert [] + tail == tail;
  }

  lemma {:induction false} FetchAllParses(mls: Mls, rows: seq<(Id, Raw)>)
    ensures FetchAll(mls, rows).Some? <==> forall row :: row in rows ==> mls.parse(row.1).Some?
  {
    if rows != [] {
      assert rows == [rows[0]] + rows[1..];
      FetchAllParses(mls, rows[1..]);
    }
  }

  lemma {:induction false} FetchAllContains(mls: Mls, rows: seq<(Id, Raw)>, id: Id, conv: Conversation)
    requires FetchAll(mls, rows).Some?
    ensures (id, conv) in FetchAll(mls, rows).value <==>
      exists raw :: (id, raw) in rows && ActiveGroup(mls, id, raw) == Some(conv)
  {
    if rows != [] {
      var (row, rest) := (rows[0], rows[1..]);
      FetchAllContains(mls, rest, id, conv);
      FetchAllCons(mls, row, rest);
      assert rows == [row] + rest;
      hide FetchAll, ActiveGroup;
    }
  }

  lemma {:induction false} FetchAllOnce(mls: Mls, rows: seq<(Id, Raw)>)
    requires FetchAll(mls, rows).Some? && NoDup(Firsts(rows))
    ensures NoDup(Firsts(FetchAll(mls, rows).value))
    ensures forall id :: id in Firsts(FetchAll(mls, rows).value) ==> id in Firsts(rows)
  {
    if rows != [] {
      var (row, rest) := (rows[0], rows[1..]);
      FetchAllCons(mls, row, rest);
      assert rows == [row] + rest;
      assert Firsts(rest) == Firsts(rows)[1..];
      FetchAllOnce(mls, rest);
      var conv := ActiveGroup(mls, row.0, row.1);
      var (items, tail) := (FetchAll(mls, rows).value, FetchAll(mls, rest).value);
      hide FetchAll, ActiveGroup;
      assert Firsts(rows) == [row.0] + Firsts(rest);
      if conv.Some? {
        assert Firsts(items) == [row.0] + Firsts(tail);
        assert row.0 !in Firsts(rest);
        NoDupAppend([row.0], Firsts(tail));
      } else {
        assert items == tail;
      }
    }
  }

  lemma {:induction false} RowsOnce(groups: Table<Id, Raw>)
    ensures Firsts(groups.FindAll()) == groups.order && NoDup(Firsts(groups.FindAll()))
    ensures forall id, raw :: (id, raw) in groups.FindAll() <==> id in groups.rows && groups.rows[id] == raw
  {
    var rows := groups.FindAll();
    assert forall i :: 0 <= i < |rows| ==> Firsts(rows)[i] == groups.order[i];
    assert Firsts(rows) == groups.order;
    forall id, raw
      ensures (id, raw) in rows <==> id in groups.rows && groups.rows[id] == raw
    {
      if id in groups.rows && groups.rows[id] == raw {
        assert id in Elements(groups.order);
        var i :| 0 <= i < |groups.order| && groups.order[i] == id;
        assert rows[i] == (id, raw);
      }
    }
  }

  ghost predicate AllParse(mls: Mls, groups: Table<Id, Raw>) {
    forall id :: id in groups.rows ==> mls.parse(groups.rows[id]).Some?
  }

  /** All stored active conversations are fetched, each once, and nothing else is. */
  lemma {:induction false} FetchAllIsEveryActiveOne(mls: Mls, groups: Table<Id, Raw>)
    requires AllParse(mls, groups)
    ensures FetchAll(mls, groups.FindAll()).Some?
    ensures var items := FetchAll(mls, groups.FindAll()).value;
      NoDup(Firsts(items)) && forall id, conv :: (id, conv) in items <==> StoredActive(mls, groups, id) == Some(conv)
  {
    var rows := groups.FindAll();
    RowsOnce(groups);
    FetchAllParses(mls, rows);
    FetchAllOnce(mls, rows);
    hide FetchAll, ActiveGroup, Rows.FindAll;
    forall id, conv
      ensures (id, conv) in FetchAll(mls, rows).value <==> StoredActive(mls, groups, id) == Some(conv)
    {
      FetchAllContains(mls, rows, id, conv);
      if StoredActive(mls, groups, id) == Some(conv) {
        assert (id, groups.rows[id]) in rows;
      }
    }
  }

  /** A miss finds an id exactly when it is among all those fetched, and finds the same. */
  lemma {:induction false} MissFindsWhatIsListed(mls: Mls, groups: Table<Id, Raw>, id: Id, conv: Conversation)
    requires AllParse(mls, groups)
    ensures FetchAll(mls, groups.FindAll()).Some?
    ensures Fetch(mls, groups, true, id) == Ok(Some(conv)) <==> (id, conv) in FetchAll(mls, groups.FindAll()).value
  {
    FetchAllIsEveryActiveOne(mls, groups);
    hide FetchAll, Rows.FindAll;
  }

  // ----- the recency list afterwards -----

  lemma {:induction false} MinusCons<K(!new)>(x: K, s: seq<K>, xs: set<K>)
    ensures Minus([x] + s, xs) == if x in xs then Minus(s, xs) else [x] + Minus(s, xs)
  {
    assert ([x] + s)[1..] == s;
    assert [] + Minus(s, xs) == Minus(s, xs);
  }

  lemma {:induction false} MinusOneMore<K(!new)>(s: seq<K>, xs: set<K>, x: K)
    ensures Without(Minus(s, xs), x) == Minus(s, xs + {x})
  {
    if s == [] {
      assert Minus(s, xs) == [];
    } else {
      var (first, rest) := (s[0], s[1..]);
      assert s == [first] + rest;
      MinusOneMore(rest, xs, x);
      MinusCons(first, rest, xs);
      MinusCons(first, rest, xs + {x});
      hide Minus;
      if first !in xs {
        assert ([first] + Minus(rest, xs))[1..] == Minus(rest, xs);
      }
    }
  }

  lemma {:induction false} ReverseNoDup<K(!new)>(s: seq<K>)
    requires NoDup(s)
    ensures NoDup(Reverse(s)) && forall x :: x in Reverse(s) <==> x in s
  {
    ReverseElements(s);
  }

  lemma {:induction false} ReverseAppend<K(!new)>(s: seq<K>, x: K)
    ensures Reverse(s + [x]) == [x] + Reverse(s)
  {
  }

  /** The keys put in, the last one first, and then the others as they were. */
  function InFront<K(==, !new)>(ids: seq<K>, order: seq<K>): (r: seq<K>)
  {
    Reverse(ids) + Minus(order, Elements(ids))
  }

  lemma {:induction false} InFrontNoDup<K(!new)>(ids: seq<K>, order: seq<K>)
    requires NoDup(ids) && NoDup(order)
    ensures NoDup(InFront(ids, order))
  {
    ReverseNoDup(ids);
    MinusNoDup(order, Elements(ids));
    NoDupAppend(Reverse(ids), Minus(order, Elements(ids)));
  }

  lemma {:induction false} TouchIs<K(!new)>(order: seq<K>, k: K)
    ensures Lrus.Touch(order, k) == [k] + Without(order, k)
  {
  }

  lemma {:induction false} InFrontIs<K(!new)>(ids: seq<K>, order: seq<K>)
    ensures InFront(ids, order) == Reverse(ids) + Minus(order, Elements(ids))
  {
  }

  lemma {:induction false} ElementsOneMore<K(!new)>(ids: seq<K>, k: K)
    ensures Elements(ids + [k]) == Elements(ids) + {k}
  {
  }

  lemma {:induction false} InFrontOneMore<K(!new)>(ids: seq<K>, order: seq<K>, k: K)
    requires NoDup(ids) && k !in ids
    ensures Lrus.Touch(InFront(ids, order), k) == InFront(ids + [k], order)
  {
    hide *;
    var (front, rest) := (Reverse(ids), Minus(order, Elements(ids)));
    ReverseNoDup(ids);
    WithoutAppend(front, rest, k);
    MinusOneMore(order, Elements(ids), k);
    ElementsOneMore(ids, k);
    ReverseAppend(ids, k);
    InFrontIs(ids, order);
    InFrontIs(ids + [k], order);
    TouchIs(InFront(ids, order), k);
    Regroup([k], front, Without(rest, k));
  }

  /**
   Putting all of them in leaves the recency list that is theirs reversed, then the other entries
   in their old order, cut to the limit.
   */
  lemma {:induction false} FetchAllOrder<V>(
      limiter: HybridMemoryLimiter<Id>, c: Lru<Id, V>, items: seq<(Id, V)>)
    requires limiter.LengthOnly() && limiter.len > 0 && c.Valid(limiter) && NoDup(Firsts(items))
    ensures c.InsertAll(limiter, items).Valid(limiter)
    ensures c.InsertAll(limiter, items).order == Cut(InFront(Firsts(items), c.order), limiter.len)
    decreases |items|
  {
    if items == [] {
      MinusNothing(c.order, Elements(Firsts(items)));
      assert Reverse(Firsts(items)) == [];
    } else {
      var n := |items| - 1;
      var (init, last) := (items[..n], items[n]);
      var (ids, k) := (Firsts(init), last.0);
      assert items == init + [last] && Firsts(items) == ids + [k];
      assert forall i :: 0 <= i < n ==> ids[i] == Firsts(items)[i];
      hide Lru.Insert, InFront, Lrus.Touch, Lru.InsertAll, Kept;
      FetchAllOrder(limiter, c, init);
      InsertAllAppend(limiter, c, init, last);
      InsertKeeps(limiter, c.InsertAll(limiter, init), k, last.1);
      InFrontNoDup(ids, c.order);
      InFrontOneMore(ids, c.order, k);
      Lrus.CutTouch(InFront(ids, c.order), k, limiter.len);
      TouchIs(c.InsertAll(limiter, init).order, k);
    }
  }
}
