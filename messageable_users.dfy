/** The list of users the messages page offers (`Frontend/src/pages/Messages.jsx`, and the same
    code in `Backend/src/pages/Messages.jsx`): connections and followed users merged into one
    list, unique by id, through a JavaScript `Map` keyed by id. A `Map` remembers keys in the
    order of their first insertion, and `set` on a present key replaces only its value. */
module MessageableUsers {
  import opened Common
  import opened Domain

  /** The ids of `us`, position by position. */
  function Ids(us: seq<User>): (r: seq<UserId>)
    ensures |r| == |us|
    ensures forall i :: 0 <= i < |us| ==> r[i] == us[i].id
  {
    seq(|us|, i requires 0 <= i < |us| => us[i].id)
  }

  lemma IdsSnoc(us: seq<User>, u: User)
    ensures Ids(us + [u]) == Ids(us) + [u.id]
  {
  }

  /** The distinct elements of `s` in the order of their first occurrence. */
  function Dedup(s: seq<UserId>): (r: seq<UserId>)
    ensures forall x :: x in r <==> x in s
    ensures NoDup(r)
    ensures |r| <= |s|
    decreases |s|
  {
    if s == [] then []
    else
      var d := Dedup(s[..|s| - 1]);
      var x := s[|s| - 1];
      assert s == s[..|s| - 1] + [x];
      if x in d then d else d + [x]
  }

  lemma DedupSnoc(s: seq<UserId>, x: UserId)
    ensures Dedup(s + [x]) == if x in s then Dedup(s) else Dedup(s) + [x]
  {
    assert (s + [x])[..|s|] == s;
  }

  /** A list without repetitions is its own deduplication. */
  lemma {:induction false} DedupNoDup(s: seq<UserId>)
    requires NoDup(s)
    ensures Dedup(s) == s
    decreases |s|
  {
    if s != [] {
      var init := s[..|s| - 1];
      assert s == init + [s[|s| - 1]];
      assert NoDup(init);
      DedupNoDup(init);
      DedupSnoc(init, s[|s| - 1]);
    }
  }

  /** The elements of `b` that `a` does not hold, in order. */
  function Unseen(b: seq<UserId>, a: seq<UserId>): (r: seq<UserId>)
    ensures forall x :: x in r <==> x in b && x !in a
    decreases |b|
  {
    if b == [] then []
    else
      var init := b[..|b| - 1];
      var x := b[|b| - 1];
      assert b == init + [x];
      Unseen(init, a) + (if x in a then [] else [x])
  }

  /** Regrouping a concatenation, proved apart from the facts of the caller: asserted inside
      `DedupAppend` it has to be proved by sequence extensionality among all of them. */
  lemma AppendAssoc(p: seq<UserId>, q: seq<UserId>, r: seq<UserId>)
    ensures (p + q) + r == p + (q + r)
  {
  }

  lemma UnseenSnoc(b: seq<UserId>, x: UserId, a: seq<UserId>)
    ensures Unseen(b + [x], a) == Unseen(b, a) + (if x in a then [] else [x])
  {
    assert (b + [x])[..|b|] == b;
  }

  /** Deduplicating two lists one after the other: the distinct elements of the first, then the
      distinct elements of the second that the first does not hold. */
  lemma {:induction false} DedupAppend(a: seq<UserId>, b: seq<UserId>)
    ensures Dedup(a + b) == Dedup(a) + Dedup(Unseen(b, a))
    decreases |b|
  {
    if b == [] {
      assert a + b == a;
      assert Unseen(b, a) == [];
      assert Dedup(a) + Dedup([]) == Dedup(a);
    } else {
      var b' := b[..|b| - 1];
      var x := b[|b| - 1];
      assert b == b' + [x];
      var ab := a + b';
      assert a + b == ab + [x];
      var u := Unseen(b', a);
      DedupAppend(a, b');
      assert Dedup(ab) == Dedup(a) + Dedup(u);
      DedupSnoc(ab, x);
      UnseenSnoc(b', x, a);
      if x in a {
        assert x in ab;
        assert Unseen(b, a) == u;
        assert Dedup(a + b) == Dedup(ab);
      } else {
        assert (x in ab) == (x in u);
        assert Unseen(b, a) == u + [x];
        DedupSnoc(u, x);
        if x in u {
          assert Dedup(a + b) == Dedup(ab);
          assert Dedup(Unseen(b, a)) == Dedup(u);
        } else {
          assert Dedup(a + b) == Dedup(ab) + [x];
          assert Dedup(Unseen(b, a)) == Dedup(u) + [x];
          AppendAssoc(Dedup(a), Dedup(u), [x]);
        }
      }
    }
  }

  /** The last user of `us` with id `id` (what `map.set` leaves for a repeated id). */
  function LastWith(us: seq<User>, id: UserId): (u: User)
    requires id in Ids(us)
    ensures u in us && u.id == id
    decreases |us|
  {
    var init := us[..|us| - 1];
    var last := us[|us| - 1];
    assert us == init + [last];
    IdsSnoc(init, last);
    if last.id == id then last else LastWith(init, id)
  }

  /** The first user of `us` with id `id` (what a `has` check before `set` keeps). */
  function FirstWith(us: seq<User>, id: UserId): (u: User)
    requires id in Ids(us)
    ensures u in us && u.id == id
    decreases |us|
  {
    var init := us[..|us| - 1];
    var last := us[|us| - 1];
    assert us == init + [last];
    IdsSnoc(init, last);
    if id in Ids(init) then FirstWith(init, id) else last
  }

  /** The record the merge shows for `id`: the last connection with that id when there is one,
      otherwise the first followed user with it. */
  function Pick(c: seq<User>, f: seq<User>, id: UserId): (u: User)
    requires id in Ids(c) || id in Ids(f)
    ensures u.id == id
    ensures id in Ids(c) ==> u in c
    ensures id !in Ids(c) ==> u in f
  {
    if id in Ids(c) then LastWith(c, id) else FirstWith(f, id)
  }

  /** The records picked for `keys`, in the order of `keys`. */
  function PickAll(c: seq<User>, f: seq<User>, keys: seq<UserId>): (r: seq<User>)
    requires forall k :: k in keys ==> k in Ids(c) || k in Ids(f)
    ensures |r| == |keys|
    ensures forall i :: 0 <= i < |keys| ==> r[i] == Pick(c, f, keys[i])
    decreases |keys|
  {
    if keys == [] then []
    else PickAll(c, f, keys[..|keys| - 1]) + [Pick(c, f, keys[|keys| - 1])]
  }

  /** The merged list: one record per distinct id of the connections followed by the followed
      users, in first-occurrence order. */
  function Merged(c: seq<User>, f: seq<User>): (r: seq<User>)
    ensures |r| <= |c| + |f|
    ensures forall k :: 0 <= k < |r| ==> r[k] in c || r[k] in f
  {
    PickAll(c, f, Dedup(Ids(c) + Ids(f)))
  }

  /** The ids of the merge are those of the connections and followed users, deduplicated; no
      id appears twice. */
  lemma MergedIds(c: seq<User>, f: seq<User>)
    ensures Ids(Merged(c, f)) == Dedup(Ids(c) + Ids(f))
    ensures NoDup(Ids(Merged(c, f)))
  {
  }

  /** An id appears in the merge exactly when some connection or followed user has it. */
  lemma MergedMembership(c: seq<User>, f: seq<User>, id: UserId)
    ensures id in Ids(Merged(c, f)) <==> id in Ids(c) || id in Ids(f)
  {
    MergedIds(c, f);
  }

  /** The order of the merge: the distinct connection ids first, then the distinct ids of
      followed users who are not connections, each in first-occurrence order. */
  lemma MergedOrder(c: seq<User>, f: seq<User>)
    ensures Ids(Merged(c, f)) == Dedup(Ids(c)) + Dedup(Unseen(Ids(f), Ids(c)))
  {
    MergedIds(c, f);
    DedupAppend(Ids(c), Ids(f));
  }

  /** A connection's record always wins: for an id among the connections the merge shows a
      connection record, the last one with that id; a followed user's record shows only for an
      id no connection has, and then it is the first one with that id. */
  lemma MergedKeepsConnectionRecord(c: seq<User>, f: seq<User>)
    ensures forall i :: 0 <= i < |Merged(c, f)| && Merged(c, f)[i].id in Ids(c) ==>
              Merged(c, f)[i] == LastWith(c, Merged(c, f)[i].id)
    ensures forall i :: 0 <= i < |Merged(c, f)| && Merged(c, f)[i].id !in Ids(c) ==>
              Merged(c, f)[i] == FirstWith(f, Merged(c, f)[i].id)
    ensures forall u :: u in Merged(c, f) ==> u in c || u in f
  {
  }

  /** The merge is never longer than the two lists together. */
  lemma MergedLength(c: seq<User>, f: seq<User>)
    ensures |Merged(c, f)| <= |c| + |f|
  {
  }

  lemma {:induction false} LastWithUnique(us: seq<User>, i: nat)
    requires NoDup(Ids(us)) && i < |us|
    ensures LastWith(us, us[i].id) == us[i]
    decreases |us|
  {
    var init := us[..|us| - 1];
    var last := us[|us| - 1];
    assert us == init + [last];
    IdsSnoc(init, last);
    if i < |us| - 1 {
      assert Ids(us)[i] != Ids(us)[|us| - 1];
      assert NoDup(Ids(init)) by {
        forall a, b | 0 <= a < b < |init| ensures Ids(init)[a] != Ids(init)[b] {
          assert Ids(init)[a] == Ids(us)[a] && Ids(init)[b] == Ids(us)[b];
        }
      }
      assert init[i] == us[i];
      LastWithUnique(init, i);
    }
  }

  lemma {:induction false} FirstWithUnique(us: seq<User>, i: nat)
    requires NoDup(Ids(us)) && i < |us|
    ensures FirstWith(us, us[i].id) == us[i]
    decreases |us|
  {
    var init := us[..|us| - 1];
    var last := us[|us| - 1];
    assert us == init + [last];
    IdsSnoc(init, last);
    if i < |us| - 1 {
      assert NoDup(Ids(init)) by {
        forall a, b | 0 <= a < b < |init| ensures Ids(init)[a] != Ids(init)[b] {
          assert Ids(init)[a] == Ids(us)[a] && Ids(init)[b] == Ids(us)[b];
        }
      }
      assert init[i] == us[i];
      assert us[i].id in Ids(init) by { assert Ids(init)[i] == us[i].id; }
      FirstWithUnique(init, i);
    } else {
      assert last.id !in Ids(init) by {
        forall a | 0 <= a < |init| ensures Ids(init)[a] != last.id {
          assert Ids(init)[a] == Ids(us)[a];
        }
      }
    }
  }

  /** Without repeated ids within either list and without an id shared by both, the merge is
      the connections followed by the followed users. */
  lemma MergedDisjoint(c: seq<User>, f: seq<User>)
    requires NoDup(Ids(c)) && NoDup(Ids(f))
    requires forall id :: id in Ids(c) ==> id !in Ids(f)
    ensures Merged(c, f) == c + f
  {
    var ids := Ids(c) + Ids(f);
    NoDupAppend(Ids(c), Ids(f));
    DedupNoDup(ids);
    var r := Merged(c, f);
    assert r == PickAll(c, f, ids);
    assert |r| == |c + f|;
    forall i | 0 <= i < |r| ensures r[i] == (c + f)[i] {
      PickDisjoint(c, f, i);
    }
  }

  /** Position `i` of the joined lists picks its own record when the id lists are disjoint and
      free of repetitions. */
  lemma PickDisjoint(c: seq<User>, f: seq<User>, i: nat)
    requires NoDup(Ids(c)) && NoDup(Ids(f))
    requires forall id :: id in Ids(c) ==> id !in Ids(f)
    requires i < |c| + |f|
    ensures (Ids(c) + Ids(f))[i] in Ids(c) || (Ids(c) + Ids(f))[i] in Ids(f)
    ensures Pick(c, f, (Ids(c) + Ids(f))[i]) == (c + f)[i]
  {
    var ids := Ids(c) + Ids(f);
    if i < |c| {
      assert ids[i] == Ids(c)[i] == c[i].id;
      LastWithUnique(c, i);
    } else {
      var j := i - |c|;
      assert ids[i] == Ids(f)[j] == f[j].id;
      assert f[j].id in Ids(f);
      assert f[j].id !in Ids(c);
      FirstWithUnique(f, j);
    }
  }


  lemma LastWithSnoc(us: seq<User>, u: User, id: UserId)
    requires id in Ids(us + [u])
    ensures id != u.id ==> id in Ids(us)
    ensures LastWith(us + [u], id) == if u.id == id then u else LastWith(us, id)
  {
    assert (us + [u])[..|us|] == us;
    IdsSnoc(us, u);
  }

  lemma FirstWithSnoc(us: seq<User>, u: User, id: UserId)
    requires id in Ids(us + [u])
    ensures id != u.id ==> id in Ids(us)
    ensures FirstWith(us + [u], id) == if id in Ids(us) then FirstWith(us, id) else u
  {
    assert (us + [u])[..|us|] == us;
    IdsSnoc(us, u);
  }

  /** The map after the connections pass has seen `pre`: its keys in insertion order, and for
      each key the last record set for it. */
  ghost predicate SetState(pre: seq<User>, keys: seq<UserId>, values: map<UserId, User>) {
    && keys == Dedup(Ids(pre))
    && (forall id :: id in values <==> id in keys)
    && (forall id :: id in values ==> id in Ids(pre) && values[id] == LastWith(pre, id))
  }

  lemma SetStep(pre: seq<User>, u: User, keys: seq<UserId>, values: map<UserId, User>)
    requires SetState(pre, keys, values)
    ensures SetState(pre + [u], if u.id in values then keys else keys + [u.id], values[u.id := u])
  {
    var keys' := if u.id in values then keys else keys + [u.id];
    var values' := values[u.id := u];
    var pre' := pre + [u];
    IdsSnoc(pre, u);
    assert (u.id in values) == (u.id in Ids(pre));
    assert keys' == Dedup(Ids(pre')) by {
      DedupSnoc(Ids(pre), u.id);
    }
    assert forall id :: id in values' <==> id in keys';
    forall id | id in values'
      ensures id in Ids(pre') && values'[id] == LastWith(pre', id)
    {
      LastWithSnoc(pre, u, id);
      if id != u.id {
        assert values'[id] == values[id] == LastWith(pre, id);
      }
    }
    assert SetState(pre', keys', values');
  }



  /** A JavaScript `Map` from id to user: its keys in insertion order and its entries. */
  datatype IdMap = IdMap(keys: seq<UserId>, values: map<UserId, User>)

  /** `map.set(u._id, u)` for every user of `us`, starting from an empty map. */
  function SetPass(us: seq<User>): IdMap
    decreases |us|
  {
    if us == [] then IdMap([], map[])
    else
      var m := SetPass(us[..|us| - 1]);
      var u := us[|us| - 1];
      IdMap(if u.id in m.values then m.keys else m.keys + [u.id], m.values[u.id := u])
  }

  lemma {:induction false} SetPassState(us: seq<User>)
    ensures SetState(us, SetPass(us).keys, SetPass(us).values)
    decreases |us|
  {
    if us == [] {
      assert Ids(us) == [];
    } else {
      var init := us[..|us| - 1];
      assert us == init + [us[|us| - 1]];
      SetPassState(init);
      SetStep(init, us[|us| - 1], SetPass(init).keys, SetPass(init).values);
    }
  }

  /** The connections pass: `map.set(u._id, u)` for every connection in turn. */
  method SetConnections(c: seq<User>) returns (keys: seq<UserId>, values: map<UserId, User>)
    ensures SetState(c, keys, values)
  {
    keys := [];
    values := map[];
    var i := 0;
    while i < |c|
      invariant 0 <= i <= |c|
      invariant IdMap(keys, values) == SetPass(c[..i])
    {
      var u := c[i];
      assert c[..i + 1][..i] == c[..i];
      if u.id !in values {
        keys := keys + [u.id];
      }
      values := values[u.id := u];
      i := i + 1;
    }
    assert c[..|c|] == c;
    SetPassState(c);
  }

  /** The map after the following pass has seen `pre`, on top of all of `c`. */
  ghost predicate AddState(c: seq<User>, pre: seq<User>, keys: seq<UserId>, values: map<UserId, User>) {
    && keys == Dedup(Ids(c) + Ids(pre))
    && (forall id :: id in values <==> id in keys)
    && (forall id :: id in values ==> (id in Ids(c) || id in Ids(pre)) && values[id] == Pick(c, pre, id))
  }

  lemma AddStart(c: seq<User>, keys: seq<UserId>, values: map<UserId, User>)
    requires SetState(c, keys, values)
    ensures AddState(c, [], keys, values)
  {
    assert Ids(c) + Ids([]) == Ids(c);
  }

  lemma AddStep(c: seq<User>, pre: seq<User>, u: User, keys: seq<UserId>, values: map<UserId, User>)
    requires AddState(c, pre, keys, values)
    ensures u.id in values ==> AddState(c, pre + [u], keys, values)
    ensures u.id !in values ==> AddState(c, pre + [u], keys + [u.id], values[u.id := u])
  {
    var keys' := if u.id in values then keys else keys + [u.id];
    var values' := if u.id in values then values else values[u.id := u];
    IdsSnoc(pre, u);
    assert (u.id in values) == (u.id in Ids(c) + Ids(pre));
    assert keys' == Dedup(Ids(c) + Ids(pre + [u])) by {
      assert Ids(c) + Ids(pre) + [u.id] == Ids(c) + (Ids(pre) + [u.id]);
      DedupSnoc(Ids(c) + Ids(pre), u.id);
    }
    assert forall id :: id in values' <==> id in keys';
    forall id | id in values'
      ensures (id in Ids(c) || id in Ids(pre + [u])) && values'[id] == Pick(c, pre + [u], id)
    {
      if id !in Ids(c) {
        FirstWithSnoc(pre, u, id);
      }
    }
    assert AddState(c, pre + [u], keys', values');
  }

  /** `if (!map.has(u._id)) map.set(u._id, u)` for every user of `us`, starting from `m`. */
  function AddPass(m: IdMap, us: seq<User>): IdMap
    decreases |us|
  {
    if us == [] then m
    else
      var m' := AddPass(m, us[..|us| - 1]);
      var u := us[|us| - 1];
      if u.id in m'.values then m' else IdMap(m'.keys + [u.id], m'.values[u.id := u])
  }

  lemma {:induction false} AddPassState(c: seq<User>, m: IdMap, us: seq<User>)
    requires SetState(c, m.keys, m.values)
    ensures AddState(c, us, AddPass(m, us).keys, AddPass(m, us).values)
    decreases |us|
  {
    if us == [] {
      AddStart(c, m.keys, m.values);
    } else {
      var init := us[..|us| - 1];
      assert us == init + [us[|us| - 1]];
      AddPassState(c, m, init);
      AddStep(c, init, us[|us| - 1], AddPass(m, init).keys, AddPass(m, init).values);
    }
  }

  /** The following pass: `map.set(u._id, u)` only for an id the map does not have yet. */
  method AddFollowing(c: seq<User>, f: seq<User>, keys0: seq<UserId>, values0: map<UserId, User>)
      returns (keys: seq<UserId>, values: map<UserId, User>)
    requires SetState(c, keys0, values0)
    ensures AddState(c, f, keys, values)
  {
    keys := keys0;
    values := values0;
    var j := 0;
    while j < |f|
      invariant 0 <= j <= |f|
      invariant IdMap(keys, values) == AddPass(IdMap(keys0, values0), f[..j])
    {
      var u := f[j];
      assert f[..j + 1][..j] == f[..j];
      if u.id !in values {
        keys := keys + [u.id];
        values := values[u.id := u];
      }
      j := j + 1;
    }
    assert f[..|f|] == f;
    AddPassState(c, IdMap(keys0, values0), f);
  }

  /** One more key adds its pick at the end. */
  lemma PickAllSnoc(c: seq<User>, f: seq<User>, keys: seq<UserId>, k: nat)
    requires forall id :: id in keys ==> id in Ids(c) || id in Ids(f)
    requires k < |keys|
    ensures forall id :: id in keys[..k] ==> id in Ids(c) || id in Ids(f)
    ensures PickAll(c, f, keys[..k + 1]) == PickAll(c, f, keys[..k]) + [Pick(c, f, keys[k])]
  {
    var p := keys[..k + 1];
    assert p[..|p| - 1] == keys[..k];
    assert p[|p| - 1] == keys[k];
  }

  /** `Array.from(map.values())`: the values in the order of their keys. */
  method ValuesInOrder(c: seq<User>, f: seq<User>, keys: seq<UserId>, values: map<UserId, User>)
      returns (r: seq<User>)
    requires forall id :: id in keys ==> id in values && (id in Ids(c) || id in Ids(f))
    requires forall id :: id in values && (id in Ids(c) || id in Ids(f)) ==> values[id] == Pick(c, f, id)
    ensures r == PickAll(c, f, keys)
  {
    r := [];
    var k := 0;
    while k < |keys|
      invariant 0 <= k <= |keys|
      invariant r == PickAll(c, f, keys[..k])
    {
      PickAllSnoc(c, f, keys, k);
      r := r + [values[keys[k]]];
      k := k + 1;
    }
    assert keys[..|keys|] == keys;
  }

  /** The `useMemo` body: the connections pass sets every connection (a repeated id keeps its
      first position and takes the later record), the following pass adds only ids not yet
      present, and the values are copied out in key order. A missing list is empty. The map is
      held as its keys in insertion order and a map from key to value. */
  method Merge(connections: Option<seq<User>>, following: Option<seq<User>>) returns (r: seq<User>)
    ensures r == Merged(OrEmpty(connections), OrEmpty(following))
  {
    var c := OrEmpty(connections);
    var f := OrEmpty(following);
    var keys, values := SetConnections(c);
    keys, values := AddFollowing(c, f, keys, values);
    r := ValuesInOrder(c, f, keys, values);
  }
}
