/**
 The reference-counted table of per-key locks in cache.go (lockKey, lockStoreKeys).

 An entry of the table exists only while some goroutine uses it.  A lock object is an identity;
 taking it from the table and taking the lock itself are separate steps, and so are unlocking
 it and giving up the reference.  A lock object admits any number of readers or one writer; that
 this excludes users of the same KEY is what has to be proved.
 */
module LockTable {
  import opened Wrappers
  import opened Paths

  type Thread = nat
  /** A hashed key.  Source hashes are hex strings of one length, so they sort as numbers. */
  type Key = nat

  // ------------------------------------------------------------ lock order of a Store

  function Insert(x: nat, s: seq<nat>): seq<nat> {
    if s == [] || x <= s[0] then [x] + s else [s[0]] + Insert(x, s[1..])
  }

  /** sort.Strings over the hashes. */
  function Sort(s: seq<nat>): seq<nat> {
    if s == [] then [] else Insert(s[0], Sort(s[1..]))
  }

  predicate Ascending(s: seq<nat>) {
    forall i, j :: 0 <= i < j < |s| ==> s[i] < s[j]
  }

  lemma {:induction false} InsertMembers(x: nat, s: seq<nat>)
    ensures forall y :: y in Insert(x, s) <==> y == x || y in s
  {
    if s != [] && s[0] < x {
      InsertMembers(x, s[1..]);
      assert forall y :: y in s <==> y == s[0] || y in s[1..];
    }
  }

  lemma {:induction false} InsertAscends(x: nat, s: seq<nat>)
    requires Ascending(s) && x !in s
    ensures Ascending(Insert(x, s))
  {
    if s != [] && s[0] < x {
      var r := Insert(x, s[1..]);
      InsertAscends(x, s[1..]);
      InsertMembers(x, s[1..]);
      forall j | 0 <= j < |r| ensures s[0] < r[j] {
        assert r[j] in r;
      }
    }
  }

  lemma {:induction false} SortAscends(s: seq<nat>)
    requires forall i, j :: 0 <= i < j < |s| ==> s[i] != s[j]
    ensures Ascending(Sort(s)) && forall y :: y in Sort(s) <==> y in s
  {
    if s != [] {
      SortAscends(s[1..]);
      InsertAscends(s[0], Sort(s[1..]));
      InsertMembers(s[0], Sort(s[1..]));
      assert forall y :: y in s <==> y == s[0] || y in s[1..];
    }
  }

  /** A key with its hash. */
  datatype Target = Target(key: string, hash: Key)

  /** Keeps the first target of each hash that is not in `seen`, in the caller's order. */
  function FirstPerHash(keys: seq<Target>, seen: set<Key>): seq<Target> {
    if keys == [] then []
    else if keys[0].hash in seen then FirstPerHash(keys[1..], seen)
    else [keys[0]] + FirstPerHash(keys[1..], seen + {keys[0].hash})
  }

  function HashSet(keys: seq<Target>): set<Key> {
    set k | k in keys :: k.hash
  }

  predicate OnePerHash(u: seq<Target>) {
    forall i, j :: 0 <= i < j < |u| ==> u[i].hash != u[j].hash
  }

  lemma HashSetCons(k: Target, rest: seq<Target>)
    ensures HashSet([k] + rest) == {k.hash} + HashSet(rest)
  {
    assert forall x :: x in [k] + rest <==> x == k || x in rest;
  }

  lemma OnePerHashCons(k: Target, u: seq<Target>)
    requires OnePerHash(u) && k.hash !in HashSet(u)
    ensures OnePerHash([k] + u)
  {
    forall j | 0 <= j < |u| ensures k.hash != u[j].hash { assert u[j] in u; }
  }

  /** No hash is kept twice, and exactly the hashes not seen before are kept. */
  lemma {:induction false} FirstPerHashFacts(keys: seq<Target>, seen: set<Key>)
    ensures OnePerHash(FirstPerHash(keys, seen))
    ensures HashSet(FirstPerHash(keys, seen)) == HashSet(keys) - seen
    ensures forall x :: x in FirstPerHash(keys, seen) ==> x in keys
  {
    if keys != [] {
      var k0, rest := keys[0], keys[1..];
      HashSetCons(k0, rest);
      assert [k0] + rest == keys;
      if k0.hash in seen {
        FirstPerHashFacts(rest, seen);
      } else {
        var v := FirstPerHash(rest, seen + {k0.hash});
        FirstPerHashFacts(rest, seen + {k0.hash});
        HashSetCons(k0, v);
        OnePerHashCons(k0, v);
      }
    }
  }

  /** The position of the first target with this hash. */
  function FirstAt(keys: seq<Target>, h: Key): (i: nat)
    requires h in HashSet(keys)
    ensures i < |keys| && keys[i].hash == h && forall j :: 0 <= j < i ==> keys[j].hash != h
  {
    assert keys == [keys[0]] + keys[1..];
    HashSetCons(keys[0], keys[1..]);
    if keys[0].hash == h then 0 else 1 + FirstAt(keys[1..], h)
  }

  /** The kept targets with their first positions, for a list that begins with `k0`. */
  lemma FirstAtLater(k0: Target, rest: seq<Target>, later: set<Key>, x: Target)
    requires k0.hash in later && x in FirstPerHash(rest, later)
    ensures x.hash in HashSet(rest) && x.hash in HashSet([k0] + rest)
    ensures FirstAt([k0] + rest, x.hash) == 1 + FirstAt(rest, x.hash)
  {
    var v := FirstPerHash(rest, later);
    FirstPerHashFacts(rest, later);
    assert x.hash in HashSet(v);
    HashSetCons(k0, rest);
    assert ([k0] + rest)[1..] == rest;
  }

  /** What is kept for a hash is its first target. */
  lemma {:induction false} FirstPerHashIsFirst(keys: seq<Target>, seen: set<Key>)
    ensures forall x :: x in FirstPerHash(keys, seen) ==> x.hash in HashSet(keys) && x == keys[FirstAt(keys, x.hash)]
  {
    if keys != [] {
      var k0, rest := keys[0], keys[1..];
      var later := seen + {k0.hash};
      assert [k0] + rest == keys;
      HashSetCons(k0, rest);
      FirstPerHashIsFirst(rest, later);
      assert seen + {k0.hash} == if k0.hash in seen then seen else later;
      forall x | x in FirstPerHash(rest, later) ensures x.hash in HashSet(keys) && x == keys[FirstAt(keys, x.hash)] {
        FirstAtLater(k0, rest, later, x);
      }
    }
  }

  /** The positions at which the kept targets first occur. */
  predicate InOrder(keys: seq<Target>, u: seq<Target>) {
    && (forall i :: 0 <= i < |u| ==> u[i].hash in HashSet(keys))
    && (forall i, j :: 0 <= i < j < |u| ==> FirstAt(keys, u[i].hash) < FirstAt(keys, u[j].hash))
  }

  lemma InOrderLater(k0: Target, rest: seq<Target>, later: set<Key>)
    requires k0.hash in later && InOrder(rest, FirstPerHash(rest, later))
    ensures InOrder([k0] + rest, FirstPerHash(rest, later))
  {
    var v := FirstPerHash(rest, later);
    forall i | 0 <= i < |v|
      ensures v[i].hash in HashSet([k0] + rest) && FirstAt([k0] + rest, v[i].hash) == 1 + FirstAt(rest, v[i].hash)
    {
      FirstAtLater(k0, rest, later, v[i]);
    }
  }

  lemma InOrderFirst(k0: Target, rest: seq<Target>, v: seq<Target>)
    requires InOrder([k0] + rest, v) && forall i :: 0 <= i < |v| ==> v[i].hash != k0.hash
    ensures InOrder([k0] + rest, [k0] + v)
  {
    HashSetCons(k0, rest);
    assert FirstAt([k0] + rest, k0.hash) == 0;
  }

  /** The kept targets stay in the caller's order. */
  lemma {:induction false} FirstPerHashInOrder(keys: seq<Target>, seen: set<Key>)
    ensures InOrder(keys, FirstPerHash(keys, seen))
  {
    if keys != [] {
      var k0, rest := keys[0], keys[1..];
      var later := seen + {k0.hash};
      assert [k0] + rest == keys;
      assert later == if k0.hash in seen then seen else later;
      FirstPerHashInOrder(rest, later);
      InOrderLater(k0, rest, later);
      FirstPerHashFacts(rest, later);
      var v := FirstPerHash(rest, later);
      forall i | 0 <= i < |v| ensures v[i].hash != k0.hash { assert v[i].hash in HashSet(v); }
      InOrderFirst(k0, rest, v);
    }
  }

  function Hashes(u: seq<Target>): (h: seq<Key>)
    ensures |h| == |u|
  {
    if u == [] then [] else Hashes(u[..|u| - 1]) + [u[|u| - 1].hash]
  }

  lemma {:induction false} HashesFacts(u: seq<Target>)
    requires OnePerHash(u)
    ensures forall i, j :: 0 <= i < j < |u| ==> Hashes(u)[i] != Hashes(u)[j]
    ensures forall i :: 0 <= i < |u| ==> Hashes(u)[i] == u[i].hash
    ensures forall h :: h in Hashes(u) <==> h in HashSet(u)
  {
    if u != [] {
      var front := u[..|u| - 1];
      HashesFacts(front);
      assert forall x :: x in u <==> x in front || x == u[|u| - 1];
    }
  }

  /** The order in which a Store of these keys takes their locks. */
  function LockOrder(keys: seq<Target>): seq<Key> {
    Sort(Hashes(FirstPerHash(keys, {})))
  }

  lemma LockOrderAscends(keys: seq<Target>)
    ensures Ascending(LockOrder(keys)) && forall h :: h in LockOrder(keys) <==> h in HashSet(keys)
  {
    FirstPerHashFacts(keys, {});
    HashesFacts(FirstPerHash(keys, {}));
    SortAscends(Hashes(FirstPerHash(keys, {})));
  }

  /** lockStoreKeys: one target per hash in the caller's order, and the ascending order in which
      their locks are taken. */
  method StoreLockOrder(keys: seq<Target>) returns (unique: seq<Target>, order: seq<Key>)
    ensures unique == FirstPerHash(keys, {}) && OnePerHash(unique) && order == LockOrder(keys)
    ensures forall x :: x in unique ==> x.hash in HashSet(keys) && x == keys[FirstAt(keys, x.hash)]
    ensures Ascending(order) && forall h :: h in order <==> h in HashSet(keys)
  {
    unique := [];
    var hashes: seq<Key>, seen: set<Key> := [], {};
    var i := 0;
    while i < |keys|
      invariant 0 <= i <= |keys|
      invariant hashes == Hashes(unique)
      invariant unique + FirstPerHash(keys[i..], seen) == FirstPerHash(keys, {})
    {
      assert keys[i..][1..] == keys[i + 1..];
      if keys[i].hash !in seen {
        seen := seen + {keys[i].hash};
        assert (unique + [keys[i]])[..|unique|] == unique;
        unique := unique + [keys[i]];
        hashes := hashes + [keys[i].hash];
      }
      i := i + 1;
    }
    assert unique + [] == unique;
    FirstPerHashFacts(keys, {});
    FirstPerHashIsFirst(keys, {});
    LockOrderAscends(keys);
    order := Sort(hashes);
  }

  // -------------------------------------------------------------------- state

  datatype Claim = Claim(thread: Thread, key: Key)

  datatype Phase =
    | Waiting(lock: nat, read: bool)
    | Holding(lock: nat, read: bool)
    | Leaving(lock: nat)

  /** `users` is the reference count inside each lock object; `plans` are the locks a goroutine has
      still to take, in the order it will take them. */
  datatype State = State(
    table: map<Key, nat>, users: map<nat, nat>, next: nat, claims: map<Claim, Phase>, plans: map<Thread, seq<Key>>)

  function Init(): State {
    State(map[], map[], 0, map[], map[])
  }

  function PlanOf(plans: map<Thread, seq<Key>>, t: Thread): seq<Key> {
    if t in plans then plans[t] else []
  }

  /** A goroutine is about to lock all of these keys: several for a Store, one for anything else. */
  function DoPlan(s: State, t: Thread, keys: seq<Target>): State {
    s.(plans := s.plans[t := LockOrder(keys)])
  }

  function Popped(plans: map<Thread, seq<Key>>, t: Thread): map<Thread, seq<Key>> {
    var p := PlanOf(plans, t);
    plans[t := if p == [] then [] else p[1..]]
  }

  // -------------------------------------------------------------------- steps

  /** Under writerMu: find or create the key's lock object and count this user. */
  function DoEnter(s: State, t: Thread, k: Key, read: bool): State
    requires k in s.table ==> s.table[k] in s.users
  {
    if k in s.table then
      var id := s.table[k];
      s.(users := s.users[id := s.users[id] + 1], claims := s.claims[Claim(t, k) := Waiting(id, read)],
         plans := Popped(s.plans, t))
    else
      State(s.table[k := s.next], s.users[s.next := 1], s.next + 1,
            s.claims[Claim(t, k) := Waiting(s.next, read)], Popped(s.plans, t))
  }

  function DoAcquire(s: State, c: Claim): State
    requires c in s.claims && s.claims[c].Waiting?
  {
    s.(claims := s.claims[c := Holding(s.claims[c].lock, s.claims[c].read)])
  }

  function DoUnlock(s: State, c: Claim): State
    requires c in s.claims
  {
    s.(claims := s.claims[c := Leaving(s.claims[c].lock)])
  }

  /** Under writerMu: the last user deletes the key's table entry, whatever it maps to. */
  function DoLeave(s: State, c: Claim): State
    requires c in s.claims && s.claims[c].lock in s.users && 0 < s.users[s.claims[c].lock]
  {
    var id := s.claims[c].lock;
    var left := s.users[id] - 1;
    s.(users := s.users[id := left],
       table := if left == 0 then s.table - {c.key} else s.table,
       claims := s.claims - {c})
  }

  /** The lock object lets the claim in: no writer holds it, and for a writer no reader either. */
  ghost predicate Free(claims: map<Claim, Phase>, id: nat, read: bool) {
    forall d :: d in claims && claims[d].Holding? && claims[d].lock == id ==> read && claims[d].read
  }

  datatype Step =
    | Plan(thread: Thread, keys: seq<Target>)
    | Enter(thread: Thread, key: Key, read: bool)
    | Acquire(claim: Claim)
    | Unlock(claim: Claim)
    | Leave(claim: Claim)

  /** A goroutine takes the next lock of its plan when it holds all before it. */
  ghost predicate Enabled(s: State, step: Step) {
    match step
    case Plan(t, _) => PlanOf(s.plans, t) == [] && forall c :: c in s.claims ==> c.thread != t
    case Enter(t, k, _) =>
      && PlanOf(s.plans, t) != [] && PlanOf(s.plans, t)[0] == k
      && forall c :: c in s.claims && c.thread == t ==> s.claims[c].Holding?
    case Acquire(c) =>
      c in s.claims && s.claims[c].Waiting? && Free(s.claims, s.claims[c].lock, s.claims[c].read)
    case Unlock(c) => c in s.claims && s.claims[c].Holding?
    case Leave(c) => c in s.claims && s.claims[c].Leaving?
  }

  // ---------------------------------------------------------------- invariant

  ghost function Users(claims: map<Claim, Phase>, k: Key): set<Claim> {
    set c | c in claims && c.key == k
  }

  /** Every user of a key refers to the one lock object the table has for it. */
  ghost predicate Linked(table: map<Key, nat>, claims: map<Claim, Phase>) {
    forall c :: c in claims ==> c.key in table && table[c.key] == claims[c].lock
  }

  /** A table entry is counted exactly, and some goroutine is using it. */
  ghost predicate Counted(s: State, k: Key)
    requires k in s.table
  {
    && s.table[k] in s.users && s.table[k] < s.next
    && s.users[s.table[k]] == |Users(s.claims, k)| && Users(s.claims, k) != {}
  }

  ghost predicate CountsOk(s: State) {
    forall k :: k in s.table ==> Counted(s, k)
  }

  ghost predicate Distinct(table: map<Key, nat>) {
    forall j, k :: j in table && k in table && table[j] == table[k] ==> j == k
  }

  predicate BothHold(p: Phase, q: Phase) {
    p.Holding? && q.Holding? && p.lock == q.lock
  }

  ghost predicate Exclusive(claims: map<Claim, Phase>) {
    forall c, d :: c in claims && d in claims && c != d && BothHold(claims[c], claims[d]) ==>
        claims[c].read && claims[d].read
  }

  ghost predicate Ordered(claims: map<Claim, Phase>) {
    forall c, d :: c in claims && d in claims && c.thread == d.thread && claims[c].Waiting? && d != c ==> d.key < c.key
  }

  /** What a goroutine has still to lock ascends, from above everything it has locked. */
  predicate PlanOk(claims: map<Claim, Phase>, t: Thread, plan: seq<Key>) {
    Ascending(plan) && forall c, x :: c in claims && c.thread == t && x in plan ==> c.key < x
  }

  ghost predicate PlansOk(s: State) {
    forall t :: PlanOk(s.claims, t, PlanOf(s.plans, t))
  }

  ghost predicate Inv(s: State) {
    && Linked(s.table, s.claims)
    && CountsOk(s) && PlansOk(s)
    && Distinct(s.table) && Exclusive(s.claims) && Ordered(s.claims)
  }

  lemma UsersAfterEnter(claims: map<Claim, Phase>, c: Claim, p: Phase, j: Key)
    requires c !in claims
    ensures Users(claims[c := p], j) == if j == c.key then Users(claims, j) + {c} else Users(claims, j)
  {
  }

  lemma UsersAfterLeave(claims: map<Claim, Phase>, c: Claim, j: Key)
    ensures Users(claims - {c}, j) == Users(claims, j) - {c}
  {
  }

  lemma UsersSame(claims: map<Claim, Phase>, c: Claim, p: Phase, j: Key)
    requires c in claims
    ensures Users(claims[c := p], j) == Users(claims, j)
  {
  }

  lemma ExclusiveSet(claims: map<Claim, Phase>, c: Claim, p: Phase)
    requires Exclusive(claims) && (p.Holding? ==> Free(claims, p.lock, p.read))
    ensures Exclusive(claims[c := p])
  {
  }

  /** A relabelled claim keeps the lock order; a new one needs all of its thread's locks held. */
  lemma OrderedSet(claims: map<Claim, Phase>, c: Claim, p: Phase)
    requires Ordered(claims)
    requires c in claims ==> !p.Waiting?
    requires c !in claims ==> forall d :: d in claims && d.thread == c.thread ==> d.key < c.key && claims[d].Holding?
    ensures Ordered(claims[c := p])
  {
  }

  lemma DropKeepsRest(claims: map<Claim, Phase>, c: Claim)
    requires Exclusive(claims) && Ordered(claims)
    ensures Exclusive(claims - {c}) && Ordered(claims - {c})
  {
  }

  lemma EnterKeepsCounts(s: State, t: Thread, k: Key, read: bool, j: Key)
    requires Linked(s.table, s.claims) && CountsOk(s) && Distinct(s.table)
    requires Claim(t, k) !in s.claims && (k in s.table ==> s.table[k] in s.users)
    requires j in DoEnter(s, t, k, read).table
    ensures Counted(DoEnter(s, t, k, read), j)
  {
    var s', c := DoEnter(s, t, k, read), Claim(t, k);
    UsersAfterEnter(s.claims, c, s'.claims[c], j);
    if k in s.table {
      assert Counted(s, j) && Counted(s, k);
    } else if j == k {
      assert Users(s.claims, k) == {};
    } else {
      assert Counted(s, j);
    }
  }

  lemma EnterKeepsTable(s: State, t: Thread, k: Key, read: bool)
    requires Linked(s.table, s.claims) && CountsOk(s) && Distinct(s.table)
    requires k in s.table ==> s.table[k] in s.users
    ensures var s' := DoEnter(s, t, k, read); Linked(s'.table, s'.claims) && Distinct(s'.table)
  {
    forall j | j in s.table ensures s.table[j] < s.next { assert Counted(s, j); }
  }

  /** The next lock of a plan lies above all locks its goroutine has. */
  lemma EnterAscends(s: State, t: Thread, k: Key, read: bool)
    requires PlansOk(s) && Enabled(s, Enter(t, k, read))
    ensures forall c :: c in s.claims && c.thread == t ==> c.key < k
  {
    assert PlanOk(s.claims, t, PlanOf(s.plans, t));
    assert k in PlanOf(s.plans, t);
  }

  lemma EnterKeepsPlans(s: State, t: Thread, k: Key, read: bool)
    requires PlansOk(s) && Enabled(s, Enter(t, k, read)) && (k in s.table ==> s.table[k] in s.users)
    ensures PlansOk(DoEnter(s, t, k, read))
  {
    var s', plan := DoEnter(s, t, k, read), PlanOf(s.plans, t);
    forall u ensures PlanOk(s'.claims, u, PlanOf(s'.plans, u)) {
      assert PlanOk(s.claims, u, PlanOf(s.plans, u));
      if u == t {
        assert PlanOf(s'.plans, t) == plan[1..];
        forall c, x | c in s'.claims && c.thread == t && x in plan[1..] ensures c.key < x {
          var i :| 0 <= i < |plan| - 1 && plan[1..][i] == x;
          assert plan[i + 1] == x && plan[0] < plan[i + 1] && x in plan;
          assert c == Claim(t, k) || c in s.claims;
        }
      }
    }
  }

  lemma PlanKeepsInv(s: State, t: Thread, keys: seq<Target>)
    requires Inv(s) && Enabled(s, Plan(t, keys))
    ensures Inv(DoPlan(s, t, keys))
  {
    var s' := DoPlan(s, t, keys);
    LockOrderAscends(keys);
    forall u ensures PlanOk(s'.claims, u, PlanOf(s'.plans, u)) { assert PlanOk(s.claims, u, PlanOf(s.plans, u)); }
    forall k | k in s'.table ensures Counted(s', k) { assert Counted(s, k); }
  }

  lemma EnterKeepsInv(s: State, t: Thread, k: Key, read: bool)
    requires Inv(s) && Enabled(s, Enter(t, k, read)) && (k in s.table ==> s.table[k] in s.users)
    ensures Inv(DoEnter(s, t, k, read))
  {
    var s', c := DoEnter(s, t, k, read), Claim(t, k);
    EnterAscends(s, t, k, read);
    EnterKeepsPlans(s, t, k, read);
    assert c !in s.claims;
    EnterKeepsTable(s, t, k, read);
    forall j | j in s'.table ensures Counted(s', j) {
      EnterKeepsCounts(s, t, k, read, j);
    }
    ExclusiveSet(s.claims, c, s'.claims[c]);
    OrderedSet(s.claims, c, s'.claims[c]);
  }

  lemma RelabelKeepsCounts(s: State, c: Claim, p: Phase)
    requires CountsOk(s) && c in s.claims
    ensures CountsOk(s.(claims := s.claims[c := p]))
  {
    var s' := s.(claims := s.claims[c := p]);
    forall k | k in s'.table ensures Counted(s', k) {
      assert Counted(s, k);
      UsersSame(s.claims, c, p, k);
    }
  }

  lemma RelabelKeepsInv(s: State, c: Claim, p: Phase)
    requires Inv(s) && c in s.claims && p.lock == s.claims[c].lock && !p.Waiting?
    requires p.Holding? ==> Free(s.claims, p.lock, p.read)
    ensures Inv(s.(claims := s.claims[c := p]))
  {
    var s' := s.(claims := s.claims[c := p]);
    assert Linked(s'.table, s'.claims);
    assert CountsOk(s') by { RelabelKeepsCounts(s, c, p); }
    assert Exclusive(s'.claims) by { ExclusiveSet(s.claims, c, p); }
    assert Ordered(s'.claims) by { OrderedSet(s.claims, c, p); }
  }

  lemma LeaveKeepsCounts(s: State, c: Claim, j: Key)
    requires Linked(s.table, s.claims) && CountsOk(s) && Distinct(s.table)
    requires c in s.claims && s.claims[c].lock in s.users && 0 < s.users[s.claims[c].lock]
    requires j in DoLeave(s, c).table
    ensures Counted(DoLeave(s, c), j)
  {
    assert Counted(s, j) && Counted(s, c.key);
    assert c in Users(s.claims, c.key);
    UsersAfterLeave(s.claims, c, j);
    if j != c.key { assert c !in Users(s.claims, j); }
  }

  lemma LeaveKeepsTable(s: State, c: Claim)
    requires Linked(s.table, s.claims) && CountsOk(s) && Distinct(s.table)
    requires c in s.claims && s.claims[c].lock in s.users && 0 < s.users[s.claims[c].lock]
    ensures var s' := DoLeave(s, c); Linked(s'.table, s'.claims) && Distinct(s'.table)
  {
    var s' := DoLeave(s, c);
    assert Counted(s, c.key) && c in Users(s.claims, c.key);
    UsersAfterLeave(s.claims, c, c.key);
    forall d | d in s'.claims ensures d.key in s'.table {
      assert d in Users(s.claims, d.key);
      if d.key == c.key {
        assert d in Users(s'.claims, c.key);
        assert |Users(s'.claims, c.key)| == s.users[s.claims[c].lock] - 1;
      }
    }
  }

  lemma LeaveKeepsInv(s: State, c: Claim)
    requires Inv(s) && c in s.claims && s.claims[c].lock in s.users && 0 < s.users[s.claims[c].lock]
    ensures Inv(DoLeave(s, c))
  {
    LeaveKeepsTable(s, c);
    DropKeepsRest(s.claims, c);
    forall j | j in DoLeave(s, c).table ensures Counted(DoLeave(s, c), j) {
      LeaveKeepsCounts(s, c, j);
    }
  }

  /** No step can find the table or a count out of step: every enabled step has an effect. */
  lemma StepsNeverGetStuck(s: State, step: Step)
    requires Inv(s) && Enabled(s, step)
    ensures exists s' :: Next(s, step, s')
  {
    match step
    case Plan(t, keys) => assert Next(s, step, DoPlan(s, t, keys));
    case Enter(t, k, read) =>
      if k in s.table { assert Counted(s, k); }
      assert Next(s, step, DoEnter(s, t, k, read));
    case Acquire(c) => assert Next(s, step, DoAcquire(s, c));
    case Unlock(c) => assert Next(s, step, DoUnlock(s, c));
    case Leave(c) =>
      assert Counted(s, c.key) && c in Users(s.claims, c.key);
      assert Next(s, step, DoLeave(s, c));
  }

  // --------------------------------------------------------------- whole runs

  ghost predicate Next(s: State, step: Step, s': State) {
    && Enabled(s, step)
    && match step
       case Plan(t, keys) => s' == DoPlan(s, t, keys)
       case Enter(t, k, read) => (k in s.table ==> s.table[k] in s.users) && s' == DoEnter(s, t, k, read)
       case Acquire(c) => s' == DoAcquire(s, c)
       case Unlock(c) => s' == DoUnlock(s, c)
       case Leave(c) => s.claims[c].lock in s.users && 0 < s.users[s.claims[c].lock] && s' == DoLeave(s, c)
  }

  lemma StepKeepsInv(s: State, step: Step, s': State)
    requires Inv(s) && Next(s, step, s')
    ensures Inv(s')
  {
    match step
    case Plan(t, keys) => PlanKeepsInv(s, t, keys);
    case Enter(t, k, read) => EnterKeepsInv(s, t, k, read);
    case Acquire(c) => RelabelKeepsInv(s, c, s'.claims[c]);
    case Unlock(c) => RelabelKeepsInv(s, c, s'.claims[c]);
    case Leave(c) => LeaveKeepsInv(s, c);
  }

  ghost predicate IsRun(run: seq<State>, steps: seq<Step>) {
    && |run| == |steps| + 1 && run[0] == Init()
    && forall i :: 0 <= i < |steps| ==> Next(run[i], steps[i], run[i + 1])
  }

  lemma {:induction false} RunInv(run: seq<State>, steps: seq<Step>, i: nat)
    requires IsRun(run, steps) && i < |run|
    ensures Inv(run[i])
  {
    if i != 0 {
      RunInv(run, steps, i - 1);
      StepKeepsInv(run[i - 1], steps[i - 1], run[i]);
    }
  }

  /** The table holds exactly the keys in use, and all users of a key share one lock object. */
  lemma OneLockPerKey(run: seq<State>, steps: seq<Step>, i: nat)
    requires IsRun(run, steps) && i < |run|
    ensures var s := run[i];
            && s.table.Keys == (set c | c in s.claims :: c.key)
            && forall c, d :: c in s.claims && d in s.claims ==>
                 (s.claims[c].lock == s.claims[d].lock <==> c.key == d.key)
  {
    RunInv(run, steps, i);
    var s := run[i];
    forall k | k in s.table ensures exists c :: c in s.claims && c.key == k {
      assert Counted(s, k);
      var c :| c in Users(s.claims, k);
    }
  }

  /** A writer on a key excludes every other writer and every reader of that key. */
  lemma WritersExclude(run: seq<State>, steps: seq<Step>, i: nat, c: Claim, d: Claim)
    requires IsRun(run, steps) && i < |run|
    requires c in run[i].claims && d in run[i].claims && c.key == d.key
    requires run[i].claims[c].Holding? && !run[i].claims[c].read && run[i].claims[d].Holding?
    ensures c == d
  {
    RunInv(run, steps, i);
  }

  function PhaseOf(s: State, c: Claim): Option<Phase> {
    if c in s.claims then Some(s.claims[c]) else None
  }

  /** A user of a key waits for its lock, in the mode asked for, then holds it, then leaves. */
  lemma StepPhase(s: State, step: Step, s': State, c: Claim)
    requires Next(s, step, s')
    ensures PhaseOf(s', c) ==
            match step
            case Plan(_, _) => PhaseOf(s, c)
            case Enter(t, k, read) =>
              if c != Claim(t, k) then PhaseOf(s, c)
              else Some(Waiting(if k in s.table then s.table[k] else s.next, read))
            case Acquire(d) => if c == d then Some(Holding(s.claims[c].lock, s.claims[c].read)) else PhaseOf(s, c)
            case Unlock(d) => if c == d then Some(Leaving(s.claims[c].lock)) else PhaseOf(s, c)
            case Leave(d) => if c == d then None else PhaseOf(s, c)
  {
  }

  /** A goroutine has still to lock what it planned and has not begun to lock. */
  lemma StepPlan(s: State, step: Step, s': State, t: Thread)
    requires Next(s, step, s')
    ensures PlanOf(s'.plans, t) ==
            match step
            case Plan(u, keys) => if t == u then LockOrder(keys) else PlanOf(s.plans, t)
            case Enter(u, k, _) => if t == u then PlanOf(s.plans, t)[1..] else PlanOf(s.plans, t)
            case _ => PlanOf(s.plans, t)
  {
  }

  /** The claim waits for its lock or holds it, for reading or for writing. */
  predicate InMode(s: State, c: Claim, read: bool) {
    c in s.claims && !s.claims[c].Leaving? && s.claims[c].read == read
  }

  lemma ModeStep(s: State, step: Step, s': State, c: Claim, read: bool)
    requires Next(s, step, s') && InMode(s', c, read) && !InMode(s, c, read)
    ensures step == Enter(c.thread, c.key, read)
  {
    StepPhase(s, step, s', c);
  }

  /** It is in the mode it entered with. */
  lemma ModeIsAsEntered(run: seq<State>, steps: seq<Step>, j: nat, c: Claim, read: bool) returns (n: nat)
    requires IsRun(run, steps) && j < |run| && InMode(run[j], c, read)
    ensures n < j && steps[n] == Enter(c.thread, c.key, read)
  {
    var flags := seq(|run|, i requires 0 <= i < |run| => InMode(run[i], c, read));
    n := Onset(flags, j);
    ModeStep(run[n], steps[n], run[n + 1], c, read);
  }

  /** A waiting user is let in exactly when nobody holds its key, or all who do read and so will it:
      users of other keys never stand in its way, and readers share. */
  lemma LetInExactly(run: seq<State>, steps: seq<Step>, i: nat, c: Claim)
    requires IsRun(run, steps) && i < |run| && c in run[i].claims && run[i].claims[c].Waiting?
    ensures Enabled(run[i], Acquire(c)) <==>
            forall d :: d in run[i].claims && d.key == c.key && run[i].claims[d].Holding? ==>
              run[i].claims[c].read && run[i].claims[d].read
  {
    OneLockPerKey(run, steps, i);
    var s := run[i];
    forall d | d in s.claims ensures s.claims[d].lock == s.claims[c].lock <==> d.key == c.key {}
  }

  /** The holder at `n + 1` (cyclically) keeps the lock that the claim at `n` waits for. */
  ghost predicate WaitCycle(s: State, waits: seq<Claim>) {
    && waits != []
    && (forall n :: 0 <= n < |waits| ==> waits[n] in s.claims && s.claims[waits[n]].Waiting?)
    && (forall n :: 0 <= n < |waits| ==>
          var held := Claim(waits[if n + 1 == |waits| then 0 else n + 1].thread, waits[n].key);
          held in s.claims && s.claims[held].Holding?)
  }

  lemma {:induction false} WaitsAscend(s: State, waits: seq<Claim>, n: nat)
    requires Ordered(s.claims) && WaitCycle(s, waits) && n < |waits|
    ensures waits[0].key <= waits[n].key
  {
    if n != 0 {
      WaitsAscend(s, waits, n - 1);
      var held := Claim(waits[n].thread, waits[n - 1].key);
      assert held in s.claims && s.claims[held].Holding?;
    }
  }

  /** No set of goroutines waits for each other in a cycle. */
  lemma NoWaitCycle(run: seq<State>, steps: seq<Step>, i: nat, waits: seq<Claim>)
    requires IsRun(run, steps) && i < |run|
    ensures !WaitCycle(run[i], waits)
  {
    RunInv(run, steps, i);
    if WaitCycle(run[i], waits) {
      var last := |waits| - 1;
      var held := Claim(waits[0].thread, waits[last].key);
      assert held in run[i].claims && run[i].claims[held].Holding?;
      WaitsAscend(run[i], waits, last);
    }
  }

  ghost predicate Blocked(s: State, t: Thread) {
    exists c :: c in s.claims && c.thread == t && s.claims[c].Waiting?
  }

  /** The greatest key anyone waits for. */
  lemma {:induction false} GreatestWait(claims: map<Claim, Phase>, c: Claim) returns (m: Claim)
    requires c in claims && claims[c].Waiting?
    ensures m in claims && claims[m].Waiting?
    ensures forall d :: d in claims && claims[d].Waiting? ==> d.key <= m.key
    decreases |claims|
  {
    var rest := claims - {c};
    if d :| d in rest && rest[d].Waiting? && c.key < d.key {
      assert |rest| < |claims| by { assert rest.Keys < claims.Keys; SmallerKeys(rest, claims); }
      m := GreatestWait(rest, d);
      assert forall e :: e in claims && claims[e].Waiting? && e != c ==> e in rest;
    } else {
      m := c;
      assert forall e :: e in claims && claims[e].Waiting? && e != c ==> e in rest;
    }
  }

  lemma SmallerKeys(m: map<Claim, Phase>, n: map<Claim, Phase>)
    requires m.Keys < n.Keys
    ensures |m| < |n|
  {
    var c :| c in n.Keys && c !in m.Keys;
    assert m.Keys + (n.Keys - m.Keys) == n.Keys;
    assert |n.Keys - m.Keys| > 0 by { assert c in n.Keys - m.Keys; }
  }

  /** The strictest rule a lock may follow: a reader also stands back for every waiting writer. */
  ghost predicate LetIn(claims: map<Claim, Phase>, p: Phase)
    requires p.Waiting?
  {
    && Free(claims, p.lock, p.read)
    && (p.read ==> forall d :: d in claims && claims[d].Waiting? && claims[d].lock == p.lock ==> claims[d].read)
  }

  /** The claim waits, and can be let in now or waits for a goroutine that waits for nothing. */
  ghost predicate Unblocked(s: State, m: Claim) {
    && m in s.claims && s.claims[m].Waiting?
    && (LetIn(s.claims, s.claims[m]) ||
        exists h :: h in s.claims && s.claims[h].Holding? && h.key == m.key && !Blocked(s, h.thread))
  }

  lemma GreatestIsUnblocked(s: State, m: Claim)
    requires Linked(s.table, s.claims) && Distinct(s.table) && Ordered(s.claims) && m in s.claims
    requires s.claims[m].Waiting?
    requires forall d :: d in s.claims && s.claims[d].Waiting? ==> d.key <= m.key
    requires LetIn(s.claims, s.claims[m]) || !Free(s.claims, s.claims[m].lock, s.claims[m].read)
    ensures Unblocked(s, m)
  {
    if !Free(s.claims, s.claims[m].lock, s.claims[m].read) {
      var h :| h in s.claims && s.claims[h].Holding? && s.claims[h].lock == s.claims[m].lock;
      assert h.key == m.key;
      HolderOfGreatestRuns(s.claims, m, h);
    }
  }

  /** While anyone waits, some waiting claim can be let in now, even by a lock that prefers writers,
      or a goroutine it waits for is itself waiting for nothing: overlapping Stores never deadlock. */
  lemma SomeoneCanProceed(run: seq<State>, steps: seq<Step>, i: nat, c: Claim)
    requires IsRun(run, steps) && i < |run|
    requires c in run[i].claims && run[i].claims[c].Waiting?
    ensures exists m :: Unblocked(run[i], m)
  {
    RunInv(run, steps, i);
    var s := run[i];
    var m := GreatestWait(s.claims, c);
    var p := s.claims[m];
    if w :| w in s.claims && s.claims[w].Waiting? && s.claims[w].lock == p.lock && !s.claims[w].read {
      assert w.key == m.key;
      GreatestIsUnblocked(s, w);
    } else {
      GreatestIsUnblocked(s, m);
    }
  }

  lemma HolderOfGreatestRuns(claims: map<Claim, Phase>, m: Claim, h: Claim)
    requires Ordered(claims) && h in claims && claims[h].Holding? && h.key == m.key
    requires forall d :: d in claims && claims[d].Waiting? ==> d.key <= m.key
    ensures forall c :: c in claims && c.thread == h.thread ==> !claims[c].Waiting?
  {
  }

  /** The locks never stand still: while any goroutine has a lock, waits for one or has one to take, some
      goroutine can take a step other than planning. */
  lemma NeverStandsStill(run: seq<State>, steps: seq<Step>, i: nat)
    requires IsRun(run, steps) && i < |run|
    requires run[i].claims != map[] || exists t :: PlanOf(run[i].plans, t) != []
    ensures exists step: Step :: !step.Plan? && Enabled(run[i], step)
  {
    var s := run[i];
    if c :| c in s.claims && s.claims[c].Leaving? {
      assert Enabled(s, Leave(c));
    } else if c :| c in s.claims && s.claims[c].Holding? {
      assert Enabled(s, Unlock(c));
    } else if c :| c in s.claims {
      SomeoneCanProceed(run, steps, i, c);
      var m :| Unblocked(s, m);
      assert Enabled(s, Acquire(m));
    } else {
      var t :| PlanOf(s.plans, t) != [];
      assert Enabled(s, Enter(t, PlanOf(s.plans, t)[0], false));
    }
  }
}
