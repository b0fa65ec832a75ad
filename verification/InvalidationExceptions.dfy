/**
 The two exceptions in the theorems of module Invalidation are reachable: concrete executions,
 built step by step, in which they occur.  And from every state Invalidate, a Store that nothing
 speaks against and a lookup can be carried to their end.
 */
module InvalidationExceptions {
  import opened Invalidation
  import opened Paths

  ghost predicate Goes(s: State, step: Step, t: State) {
    Enabled(s, step) && Apply(s, step) == t
  }

  /** What an initial state leads to is the last state of a run. */
  lemma LeadsIsRun(c: Config, clock: Time, steps: seq<Step>, t: State) returns (run: seq<State>)
    requires Leads(Goes, Init(c, clock), steps, t)
    ensures IsRun(run, steps) && run[|steps|] == t
  {
    run :| Path(Goes, run, steps) && run[0] == Init(c, clock) && run[|steps|] == t;
    forall i | 0 <= i < |steps| ensures Enabled(run[i], steps[i]) && run[i + 1] == Apply(run[i], steps[i]) {
      assert Goes(run[i], steps[i], run[i + 1]);
    }
  }

  lemma MarkOne(v: View, b: Key, m: Marker, now: Time)
    ensures Mark(v.markers, {b}, m) == v.markers[b := m]
    ensures Date(v.lastBarrier, {b}, now) == v.lastBarrier[b := now]
  {
  }

  lemma PublishRuns(s0: State, steps: seq<Step>, s: State, b: Key) returns (t: State)
    requires Leads(Goes, s0, steps, s) && s.waiting == map[]
    ensures t == s.(view := s.view.(markers := s.view.markers[b := Barrier],
                                    lastBarrier := s.view.lastBarrier[b := s.clock]),
                    waiting := map[0 := {b}])
    ensures Leads(Goes, s0, steps + [PublishBarrier(0, {b})], t)
  {
    MarkOne(s.view, b, Barrier, s.clock);
    t := DoPublishBarrier(s, 0, {b});
    assert t.waiting == map[0 := {b}];
    LeadsOn(Goes, s0, steps, s, PublishBarrier(0, {b}), t);
  }

  lemma FinalizeRuns(s0: State, steps: seq<Step>, s: State, b: Key) returns (t: State)
    requires Leads(Goes, s0, steps, s) && s.ops == map[] && s.waiting == map[0 := {b}]
    ensures t == s.(view := s.view.(markers := s.view.markers[b := Final(s.clock)]), waiting := map[])
    ensures Leads(Goes, s0, steps + [Finalize(0)], t)
  {
    MarkOne(s.view, b, Final(s.clock), s.clock);
    t := DoFinalize(s, 0);
    assert t.waiting == map[];
    LeadsOn(Goes, s0, steps, s, Finalize(0), t);
  }

  /** Invalidate(b) runs to completion with no writer active. */
  lemma InvalidateRuns(s0: State, steps: seq<Step>, s: State, b: Key) returns (t: State)
    requires Leads(Goes, s0, steps, s) && s.ops == map[] && s.waiting == map[]
    ensures t == s.(view := s.view.(markers := s.view.markers[b := Final(s.clock)],
                                    lastBarrier := s.view.lastBarrier[b := s.clock]))
    ensures Leads(Goes, s0, steps + [PublishBarrier(0, {b})] + [Finalize(0)], t)
  {
    var u := PublishRuns(s0, steps, s, b);
    t := FinalizeRuns(s0, steps + [PublishBarrier(0, {b})], u, b);
    assert u.view.markers[b := Final(s.clock)] == s.view.markers[b := Final(s.clock)];
  }

  lemma BeginRuns(s0: State, steps: seq<Step>, s: State, keys: set<Key>, began: Time) returns (t: State)
    requires Leads(Goes, s0, steps, s) && s.ops == map[] && ClosedKeys(keys, keys)
    ensures t == s.(ops := map[0 := Op(keys, keys, began, {}, map[])])
    ensures Leads(Goes, s0, steps + [Begin(0, keys, keys, began)], t)
  {
    t := s.(ops := map[0 := Op(keys, keys, began, {}, map[])]);
    LeadsOn(Goes, s0, steps, s, Begin(0, keys, keys, began), t);
  }

  lemma CheckRuns(s0: State, steps: seq<Step>, s: State, op: Op, k: Key) returns (t: State)
    requires Leads(Goes, s0, steps, s) && s.ops == map[0 := op]
    requires k in op.keys && op.stamps == map[] && !Withdrawn(s.view, k, op.began)
    ensures t == s.(ops := map[0 := op.(checked := op.checked + {k})])
    ensures Leads(Goes, s0, steps + [Check(0, k)], t)
  {
    t := s.(ops := map[0 := op.(checked := op.checked + {k})]);
    assert s.ops[0 := op.(checked := op.checked + {k})] == t.ops;
    LeadsOn(Goes, s0, steps, s, Check(0, k), t);
  }

  lemma StampRuns(s0: State, steps: seq<Step>, s: State, op: Op, k: Key) returns (t: State)
    requires Leads(Goes, s0, steps, s) && s.ops == map[0 := op] && k in op.targets && op.checked == op.keys
    ensures t == s.(ops := map[0 := op.(stamps := op.stamps[k := s.clock])])
    ensures Leads(Goes, s0, steps + [Stamp(0, k)], t)
  {
    t := s.(ops := map[0 := op.(stamps := op.stamps[k := s.clock])]);
    assert s.ops[0 := op.(stamps := op.stamps[k := s.clock])] == t.ops;
    LeadsOn(Goes, s0, steps, s, Stamp(0, k), t);
  }

  lemma CommitRuns(s0: State, steps: seq<Step>, s: State, op: Op) returns (t: State)
    requires Leads(Goes, s0, steps, s) && s.ops == map[0 := op] && op.stamps.Keys == op.targets
    ensures t == s.(ops := map[], entries := s.entries + Written(op))
    ensures Leads(Goes, s0, steps + [Commit(0)], t)
  {
    t := s.(ops := map[], entries := s.entries + Written(op));
    assert s.ops - {0} == map[];
    LeadsOn(Goes, s0, steps, s, Commit(0), t);
  }

  lemma TickRuns(s0: State, steps: seq<Step>, s: State, to: Time) returns (t: State)
    requires Leads(Goes, s0, steps, s) && s.clock <= to
    ensures t == s.(clock := to) && Leads(Goes, s0, steps + [Tick(to)], t)
  {
    t := s.(clock := to);
    LeadsOn(Goes, s0, steps, s, Tick(to), t);
  }

  /** Cleanup runs both passes over entries and markers it can remove. */
  lemma SweepRuns(s0: State, steps: seq<Step>, s: State) returns (t: State)
    requires Leads(Goes, s0, steps, s) && s.sweep.None? && 0 < s.view.config.ttl
    requires forall r :: r in s.lookups ==> s.lookups[r].Retrieved?
    ensures t == DoSweepMarkers(DoSweepEntries(s, s.clock, {}))
    ensures Leads(Goes, s0, steps + [SweepEntries(s.clock, {})] + [SweepMarkers], t)
  {
    var u := DoSweepEntries(s, s.clock, {});
    LeadsOn(Goes, s0, steps, s, SweepEntries(s.clock, {}), u);
    t := DoSweepMarkers(u);
    LeadsOn(Goes, s0, steps + [SweepEntries(s.clock, {})], u, SweepMarkers, t);
  }

  lemma OpenRuns(s0: State, steps: seq<Step>, s: State, r: nat, k: Key) returns (t: State)
    requires Leads(Goes, s0, steps, s) && r !in s.lookups && k in s.entries && s.sweep.None?
    ensures t == DoOpen(s, r, k) && Leads(Goes, s0, steps + [Open(r, k)], t)
  {
    t := DoOpen(s, r, k);
    LeadsOn(Goes, s0, steps, s, Open(r, k), t);
  }

  lemma JudgeRuns(s0: State, steps: seq<Step>, s: State, r: nat) returns (t: State)
    requires Leads(Goes, s0, steps, s) && r in s.lookups && s.lookups[r].Opened?
    ensures t == DoJudge(s, r) && Leads(Goes, s0, steps + [Judge(r)], t)
  {
    t := DoJudge(s, r);
    LeadsOn(Goes, s0, steps, s, Judge(r), t);
  }

  lemma WrittenOne(entries: map<Key, Entry>, op: Op, b: Key, at: Time)
    requires op.stamps.Keys == {b} && op.stamps[b] == at
    ensures entries + Written(op) == entries[b := Entry(op.began, at)]
  {
  }

  lemma WrittenPair(entries: map<Key, Entry>, op: Op, b: Key, k: Key, at: Time)
    requires op.stamps.Keys == {b, k} && op.stamps[b] == at && op.stamps[k] == at
    ensures entries + Written(op) == entries[b := Entry(op.began, at)][k := Entry(op.began, at)]
  {
  }

  /** A Store of one unmarked base key runs to completion. */
  lemma StoreRuns(s0: State, steps: seq<Step>, s: State, b: Key, began: Time) returns (t: State)
    requires Leads(Goes, s0, steps, s) && s.ops == map[] && b.Base? && !Withdrawn(s.view, b, began)
    ensures t == s.(entries := s.entries[b := Entry(began, s.clock)])
    ensures Leads(Goes, s0, steps + [Begin(0, {b}, {b}, began)] + [Check(0, b)] + [Stamp(0, b)] + [Commit(0)], t)
  {
    var s1 := BeginRuns(s0, steps, s, {b}, began);
    var p := steps + [Begin(0, {b}, {b}, began)];
    var s2 := CheckRuns(s0, p, s1, s1.ops[0], b);
    var s3 := StampRuns(s0, p + [Check(0, b)], s2, s2.ops[0], b);
    t := CommitRuns(s0, p + [Check(0, b)] + [Stamp(0, b)], s3, s3.ops[0]);
    WrittenOne(s.entries, s3.ops[0], b, s.clock);
  }

  /** A Store of a base key together with one variant passes its checks. */
  lemma PairChecked(s0: State, steps: seq<Step>, s: State, b: Key, k: Key, began: Time) returns (t: State)
    requires Leads(Goes, s0, steps, s) && s.ops == map[] && b == Base(k.url) && b != k
    requires !Withdrawn(s.view, b, began) && !Withdrawn(s.view, k, began)
    ensures t == s.(ops := map[0 := Op({b, k}, {b, k}, began, {b, k}, map[])])
    ensures Leads(Goes, s0, steps + [Begin(0, {b, k}, {b, k}, began)] + [Check(0, b)] + [Check(0, k)], t)
  {
    var s1 := BeginRuns(s0, steps, s, {b, k}, began);
    var p := steps + [Begin(0, {b, k}, {b, k}, began)];
    var s2 := CheckRuns(s0, p, s1, s1.ops[0], b);
    t := CheckRuns(s0, p + [Check(0, b)], s2, s2.ops[0], k);
    assert s1.ops[0].checked + {b} + {k} == {b, k};
  }

  /** A checked Store of a base key and a variant publishes both. */
  lemma PairStored(s0: State, steps: seq<Step>, s: State, b: Key, k: Key, began: Time) returns (t: State)
    requires Leads(Goes, s0, steps, s) && b != k
    requires s.ops == map[0 := Op({b, k}, {b, k}, began, {b, k}, map[])]
    ensures t == s.(ops := map[], entries := s.entries[b := Entry(began, s.clock)][k := Entry(began, s.clock)])
    ensures Leads(Goes, s0, steps + [Stamp(0, b)] + [Stamp(0, k)] + [Commit(0)], t)
  {
    var s4 := StampRuns(s0, steps, s, s.ops[0], b);
    var s5 := StampRuns(s0, steps + [Stamp(0, b)], s4, s4.ops[0], k);
    t := CommitRuns(s0, steps + [Stamp(0, b)] + [Stamp(0, k)], s5, s5.ops[0]);
    WrittenPair(s.entries, s5.ops[0], b, k, s.clock);
  }

  lemma SweptState(s: State, b: Key)
    requires s.sweep.None? && 0 < s.view.config.ttl && s.view.markers == map[b := Final(0)]
    requires Retention(s.view.config) < s.clock
    ensures var t := DoSweepMarkers(DoSweepEntries(s, s.clock, {}));
            t == s.(view := s.view.(markers := map[]), entries := s.entries - Expired(s, s.clock),
                    lookups := map r | r in s.lookups :: NoteDropped(s.lookups[r], map[b := 0]))
  {
    var u := DoSweepEntries(s, s.clock, {});
    assert Expired(s, s.clock) - {} == Expired(s, s.clock);
    assert u.sweep.value == Sweep(s.clock, true);
    assert Gone(u.view, u.sweep.value) == map[b := 0];
  }

  /**
   The retention exception is real: for every configuration that expires entries and every
   duration `d` past the retention there is an execution in which a fetch of that duration,
   begun at the instant of the barrier (time 0), is stored after the sweep and served fresh.
   */
  lemma OutlastingFetchEscapes(c: Config, b: Key, d: Time) returns (steps: seq<Step>, s: State, t: State)
    requires 0 < c.ttl && Retention(c) < d && b.Base?
    ensures steps != [] && Invalidates(steps[0], b)
    ensures Leads(Goes, Init(c, 0), steps, s) && s.lookups == map[0 := Opened(b, Entry(0, d))]
    ensures Leads(Goes, Init(c, 0), steps + [Judge(0)], t)
    ensures t.lookups == map[0 := Retrieved(b, Entry(0, d), false, map[])]
  {
    var s0 := Init(c, 0);
    LeadsNowhere(Goes, s0);
    var s2 := InvalidateRuns(s0, [], s0, b);
    steps := [] + [PublishBarrier(0, {b})] + [Finalize(0)];
    var s3 := TickRuns(s0, steps, s2, d);
    steps := steps + [Tick(d)];
    var s5 := SweepRuns(s0, steps, s3);
    steps := steps + [SweepEntries(d, {})] + [SweepMarkers];
    SweptState(s3, b);
    var s9 := StoreRuns(s0, steps, s5, b, 0);
    steps := steps + [Begin(0, {b}, {b}, 0)] + [Check(0, b)] + [Stamp(0, b)] + [Commit(0)];
    s := OpenRuns(s0, steps, s9, 0, b);
    steps := steps + [Open(0, b)];
    t := JudgeRuns(s0, steps, s, 0);
  }

  /** Retrieve of an entry that no marker withdraws. */
  lemma RetrieveRuns(s0: State, steps: seq<Step>, s: State, r: nat, k: Key) returns (t: State)
    requires Leads(Goes, s0, steps, s) && r !in s.lookups && k in s.entries && s.sweep.None?
    requires !Withdrawn(s.view, k, s.entries[k].storedAt)
    ensures t == s.(lookups := s.lookups[r := Retrieved(k, s.entries[k], false, map[])])
    ensures Leads(Goes, s0, steps + [Open(r, k)] + [Judge(r)], t)
  {
    var u := OpenRuns(s0, steps, s, r, k);
    t := JudgeRuns(s0, steps + [Open(r, k)], u, r);
    assert u.lookups[r := Retrieved(k, s.entries[k], false, map[])] ==
        s.lookups[r := Retrieved(k, s.entries[k], false, map[])];
  }

  /** Both entries are retrieved, and Cleanup runs before the variant is judged. */
  lemma RaceTail(s0: State, steps: seq<Step>, s: State, b: Key, k: Key) returns (steps': seq<Step>, t: State)
    requires Leads(Goes, s0, steps, s) && s.lookups == map[] && s.sweep.None? && 0 < s.view.config.ttl
    requires b in s.entries && k in s.entries && b != k && Retention(s.view.config) < s.clock
    requires s.view.markers == map[b := Final(0)] && s.entries[b].storedAt == s.clock
    ensures Leads(Goes, s0, steps', t) && steps <= steps' && t.view.markers == map[] && t.clock == s.clock
    ensures t.lookups.Keys == {0, 1}
    ensures t.lookups[0] == Retrieved(b, s.entries[b], false, map[b := 0])
    ensures t.lookups[1] == Retrieved(k, s.entries[k], false, map[b := 0])
  {
    var s2 := RetrieveRuns(s0, steps, s, 0, b);
    steps' := steps + [Open(0, b)] + [Judge(0)];
    var s4 := RetrieveRuns(s0, steps', s2, 1, k);
    steps' := steps' + [Open(1, k)] + [Judge(1)];
    t := SweepRuns(s0, steps', s4);
    steps' := steps' + [SweepEntries(s.clock, {})] + [SweepMarkers];
    SweptState(s4, b);
    DroppedPair(s4.lookups, b, s.entries[b], k, s.entries[k]);
  }

  lemma DroppedPair(lookups: map<nat, Lookup>, b: Key, e: Entry, k: Key, f: Entry)
    requires lookups.Keys == {0, 1}
    requires lookups[0] == Retrieved(b, e, false, map[]) && lookups[1] == Retrieved(k, f, false, map[])
    ensures var noted := map r | r in lookups :: NoteDropped(lookups[r], map[b := 0]);
            && noted.Keys == {0, 1}
            && noted[0] == Retrieved(b, e, false, map[b := 0]) && noted[1] == Retrieved(k, f, false, map[b := 0])
  {
    assert NoteDropped(lookups[0], map[b := 0]).dropped == map[b := 0];
    assert NoteDropped(lookups[1], map[b := 0]).dropped == map[b := 0];
  }

  /**
   The sweep exception is real: for every configuration that expires entries and every age `d`
   past the retention there is an execution in which a variant stored at time 0, before the
   invalidation of its discovery key at time 0, is retrieved, a sweep then drops that key's
   marker, and the judgement that follows at age `d` leaves the variant unmarked although its
   base entry has been refetched since.
   */
  lemma SweepRaceServesOldVariant(c: Config, k: Key, d: Time) returns (steps: seq<Step>, s: State, t: State)
    requires 0 < c.ttl && k.Variant? && Retention(c) < d
    ensures Leads(Goes, Init(c, 0), steps, s) && PublishBarrier(0, {Base(k.url)}) in steps
    ensures s.lookups.Keys == {0, 1}
    ensures s.lookups[0].Retrieved? && s.lookups[0].key == Base(k.url) && !s.lookups[0].stale
    ensures s.lookups[1].Retrieved? && s.lookups[1].key == k && s.lookups[1].entry == Entry(0, 0)
    ensures s.clock == d
    ensures Leads(Goes, Init(c, 0), steps + [JudgeAgainst(1, Base(k.url))], t)
    ensures 1 in t.lookups && t.lookups[1].Retrieved? && !t.lookups[1].stale
  {
    var s0, b := Init(c, 0), Base(k.url);
    LeadsNowhere(Goes, s0);
    var s3 := PairChecked(s0, [], s0, b, k, 0);
    steps := [] + [Begin(0, {b, k}, {b, k}, 0)] + [Check(0, b)] + [Check(0, k)];
    var s6 := PairStored(s0, steps, s3, b, k, 0);
    steps := steps + [Stamp(0, b)] + [Stamp(0, k)] + [Commit(0)];
    var s8 := InvalidateRuns(s0, steps, s6, b);
    steps := steps + [PublishBarrier(0, {b})];
    assert PublishBarrier(0, {b}) == steps[6];
    steps := steps + [Finalize(0)];
    var s9 := TickRuns(s0, steps, s8, d);
    steps := steps + [Tick(d)];
    var s13 := StoreRuns(s0, steps, s9, b, d);
    steps := steps + [Begin(0, {b}, {b}, d)] + [Check(0, b)] + [Stamp(0, b)] + [Commit(0)];
    assert steps[6] == PublishBarrier(0, {b});
    steps, s := RaceTail(s0, steps, s13, b, k);
    assert steps[6] == PublishBarrier(0, {b});
    t := DoJudgeAgainst(s, 1, b);
    LeadsOn(Goes, s0, steps, s, JudgeAgainst(1, b), t);
  }

  // ---------------------------------------------------------- what is always possible

  /** The writers in flight can all return. */
  lemma {:induction false} OpsCanEnd(s0: State, steps: seq<Step>, s: State) returns (steps': seq<Step>, t: State)
    requires Leads(Goes, s0, steps, s)
    ensures Leads(Goes, s0, steps', t) && t.ops == map[] && t.waiting == s.waiting
    decreases |s.ops|
  {
    steps', t := steps, s;
    if s.ops != map[] {
      var i :| i in s.ops;
      var u := DoFail(s, i, map[], {});
      LeadsOn(Goes, s0, steps, s, Fail(i, map[], {}), u);
      FewerKeys(s.ops, i);
      steps', t := OpsCanEnd(s0, steps + [Fail(i, map[], {})], u);
    }
  }

  lemma FewerKeys(ops: map<nat, Op>, i: nat)
    requires i in ops
    ensures |ops - {i}| == |ops| - 1
  {
    assert (ops - {i}).Keys == ops.Keys - {i};
  }

  /** From every state an Invalidate that waits can come to its end. */
  lemma InvalidateCanEnd(s: State, v: nat) returns (steps: seq<Step>, t: State)
    requires v in s.waiting
    ensures Leads(Goes, s, steps, t) && v !in t.waiting
  {
    LeadsNowhere(Goes, s);
    var u;
    steps, u := OpsCanEnd(s, [], s);
    t := DoFinalize(u, v);
    LeadsOn(Goes, s, steps, u, Finalize(v), t);
    steps := steps + [Finalize(v)];
  }

  lemma {:induction false} ChecksPass(s0: State, steps: seq<Step>, s: State, i: nat, left: set<Key>)
    returns (steps': seq<Step>, t: State)
    requires Leads(Goes, s0, steps, s) && i in s.ops && s.ops[i].stamps == map[]
    requires s.ops[i].checked + left == s.ops[i].keys
    requires forall k :: k in left ==> !Withdrawn(s.view, k, s.ops[i].began)
    ensures t == s.(ops := s.ops[i := s.ops[i].(checked := s.ops[i].keys)]) && Leads(Goes, s0, steps', t)
    decreases left
  {
    if left == {} {
      steps', t := steps, s;
      assert s.ops[i].checked == s.ops[i].keys;
      assert s.ops[i := s.ops[i]] == s.ops;
    } else {
      var k :| k in left;
      var op := s.ops[i];
      var u := s.(ops := s.ops[i := op.(checked := op.checked + {k})]);
      assert Apply(s, Check(i, k)) == u;
      LeadsOn(Goes, s0, steps, s, Check(i, k), u);
      assert op.checked + {k} + (left - {k}) == op.keys;
      steps', t := ChecksPass(s0, steps + [Check(i, k)], u, i, left - {k});
      assert u.ops[i := u.ops[i].(checked := op.keys)] == s.ops[i := op.(checked := op.keys)];
    }
  }

  lemma StampMore(stamps: map<Key, Time>, left: set<Key>, k: Key, now: Time)
    requires k in left
    ensures stamps[k := now] + (map j | j in left - {k} :: now) == stamps + (map j | j in left :: now)
  {
  }

  lemma SetTwice(ops: map<nat, Op>, i: nat, a: Op, b: Op)
    ensures ops[i := a][i := b] == ops[i := b]
  {
  }

  lemma {:induction false} StampsPass(s0: State, steps: seq<Step>, s: State, i: nat, left: set<Key>)
    returns (steps': seq<Step>, t: State)
    requires Leads(Goes, s0, steps, s) && i in s.ops && s.ops[i].checked == s.ops[i].keys && left <= s.ops[i].targets
    ensures t == s.(ops := s.ops[i := s.ops[i].(stamps := s.ops[i].stamps + map k | k in left :: s.clock)])
    ensures Leads(Goes, s0, steps', t)
    decreases left
  {
    var op := s.ops[i];
    if left == {} {
      steps', t := steps, s;
      assert op.stamps + (map k | k in left :: s.clock) == op.stamps;
      assert s.ops[i := op.(stamps := op.stamps)] == s.ops;
    } else {
      var k :| k in left;
      var u := DoStamp(s, i, k);
      LeadsOn(Goes, s0, steps, s, Stamp(i, k), u);
      steps', t := StampsPass(s0, steps + [Stamp(i, k)], u, i, left - {k});
      StampMore(op.stamps, left, k, s.clock);
      SetTwice(s.ops, i, u.ops[i], t.ops[i]);
    }
  }

  /** All checks have passed and all targets are stamped. */
  lemma StoreCanPrepare(s: State, i: nat, keys: set<Key>, targets: set<Key>, began: Time)
    returns (steps: seq<Step>, u: State)
    requires i !in s.ops && ClosedKeys(keys, targets) && forall k :: k in keys ==> !Withdrawn(s.view, k, began)
    ensures u == s.(ops := s.ops[i := Op(keys, targets, began, keys, map k | k in targets :: s.clock)])
    ensures Leads(Goes, s, steps, u)
  {
    LeadsNowhere(Goes, s);
    var a := DoBegin(s, i, keys, targets, began);
    LeadsOn(Goes, s, [], s, Begin(i, keys, targets, began), a);
    assert a.ops[i].checked + keys == keys;
    var b;
    steps, b := ChecksPass(s, [] + [Begin(i, keys, targets, began)], a, i, keys);
    assert b.ops == s.ops[i := Op(keys, targets, began, keys, map[])];
    steps, u := StampsPass(s, steps, b, i, targets);
    assert map[] + (map k | k in targets :: s.clock) == map k | k in targets :: s.clock;
    assert u.ops == s.ops[i := Op(keys, targets, began, keys, map k | k in targets :: s.clock)];
  }

  lemma CommitPasses(s: State, u: State, i: nat, op: Op)
    requires i !in s.ops && u == s.(ops := s.ops[i := op]) && op.stamps == map k | k in op.targets :: s.clock
    ensures Goes(u, Commit(i), DoCommit(u, i))
    ensures DoCommit(u, i) == s.(entries := s.entries + map k | k in op.targets :: Entry(op.began, s.clock))
  {
    assert op.stamps.Keys == op.targets;
    assert Written(op) == map k | k in op.targets :: Entry(op.began, s.clock);
    assert u.ops - {i} == s.ops;
  }

  /** From every state a Store or Freshen that nothing speaks against can publish all its targets. */
  lemma StoreCanCommit(s: State, i: nat, keys: set<Key>, targets: set<Key>, began: Time)
    returns (steps: seq<Step>, t: State)
    requires i !in s.ops && ClosedKeys(keys, targets) && forall k :: k in keys ==> !Withdrawn(s.view, k, began)
    ensures t == s.(entries := s.entries + map k | k in targets :: Entry(began, s.clock)) && Leads(Goes, s, steps, t)
  {
    var u;
    steps, u := StoreCanPrepare(s, i, keys, targets, began);
    t := DoCommit(u, i);
    CommitPasses(s, u, i, u.ops[i]);
    LeadsOn(Goes, s, steps, u, Commit(i), t);
    steps := steps + [Commit(i)];
  }

  /** From every state outside Cleanup a lookup of a stored variant can come to its verdicts. */
  lemma LookupCanEnd(s: State, r: nat, k: Key) returns (steps: seq<Step>, t: State)
    requires r !in s.lookups && k in s.entries && s.sweep.None?
    ensures Leads(Goes, s, steps, t) && r in t.lookups && t.lookups[r].Retrieved?
    ensures t.lookups[r].key == k && t.lookups[r].entry == s.entries[k]
    ensures t.lookups[r].stale <==> Withdrawn(s.view, k, s.entries[k].storedAt)
                                    || Withdrawn(s.view, Base(k.url), s.entries[k].storedAt)
  {
    LeadsNowhere(Goes, s);
    var u := OpenRuns(s, [], s, r, k);
    u := JudgeRuns(s, [] + [Open(r, k)], u, r);
    steps := [] + [Open(r, k)] + [Judge(r)];
    t := DoJudgeAgainst(u, r, Base(k.url));
    LeadsOn(Goes, s, steps, u, JudgeAgainst(r, Base(k.url)), t);
    steps := steps + [JudgeAgainst(r, Base(k.url))];
  }

  /** A crash can come at any moment, with any of the files on disk left. */
  lemma CrashCanCome(s: State, kept: map<Key, Entry>)
    requires forall k :: k in kept ==> OnDisk(s, k, kept[k])
    ensures Goes(s, Restart(kept), DoRestart(s, kept))
  {
  }
}
