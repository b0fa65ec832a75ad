/**
 What the invalidation protocol leaves alone, over all runs: what each step does to one key, one
 operation and one retrieval, where entries and markers come from, and that nothing is refused or
 marked stale without an invalidation to blame.
 */
module InvalidationResults {
  import opened Wrappers
  import opened Invalidation
  import opened Paths

  // ------------------------------------------------------- what a step does to a key

  function MarkerOn(s: State, g: Key): Option<Marker> {
    if g in s.view.markers then Some(s.view.markers[g]) else None
  }

  function EntryOf(s: State, k: Key): Option<Entry> {
    if k in s.entries then Some(s.entries[k]) else None
  }

  function OpOf(s: State, i: nat): Option<Op> {
    if i in s.ops then Some(s.ops[i]) else None
  }

  /** A marker speaks against work of time `at`: a barrier always, a final one unless it is older. */
  predicate Against(m: Option<Marker>, at: Time) {
    match m
    case None => false
    case Some(Barrier) => true
    case Some(Final(t)) => at <= t
  }

  /** The pass was complete, and the marker is older than both TTL and StaleMapTTL allow. */
  predicate Forgets(c: Config, sweep: Sweep, m: Option<Marker>) {
    && sweep.complete && c.ttl != 0 && m.Some? && m.value.Final?
    && m.value.at + c.ttl < sweep.start && m.value.at + c.staleMapTTL < sweep.start
  }

  ghost function MarkerAfter(s: State, step: Step, g: Key): Option<Marker>
    requires Enabled(s, step)
  {
    var m := MarkerOn(s, g);
    match step
    case PublishBarrier(_, keys) => if g in keys then Some(Barrier) else m
    case Finalize(v) => if g in s.waiting[v] then Some(Final(s.clock)) else m
    case Fail(_, _, refused) => if g in refused && !Against(m, s.clock) then Some(Final(s.clock)) else m
    case SweepMarkers => if Forgets(s.view.config, s.sweep.value, m) then None else m
    case Restart(_) => if m == Some(Barrier) then Some(Final(s.clock)) else m
    case _ => m
  }

  lemma StepMarker(s: State, step: Step, g: Key)
    requires Enabled(s, step)
    ensures MarkerOn(Apply(s, step), g) == MarkerAfter(s, step, g)
  {
  }

  ghost function EntryAfter(s: State, step: Step, k: Key): Option<Entry>
    requires Enabled(s, step)
  {
    var e := EntryOf(s, k);
    match step
    case Commit(i) => if k in s.ops[i].stamps then Some(Entry(s.ops[i].began, s.ops[i].stamps[k])) else e
    case Fail(i, left, _) => if k in left then Some(left[k]) else if k in s.ops[i].targets then None else e
    case Evict(x) => if k == x then None else e
    case SweepEntries(start, skipped) =>
      if k !in skipped && e.Some? && e.value.storedAt + s.view.config.ttl < start then None else e
    case Restart(kept) => if k in kept then Some(kept[k]) else None
    case _ => e
  }

  lemma StepEntry(s: State, step: Step, k: Key)
    requires Enabled(s, step)
    ensures EntryOf(Apply(s, step), k) == EntryAfter(s, step, k)
  {
  }

  ghost function OpAfter(s: State, step: Step, i: nat): Option<Op>
    requires Enabled(s, step)
  {
    var o := OpOf(s, i);
    match step
    case Begin(j, keys, targets, began) => if i == j then Some(Op(keys, targets, began, {}, map[])) else o
    case Check(j, k) =>
      if i != j then o
      else if Against(MarkerOn(s, k), o.value.began) then None
      else Some(o.value.(checked := o.value.checked + {k}))
    case Stamp(j, k) => if i == j then Some(o.value.(stamps := o.value.stamps[k := s.clock])) else o
    case Commit(j) => if i == j then None else o
    case Fail(j, _, _) => if i == j then None else o
    case Restart(_) => None
    case _ => o
  }

  lemma StepOp(s: State, step: Step, i: nat)
    requires Enabled(s, step)
    ensures OpOf(Apply(s, step), i) == OpAfter(s, step, i)
  {
  }

  /** A retrieval without the history of sweeps: what it opened, and its verdict if it has one. */
  datatype Seen = Seen(key: Key, entry: Entry, stale: Option<bool>)

  function SeenBy(s: State, r: nat): Option<Seen> {
    if r !in s.lookups then None
    else
      var o := s.lookups[r];
      Some(Seen(o.key, o.entry, if o.Retrieved? then Some(o.stale) else None))
  }

  ghost function SeenAfter(s: State, step: Step, r: nat): Option<Seen>
    requires Enabled(s, step)
  {
    var o := SeenBy(s, r);
    match step
    case Open(q, k) => if r == q then Some(Seen(k, s.entries[k], None)) else o
    case Judge(q) =>
      if r == q then Some(o.value.(stale := Some(Against(MarkerOn(s, o.value.key), o.value.entry.storedAt)))) else o
    case JudgeAgainst(q, g) =>
      if r == q && Against(MarkerOn(s, g), o.value.entry.storedAt) then Some(o.value.(stale := Some(true))) else o
    case InheritStale(q) => if r == q then Some(o.value.(stale := Some(true))) else o
    case Restart(_) => None
    case _ => o
  }

  lemma StepSeen(s: State, step: Step, r: nat)
    requires Enabled(s, step)
    ensures SeenBy(Apply(s, step), r) == SeenAfter(s, step, r)
  {
  }

  /** An Invalidate of `g` has published its barrier and not yet its final time. */
  ghost predicate Waits(s: State, g: Key) {
    exists v :: v in s.waiting && g in s.waiting[v]
  }

  /** A complete entry pass leaves no expired entry, and each pass starts without another. */
  lemma StepSweep(s: State, step: Step)
    requires Enabled(s, step)
    ensures Apply(s, step).sweep ==
            match step
            case SweepEntries(start, skipped) =>
              Some(Sweep(start, forall k :: k in s.entries && s.entries[k].storedAt + s.view.config.ttl < start ==>
                                            k !in skipped))
            case SweepMarkers => None
            case Restart(_) => None
            case _ => s.sweep
  {
    if step.SweepEntries? {
      var e := Expired(s, step.start);
      assert e - step.skipped == e <==> forall k :: k in e ==> k !in step.skipped;
    }
  }

  // -------------------------------------------------------- no barrier is left behind

  ghost predicate Awaited(s: State) {
    forall g :: MarkerOn(s, g) == Some(Barrier) ==> Waits(s, g)
  }

  lemma StepKeepsAwaited(s: State, step: Step)
    requires Awaited(s) && Enabled(s, step)
    ensures Awaited(Apply(s, step))
  {
    var t := Apply(s, step);
    forall g | MarkerOn(t, g) == Some(Barrier) ensures Waits(t, g) {
      StepMarker(s, step, g);
      if step.PublishBarrier? && g in step.keys {
        assert g in t.waiting[step.inv];
      } else if !step.Restart? {
        var v :| v in s.waiting && g in s.waiting[v];
        assert v in t.waiting && g in t.waiting[v];
      }
    }
  }

  /** A key whose marker is a barrier has an Invalidate that will replace it: no key stays withdrawn
      for good, whatever fails, is swept or is restarted. */
  lemma {:induction false} BarrierIsAwaited(run: seq<State>, steps: seq<Step>, j: nat)
    requires IsRun(run, steps) && j < |run|
    ensures Awaited(run[j])
  {
    if j != 0 {
      BarrierIsAwaited(run, steps, j - 1);
      StepKeepsAwaited(run[j - 1], steps[j - 1]);
    }
  }

  // ------------------------------------------------------------- what is to blame

  /** The step gives `g` a final marker of the time it happens. */
  ghost predicate Dates(s: State, step: Step, g: Key) {
    || (step.Finalize? && step.inv in s.waiting && g in s.waiting[step.inv])
    || (step.Fail? && g in step.refused)
    || (step.Restart? && Waits(s, g))
  }

  /** Before `j`, at time `at` or later, `g` was given a final marker. */
  ghost predicate DatedSince(run: seq<State>, steps: seq<Step>, j: nat, g: Key, at: Time)
    requires j <= |steps| <= |run|
  {
    exists n :: 0 <= n < j && at <= run[n].clock && Dates(run[n], steps[n], g)
  }

  lemma DatesStep(s: State, step: Step, g: Key, at: Time)
    requires Awaited(s) && Enabled(s, step)
    requires MarkerOn(s, g) != Some(Final(at)) && MarkerOn(Apply(s, step), g) == Some(Final(at))
    ensures Dates(s, step, g) && at == s.clock
  {
    StepMarker(s, step, g);
  }

  /** A final marker tells the time of the step it came from. */
  lemma MarkerOrigin(run: seq<State>, steps: seq<Step>, j: nat, g: Key, at: Time) returns (n: nat)
    requires IsRun(run, steps) && j < |run| && MarkerOn(run[j], g) == Some(Final(at))
    ensures n < j && Dates(run[n], steps[n], g) && run[n].clock == at
  {
    var flags := seq(|run|, i requires 0 <= i < |run| => MarkerOn(run[i], g) == Some(Final(at)));
    n := Onset(flags, j);
    BarrierIsAwaited(run, steps, n);
    DatesStep(run[n], steps[n], g, at);
  }

  /** What speaks against work of time `at` under `g`: an Invalidate that waits, or one that ended, a
      refused removal or a restart in the middle of one, no earlier than `at`. */
  lemma AgainstHasCause(run: seq<State>, steps: seq<Step>, j: nat, g: Key, at: Time)
    requires IsRun(run, steps) && j <= |steps| && Against(MarkerOn(run[j], g), at)
    ensures Waits(run[j], g) || DatedSince(run, steps, j, g, at)
  {
    if run[j].view.markers[g].Barrier? {
      BarrierIsAwaited(run, steps, j);
    } else {
      var n := MarkerOrigin(run, steps, j, g, run[j].view.markers[g].at);
    }
  }

  /** A Store or Freshen is refused only for a reason: the check ends it exactly when a marker speaks
      against its start, and then an invalidation of that key is to blame. */
  lemma RefusalHasCause(run: seq<State>, steps: seq<Step>, j: nat, i: nat, g: Key)
    requires IsRun(run, steps) && j < |steps| && steps[j] == Check(i, g) && i !in run[j + 1].ops
    ensures Waits(run[j], g) || DatedSince(run, steps, j, g, run[j].ops[i].began)
  {
    StepOp(run[j], steps[j], i);
    AgainstHasCause(run, steps, j, g, run[j].ops[i].began);
  }

  /** So is a retrieval marked stale under its own key. */
  lemma StaleHasCause(run: seq<State>, steps: seq<Step>, j: nat, r: nat)
    requires IsRun(run, steps) && j < |steps| && steps[j] == Judge(r)
    requires run[j + 1].lookups[r].stale
    ensures var o := run[j].lookups[r]; Waits(run[j], o.key) || DatedSince(run, steps, j, o.key, o.entry.storedAt)
  {
    StepSeen(run[j], steps[j], r);
    AgainstHasCause(run, steps, j, run[j].lookups[r].key, run[j].lookups[r].entry.storedAt);
  }

  /** And a variant marked stale under its discovery key. */
  lemma StaleVariantHasCause(run: seq<State>, steps: seq<Step>, j: nat, r: nat, g: Key)
    requires IsRun(run, steps) && j < |steps| && steps[j] == JudgeAgainst(r, g)
    requires !run[j].lookups[r].stale && run[j + 1].lookups[r].stale
    ensures Waits(run[j], g) || DatedSince(run, steps, j, g, run[j].lookups[r].entry.storedAt)
  {
    StepSeen(run[j], steps[j], r);
    AgainstHasCause(run, steps, j, g, run[j].lookups[r].entry.storedAt);
  }

  /** The verdict itself: a variant stays unmarked exactly when its discovery key has no marker, or a
      final one earlier than the entry. */
  lemma VariantUnmarkedExactly(run: seq<State>, steps: seq<Step>, j: nat, r: nat, g: Key)
    requires IsRun(run, steps) && j < |steps| && steps[j] == JudgeAgainst(r, g) && !run[j].lookups[r].stale
    ensures r in run[j + 1].lookups && run[j + 1].lookups[r].Retrieved?
    ensures !run[j + 1].lookups[r].stale <==>
              var m := run[j].view.markers;
              g !in m || (m[g] != Barrier && m[g].at < run[j].lookups[r].entry.storedAt)
  {
    StepSeen(run[j], steps[j], r);
  }

  // --------------------------------------------------- after an invalidation has ended

  /** Nobody invalidates `g` from state `i` to state `j`, and no removal of it is refused. */
  ghost predicate Calm(run: seq<State>, steps: seq<Step>, i: nat, j: nat, g: Key)
    requires j <= |steps| <= |run|
  {
    forall n :: i <= n < j ==> !Invalidates(steps[n], g) && !(steps[n].Fail? && g in steps[n].refused)
  }

  lemma StepWaits(s: State, step: Step, g: Key)
    requires Enabled(s, step) && !Invalidates(step, g) && Waits(Apply(s, step), g)
    ensures Waits(s, g)
  {
    var v :| v in Apply(s, step).waiting && g in Apply(s, step).waiting[v];
    assert v in s.waiting && g in s.waiting[v];
  }

  lemma NobodyWaits(run: seq<State>, steps: seq<Step>, i: nat, j: nat, g: Key)
    requires IsRun(run, steps) && i <= j <= |steps| && !Waits(run[i], g) && Calm(run, steps, i, j, g)
    ensures !Waits(run[j], g)
  {
    var flags := seq(|run|, x requires 0 <= x < |run| => !Waits(run[x], g));
    forall x | i <= x < j && flags[x] ensures flags[x + 1] {
      if Waits(run[x + 1], g) { StepWaits(run[x], steps[x], g); }
    }
    Persist(flags, i, j);
  }

  lemma StepClock(s: State, step: Step)
    requires Enabled(s, step)
    ensures Apply(s, step).clock == if step.Tick? then step.to else s.clock
  {
  }

  lemma ClockAdvances(run: seq<State>, steps: seq<Step>, i: nat, j: nat)
    requires IsRun(run, steps) && i <= j < |run|
    ensures run[i].clock <= run[j].clock
  {
    var flags := seq(|run|, x requires 0 <= x < |run| => run[i].clock <= run[x].clock);
    forall x | i <= x < j && flags[x] ensures flags[x + 1] { StepClock(run[x], steps[x]); }
    Persist(flags, i, j);
  }

  /** From a state in which no Invalidate of `g` waits, work of a later time has nothing against it
      until the next invalidation: after the end of Invalidate, and after every restart. */
  lemma NothingAgainst(run: seq<State>, steps: seq<Step>, i: nat, j: nat, g: Key, at: Time)
    requires IsRun(run, steps) && i <= j <= |steps| && !Waits(run[i], g) && Calm(run, steps, i, j, g)
    requires run[i].clock < at
    ensures !Against(MarkerOn(run[j], g), at)
  {
    NobodyWaits(run, steps, i, j, g);
    if Against(MarkerOn(run[j], g), at) {
      AgainstHasCause(run, steps, j, g, at);
      var n :| 0 <= n < j && at <= run[n].clock && Dates(run[n], steps[n], g);
      if n < i {
        ClockAdvances(run, steps, n, i);
      } else {
        NobodyWaits(run, steps, i, n, g);
      }
    }
  }

  lemma RestartEndsWaiting(run: seq<State>, steps: seq<Step>, i: nat, g: Key)
    requires IsRun(run, steps) && i < |steps| && steps[i].Restart?
    ensures !Waits(run[i + 1], g) && run[i + 1].clock == run[i].clock && MarkerOn(run[i + 1], g) != Some(Barrier)
  {
    BarrierIsAwaited(run, steps, i + 1);
    assert run[i + 1].waiting == map[];
  }

  /** After a restart in the middle of any invalidation, a Store that begins later passes its checks. */
  lemma StoreAfterRestartPasses(run: seq<State>, steps: seq<Step>, i: nat, j: nat, op: nat, g: Key)
    requires IsRun(run, steps) && i < j < |steps| && steps[i].Restart? && Calm(run, steps, i + 1, j, g)
    requires steps[j] == Check(op, g) && run[i].clock < run[j].ops[op].began
    ensures op in run[j + 1].ops && run[j + 1].ops[op].checked == run[j].ops[op].checked + {g}
  {
    RestartEndsWaiting(run, steps, i, g);
    NothingAgainst(run, steps, i + 1, j, g, run[j].ops[op].began);
    StepOp(run[j], steps[j], op);
  }

  /** So does one that begins after an invalidation has ended. */
  lemma StoreAfterInvalidatePasses(run: seq<State>, steps: seq<Step>, i: nat, j: nat, op: nat, g: Key)
    requires IsRun(run, steps) && i <= j < |steps| && !Waits(run[i], g) && Calm(run, steps, i, j, g)
    requires steps[j] == Check(op, g) && run[i].clock < run[j].ops[op].began
    ensures op in run[j + 1].ops && run[j + 1].ops[op].checked == run[j].ops[op].checked + {g}
  {
    NothingAgainst(run, steps, i, j, g, run[j].ops[op].began);
    StepOp(run[j], steps[j], op);
  }

  /** The step replaces or removes the files of `k`. */
  predicate Rewrites(s: State, step: Step, k: Key) {
    || (step.Commit? && step.op in s.ops && k in s.ops[step.op].stamps)
    || (step.Fail? && step.op in s.ops && k in s.ops[step.op].targets)
    || (step.Evict? && step.key == k) || step.Restart?
    || (step.SweepEntries? && k in s.entries && s.entries[k].storedAt + s.view.config.ttl < step.start)
  }

  lemma NotRewritten(s: State, step: Step, k: Key)
    requires Enabled(s, step) && !Rewrites(s, step, k)
    ensures EntryOf(Apply(s, step), k) == EntryOf(s, k)
  {
    StepEntry(s, step, k);
  }

  lemma EntryStays(run: seq<State>, steps: seq<Step>, i: nat, j: nat, k: Key)
    requires IsRun(run, steps) && i <= j <= |steps|
    requires forall n :: i <= n < j ==> !Rewrites(run[n], steps[n], k)
    ensures EntryOf(run[j], k) == EntryOf(run[i], k)
  {
    var flags := seq(|run|, x requires 0 <= x < |run| => EntryOf(run[x], k) == EntryOf(run[i], k));
    forall x | i <= x < j && flags[x] ensures flags[x + 1] { NotRewritten(run[x], steps[x], k); }
    Persist(flags, i, j);
  }

  lemma SeenStep(s: State, step: Step, r: nat, was: Seen)
    requires Enabled(s, step) && !step.Restart? && SeenBy(s, r) == Some(was)
    ensures was.stale.None? && step != Judge(r) ==> SeenBy(Apply(s, step), r) == Some(was)
    ensures was == Seen(was.key, was.entry, Some(false)) && step != InheritStale(r)
            && !Against(MarkerOn(s, was.key), was.entry.storedAt)
            && !Against(MarkerOn(s, Base(was.key.url)), was.entry.storedAt) ==>
            SeenBy(Apply(s, step), r) == Some(was)
  {
    StepSeen(s, step, r);
  }

  lemma OpenStays(run: seq<State>, steps: seq<Step>, i: nat, j: nat, r: nat, was: Seen)
    requires IsRun(run, steps) && i <= j <= |steps| && SeenBy(run[i], r) == Some(was) && was.stale.None?
    requires forall n :: i <= n < j ==> !steps[n].Restart? && steps[n] != Judge(r)
    ensures SeenBy(run[j], r) == Some(was)
  {
    var flags := seq(|run|, x requires 0 <= x < |run| => SeenBy(run[x], r) == Some(was));
    forall x | i <= x < j && flags[x] ensures flags[x + 1] { SeenStep(run[x], steps[x], r, was); }
    Persist(flags, i, j);
  }

  lemma UnmarkedStep(run: seq<State>, steps: seq<Step>, i: nat, x: nat, r: nat, was: Seen)
    requires IsRun(run, steps) && i <= x < |steps| && SeenBy(run[x], r) == Some(was) && was.stale == Some(false)
    requires !Waits(run[i], was.key) && Calm(run, steps, i, x, was.key) && run[i].clock < was.entry.storedAt
    requires !Waits(run[i], Base(was.key.url)) && Calm(run, steps, i, x, Base(was.key.url))
    requires !steps[x].Restart? && steps[x] != InheritStale(r)
    ensures SeenBy(run[x + 1], r) == Some(was)
  {
    NothingAgainst(run, steps, i, x, was.key, was.entry.storedAt);
    NothingAgainst(run, steps, i, x, Base(was.key.url), was.entry.storedAt);
    SeenStep(run[x], steps[x], r, was);
  }

  lemma UnmarkedStays(run: seq<State>, steps: seq<Step>, i: nat, j: nat, m: nat, r: nat, was: Seen)
    requires IsRun(run, steps) && i <= j <= m <= |steps| && SeenBy(run[j], r) == Some(was) && was.stale == Some(false)
    requires !Waits(run[i], was.key) && Calm(run, steps, i, m, was.key)
    requires !Waits(run[i], Base(was.key.url)) && Calm(run, steps, i, m, Base(was.key.url))
    requires run[i].clock < was.entry.storedAt
    requires forall n :: j <= n < m ==> !steps[n].Restart? && steps[n] != InheritStale(r)
    ensures SeenBy(run[m], r) == Some(was)
  {
    var flags := seq(|run|, x requires 0 <= x < |run| => SeenBy(run[x], r) == Some(was));
    forall x | j <= x < m && flags[x] ensures flags[x + 1] { UnmarkedStep(run, steps, i, x, r, was); }
    Persist(flags, j, m);
  }

  /**
   Refetching ends the withdrawal.  When no Invalidate of the base key or of its variant `k` waits at
   state `i`, and a Store stamps the variant later than that and commits at `c`, then until the next
   invalidation of either key a lookup opens that entry at `o` and judges it at `j`, and whatever it
   is judged against after that, it is unmarked at `m`.
   */
  lemma RefetchedVariantIsServed(
    run: seq<State>, steps: seq<Step>, i: nat, c: nat, o: nat, j: nat, m: nat, op: nat, r: nat, k: Key)
    requires IsRun(run, steps) && i <= c < o < j < m <= |steps|
    requires !Waits(run[i], k) && Calm(run, steps, i, m, k)
    requires !Waits(run[i], Base(k.url)) && Calm(run, steps, i, m, Base(k.url))
    requires steps[c] == Commit(op) && k in run[c].ops[op].stamps && run[i].clock < run[c].ops[op].stamps[k]
    requires steps[o] == Open(r, k) && steps[j] == Judge(r)
    requires forall n :: c < n < o ==> !Rewrites(run[n], steps[n], k)
    requires forall n :: o < n < j ==> steps[n] != Judge(r)
    requires forall n :: o < n < m ==> !steps[n].Restart? && steps[n] != InheritStale(r)
    ensures SeenBy(run[m], r) == Some(Seen(k, Entry(run[c].ops[op].began, run[c].ops[op].stamps[k]), Some(false)))
  {
    var e := Entry(run[c].ops[op].began, run[c].ops[op].stamps[k]);
    StepEntry(run[c], steps[c], k);
    EntryStays(run, steps, c + 1, o, k);
    StepSeen(run[o], steps[o], r);
    OpenStays(run, steps, o + 1, j, r, Seen(k, e, None));
    StepSeen(run[j], steps[j], r);
    NothingAgainst(run, steps, i, j, k, e.storedAt);
    UnmarkedStays(run, steps, i, j + 1, m, r, Seen(k, e, Some(false)));
  }

  // ------------------------------------------------------- where an entry comes from

  /** The operation began at step `b` for a fetch of time `began`, and stamped `k` at step `n`. */
  predicate StampedBy(run: seq<State>, steps: seq<Step>, b: nat, n: nat, i: nat, k: Key, began: Time, at: Time) {
    && b < n < |steps| <= |run|
    && steps[b].Begin? && steps[b].op == i && steps[b].began == began && k in steps[b].targets
    && steps[n] == Stamp(i, k) && run[n].clock == at
  }

  /** The operation is in flight with these parameters. */
  predicate Flies(s: State, i: nat, keys: set<Key>, targets: set<Key>, began: Time) {
    i in s.ops && s.ops[i].keys == keys && s.ops[i].targets == targets && s.ops[i].began == began
  }

  lemma OpStep(s: State, step: Step, i: nat, keys: set<Key>, targets: set<Key>, began: Time)
    requires Enabled(s, step) && Flies(Apply(s, step), i, keys, targets, began) && !Flies(s, i, keys, targets, began)
    ensures step == Begin(i, keys, targets, began)
  {
    StepOp(s, step, i);
  }

  lemma OpOrigin(run: seq<State>, steps: seq<Step>, j: nat, i: nat) returns (b: nat)
    requires IsRun(run, steps) && j <= |steps| && i in run[j].ops
    ensures b < j && steps[b] == Begin(i, run[j].ops[i].keys, run[j].ops[i].targets, run[j].ops[i].began)
  {
    var op := run[j].ops[i];
    var flags := seq(|run|, x requires 0 <= x < |run| => Flies(run[x], i, op.keys, op.targets, op.began));
    b := Onset(flags, j);
    OpStep(run[b], steps[b], i, op.keys, op.targets, op.began);
  }

  predicate Stamped(s: State, i: nat, k: Key, began: Time, at: Time) {
    i in s.ops && s.ops[i].began == began && k in s.ops[i].stamps && s.ops[i].stamps[k] == at
  }

  lemma StampStep(s: State, step: Step, i: nat, k: Key, began: Time, at: Time)
    requires Enabled(s, step) && Stamped(Apply(s, step), i, k, began, at) && !Stamped(s, i, k, began, at)
    ensures step == Stamp(i, k) && s.clock == at && i in s.ops && s.ops[i].began == began && k in s.ops[i].targets
  {
    StepOp(s, step, i);
  }

  lemma StampOrigin(run: seq<State>, steps: seq<Step>, j: nat, i: nat, k: Key, began: Time, at: Time)
    returns (b: nat, n: nat)
    requires IsRun(run, steps) && j <= |steps| && Stamped(run[j], i, k, began, at)
    ensures n < j && StampedBy(run, steps, b, n, i, k, began, at)
  {
    var flags := seq(|run|, x requires 0 <= x < |run| => Stamped(run[x], i, k, began, at));
    n := Onset(flags, j);
    StampStep(run[n], steps[n], i, k, began, at);
    b := OpOrigin(run, steps, n, i);
  }

  predicate Holds(s: State, k: Key, e: Entry) {
    k in s.entries && s.entries[k] == e
  }

  /** The files under a key come from an operation that had stamped it. */
  lemma EntryStep(s: State, step: Step, k: Key, e: Entry) returns (i: nat)
    requires Enabled(s, step) && Holds(Apply(s, step), k, e) && !Holds(s, k, e)
    ensures Stamped(s, i, k, e.began, e.storedAt)
  {
    StepEntry(s, step, k);
    if step.Commit? {
      i := step.op;
    } else {
      assert OnDisk(s, k, e);
      i :| i in s.ops && k in s.ops[i].stamps && e == Entry(s.ops[i].began, s.ops[i].stamps[k]);
    }
  }

  /** Every entry under a key was written by an operation on that key: it tells when the fetch behind it
      began and the moment at which the operation stamped it. */
  lemma EntryOrigin(run: seq<State>, steps: seq<Step>, j: nat, k: Key) returns (b: nat, n: nat, i: nat)
    requires IsRun(run, steps) && j <= |steps| && k in run[j].entries
    ensures n < j && StampedBy(run, steps, b, n, i, k, run[j].entries[k].began, run[j].entries[k].storedAt)
  {
    var e := run[j].entries[k];
    var flags := seq(|run|, x requires 0 <= x < |run| => Holds(run[x], k, e));
    n := Onset(flags, j);
    i := EntryStep(run[n], steps[n], k, e);
    b, n := StampOrigin(run, steps, n, i, k, e.began, e.storedAt);
  }

  // ------------------------------------------------- markers swept under a retrieval

  predicate Noted(s: State, r: nat, g: Key, at: Time) {
    r in s.lookups && s.lookups[r].Retrieved? && g in s.lookups[r].dropped && s.lookups[r].dropped[g] == at
  }

  lemma DroppedStep(s: State, step: Step, r: nat, g: Key, at: Time)
    requires Enabled(s, step) && Noted(Apply(s, step), r, g, at) && !Noted(s, r, g, at)
    ensures step == SweepMarkers && r in s.lookups && s.lookups[r].Retrieved? && MarkerOn(s, g) == Some(Final(at))
  {
  }

  /** What a retrieval has noted as dropped, a sweep did drop after the verdict. */
  lemma DroppedOrigin(run: seq<State>, steps: seq<Step>, j: nat, r: nat, g: Key, at: Time) returns (n: nat)
    requires IsRun(run, steps) && j <= |steps| && Noted(run[j], r, g, at)
    ensures n < j && steps[n] == SweepMarkers && r in run[n].lookups && run[n].lookups[r].Retrieved?
    ensures MarkerOn(run[n], g) == Some(Final(at))
  {
    var flags := seq(|run|, x requires 0 <= x < |run| => Noted(run[x], r, g, at));
    n := Onset(flags, j);
    DroppedStep(run[n], steps[n], r, g, at);
  }
}
