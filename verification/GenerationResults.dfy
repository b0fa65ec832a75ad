/**
 What holds over all runs of module Generations: which pairs a retrieval can get, what Freshen
 renews, and what a Store leaves when it returns.
 */
module GenerationResults {
  import opened Wrappers
  import opened Generations

  // --------------------------------------------------------- what a step does to a key

  predicate Commits(s: State, step: Step, k: Key) {
    step.CommitStore? && step.op in s.ops && s.ops[step.op].StoreOp? && k in s.ops[step.op].keys
  }

  /** The cell of `k` after a step on several keys. */
  function AfterMany(s: State, step: Step, k: Key): Cell
    requires step.BeginStore? || step.CommitStore? || step.EndStore?
  {
    var c := At(s, k);
    match step
    case BeginStore(dates, bytes) => if k in dates then Claimed(c, s.next, dates[k], bytes) else c
    case CommitStore(i) => if Commits(s, step, k) && c.work.Store? then Committed(c, s.nextIdentity) else c
    case EndStore(i) => if i in s.ops && s.ops[i].StoreOp? && k in s.ops[i].keys then c.(work := Free) else c
  }

  /** The cell of the key a step names. */
  ghost function AfterOne(s: State, step: Step): Cell
    requires Enabled(s, step) && Names(step)
  {
    var c := At(s, step.key);
    match step
    case Mark(_) => c.(marker := Later(c.marker, s.clock))
    case PassEntry(_) => c.(noted := c.marker)
    case DropMarker(_) => c.(marker := None)
    case Evict(_, b, h) => Dropped(c, b, h, 0)
    case Progress(_, to) => Progressed(c, s.inPlace, to)
    case DiscardKey(_, b, h) => Discard(c, s.inPlace, b, h, s.clock)
    case VerifyFreshen(_) => if Verifies(s, step.key) then Checked(c, s.clock) else c.(work := Free)
    case WriteFreshen(_, w, bytes) => FreshenWrite(c, s.inPlace, w, bytes, s.next)
    case CommitFreshen(_) => FreshenCommitted(c, s.nextIdentity)
    case ReadIdentity(_) => Nominate(c)
    case AdvanceRecord(_) => c.(work := Free)
    case FailFreshen(_, b, h) => Dropped(c, b, h, c.work.phase.at).(work := Free)
    case LeaveFreshen(_) => c.(work := Free)
  }

  predicate Names(step: Step) {
    || step.Mark? || step.PassEntry? || step.DropMarker? || step.Evict? || step.Progress? || step.DiscardKey?
    || step.VerifyFreshen? || Renewing(step) || Returning(step)
  }

  ghost function CellAfter(s: State, step: Step, k: Key): Cell
    requires Enabled(s, step)
  {
    if Names(step) then (if step.key == k then AfterOne(s, step) else At(s, k))
    else if step.BeginStore? || step.CommitStore? || step.EndStore? then AfterMany(s, step, k)
    else if step.LockFreshen? && s.ops[step.op].key == k
    then At(s, k).(work := Freshen(step.op, s.ops[step.op].resource, Locked))
    else At(s, k)
  }

  lemma StoreStepCell(s: State, step: Step, k: Key)
    requires Enabled(s, step) && (Environment(step) || Preparing(step) || Ending(step))
    ensures At(Apply(s, step), k) == CellAfter(s, step, k)
  {
  }

  lemma CheckStepCell(s: State, step: Step, k: Key)
    requires Enabled(s, step) && (Reading(step) || Checking(step))
    ensures At(Apply(s, step), k) == CellAfter(s, step, k)
  {
  }

  lemma RenewStepCell(s: State, step: Step, k: Key)
    requires Enabled(s, step) && Renewing(step)
    ensures At(Apply(s, step), k) == CellAfter(s, step, k)
  {
  }

  lemma ReturnStepCell(s: State, step: Step, k: Key)
    requires Enabled(s, step) && Returning(step)
    ensures At(Apply(s, step), k) == CellAfter(s, step, k)
  {
  }

  lemma StepCell(s: State, step: Step, k: Key)
    requires Enabled(s, step)
    ensures At(Apply(s, step), k) == CellAfter(s, step, k)
  {
    if Environment(step) || Preparing(step) || Ending(step) {
      StoreStepCell(s, step, k);
    } else if Reading(step) || Checking(step) {
      CheckStepCell(s, step, k);
    } else if Renewing(step) {
      RenewStepCell(s, step, k);
    } else {
      ReturnStepCell(s, step, k);
    }
  }

  // ------------------------------------------------------- what the history records

  /** A discard is refused both files after the body has been rewritten without its header; Store
      then returns an error that names the refusal. */
  predicate Spoils(s: State, step: Step, k: Key) {
    && step.DiscardKey? && step.key == k && !step.bodyGone && !step.headerGone
    && At(s, k).work.Store? && HeaderOld(s.inPlace, At(s, k).work.stage)
  }

  /** One of the files is removed, or a Store writes the header as well. */
  predicate Clears(s: State, step: Step, k: Key) {
    || (step.CommitStore? && step.op in s.ops && s.ops[step.op].StoreOp? && k in s.ops[step.op].keys)
    || ((step.Evict? || step.FailFreshen? || step.DiscardKey?) && step.key == k && (step.bodyGone || step.headerGone))
    || (step.DiscardKey? && step.key == k && At(s, k).work.Store?
        && Touched(s.inPlace, At(s, k).work.stage) && !HeaderOld(s.inPlace, At(s, k).work.stage))
  }

  /** Freshen writes the live header. */
  predicate Redates(s: State, step: Step, k: Key) {
    || (step.WriteFreshen? && step.key == k && s.inPlace && (step.write.Done? || step.write.LeftWhole?))
    || (step.CommitFreshen? && step.key == k)
  }

  /** That header is replaced, removed or marked. */
  predicate Undates(s: State, step: Step, k: Key) {
    || (step.CommitStore? && step.op in s.ops && s.ops[step.op].StoreOp? && k in s.ops[step.op].keys)
    || ((step.Evict? || step.FailFreshen?) && step.key == k && (step.bodyGone || step.headerGone))
    || (step.DiscardKey? && step.key == k)
  }

  lemma StepResidue(s: State, step: Step, k: Key)
    requires Enabled(s, step)
    ensures CellAfter(s, step, k).residue <==> Spoils(s, step, k) || (At(s, k).residue && !Clears(s, step, k))
  {
  }

  lemma OneRedated(s: State, step: Step)
    requires Enabled(s, step) && Names(step)
    ensures AfterOne(s, step).redated <==>
              Redates(s, step, step.key) || (At(s, step.key).redated && !Undates(s, step, step.key))
  {
  }

  lemma StepRedated(s: State, step: Step, k: Key)
    requires Enabled(s, step)
    ensures CellAfter(s, step, k).redated <==> Redates(s, step, k) || (At(s, k).redated && !Undates(s, step, k))
  {
    if Names(step) && step.key == k { OneRedated(s, step); }
  }

  /** Some step before `j` was an event of the first kind, and none since of the second. */
  ghost predicate Latched(on: seq<bool>, off: seq<bool>, j: nat)
    requires |on| == |off| && j <= |on|
  {
    exists d :: 0 <= d < j && on[d] && forall n :: d < n < j ==> !off[n]
  }

  /** A residue was left behind before `j` and is still there. */
  ghost predicate LeftBehind(run: seq<State>, steps: seq<Step>, j: nat, k: Key)
    requires j <= |steps| <= |run|
  {
    Latched(seq(|steps|, i requires 0 <= i < |steps| => Spoils(run[i], steps[i], k)),
            seq(|steps|, i requires 0 <= i < |steps| => Clears(run[i], steps[i], k)), j)
  }

  /** Freshen wrote the header before `j`, and nothing undid that. */
  ghost predicate DatedAnew(run: seq<State>, steps: seq<Step>, j: nat, k: Key)
    requires j <= |steps| <= |run|
  {
    Latched(seq(|steps|, i requires 0 <= i < |steps| => Redates(run[i], steps[i], k)),
            seq(|steps|, i requires 0 <= i < |steps| => Undates(run[i], steps[i], k)), j)
  }

  /** A flag that events switch on and off is on exactly when it was switched on and not off since. */
  lemma {:induction false} Latch(flag: seq<bool>, on: seq<bool>, off: seq<bool>, j: nat)
    requires |flag| == |on| + 1 && |off| == |on| && j <= |on| && !flag[0]
    requires forall i :: 0 <= i < |on| ==> flag[i + 1] == (on[i] || (flag[i] && !off[i]))
    ensures flag[j] <==> Latched(on, off, j)
  {
    if j != 0 {
      Latch(flag, on, off, j - 1);
      assert flag[(j - 1) + 1] == (on[j - 1] || (flag[j - 1] && !off[j - 1]));
      if flag[j - 1] && !off[j - 1] {
        var d :| 0 <= d < j - 1 && on[d] && forall n :: d < n < j - 1 ==> !off[n];
        assert forall n :: d < n < j ==> !off[n];
      }
    }
  }

  lemma ResidueIsLeftBehind(run: seq<State>, steps: seq<Step>, j: nat, k: Key)
    requires IsRun(run, steps) && j <= |steps|
    ensures At(run[j], k).residue <==> LeftBehind(run, steps, j, k)
  {
    var flag := seq(|run|, i requires 0 <= i < |run| => At(run[i], k).residue);
    var on := seq(|steps|, i requires 0 <= i < |steps| => Spoils(run[i], steps[i], k));
    var off := seq(|steps|, i requires 0 <= i < |steps| => Clears(run[i], steps[i], k));
    forall i | 0 <= i < |on| ensures flag[i + 1] == (on[i] || (flag[i] && !off[i])) {
      StepCell(run[i], steps[i], k);
      StepResidue(run[i], steps[i], k);
    }
    Latch(flag, on, off, j);
  }

  lemma RedatedIsDatedAnew(run: seq<State>, steps: seq<Step>, j: nat, k: Key)
    requires IsRun(run, steps) && j <= |steps|
    ensures At(run[j], k).redated <==> DatedAnew(run, steps, j, k)
  {
    var flag := seq(|run|, i requires 0 <= i < |run| => At(run[i], k).redated);
    var on := seq(|steps|, i requires 0 <= i < |steps| => Redates(run[i], steps[i], k));
    var off := seq(|steps|, i requires 0 <= i < |steps| => Undates(run[i], steps[i], k));
    forall i | 0 <= i < |on| ensures flag[i + 1] == (on[i] || (flag[i] && !off[i])) {
      StepCell(run[i], steps[i], k);
      StepRedated(run[i], steps[i], k);
    }
    Latch(flag, on, off, j);
  }

  // ------------------------------------------------------------- what a reader gets

  /** The ledger has an identity for the key. */
  predicate Tracked(c: Cell) {
    c.entry.Some? && c.entry.value.identity.Some?
  }

  predicate FreshenOf(c: Cell, r: nat) {
    c.work.Freshen? && c.work.resource == Some(r)
  }

  /** Freshen asks for the new identity of its resource `r`, and the ledger has none. */
  predicate Loses(s: State, step: Step, r: nat) {
    && step.ReadIdentity? && FreshenOf(At(s, step.key), r)
    && !Tracked(At(s, step.key))
  }

  predicate SameRetrieval(o: Reader, p: Reader) {
    o.key == p.key && o.body == p.body && o.past == p.past
  }

  /** A retrieval keeps what it has read; `lost` says that it loses its identity. */
  predicate Keeps(o: Reader, p: Reader, lost: bool) {
    SameRetrieval(o, p) && (p.identity.Some? <==> o.identity.Some? && !lost)
  }

  lemma StoreSameReaders(s: State, step: Step)
    requires Enabled(s, step) && (Environment(step) || Preparing(step) || Ending(step))
    ensures Apply(s, step).readers == s.readers
  {
  }

  lemma CheckSameReaders(s: State, step: Step)
    requires Enabled(s, step) && Checking(step)
    ensures Apply(s, step).readers == s.readers
  {
  }

  lemma FreshenSameReaders(s: State, step: Step)
    requires Enabled(s, step) && (Renewing(step) || step.LeaveFreshen?)
    ensures Apply(s, step).readers == s.readers
  {
  }

  lemma ReadingKeepsReader(s: State, step: Step, r: nat)
    requires Enabled(s, step) && r in s.readers && (Reading(step) || step.AdvanceRecord?)
    ensures r in Apply(s, step).readers && Keeps(s.readers[r], Apply(s, step).readers[r], false)
  {
  }

  lemma IdentityKeepsReader(s: State, k: Key, r: nat)
    requires Enabled(s, ReadIdentity(k)) && r in s.readers
    ensures r in DoReadIdentity(s, k).readers
    ensures Keeps(s.readers[r], DoReadIdentity(s, k).readers[r], Loses(s, ReadIdentity(k), r))
  {
  }

  lemma StepKeepsReader(s: State, step: Step, r: nat)
    requires Enabled(s, step) && r in s.readers
    ensures r in Apply(s, step).readers
    ensures Keeps(s.readers[r], Apply(s, step).readers[r], Loses(s, step, r))
  {
    if step.ReadIdentity? {
      IdentityKeepsReader(s, step.key, r);
    } else if Reading(step) || step.AdvanceRecord? {
      ReadingKeepsReader(s, step, r);
    } else if Environment(step) || Preparing(step) || Ending(step) {
      StoreSameReaders(s, step);
    } else if Checking(step) {
      CheckSameReaders(s, step);
    } else {
      FreshenSameReaders(s, step);
    }
  }

  lemma {:induction false} KeepsOn(all: seq<map<nat, Reader>>, lost: seq<bool>, i: nat, j: nat, r: nat)
    requires |all| == |lost| + 1 && i <= j < |all| && r in all[i]
    requires forall x :: 0 <= x < |lost| && r in all[x] ==> r in all[x + 1] && Keeps(all[x][r], all[x + 1][r], lost[x])
    ensures r in all[j] && SameRetrieval(all[i][r], all[j][r])
    ensures all[j][r].identity.Some? <==> all[i][r].identity.Some? && forall n :: i <= n < j ==> !lost[n]
  {
    if i < j {
      KeepsOn(all, lost, i, j - 1, r);
      assert r in all[(j - 1) + 1] && Keeps(all[j - 1][r], all[(j - 1) + 1][r], lost[j - 1]);
    }
  }

  lemma RunKeepsReader(run: seq<State>, steps: seq<Step>, i: nat, j: nat, r: nat)
    requires IsRun(run, steps) && i <= j < |run| && r in run[i].readers
    ensures r in run[j].readers && SameRetrieval(run[i].readers[r], run[j].readers[r])
    ensures run[j].readers[r].identity.Some? <==>
              run[i].readers[r].identity.Some? && forall n :: i <= n < j ==> !Loses(run[n], steps[n], r)
  {
    var all := seq(|run|, x requires 0 <= x < |run| => run[x].readers);
    var lost := seq(|steps|, x requires 0 <= x < |steps| => Loses(run[x], steps[x], r));
    forall x | 0 <= x < |lost| && r in all[x] ensures r in all[x + 1] && Keeps(all[x][r], all[x + 1][r], lost[x]) {
      StepKeepsReader(run[x], steps[x], r);
    }
    KeepsOn(all, lost, i, j, r);
    assert forall n :: i <= n < j ==> lost[n] == Loses(run[n], steps[n], r);
  }

  function PastOf(c: Cell): Past {
    Past(c.residue, c.redated, c.stores, c.spoils)
  }

  /** A retrieval keeps the body it opened, whatever happens to the files, and its identity until
      Freshen finds none. */
  lemma SinceOpen(run: seq<State>, steps: seq<Step>, a: nat, j: nat, r: nat, k: Key)
    requires IsRun(run, steps) && a < j < |run| && steps[a] == OpenBody(r, k)
    ensures r in run[j].readers
    ensures var o := run[j].readers[r];
            && o.key == k && Some(o.body) == At(run[a], k).slot.body && o.past == PastOf(At(run[a], k))
            && (o.identity.Some? <==> Tracked(At(run[a], k)) && forall n :: a < n < j ==> !Loses(run[n], steps[n], r))
  {
    assert run[a + 1] == DoOpenBody(run[a], r, k);
    RunKeepsReader(run, steps, a + 1, j, r);
  }

  /**
   On both backends, over every run and whatever the clock does: a retrieval gets a body other
   than the one its header was written for exactly when, at the time it opened the body, a refused
   discard had left a residue under the key.
   */
  lemma MixedExactly(run: seq<State>, steps: seq<Step>, a: nat, j: nat, r: nat, k: Key)
    requires IsRun(run, steps) && a < j < |steps| && steps[a] == OpenBody(r, k) && steps[j] == Judge(r)
    ensures Mixed(run[j].readers[r].body, run[j].readers[r].header) <==> LeftBehind(run, steps, a, k)
  {
    RunInv(run, steps, j);
    SinceOpen(run, steps, a, j, r, k);
    assert ReaderOk(run[j].inPlace, run[j].publisher, run[j].next, At(run[j], k), run[j].readers[r]);
    ResidueIsLeftBehind(run, steps, a, k);
  }

  /**
   With a clock that does not run backwards: an unmarked retrieval gets a mixed pair exactly when
   a refused discard left a residue, Freshen has written its header since, and that header is dated
   after the key's marker.  In particular a residue that no Freshen touched is always marked.
   */
  lemma UnmarkedMixExactly(run: seq<State>, steps: seq<Step>, a: nat, j: nat, r: nat, k: Key)
    requires IsRun(run, steps) && IsForward(run, steps)
    requires a < j < |steps| && steps[a] == OpenBody(r, k) && steps[j] == Judge(r)
    ensures var o, p := run[j].readers[r], run[j + 1].readers[r];
            && p.Retrieved? && o.header.Record?
            && (!p.stale && Mixed(o.body, o.header) <==>
                  && LeftBehind(run, steps, a, k) && DatedAnew(run, steps, a, k)
                  && !Marked(At(run[j], k).marker, o.header.at))
  {
    MixedExactly(run, steps, a, j, r, k);
    SinceOpen(run, steps, a, j, r, k);
    RunDated(run, steps, j);
    assert run[j + 1] == DoJudge(run[j], r);
    assert ReaderDates(At(run[j], k), run[j].readers[r]);
    RedatedIsDatedAnew(run, steps, a, k);
    ResidueIsLeftBehind(run, steps, a, k);
  }

  // ------------------------------------------------------------ what Freshen renews

  /** A failed Store leaves a body behind that it has rewritten. */
  predicate Abandons(s: State, step: Step, k: Key) {
    && step.DiscardKey? && step.key == k && !step.bodyGone
    && At(s, k).work.Store? && Touched(s.inPlace, At(s, k).work.stage)
  }

  lemma OneStores(s: State, step: Step)
    requires Enabled(s, step) && Names(step)
    ensures AfterOne(s, step).stores == At(s, step.key).stores
  {
  }

  lemma StepStores(s: State, step: Step, k: Key)
    requires Enabled(s, step)
    ensures CellAfter(s, step, k).stores == At(s, k).stores + if Commits(s, step, k) then 1 else 0
  {
    if Names(step) && step.key == k { OneStores(s, step); }
  }

  lemma OneSpoils(s: State, step: Step)
    requires Enabled(s, step) && Names(step)
    ensures AfterOne(s, step).spoils == At(s, step.key).spoils + if Abandons(s, step, step.key) then 1 else 0
  {
  }

  lemma StepSpoils(s: State, step: Step, k: Key)
    requires Enabled(s, step)
    ensures CellAfter(s, step, k).spoils == At(s, k).spoils + if Abandons(s, step, k) then 1 else 0
  {
    if Names(step) && step.key == k { OneSpoils(s, step); }
  }

  lemma {:induction false} Counts(run: seq<State>, steps: seq<Step>, a: nat, j: nat, k: Key)
    requires IsRun(run, steps) && a <= j < |run|
    ensures At(run[a], k).stores <= At(run[j], k).stores && At(run[a], k).spoils <= At(run[j], k).spoils
    ensures At(run[a], k).stores == At(run[j], k).stores <==> forall n :: a <= n < j ==> !Commits(run[n], steps[n], k)
    ensures At(run[a], k).spoils == At(run[j], k).spoils <==> forall n :: a <= n < j ==> !Abandons(run[n], steps[n], k)
  {
    if a < j {
      Counts(run, steps, a, j - 1, k);
      StepCell(run[j - 1], steps[j - 1], k);
      StepStores(run[j - 1], steps[j - 1], k);
      StepSpoils(run[j - 1], steps[j - 1], k);
    }
  }

  /** A Freshen of `r` commits at `m`, an eviction removes the entry at `e`, and only then, at `n`,
      Freshen reads the identity of the entry. */
  predicate Interrupted(run: seq<State>, steps: seq<Step>, m: nat, e: nat, n: nat, r: nat, k: Key) {
    && m < e < n < |steps| <= |run|
    && steps[m] == CommitFreshen(k) && FreshenOf(At(run[m], k), r)
    && steps[e] == Evict(k, true, true)
    && steps[n] == ReadIdentity(k) && forall x :: m < x < n ==> steps[x] != ReadIdentity(k)
  }

  ghost predicate Forgotten(run: seq<State>, steps: seq<Step>, a: nat, j: nat, r: nat, k: Key) {
    exists m: nat, e: nat, n: nat :: a < m && n < j && Interrupted(run, steps, m, e, n, r, k)
  }

  /** A Freshen has committed and not yet read its new identity. */
  predicate Unread(c: Cell) {
    c.work.Freshen? && c.work.phase.Renewed?
  }

  /** It got there by its commit, and until the reading holds its key, where only an eviction can
      change the ledger's record. */
  predicate Waits(c: Cell, step: Step, d: Cell, k: Key) {
    && (Unread(d) ==> step == CommitFreshen(k) || (step != ReadIdentity(k) && d.work == c.work))
    && (step == CommitFreshen(k) ==>
          Unread(d) && Tracked(d) && c.work.Freshen? && d.work.resource == c.work.resource)
    && (Unread(c) && step != ReadIdentity(k) ==>
          d.work == c.work && d.entry == if step == Evict(k, true, true) then None else c.entry)
  }

  lemma WaitsFreshen(s: State, step: Step)
    requires Enabled(s, step) && (step.VerifyFreshen? || Renewing(step) || Returning(step))
    ensures Waits(At(s, step.key), step, AfterOne(s, step), step.key)
  {
  }

  lemma WaitsOne(s: State, step: Step)
    requires Enabled(s, step) && Names(step)
    ensures Waits(At(s, step.key), step, AfterOne(s, step), step.key)
  {
    if step.VerifyFreshen? || Renewing(step) || Returning(step) { WaitsFreshen(s, step); }
  }

  lemma WaitsMany(s: State, step: Step, k: Key)
    requires HoldersOk(s) && Enabled(s, step) && (step.BeginStore? || step.CommitStore? || step.EndStore?)
    ensures Waits(At(s, k), step, AfterMany(s, step, k), k)
  {
    if step.BeginStore? {
      assert k in step.dates ==> Lockable(s, k);
    } else {
      assert HoldsAll(s.cells, step.op, s.ops[step.op]);
      assert k in s.ops[step.op].keys ==> Holds(CellAt(s.cells, k), step.op);
    }
  }

  lemma StepWaits(s: State, step: Step, k: Key)
    requires HoldersOk(s) && Enabled(s, step)
    ensures Waits(At(s, k), step, CellAfter(s, step, k), k)
  {
    if Names(step) {
      if step.key == k { WaitsOne(s, step); }
    } else if step.BeginStore? || step.CommitStore? || step.EndStore? {
      WaitsMany(s, step, k);
    }
  }

  function Cells(run: seq<State>, k: Key): (cells: seq<Cell>)
    ensures |cells| == |run| && forall i :: 0 <= i < |run| ==> cells[i] == At(run[i], k)
  {
    seq(|run|, i requires 0 <= i < |run| => At(run[i], k))
  }

  predicate Waiting(cells: seq<Cell>, steps: seq<Step>, k: Key) {
    |cells| == |steps| + 1 && forall i :: 0 <= i < |steps| ==> Waits(cells[i], steps[i], cells[i + 1], k)
  }

  lemma RunWaits(run: seq<State>, steps: seq<Step>, k: Key)
    requires IsRun(run, steps)
    ensures Waiting(Cells(run, k), steps, k) && Cells(run, k)[0] == EMPTY
  {
    var cells := Cells(run, k);
    forall i | 0 <= i < |steps| ensures Waits(cells[i], steps[i], cells[i + 1], k) {
      RunInv(run, steps, i);
      StepCell(run[i], steps[i], k);
      StepWaits(run[i], steps[i], k);
    }
  }

  lemma {:induction false} SinceCommit(cells: seq<Cell>, steps: seq<Step>, m: nat, n: nat, k: Key)
    requires Waiting(cells, steps, k) && m < n < |cells| && steps[m] == CommitFreshen(k)
    requires forall x :: m < x < n ==> steps[x] != ReadIdentity(k)
    ensures Unread(cells[n]) && cells[m].work.Freshen? && cells[n].work.resource == cells[m].work.resource
    ensures Tracked(cells[n]) <==> forall x :: m < x < n ==> steps[x] != Evict(k, true, true)
  {
    assert Waits(cells[n - 1], steps[n - 1], cells[(n - 1) + 1], k);
    if m + 1 < n { SinceCommit(cells, steps, m, n - 1, k); }
  }

  lemma {:induction false} CommitBefore(cells: seq<Cell>, steps: seq<Step>, n: nat, k: Key) returns (m: nat)
    requires Waiting(cells, steps, k) && cells[0] == EMPTY && n < |cells| && Unread(cells[n])
    ensures m < n && steps[m] == CommitFreshen(k) && forall x :: m < x < n ==> steps[x] != ReadIdentity(k)
  {
    assert Waits(cells[n - 1], steps[n - 1], cells[(n - 1) + 1], k);
    m := n - 1;
    if steps[n - 1] != CommitFreshen(k) { m := CommitBefore(cells, steps, n - 1, k); }
  }

  lemma LosesOwnKey(run: seq<State>, steps: seq<Step>, a: nat, n: nat, r: nat, k: Key)
    requires IsRun(run, steps) && a < n < |steps| && steps[a] == OpenBody(r, k) && Loses(run[n], steps[n], r)
    ensures steps[n] == ReadIdentity(k) && Unread(At(run[n], k))
  {
    RunInv(run, steps, n);
    SinceOpen(run, steps, a, n, r, k);
    assert FreshenOk(run[n].inPlace, run[n].readers, steps[n].key, At(run[n], steps[n].key));
  }

  lemma CommitsAfterOpen(run: seq<State>, steps: seq<Step>, a: nat, m: nat, r: nat, k: Key)
    requires IsRun(run, steps) && a < |steps| && steps[a] == OpenBody(r, k)
    requires m < |steps| && steps[m] == CommitFreshen(k) && FreshenOf(At(run[m], k), r)
    ensures a < m
  {
    RunInv(run, steps, m);
    assert FreshenOk(run[m].inPlace, run[m].readers, k, At(run[m], k));
    if m <= a { RunKeepsReader(run, steps, m, a, r); }
  }

  lemma InterruptedLoses(run: seq<State>, steps: seq<Step>, m: nat, e: nat, n: nat, r: nat, k: Key)
    requires IsRun(run, steps) && Interrupted(run, steps, m, e, n, r, k)
    ensures Loses(run[n], steps[n], r)
  {
    RunWaits(run, steps, k);
    SinceCommit(Cells(run, k), steps, m, n, k);
  }

  /** A Freshen finds no identity only when an eviction came after its commit. */
  lemma LosesIsInterrupted(run: seq<State>, steps: seq<Step>, a: nat, n: nat, r: nat, k: Key)
    returns (m: nat, e: nat)
    requires IsRun(run, steps) && a < n < |steps| && steps[a] == OpenBody(r, k) && Loses(run[n], steps[n], r)
    ensures a < m && Interrupted(run, steps, m, e, n, r, k)
  {
    LosesOwnKey(run, steps, a, n, r, k);
    RunWaits(run, steps, k);
    m := CommitBefore(Cells(run, k), steps, n, k);
    SinceCommit(Cells(run, k), steps, m, n, k);
    CommitsAfterOpen(run, steps, a, m, r, k);
    e :| m < e < n && steps[e] == Evict(k, true, true);
  }

  /** A resource keeps an identity exactly when it was opened under one and no eviction came between
      the commit of a Freshen of it and the reading of its new identity. */
  lemma IdentityExactly(run: seq<State>, steps: seq<Step>, a: nat, j: nat, r: nat, k: Key)
    requires IsRun(run, steps) && a < j < |run| && steps[a] == OpenBody(r, k)
    ensures r in run[j].readers
    ensures run[j].readers[r].identity.Some? <==> Tracked(At(run[a], k)) && !Forgotten(run, steps, a, j, r, k)
  {
    SinceOpen(run, steps, a, j, r, k);
    if n: nat :| a < n < j && Loses(run[n], steps[n], r) {
      var m, e := LosesIsInterrupted(run, steps, a, n, r, k);
    }
    if m: nat, e: nat, n: nat :| a < m && n < j && Interrupted(run, steps, m, e, n, r, k) {
      InterruptedLoses(run, steps, m, e, n, r, k);
    }
  }

  /**
   Whatever the clock does: if a Freshen of a retrieved resource commits, no Store committed on the
   key since, and the body under the renewed header is the one retrieved exactly if no failed Store
   in between left a rewritten body behind.  In place this takes a resource that was opened under an
   identity and has not been forgotten since.
   */
  lemma FreshenOnlyRenewsWhatWasRetrieved(run: seq<State>, steps: seq<Step>, a: nat, j: nat, r: nat, k: Key)
    requires IsRun(run, steps) && a < j < |steps| && steps[a] == OpenBody(r, k)
    requires steps[j] == CommitFreshen(k) && FreshenOf(At(run[j], k), r)
    requires run[j].inPlace ==> Tracked(At(run[a], k)) && !Forgotten(run, steps, a, j, r, k)
    ensures forall n :: a <= n < j ==> !Commits(run[n], steps[n], k)
    ensures At(run[j + 1], k).slot.body == At(run[a], k).slot.body <==>
              forall n :: a <= n < j ==> !Abandons(run[n], steps[n], k)
  {
    var s, c := run[j], At(run[j], k);
    RunInv(run, steps, j);
    SinceOpen(run, steps, a, j, r, k);
    IdentityExactly(run, steps, a, j, r, k);
    Counts(run, steps, a, j, k);
    assert FreshenOk(s.inPlace, s.readers, k, c);
    assert CellOk(s.inPlace, s.publisher, s.next, s.nextIdentity, c);
    assert At(run[j + 1], k) == FreshenCommitted(c, s.nextIdentity);
  }

  /** The first Freshen of a resource needs nothing else. */
  lemma FirstFreshenRenewsWhatWasRetrieved(run: seq<State>, steps: seq<Step>, a: nat, j: nat, r: nat, k: Key)
    requires IsRun(run, steps) && a < j < |steps| && steps[a] == OpenBody(r, k) && Tracked(At(run[a], k))
    requires steps[j] == CommitFreshen(k) && FreshenOf(At(run[j], k), r)
    requires forall n :: a < n < j && steps[n] == CommitFreshen(k) ==> !FreshenOf(At(run[n], k), r)
    ensures forall n :: a <= n < j ==> !Commits(run[n], steps[n], k)
    ensures At(run[j + 1], k).slot.body == At(run[a], k).slot.body <==>
              forall n :: a <= n < j ==> !Abandons(run[n], steps[n], k)
  {
    FreshenOnlyRenewsWhatWasRetrieved(run, steps, a, j, r, k);
  }

  /** A resource that has no identity passes the check in place exactly when date and bytes of its
      record are those of the header under the key, whichever Store wrote that. */
  lemma ForgottenIsComparedByRecord(run: seq<State>, steps: seq<Step>, a: nat, j: nat, r: nat, k: Key)
    requires IsRun(run, steps) && a < j < |steps| && steps[a] == OpenBody(r, k) && run[j].inPlace
    requires !Tracked(At(run[a], k)) || Forgotten(run, steps, a, j, r, k)
    requires steps[j] == VerifyFreshen(k) && FreshenOf(At(run[j], k), r)
    ensures r in run[j].readers
    ensures var o, h := run[j].readers[r], At(run[j], k).slot.header;
            At(run[j + 1], k).work.Freshen? <==>
              && o.Retrieved? && Readable(At(run[j], k).slot) && o.header.Record?
              && h.value.at == o.header.at && h.value.bytes == o.header.bytes
  {
    SinceOpen(run, steps, a, j, r, k);
    IdentityExactly(run, steps, a, j, r, k);
    assert run[j + 1] == DoVerifyFreshen(run[j], k);
  }

  // ------------------------------------------------------------ what a Store leaves

  /** The Store `i` is in flight, and remembers what the files of its keys held when it began. */
  ghost predicate InFlight(s: State, i: nat, dates: map<Key, int>, bytes: int, began: State) {
    && i in s.ops && s.ops[i].StoreOp? && s.ops[i].keys == dates.Keys
    && forall k :: k in dates ==> Remembers(At(s, k), i, dates[k], bytes, At(began, k).slot)
  }

  predicate Remembers(c: Cell, i: nat, at: int, bytes: int, before: Slot) {
    c.work.Store? && c.work.op == i && c.work.at == at && c.work.bytes == bytes && c.work.before == before
  }

  /** The step returns from the Store `i`. */
  predicate Ends(step: Step, i: nat) {
    (step.CommitStore? || step.EndStore?) && step.op == i
  }

  predicate SameStore(v: Work, w: Work) {
    v.Store? && w.Store? && w.op == v.op && w.at == v.at && w.bytes == v.bytes && w.before == v.before
  }

  lemma OneKeepsWork(s: State, step: Step)
    requires Enabled(s, step) && Names(step) && At(s, step.key).work.Store?
    ensures SameStore(At(s, step.key).work, AfterOne(s, step).work)
  {
  }

  lemma StepKeepsWork(s: State, step: Step, i: nat, k: Key)
    requires HoldersOk(s) && Enabled(s, step) && Holds(At(s, k), i) && !Ends(step, i)
    ensures SameStore(At(s, k).work, CellAfter(s, step, k).work)
  {
    if Names(step) && step.key == k { OneKeepsWork(s, step); }
    if step.CommitStore? || step.EndStore? {
      assert HoldsAll(s.cells, step.op, s.ops[step.op]);
      assert k in s.ops[step.op].keys ==> Holds(CellAt(s.cells, k), step.op);
    }
    if step.BeginStore? { assert k in step.dates ==> Lockable(s, k); }
  }

  lemma StepKeepsFlight(s: State, step: Step, i: nat, dates: map<Key, int>, bytes: int, began: State)
    requires Inv(s) && Enabled(s, step) && InFlight(s, i, dates, bytes, began) && !Ends(step, i)
    ensures InFlight(Apply(s, step), i, dates, bytes, began)
  {
    var t := Apply(s, step);
    forall k | k in dates ensures Remembers(At(t, k), i, dates[k], bytes, At(began, k).slot) {
      assert Remembers(At(s, k), i, dates[k], bytes, At(began, k).slot);
      StepKeepsWork(s, step, i, k);
      StepCell(s, step, k);
    }
    StepKeepsOp(s, step, i);
  }

  /** What a step can do to the list of operations. */
  predicate OpsMove(ops: map<nat, Op>, next: nat, ops': map<nat, Op>, gone: Option<nat>) {
    forall i :: i in ops && i != next && gone != Some(i) ==> i in ops' && SameKeys(ops[i], ops'[i])
  }

  predicate SameKeys(o: Op, p: Op) {
    (o.StoreOp? <==> p.StoreOp?) && (o.StoreOp? ==> o.keys == p.keys)
  }

  /** The operation a step may return from. */
  function Returns(s: State, step: Step): Option<nat> {
    if step.CommitStore? || step.EndStore? then Some(step.op)
    else if Names(step) && (Checking(step) || Renewing(step) || Returning(step)) && At(s, step.key).work.Freshen?
    then Some(At(s, step.key).work.op)
    else None
  }

  lemma SameOps(s: State, step: Step)
    requires Enabled(s, step) && (Environment(step) || Reading(step))
    ensures OpsMove(s.ops, s.next, Apply(s, step).ops, Returns(s, step))
  {
  }

  lemma StoreOpsMove(s: State, step: Step)
    requires Enabled(s, step) && (Preparing(step) || Ending(step))
    ensures OpsMove(s.ops, s.next, Apply(s, step).ops, Returns(s, step))
  {
  }

  lemma CheckOpsMove(s: State, step: Step)
    requires Enabled(s, step) && (Checking(step))
    ensures OpsMove(s.ops, s.next, Apply(s, step).ops, Returns(s, step))
  {
  }

  lemma RenewOpsMove(s: State, step: Step)
    requires Enabled(s, step) && Renewing(step)
    ensures OpsMove(s.ops, s.next, Apply(s, step).ops, Returns(s, step))
  {
  }

  lemma ReturnOpsMove(s: State, step: Step)
    requires Enabled(s, step) && Returning(step)
    ensures OpsMove(s.ops, s.next, Apply(s, step).ops, Returns(s, step))
  {
  }

  lemma StepKeepsOp(s: State, step: Step, i: nat)
    requires HoldersOk(s) && Enabled(s, step) && i in s.ops && s.ops[i].StoreOp? && !Ends(step, i)
    ensures i in Apply(s, step).ops && SameKeys(s.ops[i], Apply(s, step).ops[i])
  {
    if Environment(step) || Reading(step) {
      SameOps(s, step);
    } else if Preparing(step) || Ending(step) {
      StoreOpsMove(s, step);
    } else {
      if Names(step) { assert HolderOk(s.ops, step.key, At(s, step.key).work); }
      if Checking(step) { CheckOpsMove(s, step); }
      else if Renewing(step) { RenewOpsMove(s, step); }
      else { ReturnOpsMove(s, step); }
    }
  }

  lemma {:induction false} Flying(run: seq<State>, steps: seq<Step>, a: nat, n: nat)
    requires IsRun(run, steps) && a < n <= |steps| && steps[a].BeginStore?
    requires forall m :: a < m < n ==> !Ends(steps[m], run[a].next)
    ensures InFlight(run[n], run[a].next, steps[a].dates, steps[a].bytes, run[a])
  {
    if a + 1 < n {
      Flying(run, steps, a, n - 1);
      RunInv(run, steps, n - 1);
      StepKeepsFlight(run[n - 1], steps[n - 1], run[a].next, steps[a].dates, steps[a].bytes, run[a]);
    } else {
      assert run[n] == DoBeginStore(run[a], steps[a].dates, steps[a].bytes);
      forall k | k in steps[a].dates
        ensures Remembers(At(run[n], k), run[a].next, steps[a].dates[k], steps[a].bytes, At(run[a], k).slot)
      {
        assert At(run[n], k) == Claimed(At(run[a], k), run[a].next, steps[a].dates[k], steps[a].bytes);
      }
    }
  }

  predicate MissingOrMarked(c: Cell) {
    Readable(c.slot) ==> Marked(c.marker, c.slot.header.value.at)
  }

  /** A Store that commits has put its new pair under all of its keys. */
  lemma CommitPublishesAll(run: seq<State>, steps: seq<Step>, a: nat, j: nat, k: Key)
    requires IsRun(run, steps) && a < j < |steps| && steps[a].BeginStore? && steps[j] == CommitStore(run[a].next)
    requires forall m :: a < m < j ==> !Ends(steps[m], run[a].next)
    requires k in steps[a].dates
    ensures At(run[j + 1], k).slot == New(run[a].next, steps[a].dates[k], steps[a].bytes)
  {
    var s, i := run[j], run[a].next;
    Flying(run, steps, a, j);
    RunInv(run, steps, j);
    assert Remembers(At(s, k), i, steps[a].dates[k], steps[a].bytes, At(run[a], k).slot);
    assert StageOf(s, k, i, if s.inPlace then Ready else Renamed);
    CommitCell(s.inPlace, s.publisher, s.next, s.nextIdentity, At(s, k));
    assert At(run[j + 1], k) == Committed(At(s, k), s.nextIdentity);
  }

  /** One that fails leaves all of them as they were, or all of them missing or marked stale. */
  lemma FailureLeavesNothing(run: seq<State>, steps: seq<Step>, a: nat, j: nat)
    requires IsRun(run, steps) && IsForward(run, steps)
    requires a < j < |steps| && steps[a].BeginStore? && steps[j] == EndStore(run[a].next)
    requires forall m :: a < m < j ==> !Ends(steps[m], run[a].next)
    ensures || (forall k :: k in steps[a].dates ==> At(run[j + 1], k).slot == At(run[a], k).slot)
            || (forall k :: k in steps[a].dates ==> MissingOrMarked(At(run[j + 1], k)))
  {
    var s, i := run[j], run[a].next;
    Flying(run, steps, a, j);
    RunInv(run, steps, j);
    RunDated(run, steps, j);
    forall k | k in steps[a].dates
      ensures !Published(s, i) ==> At(run[j + 1], k).slot == At(run[a], k).slot
      ensures Published(s, i) ==> MissingOrMarked(At(run[j + 1], k))
    {
      assert Remembers(At(s, k), i, steps[a].dates[k], steps[a].bytes, At(run[a], k).slot);
      assert CellOk(s.inPlace, s.publisher, s.next, s.nextIdentity, At(s, k)) && DatesOk(s.clock, At(s, k));
      assert At(run[j + 1], k) == At(s, k).(work := Free);
      assert Published(s, i) ==> StageOf(s, k, i, Discarded);
      assert !Published(s, i) ==> !Published1(s.inPlace, At(s, k));
    }
  }

  /** Until the Store returns, no reader opens anything else under its keys than what was there
      before; in place none opens anything at all. */
  lemma ReadersSeeNoneOfIt(run: seq<State>, steps: seq<Step>, a: nat, n: nat, r: nat, k: Key)
    requires IsRun(run, steps) && a < n < |steps| && steps[a].BeginStore? && steps[n] == OpenBody(r, k)
    requires forall m :: a < m < n ==> !Ends(steps[m], run[a].next)
    requires k in steps[a].dates
    ensures !run[n].inPlace && At(run[n], k).slot == At(run[a], k).slot
  {
    var s := run[n];
    Flying(run, steps, a, n);
    RunInv(run, steps, n);
    assert Remembers(At(s, k), run[a].next, steps[a].dates[k], steps[a].bytes, At(run[a], k).slot);
    assert CellOk(s.inPlace, s.publisher, s.next, s.nextIdentity, At(s, k));
  }
}
