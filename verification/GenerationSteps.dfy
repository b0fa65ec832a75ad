/**
 What each step of module Generations does, field by field: to the two files of a key, to its marker,
 its ledger record and the holder of its lock, and to a retrieval.
 */
module GenerationSteps {
  import opened Wrappers
  import opened Generations
  import opened GenerationResults
  import opened Paths

  /** The step removes files of `k`, or tries to. */
  predicate Takes(step: Step, k: Key) {
    (step.Evict? || step.DiscardKey? || step.FailFreshen?) && step.key == k
  }

  // ------------------------------------------------------------------------ the files

  ghost function BodyAfter(s: State, step: Step, k: Key): Option<Body>
    requires Enabled(s, step)
  {
    var c := At(s, k);
    if Takes(step, k) && step.bodyGone then None
    else if step.Progress? && step.key == k then
      match step.stage
      case BodyReady => if s.inPlace then Some(Body(c.work.op, true)) else c.slot.body
      case BodyTorn(whole) => Some(Body(c.work.op, whole))
      case BodyRenamed => Some(Body(c.work.op, true))
      case _ => c.slot.body
    else c.slot.body
  }

  lemma OneBody(s: State, step: Step)
    requires Enabled(s, step) && Names(step)
    ensures AfterOne(s, step).slot.body == BodyAfter(s, step, step.key)
  {
  }

  lemma StepBody(s: State, step: Step, k: Key)
    requires Enabled(s, step)
    ensures CellAfter(s, step, k).slot.body == BodyAfter(s, step, k)
  {
    if Names(step) && step.key == k { OneBody(s, step); }
  }

  ghost function HeaderAfter(s: State, step: Step, k: Key): Option<Header>
    requires Enabled(s, step)
  {
    var c := At(s, k);
    if Takes(step, k) && step.headerGone then None
    else if step.Progress? && step.key == k then
      var record := Record(c.work.op, c.work.at, c.work.bytes, c.work.op);
      match step.stage
      case Ready => if s.inPlace then Some(record) else c.slot.header
      case HeaderTorn(whole) => Some(if whole then record else Incomplete)
      case Renamed => Some(record)
      case _ => c.slot.header
    else if step.WriteFreshen? && step.key == k && s.inPlace then
      match step.write
      case NotOpened => c.slot.header
      case LeftPartial => Some(Incomplete)
      case _ => Some(Record(c.slot.header.value.store, c.work.phase.at, step.bytes, s.next))
    else if step == CommitFreshen(k) then Some(c.work.phase.header)
    else c.slot.header
  }

  lemma OneHeader(s: State, step: Step)
    requires Enabled(s, step) && Names(step)
    ensures AfterOne(s, step).slot.header == HeaderAfter(s, step, step.key)
  {
  }

  lemma StepHeader(s: State, step: Step, k: Key)
    requires Enabled(s, step)
    ensures CellAfter(s, step, k).slot.header == HeaderAfter(s, step, k)
  {
    if Names(step) && step.key == k { OneHeader(s, step); }
  }

  // ---------------------------------------------------------- the marker and the ledger

  function AtLeast(m: Option<int>, t: int): Option<int> {
    match m
    case None => Some(t)
    case Some(x) => Some(if x < t then t else x)
  }

  ghost function MarkerAfter(s: State, step: Step, k: Key): Option<int>
    requires Enabled(s, step)
  {
    var m := At(s, k).marker;
    if step == DropMarker(k) then None
    else if step == Mark(k) || (step.DiscardKey? && step.key == k && !(step.bodyGone && step.headerGone))
    then AtLeast(m, s.clock)
    else m
  }

  lemma OneMarker(s: State, step: Step)
    requires Enabled(s, step) && Names(step)
    ensures AfterOne(s, step).marker == MarkerAfter(s, step, step.key)
  {
  }

  lemma StepMarker(s: State, step: Step, k: Key)
    requires Enabled(s, step)
    ensures CellAfter(s, step, k).marker == MarkerAfter(s, step, k)
  {
    if Names(step) && step.key == k { OneMarker(s, step); }
  }

  /** What is left of a record when files are removed: nothing if both are gone. */
  function Residual(e: Option<Entry>, bothGone: bool, at: int): Option<Entry> {
    if bothGone then None else if e.None? then Some(Entry(None, at)) else e
  }

  ghost function EntryAfter(s: State, step: Step, k: Key): Option<Entry>
    requires Enabled(s, step)
  {
    var c := At(s, k);
    if Commits(s, step, k) && c.work.Store? then Some(Entry(Some(s.nextIdentity), c.work.at))
    else if step == CommitFreshen(k) then Some(Entry(Some(s.nextIdentity), c.work.phase.header.at))
    else if step.Evict? && step.key == k then Residual(c.entry, step.bodyGone && step.headerGone, 0)
    else if step.DiscardKey? && step.key == k then Residual(c.entry, step.bodyGone && step.headerGone, c.work.at)
    else if step.FailFreshen? && step.key == k then
      Residual(c.entry, step.bodyGone && step.headerGone, c.work.phase.at)
    else c.entry
  }

  lemma StepEntry(s: State, step: Step, k: Key)
    requires Enabled(s, step) && (step.CommitFreshen? ==> At(s, step.key).work.phase.header.Record?)
    ensures CellAfter(s, step, k).entry == EntryAfter(s, step, k)
  {
  }

  // --------------------------------------------------------------- the check of Freshen

  /** The resource is of this key and nothing about it has changed: the record's date and bytes, the
      identity if the resource has one, and after renames the header file. */
  predicate Unchanged(inPlace: bool, c: Cell, k: Key, r: Reader) {
    && r.Retrieved? && r.key == k && r.header.Record? && c.slot.header.Some? && c.slot.header.value.Record?
    && c.slot.header.value.at == r.header.at && c.slot.header.value.bytes == r.header.bytes
    && (r.identity == None || (c.entry.Some? && c.entry.value.identity == r.identity))
    && (inPlace || c.slot.header.value.file == r.header.file)
  }

  /** Freshen goes on exactly when the key has a body and a complete header, and they are those of its
      resource; a HEAD response has no resource to compare. */
  lemma VerifiedExactly(s: State, k: Key)
    requires Enabled(s, VerifyFreshen(k))
    ensures var c, d := At(s, k), CellAfter(s, VerifyFreshen(k), k);
            && (c.slot.body.Some? && c.slot.header.Some? && c.slot.header.value.Record?
                && (c.work.resource.Some? ==>
                      && c.work.resource.value in s.readers
                      && Unchanged(s.inPlace, c, k, s.readers[c.work.resource.value]))
                <==> d.work == Freshen(c.work.op, c.work.resource, Verified(s.clock)))
            && (d.work.Freshen? || d.work == Free)
  {
  }

  // ------------------------------------------------------------------ the lock's holder

  ghost function StoreWorkAfter(s: State, step: Step, k: Key): Work
    requires Enabled(s, step) && (Environment(step) || Preparing(step) || Ending(step))
  {
    var w := At(s, k).work;
    match step
    case BeginStore(dates, bytes) => if k in dates then Store(s.next, dates[k], bytes, Begun, At(s, k).slot) else w
    case Progress(j, to) => if j == k then Store(w.op, w.at, w.bytes, to, w.before) else w
    case DiscardKey(j, _, _) => if j == k then Store(w.op, w.at, w.bytes, Discarded, w.before) else w
    case CommitStore(i) => if k in s.ops[i].keys && w.Store? then Free else w
    case EndStore(i) => if k in s.ops[i].keys then Free else w
    case _ => w
  }

  lemma StepStoreWork(s: State, step: Step, k: Key)
    requires Enabled(s, step) && (Environment(step) || Preparing(step) || Ending(step))
    ensures CellAfter(s, step, k).work == StoreWorkAfter(s, step, k)
  {
  }

  /** How far a Freshen has come after writing its header. */
  function WrittenPhase(inPlace: bool, w: Write, h: Header, at: int): Phase {
    match w
    case Done => Written(h)
    case NotOpened => Stopped(false, at)
    case _ => Stopped(inPlace, at)
  }

  ghost function FreshenWorkAfter(s: State, step: Step, k: Key): Work
    requires Enabled(s, step) && (Renewing(step) || Returning(step))
  {
    var c := At(s, k);
    if step.key != k then c.work
    else
      match step
      case WriteFreshen(_, w, bytes) =>
        var h := Record(c.slot.header.value.store, c.work.phase.at, bytes, s.next);
        Freshen(c.work.op, c.work.resource, WrittenPhase(s.inPlace, w, h, c.work.phase.at))
      case CommitFreshen(_) => Freshen(c.work.op, c.work.resource, Renewed(c.work.phase.header))
      case ReadIdentity(_) => Freshen(c.work.op, c.work.resource, Named(c.work.phase.header))
      case _ => Free
  }

  lemma StepFreshenWork(s: State, step: Step, k: Key)
    requires Enabled(s, step) && (Renewing(step) || Returning(step))
    ensures CellAfter(s, step, k).work == FreshenWorkAfter(s, step, k)
  {
  }

  // --------------------------------------------------------------------- a retrieval

  function ReaderOf(s: State, r: nat): Option<Reader> {
    if r in s.readers then Some(s.readers[r]) else None
  }

  function IdentityNow(c: Cell): Option<nat> {
    match c.entry
    case None => None
    case Some(e) => e.identity
  }

  ghost function ReaderAfter(s: State, step: Step, r: nat): Option<Reader>
    requires Enabled(s, step) && Reading(step)
  {
    var o := ReaderOf(s, r);
    if step.reader != r then o
    else
      match step
      case OpenBody(_, k) =>
        var c := At(s, k);
        Some(Opened(k, IdentityNow(c), c.slot.body.value, Past(c.residue, c.redated, c.stores, c.spoils)))
      case ReadHeader(_) =>
        (match At(s, o.value.key).slot.header
         case Some(Record(a, b, d, e)) =>
           Some(Read(o.value.key, o.value.identity, o.value.body, o.value.past, Record(a, b, d, e)))
         case _ => Some(Missed(o.value.key, o.value.identity, o.value.body, o.value.past)))
      case Judge(_) =>
        var m := At(s, o.value.key).marker;
        Some(Retrieved(o.value.key, o.value.identity, o.value.body, o.value.past, o.value.header,
                       m.Some? && o.value.header.at <= m.value))
  }

  lemma StepReader(s: State, step: Step, r: nat)
    requires Enabled(s, step) && Reading(step)
    ensures ReaderOf(Apply(s, step), r) == ReaderAfter(s, step, r)
  {
  }

  /** Another retrieval's step, and the return of another resource's Freshen, change no reader. */
  lemma ReturnKeepsOthers(s: State, step: Step, r: nat)
    requires Enabled(s, step) && (step.ReadIdentity? || step.AdvanceRecord?) && !FreshenOf(At(s, step.key), r)
    ensures ReaderOf(Apply(s, step), r) == ReaderOf(s, r)
  {
  }

  lemma OthersKeepReader(s: State, step: Step, r: nat)
    requires Enabled(s, step) && !(Reading(step) && step.reader == r)
    requires (step.ReadIdentity? || step.AdvanceRecord?) ==> !FreshenOf(At(s, step.key), r)
    ensures ReaderOf(Apply(s, step), r) == ReaderOf(s, r)
  {
    if Reading(step) {
      StepReader(s, step, r);
    } else if step.ReadIdentity? || step.AdvanceRecord? {
      ReturnKeepsOthers(s, step, r);
    } else if Environment(step) || Preparing(step) || Ending(step) {
      StoreSameReaders(s, step);
    } else if Checking(step) {
      CheckSameReaders(s, step);
    } else {
      FreshenSameReaders(s, step);
    }
  }

  /** A retrieval in progress changes by its own steps alone. */
  lemma ActiveReaderRests(s: State, step: Step, r: nat)
    requires Inv(s) && Enabled(s, step) && r in s.readers && Active(s.readers[r])
    requires !(Reading(step) && step.reader == r)
    ensures r in Apply(s, step).readers && Apply(s, step).readers[r] == s.readers[r]
  {
    if step.ReadIdentity? || step.AdvanceRecord? {
      assert FreshenOk(s.inPlace, s.readers, step.key, At(s, step.key));
    }
    OthersKeepReader(s, step, r);
  }

  lemma ReaderRests(run: seq<State>, steps: seq<Step>, i: nat, j: nat, r: nat, o: Reader)
    requires IsRun(run, steps) && i <= j <= |steps| && ReaderOf(run[i], r) == Some(o) && Active(o)
    requires forall n :: i <= n < j ==> !(Reading(steps[n]) && steps[n].reader == r)
    ensures ReaderOf(run[j], r) == Some(o)
  {
    var flags := seq(|run|, x requires 0 <= x < |run| => ReaderOf(run[x], r) == Some(o));
    forall x | i <= x < j && flags[x] ensures flags[x + 1] {
      RunInv(run, steps, x);
      ActiveReaderRests(run[x], steps[x], r);
    }
    Persist(flags, i, j);
  }

  predicate OwnStep(step: Step, r: nat) {
    Reading(step) && step.reader == r
  }

  /**
   Over every run, a retrieval gets the body under its key when it opens it, the header there when it
   reads it, the identity the ledger has for the key at first, and is stale exactly when the header is
   dated no later than the marker there when it is judged.
   */
  lemma RetrievalExactly(run: seq<State>, steps: seq<Step>, a: nat, b: nat, j: nat, r: nat, k: Key)
    requires IsRun(run, steps) && a < b < j < |steps|
    requires steps[a] == OpenBody(r, k) && steps[b] == ReadHeader(r) && steps[j] == Judge(r)
    requires forall n :: a < n < j && n != b ==> !OwnStep(steps[n], r)
    ensures var c, h := At(run[a], k), At(run[b], k).slot.header;
            && c.slot.body.Some? && h.Some? && h.value.Record?
            && ReaderOf(run[j + 1], r) ==
               Some(Retrieved(k, IdentityNow(c), c.slot.body.value, PastOf(c), h.value,
                              var m := At(run[j], k).marker; m.Some? && h.value.at <= m.value))
  {
    var c := At(run[a], k);
    var o := Opened(k, IdentityNow(c), c.slot.body.value, PastOf(c));
    StepReader(run[a], steps[a], r);
    ReaderRests(run, steps, a + 1, b, r, o);
    StepReader(run[b], steps[b], r);
    var p := run[b + 1].readers[r];
    if p.Read? {
      ReaderRests(run, steps, b + 1, j, r, p);
      StepReader(run[j], steps[j], r);
    } else {
      MissedStays(run, steps, b + 1, j, r);
    }
  }

  lemma MissedIsDone(s: State, step: Step, r: nat)
    requires Enabled(s, step) && r in s.readers && s.readers[r].Missed?
    ensures !(Reading(step) && step.reader == r)
  {
  }

  lemma MissedStep(s: State, step: Step, r: nat)
    requires Inv(s) && Enabled(s, step) && r in s.readers && s.readers[r].Missed?
    ensures r in Apply(s, step).readers && Apply(s, step).readers[r].Missed?
  {
    MissedIsDone(s, step, r);
    if step.ReadIdentity? || step.AdvanceRecord? {
      assert FreshenOk(s.inPlace, s.readers, step.key, At(s, step.key));
    }
    OthersKeepReader(s, step, r);
  }

  lemma MissedStays(run: seq<State>, steps: seq<Step>, i: nat, j: nat, r: nat)
    requires IsRun(run, steps) && i <= j < |run| && r in run[i].readers && run[i].readers[r].Missed?
    ensures r in run[j].readers && run[j].readers[r].Missed?
  {
    var flags := seq(|run|, x requires 0 <= x < |run| => r in run[x].readers && run[x].readers[r].Missed?);
    forall x | i <= x < j && flags[x] ensures flags[x + 1] {
      RunInv(run, steps, x);
      MissedStep(run[x], steps[x], r);
    }
    Persist(flags, i, j);
  }

  // ------------------------------------------------------------- freshening repeatedly

  /** A Freshen of `r` has committed `h` under identity `id`, and nothing has been removed since; once it
      has read the identity, its resource has that or none. */
  predicate Settling(c: Cell, o: Option<Reader>, k: Key, r: nat, body: Option<Body>, h: Header, id: nat) {
    && h.Record? && c.slot == Slot(body, Some(h)) && c.entry == Some(Entry(Some(id), h.at)) && FreshenOf(c, r)
    && o.Some? && o.value.Retrieved? && o.value.key == k
    && (|| c.work.phase == Renewed(h)
        || (c.work.phase == Named(h) && (o.value.identity == None || o.value.identity == Some(id))))
  }

  predicate Rests(c: Cell, d: Cell) {
    d.slot == c.slot && d.entry == c.entry && d.work == c.work
  }

  lemma OneRests(s: State, step: Step)
    requires Enabled(s, step) && Names(step) && At(s, step.key).work.Freshen?
    requires At(s, step.key).work.phase.Renewed? || At(s, step.key).work.phase.Named?
    requires !step.Evict? && !step.ReadIdentity? && !step.AdvanceRecord?
    ensures Rests(At(s, step.key), AfterOne(s, step))
  {
  }

  /** Other steps change neither the key nor the resource. */
  lemma SettlingCell(s: State, step: Step, k: Key)
    requires Inv(s) && Enabled(s, step) && At(s, k).work.Freshen?
    requires At(s, k).work.phase.Renewed? || At(s, k).work.phase.Named?
    requires !(step.Evict? && step.key == k) && step != ReadIdentity(k) && step != AdvanceRecord(k)
    ensures Rests(At(s, k), CellAfter(s, step, k))
  {
    if Names(step) && step.key == k { OneRests(s, step); }
    if step.CommitStore? || step.EndStore? {
      assert HoldsAll(s.cells, step.op, s.ops[step.op]);
      assert k in s.ops[step.op].keys ==> Holds(CellAt(s.cells, k), step.op);
    }
    if step.BeginStore? { assert k in step.dates ==> Lockable(s, k); }
  }

  lemma SettlingReader(s: State, step: Step, k: Key, r: nat)
    requires Inv(s) && Enabled(s, step) && r in s.readers && s.readers[r].Retrieved? && s.readers[r].key == k
    requires step != ReadIdentity(k) && step != AdvanceRecord(k)
    ensures ReaderOf(Apply(s, step), r) == ReaderOf(s, r)
  {
    if step.ReadIdentity? || step.AdvanceRecord? {
      assert FreshenOk(s.inPlace, s.readers, step.key, At(s, step.key));
    }
    OthersKeepReader(s, step, r);
  }

  lemma SettlingStep(s: State, step: Step, k: Key, r: nat, body: Option<Body>, h: Header, id: nat)
    requires Inv(s) && Enabled(s, step) && Settling(At(s, k), ReaderOf(s, r), k, r, body, h, id)
    requires !(step.Evict? && step.key == k) && step != AdvanceRecord(k)
    ensures Settling(CellAfter(s, step, k), ReaderOf(Apply(s, step), r), k, r, body, h, id)
  {
    if step == ReadIdentity(k) {
      assert Apply(s, step) == DoReadIdentity(s, k);
    } else {
      SettlingCell(s, step, k);
      SettlingReader(s, step, k, r);
    }
  }

  lemma SettlingOn(
    run: seq<State>, steps: seq<Step>, x: nat, k: Key, r: nat, body: Option<Body>, h: Header, id: nat)
    requires IsRun(run, steps) && x < |steps| && Settling(At(run[x], k), ReaderOf(run[x], r), k, r, body, h, id)
    requires !(steps[x].Evict? && steps[x].key == k) && steps[x] != AdvanceRecord(k)
    ensures Settling(At(run[x + 1], k), ReaderOf(run[x + 1], r), k, r, body, h, id)
  {
    RunInv(run, steps, x);
    StepCell(run[x], steps[x], k);
    SettlingStep(run[x], steps[x], k, r, body, h, id);
  }

  lemma StaysSettling(
    run: seq<State>, steps: seq<Step>, i: nat, j: nat, k: Key, r: nat, body: Option<Body>, h: Header, id: nat)
    requires IsRun(run, steps) && i <= j <= |steps| && Settling(At(run[i], k), ReaderOf(run[i], r), k, r, body, h, id)
    requires forall n :: i <= n < j ==> !(steps[n].Evict? && steps[n].key == k) && steps[n] != AdvanceRecord(k)
    ensures Settling(At(run[j], k), ReaderOf(run[j], r), k, r, body, h, id)
  {
    var flags := seq(|run|, x requires 0 <= x < |run| =>
      Settling(At(run[x], k), ReaderOf(run[x], r), k, r, body, h, id));
    forall x | i <= x < j && flags[x] ensures flags[x + 1] { SettlingOn(run, steps, x, k, r, body, h, id); }
    Persist(flags, i, j);
  }

  lemma CommitSettles(s: State, k: Key, r: nat)
    requires Inv(s) && Enabled(s, CommitFreshen(k)) && FreshenOf(At(s, k), r)
    ensures var c, t := At(s, k), DoCommitFreshen(s, k);
            Settling(At(t, k), ReaderOf(t, r), k, r, c.slot.body, c.work.phase.header, s.nextIdentity)
  {
    assert FreshenOk(s.inPlace, s.readers, k, At(s, k));
  }

  /**
   A retrieved resource can be freshened repeatedly.  When a Freshen of it commits at `m` and returns at
   `p`, and no eviction of the key comes between, it agrees with its key again: the renewed header, the
   new identity and, after renames, the new file are its own.
   */
  lemma RenewedResourceAgrees(run: seq<State>, steps: seq<Step>, m: nat, p: nat, k: Key, r: nat)
    requires IsRun(run, steps) && m < p < |steps| && steps[m] == CommitFreshen(k) && FreshenOf(At(run[m], k), r)
    requires steps[p] == AdvanceRecord(k)
    requires forall n :: m < n < p ==> !(steps[n].Evict? && steps[n].key == k) && steps[n] != AdvanceRecord(k)
    ensures var c := At(run[p + 1], k);
            && r in run[p + 1].readers && Unchanged(run[p + 1].inPlace, c, k, run[p + 1].readers[r])
            && c.slot == Slot(At(run[m], k).slot.body, Some(At(run[m], k).work.phase.header)) && c.work == Free
  {
    RunInv(run, steps, m);
    CommitSettles(run[m], k, r);
    var c := At(run[m], k);
    StaysSettling(run, steps, m + 1, p, k, r, c.slot.body, c.work.phase.header, run[m].nextIdentity);
    StepCell(run[p], steps[p], k);
    assert run[p + 1] == DoAdvanceRecord(run[p], k);
  }

  /** So the next Freshen of it passes its check, if the key is as it was left. */
  lemma NextFreshenVerifies(run: seq<State>, steps: seq<Step>, m: nat, p: nat, q: nat, k: Key, r: nat)
    requires IsRun(run, steps) && m < p < q < |steps| && steps[m] == CommitFreshen(k) && FreshenOf(At(run[m], k), r)
    requires steps[p] == AdvanceRecord(k) && steps[q] == VerifyFreshen(k) && FreshenOf(At(run[q], k), r)
    requires forall n :: m < n < p ==> !(steps[n].Evict? && steps[n].key == k) && steps[n] != AdvanceRecord(k)
    requires At(run[q], k).slot == At(run[p + 1], k).slot && At(run[q], k).entry == At(run[p + 1], k).entry
    requires ReaderOf(run[q], r) == ReaderOf(run[p + 1], r) && run[q].inPlace == run[p + 1].inPlace
    ensures At(run[q + 1], k).work == Freshen(At(run[q], k).work.op, Some(r), Verified(run[q].clock))
  {
    RunInv(run, steps, m);
    assert CellOk(run[m].inPlace, run[m].publisher, run[m].next, run[m].nextIdentity, At(run[m], k));
    RenewedResourceAgrees(run, steps, m, p, k, r);
    VerifiedExactly(run[q], k);
    StepCell(run[q], steps[q], k);
  }
}
