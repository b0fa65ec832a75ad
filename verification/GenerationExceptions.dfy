/**
 The exceptions in the theorems of module GenerationResults are reachable: concrete executions,
 built step by step, in which an unmarked retrieval gets a mixed pair, on both backends, and in
 which Freshen renews another Store's body, in place.  And from every state whose locks are free a
 Freshen that fits its key can be carried to its commit.
 */
module GenerationExceptions {
  import opened Wrappers
  import opened Generations
  import opened Paths

  ghost predicate Goes(s: State, step: Step, t: State) {
    Enabled(s, step) && Forward(s, step) && Apply(s, step) == t
  }

  /** What an initial state leads to is the last state of a run with a forward clock. */
  lemma LeadsIsRun(inPlace: bool, clock: int, steps: seq<Step>, t: State) returns (run: seq<State>)
    requires Leads(Goes, Init(inPlace, clock), steps, t)
    ensures IsRun(run, steps) && IsForward(run, steps) && run[|steps|] == t
  {
    run :| Path(Goes, run, steps) && run[0] == Init(inPlace, clock) && run[|steps|] == t;
    forall i | 0 <= i < |steps|
      ensures Enabled(run[i], steps[i]) && Forward(run[i], steps[i]) && run[i + 1] == Apply(run[i], steps[i])
    {
      assert Goes(run[i], steps[i], run[i + 1]);
    }
  }

  // ----------------------------------------------------------------- one key alone

  ghost predicate Quiet(readers: map<nat, Reader>) {
    forall r :: r in readers ==> readers[r].Retrieved?
  }

  /** A Store of the key begins. */
  lemma BeginRuns(s0: State, steps: seq<Step>, s: State, k: Key, bytes: int) returns (t: State)
    requires Leads(Goes, s0, steps, s) && (s.cells == map[] || s.cells.Keys == {k}) && At(s, k).work.Free?
    requires s.ops == map[] && Quiet(s.readers)
    ensures t == s.(cells := map[k := Claimed(At(s, k), s.next, s.clock, bytes)],
                    ops := map[s.next := StoreOp({k}, false)], next := s.next + 1)
    ensures Leads(Goes, s0, steps + [BeginStore(map[k := s.clock], bytes)], t)
  {
    var dates := map[k := s.clock];
    t := s.(cells := map[k := Claimed(At(s, k), s.next, s.clock, bytes)],
            ops := map[s.next := StoreOp({k}, false)], next := s.next + 1);
    assert DoBeginStore(s, dates, bytes).cells == t.cells;
    assert dates.Keys == {k};
    LeadsOn(Goes, s0, steps, s, BeginStore(dates, bytes), t);
  }

  ghost predicate Storing(s: State, k: Key, i: nat, failing: bool) {
    && s.cells.Keys == {k} && s.cells[k].work.Store? && s.cells[k].work.op == i
    && s.ops == map[i := StoreOp({k}, failing)] && Quiet(s.readers)
  }

  function Progression(s: State, k: Key, i: nat, to: Stage): State
    requires k in s.cells && s.cells[k].work.Store?
  {
    s.(cells := map[k := Progressed(s.cells[k], s.inPlace, to)], ops := map[i := StoreOp({k}, Torn(to))])
  }

  lemma ProgressGoes(s: State, k: Key, i: nat, to: Stage)
    requires Storing(s, k, i, false) && Follows(s.inPlace, s.cells[k].work.stage, to)
    requires to.BodyRenamed? || to.Renamed? ==> s.publisher == Some(i)
    ensures Goes(s, Progress(k, to), Progression(s, k, i, to))
  {
    assert DoProgress(s, k, to).cells == Progression(s, k, i, to).cells;
    assert DoProgress(s, k, to).ops == Progression(s, k, i, to).ops;
  }

  lemma ProgressRuns(s0: State, steps: seq<Step>, s: State, k: Key, i: nat, to: Stage) returns (t: State)
    requires Leads(Goes, s0, steps, s) && Storing(s, k, i, false) && Follows(s.inPlace, s.cells[k].work.stage, to)
    requires to.BodyRenamed? || to.Renamed? ==> s.publisher == Some(i)
    ensures t == Progression(s, k, i, to)
    ensures Leads(Goes, s0, steps + [Progress(k, to)], t) && Storing(t, k, i, Torn(to))
  {
    t := Progression(s, k, i, to);
    ProgressGoes(s, k, i, to);
    LeadsOn(Goes, s0, steps, s, Progress(k, to), t);
  }

  lemma AbortRuns(s0: State, steps: seq<Step>, s: State, k: Key, i: nat) returns (t: State)
    requires Leads(Goes, s0, steps, s) && Storing(s, k, i, false)
    ensures t == s.(ops := map[i := StoreOp({k}, true)]) && Leads(Goes, s0, steps + [Abort(i)], t)
  {
    t := s.(ops := map[i := StoreOp({k}, true)]);
    assert s.ops[i := s.ops[i].(failing := true)] == t.ops;
    LeadsOn(Goes, s0, steps, s, Abort(i), t);
  }

  lemma PublishRuns(s0: State, steps: seq<Step>, s: State, k: Key, i: nat, failing: bool) returns (t: State)
    requires Leads(Goes, s0, steps, s) && Storing(s, k, i, failing) && s.publisher.None?
    requires failing || s.cells[k].work.stage.Ready?
    ensures t == s.(publisher := Some(i)) && Leads(Goes, s0, steps + [TakePublish(i)], t)
  {
    t := s.(publisher := Some(i));
    LeadsOn(Goes, s0, steps, s, TakePublish(i), t);
  }

  lemma CommitRuns(s0: State, steps: seq<Step>, s: State, k: Key, i: nat) returns (t: State)
    requires Leads(Goes, s0, steps, s) && Storing(s, k, i, false) && s.publisher == Some(i)
    requires s.cells[k].work.stage == if s.inPlace then Ready else Renamed
    ensures t == s.(cells := map[k := Committed(s.cells[k], s.nextIdentity)], ops := map[], publisher := None,
                    nextIdentity := s.nextIdentity + 1)
    ensures Leads(Goes, s0, steps + [CommitStore(i)], t)
  {
    t := s.(cells := map[k := Committed(s.cells[k], s.nextIdentity)], ops := map[], publisher := None,
            nextIdentity := s.nextIdentity + 1);
    assert DoCommitStore(s, i).cells == t.cells && DoCommitStore(s, i).ops == t.ops;
    LeadsOn(Goes, s0, steps, s, CommitStore(i), t);
  }

  lemma DiscardRuns(s0: State, steps: seq<Step>, s: State, k: Key, i: nat) returns (t: State)
    requires Leads(Goes, s0, steps, s) && Storing(s, k, i, true) && s.publisher == Some(i)
    requires Touched(s.inPlace, s.cells[k].work.stage) && s.cells[k].slot.body.Some? && s.cells[k].slot.header.Some?
    ensures t == s.(cells := map[k := Discard(s.cells[k], s.inPlace, false, false, s.clock)])
    ensures Leads(Goes, s0, steps + [DiscardKey(k, false, false)], t)
  {
    var d := Discard(s.cells[k], s.inPlace, false, false, s.clock);
    t := s.(cells := map[k := d]);
    assert Published1(s.inPlace, At(s, k)) && k in s.ops[i].keys;
    assert s.cells[k := d] == t.cells;
    LeadsOn(Goes, s0, steps, s, DiscardKey(k, false, false), t);
  }

  lemma EndRuns(s0: State, steps: seq<Step>, s: State, k: Key, i: nat) returns (t: State)
    requires Leads(Goes, s0, steps, s) && Storing(s, k, i, true) && s.publisher == Some(i)
    requires s.cells[k].work.stage.Discarded?
    ensures t == s.(cells := map[k := s.cells[k].(work := Free)], ops := map[], publisher := None)
    ensures Leads(Goes, s0, steps + [EndStore(i)], t)
  {
    t := s.(cells := map[k := s.cells[k].(work := Free)], ops := map[], publisher := None);
    assert DoEndStore(s, i).cells == t.cells && DoEndStore(s, i).ops == t.ops;
    LeadsOn(Goes, s0, steps, s, EndStore(i), t);
  }

  /** The discard is refused both files, and the Store returns. */
  lemma RefusalRuns(s0: State, steps: seq<Step>, s: State, k: Key, i: nat) returns (t: State)
    requires Leads(Goes, s0, steps, s) && Storing(s, k, i, true) && s.publisher == Some(i)
    requires Touched(s.inPlace, s.cells[k].work.stage) && s.cells[k].slot.body.Some? && s.cells[k].slot.header.Some?
    ensures t == s.(cells := map[k := Discard(s.cells[k], s.inPlace, false, false, s.clock).(work := Free)],
                    ops := map[], publisher := None)
    ensures Leads(Goes, s0, steps + [DiscardKey(k, false, false)] + [EndStore(i)], t)
  {
    var u := DiscardRuns(s0, steps, s, k, i);
    t := EndRuns(s0, steps + [DiscardKey(k, false, false)], u, k, i);
  }

  lemma OpenRuns(s0: State, steps: seq<Step>, s: State, r: nat, k: Key) returns (t: State)
    requires Leads(Goes, s0, steps, s) && r !in s.readers && s.publisher.None? && At(s, k).work.Free?
    requires Readable(At(s, k).slot)
    ensures t == DoOpenBody(s, r, k) && Leads(Goes, s0, steps + [OpenBody(r, k)], t)
  {
    t := DoOpenBody(s, r, k);
    LeadsOn(Goes, s0, steps, s, OpenBody(r, k), t);
  }

  lemma ReadRuns(s0: State, steps: seq<Step>, s: State, r: nat) returns (t: State)
    requires Leads(Goes, s0, steps, s) && r in s.readers && s.readers[r].Opened?
    ensures t == DoReadHeader(s, r) && Leads(Goes, s0, steps + [ReadHeader(r)], t)
  {
    t := DoReadHeader(s, r);
    LeadsOn(Goes, s0, steps, s, ReadHeader(r), t);
  }

  lemma JudgeRuns(s0: State, steps: seq<Step>, s: State, r: nat) returns (t: State)
    requires Leads(Goes, s0, steps, s) && r in s.readers && s.readers[r].Read? && s.readers[r].header.Record?
    ensures t == DoJudge(s, r) && Leads(Goes, s0, steps + [Judge(r)], t)
  {
    t := DoJudge(s, r);
    LeadsOn(Goes, s0, steps, s, Judge(r), t);
  }

  function IdentityOf(c: Cell): Option<nat> {
    if c.entry.Some? then c.entry.value.identity else None
  }

  /** What a retrieval of a readable pair ends with. */
  function Got(k: Key, c: Cell): Reader
    requires Readable(c.slot)
  {
    var h := c.slot.header.value;
    var past := Past(c.residue, c.redated, c.stores, c.spoils);
    Retrieved(k, IdentityOf(c), c.slot.body.value, past, h, Marked(c.marker, h.at))
  }

  lemma RetrieveRuns(s0: State, steps: seq<Step>, s: State, r: nat, k: Key) returns (t: State)
    requires Leads(Goes, s0, steps, s) && r !in s.readers && s.publisher.None? && At(s, k).work.Free?
    requires Readable(At(s, k).slot)
    ensures t == s.(readers := s.readers[r := Got(k, At(s, k))])
    ensures Leads(Goes, s0, steps + [OpenBody(r, k)] + [ReadHeader(r)] + [Judge(r)], t)
  {
    var u := OpenRuns(s0, steps, s, r, k);
    var v := ReadRuns(s0, steps + [OpenBody(r, k)], u, r);
    t := JudgeRuns(s0, steps + [OpenBody(r, k)] + [ReadHeader(r)], v, r);
    assert t.readers == s.readers[r := Got(k, At(s, k))];
  }

  // ----------------------------------------------------------------------- Freshen

  ghost predicate Freshening(s: State, k: Key, i: nat) {
    && s.cells.Keys == {k} && s.cells[k].work.Freshen? && s.cells[k].work.op == i
    && s.cells[k].work.resource == Some(0) && s.ops == map[i := FreshenOp(k, Some(0))]
    && Quiet(s.readers) && 0 in s.readers && s.readers[0].key == k
  }

  lemma CheckRuns(s0: State, steps: seq<Step>, s: State, k: Key) returns (t: State)
    requires Leads(Goes, s0, steps, s) && s.ops == map[] && !Marked(At(s, k).marker, s.clock)
    requires 0 in s.readers && s.readers[0].Retrieved? && s.readers[0].key == k
    ensures t == s.(ops := map[s.next := FreshenOp(k, Some(0))], next := s.next + 1)
    ensures Leads(Goes, s0, steps + [CheckFreshen(0, s.clock)], t)
  {
    t := s.(ops := map[s.next := FreshenOp(k, Some(0))], next := s.next + 1);
    LeadsOn(Goes, s0, steps, s, CheckFreshen(0, s.clock), t);
  }

  lemma LockRuns(s0: State, steps: seq<Step>, s: State, k: Key, i: nat) returns (t: State)
    requires Leads(Goes, s0, steps, s) && s.cells.Keys == {k} && s.cells[k].work.Free? && Quiet(s.readers)
    requires s.ops == map[i := FreshenOp(k, Some(0))]
    ensures t == s.(cells := map[k := s.cells[k].(work := Freshen(i, Some(0), Locked))])
    ensures Leads(Goes, s0, steps + [LockFreshen(i)], t)
  {
    t := s.(cells := map[k := s.cells[k].(work := Freshen(i, Some(0), Locked))]);
    assert DoLockFreshen(s, i).cells == t.cells;
    LeadsOn(Goes, s0, steps, s, LockFreshen(i), t);
  }

  lemma VerifyRuns(s0: State, steps: seq<Step>, s: State, k: Key, i: nat) returns (t: State)
    requires Leads(Goes, s0, steps, s) && Freshening(s, k, i) && s.cells[k].work.phase.Locked?
    requires Agrees(s.inPlace, s.cells[k], k, s.readers[0])
    ensures t == s.(cells := map[k := s.cells[k].(work := Freshen(i, Some(0), Verified(s.clock)))])
    ensures Leads(Goes, s0, steps + [VerifyFreshen(k)], t)
  {
    t := s.(cells := map[k := s.cells[k].(work := Freshen(i, Some(0), Verified(s.clock)))]);
    assert DoVerifyFreshen(s, k).cells == t.cells;
    LeadsOn(Goes, s0, steps, s, VerifyFreshen(k), t);
  }

  lemma WriteRuns(s0: State, steps: seq<Step>, s: State, k: Key, i: nat, bytes: int) returns (t: State)
    requires Leads(Goes, s0, steps, s) && Freshening(s, k, i) && s.cells[k].work.phase.Verified?
    requires Readable(s.cells[k].slot)
    ensures t == s.(cells := map[k := FreshenWrite(s.cells[k], s.inPlace, Done, bytes, s.next)], next := s.next + 1)
    ensures Leads(Goes, s0, steps + [WriteFreshen(k, Done, bytes)], t)
  {
    t := s.(cells := map[k := FreshenWrite(s.cells[k], s.inPlace, Done, bytes, s.next)], next := s.next + 1);
    assert DoWriteFreshen(s, k, Done, bytes).cells == t.cells;
    LeadsOn(Goes, s0, steps, s, WriteFreshen(k, Done, bytes), t);
  }

  lemma TakeRuns(s0: State, steps: seq<Step>, s: State, k: Key, i: nat) returns (t: State)
    requires Leads(Goes, s0, steps, s) && Freshening(s, k, i) && s.cells[k].work.phase.Written? && s.publisher.None?
    ensures t == s.(publisher := Some(i)) && Leads(Goes, s0, steps + [TakePublish(i)], t)
  {
    t := s.(publisher := Some(i));
    LeadsOn(Goes, s0, steps, s, TakePublish(i), t);
  }

  lemma RenewRuns(s0: State, steps: seq<Step>, s: State, k: Key, i: nat) returns (t: State)
    requires Leads(Goes, s0, steps, s) && Freshening(s, k, i) && s.publisher == Some(i)
    requires s.cells[k].work.phase.Written? && s.cells[k].work.phase.header.Record?
    ensures t == s.(cells := map[k := FreshenCommitted(s.cells[k], s.nextIdentity)], publisher := None,
                    nextIdentity := s.nextIdentity + 1)
    ensures Leads(Goes, s0, steps + [CommitFreshen(k)], t)
  {
    t := s.(cells := map[k := FreshenCommitted(s.cells[k], s.nextIdentity)], publisher := None,
            nextIdentity := s.nextIdentity + 1);
    assert DoCommitFreshen(s, k).cells == t.cells;
    LeadsOn(Goes, s0, steps, s, CommitFreshen(k), t);
  }

  lemma EvictRuns(s0: State, steps: seq<Step>, s: State, k: Key) returns (t: State)
    requires Leads(Goes, s0, steps, s) && s.cells.Keys == {k} && s.cells[k].entry.Some? && Unreserved(s.cells[k].work)
    ensures t == s.(cells := map[k := Dropped(s.cells[k], true, true, 0)])
    ensures Leads(Goes, s0, steps + [Evict(k, true, true)], t)
  {
    t := s.(cells := map[k := Dropped(s.cells[k], true, true, 0)]);
    assert s.cells[k := Dropped(s.cells[k], true, true, 0)] == t.cells;
    LeadsOn(Goes, s0, steps, s, Evict(k, true, true), t);
  }

  lemma NameRuns(s0: State, steps: seq<Step>, s: State, k: Key, i: nat) returns (t: State)
    requires Leads(Goes, s0, steps, s) && Freshening(s, k, i) && s.cells[k].work.phase.Renewed?
    ensures t == s.(cells := map[k := Nominate(s.cells[k])],
                    readers := s.readers[0 := Identified(s.readers[0], s.cells[k])])
    ensures Leads(Goes, s0, steps + [ReadIdentity(k)], t)
  {
    t := s.(cells := map[k := Nominate(s.cells[k])],
            readers := s.readers[0 := Identified(s.readers[0], s.cells[k])]);
    assert DoReadIdentity(s, k).cells == t.cells;
    LeadsOn(Goes, s0, steps, s, ReadIdentity(k), t);
  }

  lemma AdvanceRuns(s0: State, steps: seq<Step>, s: State, k: Key, i: nat) returns (t: State)
    requires Leads(Goes, s0, steps, s) && Freshening(s, k, i) && s.cells[k].work.phase.Named? && s.publisher.None?
    ensures var o := Advanced(s.inPlace, s.readers[0], s.cells[k], s.cells[k].work.phase.header);
            t == s.(cells := map[k := s.cells[k].(work := Free)], ops := map[], readers := s.readers[0 := o])
    ensures Leads(Goes, s0, steps + [AdvanceRecord(k)], t)
  {
    var o := Advanced(s.inPlace, s.readers[0], s.cells[k], s.cells[k].work.phase.header);
    t := s.(cells := map[k := s.cells[k].(work := Free)], ops := map[], readers := s.readers[0 := o]);
    assert DoAdvanceRecord(s, k).cells == t.cells && DoAdvanceRecord(s, k).ops == t.ops;
    LeadsOn(Goes, s0, steps, s, AdvanceRecord(k), t);
  }

  // ------------------------------------------------------------------ the executions

  /** The key after a Store. */
  function Stored(c: Cell, op: nat, at: int, bytes: int, identity: nat): Cell {
    Cell(New(op, at, bytes), Free, c.marker, c.noted,
         Some(Entry(Some(identity), at)), false, false, c.stores + 1, c.spoils)
  }

  /** After the first one. */
  function First(bytes: int): Cell {
    Stored(EMPTY, 0, 0, bytes, 0)
  }

  lemma PreparedRuns(s0: State, steps: seq<Step>, s: State, k: Key, i: nat) returns (t: State)
    requires Leads(Goes, s0, steps, s) && Storing(s, k, i, false) && s.cells[k].work.stage.Begun? && s.publisher.None?
    ensures var c := Progressed(Progressed(s.cells[k], s.inPlace, BodyReady), s.inPlace, Ready);
            t == s.(cells := map[k := c], publisher := Some(i)) && Storing(t, k, i, false)
    ensures Leads(Goes, s0, steps + [Progress(k, BodyReady)] + [Progress(k, Ready)] + [TakePublish(i)], t)
  {
    var u := ProgressRuns(s0, steps, s, k, i, BodyReady);
    var v := ProgressRuns(s0, steps + [Progress(k, BodyReady)], u, k, i, Ready);
    t := PublishRuns(s0, steps + [Progress(k, BodyReady)] + [Progress(k, Ready)], v, k, i, false);
  }

  /** Both files are published and nothing else is left to do. */
  lemma PublishedRuns(s0: State, steps: seq<Step>, s: State, k: Key, i: nat) returns (steps': seq<Step>, t: State)
    requires Leads(Goes, s0, steps, s) && Storing(s, k, i, false) && s.cells[k].work.stage.Begun? && s.publisher.None?
    ensures var w := s.cells[k].work;
            t == s.(cells := map[k := s.cells[k].(slot := New(w.op, w.at, w.bytes),
                                                  work := w.(stage := if s.inPlace then Ready else Renamed))],
                    publisher := Some(i))
    ensures Leads(Goes, s0, steps', t) && Storing(t, k, i, false)
  {
    t := PreparedRuns(s0, steps, s, k, i);
    steps' := steps + [Progress(k, BodyReady)] + [Progress(k, Ready)] + [TakePublish(i)];
    if !s.inPlace {
      t := ProgressRuns(s0, steps', t, k, i, BodyRenamed);
      steps' := steps' + [Progress(k, BodyRenamed)];
      t := ProgressRuns(s0, steps', t, k, i, Renamed);
      steps' := steps' + [Progress(k, Renamed)];
    }
  }

  /** A Store of the key runs to completion. */
  lemma StoreRuns(s0: State, steps: seq<Step>, s: State, k: Key, bytes: int) returns (steps': seq<Step>, t: State)
    requires Leads(Goes, s0, steps, s) && (s.cells == map[] || s.cells.Keys == {k}) && At(s, k).work.Free?
    requires s.ops == map[] && s.publisher.None? && Quiet(s.readers)
    ensures t == s.(cells := map[k := Stored(At(s, k), s.next, s.clock, bytes, s.nextIdentity)],
                    next := s.next + 1, nextIdentity := s.nextIdentity + 1)
    ensures Leads(Goes, s0, steps', t)
  {
    var u := BeginRuns(s0, steps, s, k, bytes);
    steps' := steps + [BeginStore(map[k := s.clock], bytes)];
    steps', u := PublishedRuns(s0, steps', u, k, s.next);
    t := CommitRuns(s0, steps', u, k, s.next);
    steps' := steps' + [CommitStore(s.next)];
  }

  /** A first Store and a retrieval of what it stored. */
  lemma FirstRuns(inPlace: bool, k: Key, bytes: int) returns (steps: seq<Step>, t: State)
    ensures t == State(inPlace, 0, map[k := First(bytes)], map[], map[0 := Got(k, First(bytes))], None, 1, 1)
    ensures Leads(Goes, Init(inPlace, 0), steps, t)
  {
    var s0 := Init(inPlace, 0);
    LeadsNowhere(Goes, s0);
    var u;
    steps, u := StoreRuns(s0, [], s0, k, bytes);
    t := RetrieveRuns(s0, steps, u, 0, k);
    steps := steps + [OpenBody(0, k)] + [ReadHeader(0)] + [Judge(0)];
  }

  /** The key after a second Store whose discard was refused. */
  function Spoiled(bytes: int, whole: bool): Cell {
    First(bytes).(
      slot := Slot(Some(Body(1, whole)), First(bytes).slot.header), marker := Some(0), residue := true, spoils := 1)
  }

  /** In place the second Store cannot finish its body. */
  lemma TornRuns(s0: State, steps: seq<Step>, s: State, k: Key, i: nat) returns (steps': seq<Step>, t: State)
    requires Leads(Goes, s0, steps, s) && Storing(s, k, i, false) && s.cells[k].work.stage.Begun?
    requires s.publisher.None? && s.inPlace
    ensures t == s.(cells := map[k := Progressed(s.cells[k], true, BodyTorn(false))],
                    ops := map[i := StoreOp({k}, true)], publisher := Some(i))
    ensures Leads(Goes, s0, steps', t) && Storing(t, k, i, true)
  {
    var u := ProgressRuns(s0, steps, s, k, i, BodyTorn(false));
    steps' := steps + [Progress(k, BodyTorn(false))];
    t := PublishRuns(s0, steps', u, k, i, true);
    steps' := steps' + [TakePublish(i)];
  }

  /** On the other backend its header cannot be renamed. */
  lemma UnrenamedRuns(s0: State, steps: seq<Step>, s: State, k: Key, i: nat) returns (steps': seq<Step>, t: State)
    requires Leads(Goes, s0, steps, s) && Storing(s, k, i, false) && s.cells[k].work.stage.Begun?
    requires s.publisher.None? && !s.inPlace
    ensures t == s.(cells := map[k := Progressed(s.cells[k], false, BodyRenamed)],
                    ops := map[i := StoreOp({k}, true)], publisher := Some(i))
    ensures Leads(Goes, s0, steps', t) && Storing(t, k, i, true)
  {
    var u := PreparedRuns(s0, steps, s, k, i);
    steps' := steps + [Progress(k, BodyReady)] + [Progress(k, Ready)] + [TakePublish(i)];
    u := ProgressRuns(s0, steps', u, k, i, BodyRenamed);
    steps' := steps' + [Progress(k, BodyRenamed)];
    t := AbortRuns(s0, steps', u, k, i);
    steps' := steps' + [Abort(i)];
  }

  lemma SpoilRuns(s0: State, steps: seq<Step>, s: State, k: Key, bytes: int) returns (steps': seq<Step>, t: State)
    requires Leads(Goes, s0, steps, s) && s.cells == map[k := First(bytes)] && s.ops == map[] && s.publisher.None?
    requires s.next == 1 && s.clock == 0 && Quiet(s.readers)
    ensures t == s.(cells := map[k := Spoiled(bytes, !s.inPlace)], next := 2)
    ensures Leads(Goes, s0, steps', t)
  {
    var u := BeginRuns(s0, steps, s, k, 0);
    steps' := steps + [BeginStore(map[k := 0], 0)];
    if s.inPlace {
      steps', u := TornRuns(s0, steps', u, k, 1);
    } else {
      steps', u := UnrenamedRuns(s0, steps', u, k, 1);
    }
    t := RefusalRuns(s0, steps', u, k, 1);
    steps' := steps' + [DiscardKey(k, false, false)] + [EndStore(1)];
  }

  /** Freshen of the resource that was retrieved before passes its checks. */
  lemma VerifiedRuns(s0: State, steps: seq<Step>, s: State, k: Key, i: nat) returns (steps': seq<Step>, t: State)
    requires Leads(Goes, s0, steps, s) && s.cells.Keys == {k} && s.cells[k].work.Free?
    requires s.ops == map[] && s.next == i && Quiet(s.readers) && !Marked(s.cells[k].marker, s.clock)
    requires 0 in s.readers && Agrees(s.inPlace, s.cells[k], k, s.readers[0])
    ensures t == s.(cells := map[k := s.cells[k].(work := Freshen(i, Some(0), Verified(s.clock)))],
                    ops := map[i := FreshenOp(k, Some(0))], next := i + 1)
    ensures Leads(Goes, s0, steps', t)
  {
    var u := CheckRuns(s0, steps, s, k);
    steps' := steps + [CheckFreshen(0, s.clock)];
    u := LockRuns(s0, steps', u, k, i);
    steps' := steps' + [LockFreshen(i)];
    t := VerifyRuns(s0, steps', u, k, i);
    steps' := steps' + [VerifyFreshen(k)];
  }

  /** It writes the header and is about to commit. */
  lemma WrittenRuns(
    s0: State, steps: seq<Step>, s: State, k: Key, i: nat, bytes: int) returns (steps': seq<Step>, t: State)
    requires Leads(Goes, s0, steps, s) && s.cells.Keys == {k} && s.cells[k].work.Free?
    requires s.ops == map[] && s.publisher.None? && s.next == i
    requires Quiet(s.readers) && !Marked(s.cells[k].marker, s.clock)
    requires 0 in s.readers && Agrees(s.inPlace, s.cells[k], k, s.readers[0])
    ensures var c := s.cells[k].(work := Freshen(i, Some(0), Verified(s.clock)));
            t == s.(cells := map[k := FreshenWrite(c, s.inPlace, Done, bytes, i + 1)],
                    ops := map[i := FreshenOp(k, Some(0))], publisher := Some(i), next := i + 2)
    ensures Leads(Goes, s0, steps', t) && Freshening(t, k, i)
  {
    var u;
    steps', u := VerifiedRuns(s0, steps, s, k, i);
    u := WriteRuns(s0, steps', u, k, i, bytes);
    steps' := steps' + [WriteFreshen(k, Done, bytes)];
    t := TakeRuns(s0, steps', u, k, i);
    steps' := steps' + [TakePublish(i)];
  }

  /** The key once that Freshen has committed. */
  function Renewal(c: Cell, inPlace: bool, i: nat, now: int, bytes: int, identity: nat): Cell
    requires Readable(c.slot)
  {
    var w := FreshenWrite(c.(work := Freshen(i, Some(0), Verified(now))), inPlace, Done, bytes, i + 1);
    FreshenCommitted(w, identity)
  }

  lemma RenewedRuns(
    s0: State, steps: seq<Step>, s: State, k: Key, i: nat, bytes: int) returns (steps': seq<Step>, t: State)
    requires Leads(Goes, s0, steps, s) && s.cells.Keys == {k} && s.cells[k].work.Free?
    requires s.ops == map[] && s.publisher.None? && s.next == i
    requires Quiet(s.readers) && !Marked(s.cells[k].marker, s.clock)
    requires 0 in s.readers && Agrees(s.inPlace, s.cells[k], k, s.readers[0])
    ensures t == s.(cells := map[k := Renewal(s.cells[k], s.inPlace, i, s.clock, bytes, s.nextIdentity)],
                    ops := map[i := FreshenOp(k, Some(0))], next := i + 2, nextIdentity := s.nextIdentity + 1)
    ensures Leads(Goes, s0, steps', t) && Freshening(t, k, i)
  {
    var u;
    steps', u := WrittenRuns(s0, steps, s, k, i, bytes);
    t := RenewRuns(s0, steps', u, k, i);
    steps' := steps' + [CommitFreshen(k)];
  }

  /** It reads the identity under its key, advances its resource and returns. */
  lemma ReturnRuns(s0: State, steps: seq<Step>, s: State, k: Key, i: nat) returns (steps': seq<Step>, t: State)
    requires Leads(Goes, s0, steps, s) && Freshening(s, k, i) && s.cells[k].work.phase.Renewed? && s.publisher.None?
    ensures var c := s.cells[k];
            var o := Advanced(s.inPlace, Identified(s.readers[0], c), c, c.work.phase.header);
            t == s.(cells := map[k := s.cells[k].(work := Free)], ops := map[], readers := s.readers[0 := o])
    ensures Leads(Goes, s0, steps', t)
  {
    var u := NameRuns(s0, steps, s, k, i);
    steps' := steps + [ReadIdentity(k)];
    t := AdvanceRuns(s0, steps', u, k, i);
    steps' := steps' + [AdvanceRecord(k)];
  }

  /** The key after Freshen has dated the old header anew over the new body. */
  function Laundered(bytes: int, whole: bool, at: int, later: int): Cell {
    Spoiled(bytes, whole).(
      slot := Slot(Some(Body(1, whole)), Some(Record(0, at, later, 3))),
      entry := Some(Entry(Some(1), at)), redated := true)
  }

  /**
   On both backends, for every key and any later time: a second Store rewrites the body, fails
   before its header, and neither file can be removed; the pair is marked.  A Freshen of the
   resource retrieved before then renews the old header, and the next retrieval gets it unmarked,
   over the other Store's bytes.
   */
  lemma FreshenUnmarksResidue(inPlace: bool, k: Key, bytes: int, at: int, later: int)
    returns (steps: seq<Step>, s: State, t: State)
    requires 0 < at
    ensures Leads(Goes, Init(inPlace, 0), steps, s) && s.cells == map[k := Laundered(bytes, !inPlace, at, later)]
    ensures Leads(Goes, Init(inPlace, 0), steps + [OpenBody(1, k)] + [ReadHeader(1)] + [Judge(1)], t)
    ensures 1 in t.readers && t.readers[1].Retrieved? && t.readers[1].header.Record? && !t.readers[1].stale
    ensures Mixed(t.readers[1].body, t.readers[1].header)
  {
    var s0 := Init(inPlace, 0);
    var u;
    steps, u := FirstRuns(inPlace, k, bytes);
    steps, u := SpoilRuns(s0, steps, u, k, bytes);
    LeadsOn(Goes, s0, steps, u, Tick(at), u.(clock := at));
    steps, u := RenewedRuns(s0, steps + [Tick(at)], u.(clock := at), k, 2, later);
    steps, s := ReturnRuns(s0, steps, u, k, 2);
    t := RetrieveRuns(s0, steps, s, 1, k);
  }

  /** The resource after its first Freshen, if the entry was evicted before its identity was read. */
  function Nameless(k: Key, later: int): Reader {
    Retrieved(k, None, Body(0, true), Past(false, false, 1, 0), Record(0, 0, later, 2), false)
  }

  lemma ForgottenRuns(k: Key, bytes: int, later: int) returns (steps: seq<Step>, t: State)
    ensures t == State(true, 0, map[k := EMPTY.(stores := 1)], map[], map[0 := Nameless(k, later)], None, 3, 2)
    ensures Leads(Goes, Init(true, 0), steps, t)
  {
    var s0 := Init(true, 0);
    var u;
    steps, u := FirstRuns(true, k, bytes);
    steps, u := RenewedRuns(s0, steps, u, k, 1, later);
    u := EvictRuns(s0, steps, u, k);
    steps := steps + [Evict(k, true, true)];
    steps, t := ReturnRuns(s0, steps, u, k, 1);
  }

  /**
   In place, for every key, with a clock that stands still: Freshen renews a retrieved resource, but
   the entry is evicted before Freshen has read its new identity.  Another Store commits with the
   date and the bytes of the renewed record, and a second Freshen of the resource commits over the
   body of that Store.
   */
  lemma FreshenRenewsAnotherBody(k: Key, bytes: int, later: int, last: int)
    returns (steps: seq<Step>, s: State, t: State)
    ensures Leads(Goes, Init(true, 0), steps, s) && Leads(Goes, Init(true, 0), steps + [CommitFreshen(k)], t)
    ensures At(s, k).work.Freshen? && At(s, k).work.resource == Some(0) && 0 in s.readers && s.readers[0].Retrieved?
    ensures At(s, k).stores == s.readers[0].past.stores + 1 && At(s, k).spoils == s.readers[0].past.spoils
    ensures At(t, k).slot == Slot(Some(Body(3, true)), Some(Record(3, 0, last, 5)))
    ensures s.readers[0].body == Body(0, true)
  {
    var s0 := Init(true, 0);
    var u;
    steps, u := ForgottenRuns(k, bytes, later);
    steps, u := StoreRuns(s0, steps, u, k, later);
    steps, s := WrittenRuns(s0, steps, u, k, 4, last);
    t := RenewRuns(s0, steps, s, k, 4);
  }

  // ---------------------------------------------------------- what is always possible

  /** Freshen holds the key in this phase, and everything else is as in `s`. */
  predicate FreshenIn(s: State, u: State, k: Key, i: nat, res: Option<nat>, phase: Phase) {
    && i in u.ops && u.ops[i] == FreshenOp(k, res) && u.readers == s.readers && u.publisher == s.publisher
    && u.clock == s.clock && u.inPlace == s.inPlace && At(u, k).slot == At(s, k).slot
    && At(u, k).work == Freshen(i, res, phase)
  }

  /** Its resource, if it has one, agrees with the key. */
  predicate Fitting(s: State, k: Key, res: Option<nat>) {
    && Readable(At(s, k).slot)
    && (res.Some? ==> res.value in s.readers && Agrees(s.inPlace, At(s, k), k, s.readers[res.value]))
  }

  function CheckOf(s: State, k: Key, res: Option<nat>): Step {
    if res.Some? then CheckFreshen(res.value, s.clock) else CheckHead(k, s.clock)
  }

  lemma CheckGoes(s: State, k: Key, res: Option<nat>)
    requires !Marked(At(s, k).marker, s.clock) && Fitting(s, k, res)
    ensures Goes(s, CheckOf(s, k, res), DoCheckFreshen(s, k, res))
  {
  }

  lemma LockGoes(s: State, a: State, k: Key, i: nat, res: Option<nat>)
    requires Lockable(s, k) && a.cells == s.cells && a.readers == s.readers && a.inPlace == s.inPlace
    requires i in a.ops && a.ops[i] == FreshenOp(k, res)
    ensures Goes(a, LockFreshen(i), DoLockFreshen(a, i))
    ensures At(DoLockFreshen(a, i), k) == At(s, k).(work := Freshen(i, res, Locked))
  {
    assert At(a, k) == At(s, k);
  }

  lemma VerifyGoes(s: State, b: State, k: Key, i: nat, res: Option<nat>)
    requires Fitting(s, k, res) && b.readers == s.readers && b.inPlace == s.inPlace && b.clock == s.clock
    requires i in b.ops && At(b, k) == At(s, k).(work := Freshen(i, res, Locked))
    ensures Goes(b, VerifyFreshen(k), DoVerifyFreshen(b, k))
    ensures DoVerifyFreshen(b, k) == Put(b, k, Checked(At(b, k), s.clock))
  {
    assert Verifies(b, k);
  }

  lemma FreshenCanBegin(s: State, k: Key, res: Option<nat>) returns (i: nat, steps: seq<Step>, u: State)
    requires Lockable(s, k) && !Marked(At(s, k).marker, s.clock) && Fitting(s, k, res)
    ensures Leads(Goes, s, steps, u) && FreshenIn(s, u, k, i, res, Verified(s.clock))
  {
    i := s.next;
    var check, a := CheckOf(s, k, res), DoCheckFreshen(s, k, res);
    LeadsNowhere(Goes, s);
    CheckGoes(s, k, res);
    LeadsOn(Goes, s, [], s, check, a);
    var b := DoLockFreshen(a, i);
    LockGoes(s, a, k, i, res);
    LeadsOn(Goes, s, [] + [check], a, LockFreshen(i), b);
    VerifyGoes(s, b, k, i, res);
    u := DoVerifyFreshen(b, k);
    LeadsOn(Goes, s, [] + [check] + [LockFreshen(i)], b, VerifyFreshen(k), u);
    steps := [] + [check] + [LockFreshen(i)] + [VerifyFreshen(k)];
  }

  /** The new header is written and the commit lock is free. */
  lemma FreshenCanWrite(s0: State, before: seq<Step>, s: State, u: State, k: Key, i: nat, res: Option<nat>, bytes: int)
    returns (steps: seq<Step>, t: State)
    requires Leads(Goes, s0, before, u) && FreshenIn(s, u, k, i, res, Verified(s.clock)) && Readable(At(s, k).slot)
    requires s.publisher.None? && NoReader(s)
    ensures Leads(Goes, s0, steps, t) && t.publisher == Some(i) && i in t.ops && t.readers == s.readers
    ensures var h := Record(At(s, k).slot.header.value.store, s.clock, bytes, u.next);
            At(t, k).work == Freshen(i, res, Written(h)) && At(t, k).slot.body == At(s, k).slot.body
  {
    var v := DoWriteFreshen(u, k, Done, bytes);
    LeadsOn(Goes, s0, before, u, WriteFreshen(k, Done, bytes), v);
    assert v.readers == s.readers && NoReader(v);
    t := v.(publisher := Some(i));
    LeadsOn(Goes, s0, before + [WriteFreshen(k, Done, bytes)], v, TakePublish(i), t);
    steps := before + [WriteFreshen(k, Done, bytes)] + [TakePublish(i)];
    assert At(t, k) == At(v, k);
  }

  /**
   Freshen of a resource that agrees with its key, and of a HEAD response for any stored key, can be
   carried to its commit whenever the locks are free: it dates the header anew over the same body.
   */
  lemma FreshenCanCommit(s: State, k: Key, res: Option<nat>, bytes: int) returns (steps: seq<Step>, t: State)
    requires Lockable(s, k) && !Marked(At(s, k).marker, s.clock) && Fitting(s, k, res)
    requires s.publisher.None? && NoReader(s)
    ensures Leads(Goes, s, steps, t) && At(t, k).slot.body == At(s, k).slot.body
    ensures At(t, k).slot.header.Some? && At(t, k).slot.header.value.Record?
    ensures var g, h := At(s, k).slot.header.value, At(t, k).slot.header.value;
            h.store == g.store && h.at == s.clock && h.bytes == bytes
  {
    var i, before, u := FreshenCanBegin(s, k, res);
    var v;
    steps, v := FreshenCanWrite(s, before, s, u, k, i, res, bytes);
    t := DoCommitFreshen(v, k);
    LeadsOn(Goes, s, steps, v, CommitFreshen(k), t);
    steps := steps + [CommitFreshen(k)];
  }

  /** A marker that is older than its key's entry can be dropped when no retrieval is under way. */
  lemma CleanupCanDrop(s: State, k: Key) returns (t: State)
    requires NoReader(s) && At(s, k).marker.Some? && At(s, k).marker.value < s.clock
    requires At(s, k).entry.Some? ==> At(s, k).marker.value < At(s, k).entry.value.at
    ensures Leads(Goes, s, [PassEntry(k), DropMarker(k)], t) && At(t, k).marker == None
    ensures At(t, k).slot == At(s, k).slot && At(t, k).entry == At(s, k).entry
  {
    LeadsNowhere(Goes, s);
    var u := Put(s, k, At(s, k).(noted := At(s, k).marker));
    LeadsOn(Goes, s, [], s, PassEntry(k), u);
    assert NoReader(u);
    t := Put(u, k, At(u, k).(marker := None));
    LeadsOn(Goes, s, [] + [PassEntry(k)], u, DropMarker(k), t);
    assert [] + [PassEntry(k)] + [DropMarker(k)] == [PassEntry(k), DropMarker(k)];
  }

  /** A key with the Store `i` at this stage. */
  function StagedAt(inPlace: bool, c: Cell, i: nat, at: int, bytes: int, stage: Stage): Cell {
    c.(slot := Live(inPlace, c.slot, stage, i, at, bytes), work := Store(i, at, bytes, stage, c.slot))
  }

  /** The Store `i` has all its keys, those in `left` at one stage and the others at the next. */
  ghost predicate AllStaged(
    s: State, u: State, i: nat, dates: map<Key, int>, bytes: int, left: set<Key>, from: Stage, to: Stage) {
    && u.inPlace == s.inPlace && u.readers == s.readers && u.next == i + 1
    && i in u.ops && u.ops[i] == StoreOp(dates.Keys, false)
    && forall k :: k in dates ==>
         At(u, k) == StagedAt(s.inPlace, At(s, k), i, dates[k], bytes, if k in left then from else to)
  }

  lemma StageFollows(inPlace: bool, c: Cell, i: nat, at: int, bytes: int, from: Stage, to: Stage)
    requires Follows(inPlace, from, to)
    ensures Progressed(StagedAt(inPlace, c, i, at, bytes, from), inPlace, to) == StagedAt(inPlace, c, i, at, bytes, to)
  {
  }

  lemma {:induction false} AllAdvance(
    s0: State, before: seq<Step>, s: State, u: State, i: nat, dates: map<Key, int>, bytes: int, left: set<Key>,
    from: Stage, to: Stage) returns (steps: seq<Step>, t: State)
    requires Leads(Goes, s0, before, u) && AllStaged(s, u, i, dates, bytes, left, from, to) && left <= dates.Keys
    requires Follows(s.inPlace, from, to) && !Torn(to) && (to.BodyRenamed? || to.Renamed? ==> u.publisher == Some(i))
    ensures Leads(Goes, s0, steps, t) && AllStaged(s, t, i, dates, bytes, {}, from, to) && t.publisher == u.publisher
    decreases left
  {
    if left == {} {
      steps, t := before, u;
    } else {
      var k :| k in left;
      var v := DoProgress(u, k, to);
      OneAdvances(s, u, i, dates, bytes, left, from, to, k);
      LeadsOn(Goes, s0, before, u, Progress(k, to), v);
      steps, t := AllAdvance(s0, before + [Progress(k, to)], s, v, i, dates, bytes, left - {k}, from, to);
    }
  }

  lemma OneAdvances(
    s: State, u: State, i: nat, dates: map<Key, int>, bytes: int, left: set<Key>, from: Stage, to: Stage, k: Key)
    requires AllStaged(s, u, i, dates, bytes, left, from, to) && left <= dates.Keys && k in left
    requires Follows(s.inPlace, from, to) && !Torn(to) && (to.BodyRenamed? || to.Renamed? ==> u.publisher == Some(i))
    ensures Goes(u, Progress(k, to), DoProgress(u, k, to))
    ensures AllStaged(s, DoProgress(u, k, to), i, dates, bytes, left - {k}, from, to)
    ensures DoProgress(u, k, to).publisher == u.publisher
  {
    assert k in dates;
    StageFollows(s.inPlace, At(s, k), i, dates[k], bytes, from, to);
  }

  lemma AllBegin(s: State, dates: map<Key, int>, bytes: int) returns (steps: seq<Step>, u: State)
    requires forall k :: k in dates ==> Lockable(s, k) && dates[k] <= s.clock
    ensures Leads(Goes, s, steps, u) && AllStaged(s, u, s.next, dates, bytes, dates.Keys, Begun, BodyReady)
    ensures u.publisher == s.publisher
  {
    u := DoBeginStore(s, dates, bytes);
    LeadsNowhere(Goes, s);
    LeadsOn(Goes, s, [], s, BeginStore(dates, bytes), u);
    steps := [] + [BeginStore(dates, bytes)];
    forall k | k in dates
      ensures At(u, k) == StagedAt(s.inPlace, At(s, k), s.next, dates[k], bytes, Begun)
    {
      assert At(u, k) == Claimed(At(s, k), s.next, dates[k], bytes);
    }
  }

  /** All files are staged or written, and the commit lock is taken. */
  lemma AllPrepared(s: State, dates: map<Key, int>, bytes: int) returns (steps: seq<Step>, u: State)
    requires forall k :: k in dates ==> Lockable(s, k) && dates[k] <= s.clock
    requires s.publisher.None? && NoReader(s)
    ensures Leads(Goes, s, steps, u) && AllStaged(s, u, s.next, dates, bytes, {}, BodyReady, Ready)
    ensures u.publisher == Some(s.next)
  {
    var i := s.next;
    steps, u := AllBegin(s, dates, bytes);
    steps, u := AllAdvance(s, steps, s, u, i, dates, bytes, dates.Keys, Begun, BodyReady);
    assert AllStaged(s, u, i, dates, bytes, dates.Keys, BodyReady, Ready);
    steps, u := AllAdvance(s, steps, s, u, i, dates, bytes, dates.Keys, BodyReady, Ready);
    assert NoReader(u);
    forall k | k in dates ensures StageOf(u, k, i, Ready) {}
    var v := u.(publisher := Some(i));
    LeadsOn(Goes, s, steps, u, TakePublish(i), v);
    steps := steps + [TakePublish(i)];
    forall k | k in dates ensures At(v, k) == At(u, k) {}
    u := v;
  }

  /**
   From every state whose locks are free, on both backends, a Store of any set of keys can be carried to
   its commit: every key then has the new body and the new header.
   */
  lemma StoreCanCommit(s: State, dates: map<Key, int>, bytes: int) returns (steps: seq<Step>, t: State)
    requires forall k :: k in dates ==> Lockable(s, k) && dates[k] <= s.clock
    requires s.publisher.None? && NoReader(s)
    ensures Leads(Goes, s, steps, t)
    ensures forall k :: k in dates ==> At(t, k).slot == New(s.next, dates[k], bytes) && At(t, k).work.Free?
  {
    var i, u := s.next, s;
    steps, u := AllPrepared(s, dates, bytes);
    if !s.inPlace {
      assert AllStaged(s, u, i, dates, bytes, dates.Keys, Ready, BodyRenamed);
      steps, u := AllAdvance(s, steps, s, u, i, dates, bytes, dates.Keys, Ready, BodyRenamed);
      assert AllStaged(s, u, i, dates, bytes, dates.Keys, BodyRenamed, Renamed);
      steps, u := AllAdvance(s, steps, s, u, i, dates, bytes, dates.Keys, BodyRenamed, Renamed);
    }
    t := CommitAll(s, steps, s, u, i, dates, bytes);
    steps := steps + [CommitStore(i)];
  }

  lemma CommitGoes(u: State, i: nat)
    requires i in u.ops && u.ops[i].StoreOp? && !u.ops[i].failing && u.publisher == Some(i)
    requires forall k :: k in u.ops[i].keys ==>
               At(u, k).work.Store? && StageOf(u, k, i, if u.inPlace then Ready else Renamed)
    ensures Goes(u, CommitStore(i), DoCommitStore(u, i))
  {
  }

  lemma CommitAll(s0: State, before: seq<Step>, s: State, u: State, i: nat, dates: map<Key, int>, bytes: int)
    returns (t: State)
    requires Leads(Goes, s0, before, u) && u.publisher == Some(i)
    requires if s.inPlace then AllStaged(s, u, i, dates, bytes, {}, BodyReady, Ready)
             else AllStaged(s, u, i, dates, bytes, {}, BodyRenamed, Renamed)
    ensures Leads(Goes, s0, before + [CommitStore(i)], t)
    ensures forall k :: k in dates ==> At(t, k).slot == New(i, dates[k], bytes) && At(t, k).work.Free?
  {
    forall k | k in dates ensures StageOf(u, k, i, if u.inPlace then Ready else Renamed) {}
    CommitGoes(u, i);
    t := DoCommitStore(u, i);
    LeadsOn(Goes, s0, before, u, CommitStore(i), t);
    forall k | k in dates ensures At(t, k).slot == New(i, dates[k], bytes) && At(t, k).work.Free? {
      assert At(t, k) == Committed(At(u, k), u.nextIdentity);
    }
  }
}
