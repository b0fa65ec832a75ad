/**
 Freshness evidence for caches that cannot expose generations (handler_publication.go).

 The handler counts the publications in flight per key and keeps a proof only for one that ran
 alone.  A retrieval borrows the proof's time when two snapshots around it see the same proof
 and no publication.  The lock is never held while the backend stores or retrieves, so the
 backend's own writes are separate steps.
 */
module Publication {
  import opened Wrappers

  /** localPublication: publications in flight on a key, and whether two ever overlapped. */
  datatype Pending = Pending(active: nat, overlap: bool)

  /** localFreshProof; `owner`, the publication that created it, is its identity. */
  datatype Proof = Proof(owner: nat, at: int)

  datatype Table = Table(pending: map<string, Pending>, proofs: map<string, Proof>)

  function Joined(pending: map<string, Pending>, k: string): Pending {
    if k in pending then Pending(pending[k].active + 1, pending[k].overlap || 1 <= pending[k].active)
    else Pending(1, false)
  }

  function BeginPending(pending: map<string, Pending>, keys: set<string>): map<string, Pending> {
    pending + map k | k in keys :: Joined(pending, k)
  }

  /** beginLocalPublication for the compacted key list. */
  function Begin(t: Table, keys: set<string>): Table {
    Table(BeginPending(t.pending, keys), t.proofs - keys)
  }

  function Unexpired(proofs: map<string, Proof>, cutoff: int): map<string, Proof> {
    map k | k in proofs && cutoff <= proofs[k].at :: proofs[k]
  }

  /** Every key of the list has this publication in flight. */
  predicate InFlight(t: Table, keys: set<string>) {
    forall k :: k in keys ==> k in t.pending && 0 < t.pending[k].active
  }

  function FinishPending(pending: map<string, Pending>, keys: set<string>): map<string, Pending> {
    map k | k in pending && !(k in keys && pending[k].active <= 1) ::
      if k in keys then pending[k].(active := pending[k].active - 1) else pending[k]
  }

  function NewProofs(pending: map<string, Pending>, keys: set<string>, proof: Option<Proof>): map<string, Proof> {
    map k | k in keys && k in pending && pending[k].active <= 1 && proof.Some? && !pending[k].overlap :: proof.value
  }

  /** The loop of finishLocalPublication: the last publication on a key decides, if alone. */
  function FinishKeys(t: Table, keys: set<string>, proof: Option<Proof>): Table
    requires InFlight(t, keys)
  {
    Table(FinishPending(t.pending, keys), t.proofs + NewProofs(t.pending, keys, proof))
  }

  function Finish(t: Table, owner: nat, at: int, keys: set<string>, success: bool, cutoff: int): Table
    requires InFlight(t, keys)
  {
    FinishKeys(t.(proofs := Unexpired(t.proofs, cutoff)), keys, if success then Some(Proof(owner, at)) else None)
  }

  lemma BeginNone(t: Table)
    ensures Begin(t, {}) == t
  {
    assert t.proofs - {} == t.proofs;
  }

  lemma FinishNone(t: Table, proof: Option<Proof>)
    ensures FinishKeys(t, {}, proof) == t
  {
    assert t.proofs + NewProofs(t.pending, {}, proof) == t.proofs;
  }

  lemma BeginOne(t: Table, k: string)
    ensures Begin(t, {k}) == Table(t.pending[k := Joined(t.pending, k)], t.proofs - {k})
  {
  }

  lemma BeginPendingMore(pending: map<string, Pending>, done: set<string>, k: string)
    requires k !in done
    ensures BeginPending(BeginPending(pending, done), {k}) == BeginPending(pending, done + {k})
  {
  }

  lemma BeginMore(t: Table, done: set<string>, k: string)
    requires k !in done
    ensures Begin(Begin(t, done), {k}) == Begin(t, done + {k})
  {
    BeginPendingMore(t.pending, done, k);
    assert t.proofs - done - {k} == t.proofs - (done + {k});
  }

  lemma FinishPendingMore(pending: map<string, Pending>, done: set<string>, k: string)
    requires k !in done
    ensures FinishPending(FinishPending(pending, done), {k}) == FinishPending(pending, done + {k})
  {
    var a, b := FinishPending(FinishPending(pending, done), {k}), FinishPending(pending, done + {k});
    assert forall j :: j in a <==> j in b;
  }

  lemma NewProofsMore(pending: map<string, Pending>, done: set<string>, k: string, proof: Option<Proof>)
    requires k !in done
    ensures NewProofs(pending, done, proof) + NewProofs(FinishPending(pending, done), {k}, proof)
         == NewProofs(pending, done + {k}, proof)
  {
    assert k in pending ==> k in FinishPending(pending, done) && FinishPending(pending, done)[k] == pending[k];
  }

  lemma FinishMore(t: Table, done: set<string>, k: string, proof: Option<Proof>)
    requires k !in done && InFlight(t, done + {k})
    ensures InFlight(t, done) && InFlight(FinishKeys(t, done, proof), {k})
    ensures FinishKeys(FinishKeys(t, done, proof), {k}, proof) == FinishKeys(t, done + {k}, proof)
  {
    FinishPendingMore(t.pending, done, k);
    NewProofsMore(t.pending, done, k, proof);
    var p, q := NewProofs(t.pending, done, proof), NewProofs(FinishPending(t.pending, done), {k}, proof);
    assert (t.proofs + p) + q == t.proofs + (p + q);
    assert k in t.pending && k in FinishPending(t.pending, done);
  }

  /** One of the two snapshots of a retrieval. */
  function Snapshot(t: Table, k: string): (Option<Proof>, bool) {
    (if k in t.proofs then Some(t.proofs[k]) else None, k !in t.pending)
  }

  /** generationRetriever: the time given to the resource, from its two snapshots. */
  function StoredAt(before: (Option<Proof>, bool), after: (Option<Proof>, bool)): Option<int> {
    if before.1 && after.1 && before.0.Some? && before.0 == after.0 then Some(before.0.value.at) else None
  }

  // ------------------------------------------------------------- the handler object

  class Handler {
    var pending: map<string, Pending>
    var proofs: map<string, Proof>

    function Model(): Table
      reads this
    {
      Table(pending, proofs)
    }

    constructor ()
      ensures Model() == Table(map[], map[])
    {
      pending, proofs := map[], map[];
    }

    method BeginLocalPublication(keys: seq<string>) returns (compacted: set<string>)
      modifies this
      ensures compacted == set k | k in keys
      ensures Model() == Begin(old(Model()), compacted)
    {
      compacted := set k | k in keys;
      var todo := compacted;
      BeginNone(Model());
      assert compacted - todo == {};
      while todo != {}
        invariant todo <= compacted
        invariant Model() == Begin(old(Model()), compacted - todo)
        decreases |todo|
      {
        var k :| k in todo;
        BeginMore(old(Model()), compacted - todo, k);
        assert compacted - todo + {k} == compacted - (todo - {k});
        BeginKey(k);
        todo := todo - {k};
      }
      assert compacted - todo == compacted;
    }

    method BeginKey(k: string)
      modifies this
      ensures Model() == Begin(old(Model()), {k})
    {
      BeginOne(Model(), k);
      pending := pending[k := Joined(pending, k)];
      proofs := proofs - {k};
    }

    method FinishLocalPublication(owner: nat, at: int, keys: set<string>, success: bool, cutoff: int)
      requires InFlight(Model(), keys)
      modifies this
      ensures Model() == Finish(old(Model()), owner, at, keys, success, cutoff)
    {
      proofs := Unexpired(proofs, cutoff);
      ghost var swept, proof := Model(), if success then Some(Proof(owner, at)) else None;
      var todo := keys;
      FinishNone(swept, proof);
      assert keys - todo == {};
      assert InFlight(swept, keys);
      while todo != {}
        invariant todo <= keys && InFlight(swept, keys - todo)
        invariant Model() == FinishKeys(swept, keys - todo, proof)
        decreases |todo|
      {
        var k :| k in todo;
        FinishMore(swept, keys - todo, k, proof);
        assert keys - todo + {k} == keys - (todo - {k});
        FinishKey(k, Proof(owner, at), success);
        todo := todo - {k};
      }
      assert keys - todo == keys;
    }

    method FinishKey(k: string, proof: Proof, success: bool)
      requires InFlight(Model(), {k})
      modifies this
      ensures Model() == FinishKeys(old(Model()), {k}, if success then Some(proof) else None)
    {
      var left := pending[k].active - 1;
      if left == 0 {
        if success && !pending[k].overlap {
          proofs := proofs[k := proof];
        }
        pending := pending - {k};
      } else {
        pending := pending[k := pending[k].(active := left)];
      }
    }

    method LocalPublicationSnapshot(k: string) returns (snapshot: (Option<Proof>, bool))
      ensures snapshot == Snapshot(Model(), k)
    {
      snapshot := (if k in proofs then Some(proofs[k]) else None, k !in pending);
    }
  }

  // -------------------------------------------------------------------- all runs

  /**
   `flights` are the publications in flight with their keys, `wrote` the keys each one has
   written, and `contents` the publication whose entry the backend holds for a key.  The backend
   may report success without having written every key, as a Freshen does.
   */
  datatype State = State(
    table: Table,
    flights: map<nat, set<string>>,
    wrote: map<nat, set<string>>,
    contents: map<string, nat>,
    used: set<nat>)

  datatype Step =
    | Start(owner: nat, keys: set<string>)
    | Write(owner: nat, key: string)
    | End(owner: nat, at: int, success: bool, cutoff: int)
    | Expire(cutoff: int)

  function Init(contents: map<string, nat>): State {
    State(Table(map[], map[]), map[], map[], contents, set k | k in contents :: contents[k])
  }

  predicate Enabled(s: State, step: Step) {
    match step
    case Start(p, _) => p !in s.used
    case Write(p, k) => p in s.flights && p in s.wrote && k in s.flights[p]
    case End(p, _, _, _) => p in s.flights && InFlight(s.table, s.flights[p])
    case Expire(_) => true
  }

  function Started(s: State, p: nat, keys: set<string>): State {
    s.(table := Begin(s.table, keys), flights := s.flights[p := keys], wrote := s.wrote[p := {}], used := s.used + {p})
  }

  function Apply(s: State, step: Step): State
    requires Enabled(s, step)
  {
    match step
    case Start(p, keys) => Started(s, p, keys)
    case Write(p, k) => s.(contents := s.contents[k := p], wrote := s.wrote[p := s.wrote[p] + {k}])
    case End(p, at, success, cutoff) =>
      s.(table := Finish(s.table, p, at, s.flights[p], success, cutoff), flights := s.flights - {p})
    case Expire(cutoff) => s.(table := s.table.(proofs := Unexpired(s.table.proofs, cutoff)))
  }

  ghost function Active(s: State, k: string): set<nat> {
    set p | p in s.flights && k in s.flights[p]
  }

  predicate WroteTo(s: State, p: nat, k: string) {
    p in s.wrote && k in s.wrote[p]
  }

  function Content(s: State, k: string): Option<nat> {
    if k in s.contents then Some(s.contents[k]) else None
  }

  /** What the counters and proofs of one key say about the publications in flight on it. */
  ghost predicate KeyOk(s: State, k: string) {
    && (k in s.table.pending <==> Active(s, k) != {})
    && (k in s.table.pending ==> s.table.pending[k].active == |Active(s, k)|)
    && (k in s.table.pending && !s.table.pending[k].overlap ==> |Active(s, k)| == 1)
    && (k in s.table.proofs ==> Active(s, k) == {})
  }

  ghost predicate Inv(s: State) {
    && (forall k :: KeyOk(s, k))
    && (forall p :: p in s.flights ==> p in s.used && p in s.wrote)
  }

  lemma StartOnKey(s: State, p: nat, keys: set<string>, k: string)
    requires KeyOk(s, k) && p !in s.flights && k in keys
    ensures KeyOk(Started(s, p, keys), k)
  {
    assert Active(Started(s, p, keys), k) == Active(s, k) + {p};
    assert p !in Active(s, k);
  }

  lemma StartElsewhere(s: State, p: nat, keys: set<string>, k: string)
    requires KeyOk(s, k) && p !in s.flights && k !in keys
    ensures KeyOk(Started(s, p, keys), k)
  {
    assert Active(Started(s, p, keys), k) == Active(s, k);
  }

  lemma StartKeepsKey(s: State, p: nat, keys: set<string>, k: string)
    requires Inv(s) && p !in s.used
    ensures KeyOk(Started(s, p, keys), k)
  {
    assert KeyOk(s, k);
    if k in keys { StartOnKey(s, p, keys, k); } else { StartElsewhere(s, p, keys, k); }
  }

  lemma WriteKeepsKey(s: State, p: nat, w: string, k: string)
    requires Inv(s) && Enabled(s, Write(p, w))
    ensures KeyOk(Apply(s, Write(p, w)), k)
  {
    var t := Apply(s, Write(p, w));
    assert KeyOk(s, k);
    assert Active(t, k) == Active(s, k);
  }

  lemma OnlyMember(a: set<nat>, p: nat)
    requires p in a
    ensures |a| == 1 ==> a == {p}
  {
    if |a| == 1 && a != {p} {
      var q :| q in a && q != p;
      assert {p, q} <= a;
      SubsetSize({p, q}, a);
    }
  }

  lemma {:induction false} SubsetSize(a: set<nat>, b: set<nat>)
    requires a <= b
    ensures |a| <= |b|
  {
    if a != {} {
      var x :| x in a;
      SubsetSize(a - {x}, b - {x});
    }
  }

  lemma EndKeepsKey(s: State, p: nat, at: int, success: bool, cutoff: int, k: string)
    requires Inv(s) && Enabled(s, End(p, at, success, cutoff))
    ensures KeyOk(Apply(s, End(p, at, success, cutoff)), k)
  {
    var t := Apply(s, End(p, at, success, cutoff));
    assert KeyOk(s, k);
    assert Active(t, k) == Active(s, k) - {p};
    if k in s.flights[p] {
      EndOnKey(s, p, at, success, cutoff, k);
    } else {
      assert p !in Active(s, k) && Active(t, k) == Active(s, k);
    }
  }

  lemma EndOnKey(s: State, p: nat, at: int, success: bool, cutoff: int, k: string)
    requires KeyOk(s, k) && Enabled(s, End(p, at, success, cutoff)) && k in s.flights[p]
    ensures KeyOk(Apply(s, End(p, at, success, cutoff)), k)
  {
    var t := Apply(s, End(p, at, success, cutoff));
    assert p in Active(s, k);
    OnlyMember(Active(s, k), p);
    assert Active(t, k) == Active(s, k) - {p};
    assert |Active(t, k)| == |Active(s, k)| - 1;
    assert Active(t, k) == {} <==> |Active(t, k)| == 0;
  }

  lemma StepKeepsInv(s: State, step: Step)
    requires Inv(s) && Enabled(s, step)
    ensures Inv(Apply(s, step))
  {
    forall k ensures KeyOk(Apply(s, step), k) {
      match step
      case Start(p, keys) => StartKeepsKey(s, p, keys, k);
      case Write(p, w) => WriteKeepsKey(s, p, w, k);
      case End(p, at, success, cutoff) => EndKeepsKey(s, p, at, success, cutoff, k);
      case Expire(_) => assert KeyOk(s, k); assert Active(Apply(s, step), k) == Active(s, k);
    }
  }

  ghost predicate IsRun(run: seq<State>, steps: seq<Step>) {
    && |run| == |steps| + 1 && run[0] == Init(run[0].contents)
    && forall i :: 0 <= i < |steps| ==> Enabled(run[i], steps[i]) && run[i + 1] == Apply(run[i], steps[i])
  }

  lemma {:induction false} RunInv(run: seq<State>, steps: seq<Step>, i: nat)
    requires IsRun(run, steps) && i < |run|
    ensures Inv(run[i])
  {
    if i == 0 {
      forall k ensures KeyOk(run[0], k) { assert Active(run[0], k) == {}; }
    } else {
      RunInv(run, steps, i - 1);
      StepKeepsInv(run[i - 1], steps[i - 1]);
    }
  }

  /** Publication `p` started on `k` at step `i`, and until state `j` no other was in flight. */
  ghost predicate AloneSince(run: seq<State>, steps: seq<Step>, k: string, p: nat, i: nat, j: nat)
    requires |run| == |steps| + 1 && j < |run|
  {
    && i < j && steps[i].Start? && steps[i].owner == p && k in steps[i].keys
    && Active(run[i], k) == {}
    && forall n :: i < n <= j ==> Active(run[n], k) <= {p}
  }

  /** Where a publication without overlap comes from: it was there before, or it just started. */
  lemma OneStepBack(s: State, step: Step, k: string, p: nat)
    requires Inv(s) && Enabled(s, step)
    requires var t := Apply(s, step); k in t.table.pending && !t.table.pending[k].overlap && p in Active(t, k)
    ensures if k in s.table.pending then !s.table.pending[k].overlap && p in Active(s, k)
            else step.Start? && step.owner == p && k in step.keys && Active(s, k) == {}
  {
    assert KeyOk(s, k);
  }

  /** While no overlap is recorded, the one publication in flight has been alone since its start. */
  lemma {:induction false} UnoverlappedIsAlone(run: seq<State>, steps: seq<Step>, j: nat, k: string, p: nat)
    returns (i: nat)
    requires IsRun(run, steps) && j < |run|
    requires k in run[j].table.pending && !run[j].table.pending[k].overlap && p in Active(run[j], k)
    ensures AloneSince(run, steps, k, p, i, j)
  {
    assert Active(run[j], k) == {p} by {
      RunInv(run, steps, j);
      assert KeyOk(run[j], k);
      OnlyMember(Active(run[j], k), p);
    }
    assert j != 0;
    RunInv(run, steps, j - 1);
    OneStepBack(run[j - 1], steps[j - 1], k, p);
    if k in run[j - 1].table.pending {
      i := UnoverlappedIsAlone(run, steps, j - 1, k, p);
    } else {
      i := j - 1;
    }
  }

  /** The publication behind a proof started before it, ran alone, and nothing started since. */
  lemma {:induction false} ProofMeansAlone(run: seq<State>, steps: seq<Step>, j: nat, k: string)
    returns (i: nat)
    requires IsRun(run, steps) && j < |run| && k in run[j].table.proofs
    ensures AloneSince(run, steps, k, run[j].table.proofs[k].owner, i, j)
    ensures run[j].table.proofs[k].owner !in run[j].flights && run[j].table.proofs[k].owner in run[j].used
  {
    RunInv(run, steps, j);
    assert KeyOk(run[j], k);
    assert j != 0;
    var s, step, p := run[j - 1], steps[j - 1], run[j].table.proofs[k].owner;
    RunInv(run, steps, j - 1);
    if k in s.table.proofs && s.table.proofs[k] == run[j].table.proofs[k] {
      i := ProofMeansAlone(run, steps, j - 1, k);
    } else {
      assert step.End? && step.owner == p && k in s.flights[p];
      assert p in Active(s, k);
      i := UnoverlappedIsAlone(run, steps, j - 1, k, p);
    }
  }

  lemma {:induction false} FinishedStaysFinished(run: seq<State>, steps: seq<Step>, a: nat, n: nat, p: nat)
    requires IsRun(run, steps) && a <= n < |run| && p in run[a].used && p !in run[a].flights
    ensures p in run[n].used && p !in run[n].flights
    ensures p in run[n].wrote <==> p in run[a].wrote
    ensures p in run[a].wrote ==> run[n].wrote[p] == run[a].wrote[p]
  {
    if a < n {
      FinishedStaysFinished(run, steps, a, n - 1, p);
    }
  }

  /** A proof seen before and after was there all along. */
  lemma {:induction false} ProofStayed(run: seq<State>, steps: seq<Step>, a: nat, n: nat, b: nat, k: string)
    requires IsRun(run, steps) && a <= n <= b < |run|
    requires k in run[a].table.proofs && k in run[b].table.proofs && run[a].table.proofs[k] == run[b].table.proofs[k]
    ensures k in run[n].table.proofs && run[n].table.proofs[k] == run[a].table.proofs[k]
    decreases b - n
  {
    if n < b {
      ProofStayed(run, steps, a, n + 1, b, k);
      var i := ProofMeansAlone(run, steps, a, k);
      FinishedStaysFinished(run, steps, a, n, run[a].table.proofs[k].owner);
    }
  }

  /** While `p` is alone on a key, the entry is the one `p` wrote or else the one from before. */
  lemma {:induction false} AloneWrites(run: seq<State>, steps: seq<Step>, k: string, p: nat, i: nat, n: nat)
    requires IsRun(run, steps) && n < |run| && AloneSince(run, steps, k, p, i, n)
    ensures p in run[n].used
    ensures Content(run[n], k) == if WroteTo(run[n], p, k) then Some(p) else Content(run[i], k)
  {
    if i + 1 < n {
      AloneWrites(run, steps, k, p, i, n - 1);
      assert Active(run[n - 1], k) <= {p};
      if steps[n - 1].Write? && steps[n - 1].key == k { assert steps[n - 1].owner in Active(run[n - 1], k); }
    }
  }

  /**
   A retrieval between states `a` and `b` is given a stored time only when one publication `p`
   on that key, started before `a`, was alone from its start until `b`, whatever the order in
   which overlapping publications start, fail or return.  The entry in the backend stays the same
   all the while: it is the one `p` wrote, or, if `p` did not write the key, the one from before.
   */
  lemma BorrowedTimeBelongsToTheBody(run: seq<State>, steps: seq<Step>, a: nat, b: nat, k: string)
    returns (p: nat, i: nat)
    requires IsRun(run, steps) && a <= b < |run|
    requires StoredAt(Snapshot(run[a].table, k), Snapshot(run[b].table, k)).Some?
    ensures i < a && AloneSince(run, steps, k, p, i, b)
    ensures k in run[a].table.proofs && run[a].table.proofs[k].owner == p
    ensures StoredAt(Snapshot(run[a].table, k), Snapshot(run[b].table, k)) == Some(run[a].table.proofs[k].at)
    ensures forall n :: a <= n <= b ==>
              Content(run[n], k) == if WroteTo(run[a], p, k) then Some(p) else Content(run[i], k)
  {
    p := run[a].table.proofs[k].owner;
    i := ProofMeansAlone(run, steps, a, k);
    forall n | a <= n <= b ensures Active(run[n], k) == {} {
      ProofStayed(run, steps, a, n, b, k);
      RunInv(run, steps, n);
      assert KeyOk(run[n], k);
    }
    forall n | a <= n <= b
      ensures Content(run[n], k) == if WroteTo(run[a], p, k) then Some(p) else Content(run[i], k)
    {
      FinishedStaysFinished(run, steps, a, n, p);
      AloneWrites(run, steps, k, p, i, n);
    }
  }

  /** Two publications on `k`, one of them `p`, are in flight in the state. */
  ghost predicate Meets(s: State, k: string, p: nat) {
    p in Active(s, k) && Active(s, k) != {p}
  }

  /** Where a recorded overlap comes from: it was there before, or the step just made it. */
  lemma OverlapStep(s: State, step: Step, k: string, p: nat)
    requires Inv(s) && Enabled(s, step)
    requires var t := Apply(s, step); k in t.table.pending && t.table.pending[k].overlap && p in Active(t, k)
    ensures Meets(Apply(s, step), k, p) || (k in s.table.pending && s.table.pending[k].overlap && p in Active(s, k))
  {
    var t := Apply(s, step);
    assert KeyOk(s, k);
    if step.Start? && k in step.keys {
      assert Active(t, k) == Active(s, k) + {step.owner} && step.owner !in Active(s, k);
      assert k in s.table.pending;
      var q :| q in Active(s, k);
      assert q in Active(t, k) && step.owner in Active(t, k) && q != step.owner;
    } else {
      assert Active(t, k) <= Active(s, k);
    }
  }

  /** A recorded overlap means that every publication still in flight met another one. */
  lemma {:induction false} OverlapMeansAnother(run: seq<State>, steps: seq<Step>, j: nat, k: string, p: nat)
    returns (n: nat)
    requires IsRun(run, steps) && j < |run|
    requires k in run[j].table.pending && run[j].table.pending[k].overlap && p in Active(run[j], k)
    ensures n <= j && Meets(run[n], k, p)
  {
    assert j != 0;
    RunInv(run, steps, j - 1);
    OverlapStep(run[j - 1], steps[j - 1], k, p);
    if Meets(run[j], k, p) {
      n := j;
    } else {
      n := OverlapMeansAnother(run, steps, j - 1, k, p);
    }
  }

  lemma EndLeavesProof(s: State, p: nat, at: int, cutoff: int, k: string)
    requires Inv(s) && Enabled(s, End(p, at, true, cutoff)) && k in s.flights[p]
    ensures p in Active(s, k) && k in s.table.pending
    ensures var t := Apply(s, End(p, at, true, cutoff));
            (k in t.table.proofs && t.table.proofs[k] == Proof(p, at)) <==> !s.table.pending[k].overlap
  {
    assert KeyOk(s, k);
    assert p in Active(s, k);
    OnlyMember(Active(s, k), p);
  }

  /** A publication that ends successfully leaves its proof exactly when it never met another one
      on the key while it was in flight. */
  lemma IsolatedSuccessIsTrusted(run: seq<State>, steps: seq<Step>, j: nat, k: string)
    requires IsRun(run, steps) && j < |steps| && steps[j].End? && steps[j].success
    requires k in run[j].flights[steps[j].owner]
    ensures var p, t := steps[j].owner, run[j + 1].table;
            (k in t.proofs && t.proofs[k] == Proof(p, steps[j].at)) <==>
              forall n :: 0 <= n <= j ==> !Meets(run[n], k, p)
  {
    var s, p := run[j], steps[j].owner;
    RunInv(run, steps, j);
    EndLeavesProof(s, p, steps[j].at, steps[j].cutoff, k);
    if s.table.pending[k].overlap {
      var n := OverlapMeansAnother(run, steps, j, k, p);
    } else {
      var i := UnoverlappedIsAlone(run, steps, j, k, p);
      forall n | 0 <= n <= j ensures !Meets(run[n], k, p) {
        if n <= i { NotYetStarted(run, steps, n, i, p); }
      }
    }
  }

  /** A publication is in no flight before its start. */
  lemma {:induction false} NotYetStarted(run: seq<State>, steps: seq<Step>, n: nat, i: nat, p: nat)
    requires IsRun(run, steps) && n <= i < |steps| && steps[i].Start? && steps[i].owner == p
    ensures p !in run[n].used && p !in run[n].flights
    decreases i - n
  {
    RunInv(run, steps, n);
    if n < i { NotYetStarted(run, steps, n + 1, i, p); }
  }

  // ------------------------------------------------------------ how long a proof stays

  function ProofOf(s: State, k: string): Option<Proof> {
    if k in s.table.proofs then Some(s.table.proofs[k]) else None
  }

  /** The last publication on `k` ends with success, and none has overlapped with it. */
  predicate Proves(s: State, step: Step, k: string) {
    && step.End? && step.success && step.owner in s.flights && k in s.flights[step.owner]
    && k in s.table.pending && s.table.pending[k].active == 1 && !s.table.pending[k].overlap
  }

  /** A publication starts on `k`, or proofs of this age are swept. */
  predicate Removes(step: Step, k: string, at: int) {
    match step
    case Start(_, keys) => k in keys
    case Write(_, _) => false
    case End(_, _, _, cutoff) => at < cutoff
    case Expire(cutoff) => at < cutoff
  }

  function ProofAfter(s: State, step: Step, k: string): Option<Proof> {
    if Proves(s, step, k) then Some(Proof(step.owner, step.at))
    else if ProofOf(s, k).Some? && Removes(step, k, ProofOf(s, k).value.at) then None
    else ProofOf(s, k)
  }

  /** A step proves a key, removes its proof or leaves it alone. */
  lemma StepProof(s: State, step: Step, k: string)
    requires Enabled(s, step)
    ensures ProofOf(Apply(s, step), k) == ProofAfter(s, step, k)
  {
  }

  function PendingOf(s: State, k: string): Option<Pending> {
    if k in s.table.pending then Some(s.table.pending[k]) else None
  }

  function PendingAfter(s: State, step: Step, k: string): Option<Pending>
    requires Enabled(s, step)
  {
    var p := PendingOf(s, k);
    match step
    case Start(_, keys) =>
      if k !in keys then p
      else if p.None? then Some(Pending(1, false))
      else Some(Pending(p.value.active + 1, p.value.overlap || p.value.active != 0))
    case End(owner, _, _, _) =>
      if k !in s.flights[owner] || p.None? then p
      else if p.value.active <= 1 then None
      else Some(Pending(p.value.active - 1, p.value.overlap))
    case _ => p
  }

  /** A step counts its publication on the keys it names, and on no others. */
  lemma StepPending(s: State, step: Step, k: string)
    requires Enabled(s, step)
    ensures PendingOf(Apply(s, step), k) == PendingAfter(s, step, k)
  {
  }

  /** While a proof is there, no publication on its key can end. */
  lemma ProofIsNotReplaced(s: State, step: Step, k: string)
    requires Inv(s) && Enabled(s, step) && ProofOf(s, k).Some?
    ensures ProofOf(Apply(s, step), k) == if Removes(step, k, s.table.proofs[k].at) then None else ProofOf(s, k)
  {
    assert KeyOk(s, k);
    StepProof(s, step, k);
  }

  /** A proof stays as long as no publication starts on its key and no sweep is past its age. */
  lemma {:induction false} ProofStays(run: seq<State>, steps: seq<Step>, a: nat, b: nat, k: string, proof: Proof)
    requires IsRun(run, steps) && a <= b < |run| && ProofOf(run[a], k) == Some(proof)
    requires forall n :: a <= n < b ==> !Removes(steps[n], k, proof.at)
    ensures ProofOf(run[b], k) == Some(proof)
  {
    if a < b {
      ProofStays(run, steps, a, b - 1, k, proof);
      RunInv(run, steps, b - 1);
      ProofIsNotReplaced(run[b - 1], steps[b - 1], k);
    }
  }

  /** A retrieval is given a stored time exactly when there is a proof when it begins and nothing
      removes it until the retrieval ends. */
  lemma BorrowsExactly(run: seq<State>, steps: seq<Step>, a: nat, b: nat, k: string, at: int)
    requires IsRun(run, steps) && a <= b < |run|
    ensures StoredAt(Snapshot(run[a].table, k), Snapshot(run[b].table, k)) == Some(at) <==>
              && k in run[a].table.proofs && run[a].table.proofs[k].at == at
              && forall n :: a <= n < b ==> !Removes(steps[n], k, at)
  {
    if k in run[a].table.proofs {
      var proof := run[a].table.proofs[k];
      Idle(run, steps, a, k);
      if forall n :: a <= n < b ==> !Removes(steps[n], k, proof.at) {
        ProofStays(run, steps, a, b, k, proof);
        Idle(run, steps, b, k);
      } else if k in run[b].table.proofs && run[b].table.proofs[k] == proof {
        var n :| a <= n < b && Removes(steps[n], k, proof.at);
        ProofStayed(run, steps, a, n, b, k);
        ProofStayed(run, steps, a, n + 1, b, k);
        RunInv(run, steps, n);
        ProofIsNotReplaced(run[n], steps[n], k);
      }
    }
  }

  lemma Idle(run: seq<State>, steps: seq<Step>, a: nat, k: string)
    requires IsRun(run, steps) && a < |run| && k in run[a].table.proofs
    ensures k !in run[a].table.pending
  {
    RunInv(run, steps, a);
    assert KeyOk(run[a], k);
  }

  /** Whatever else is in flight, a publication can always end, with success or without. */
  lemma EndIsPossible(run: seq<State>, steps: seq<Step>, i: nat, p: nat, at: int, success: bool, cutoff: int)
    requires IsRun(run, steps) && i < |run| && p in run[i].flights
    ensures Enabled(run[i], End(p, at, success, cutoff))
  {
    RunInv(run, steps, i);
    forall k | k in run[i].flights[p] ensures k in run[i].table.pending && 0 < run[i].table.pending[k].active {
      assert KeyOk(run[i], k) && p in Active(run[i], k);
    }
  }
}
