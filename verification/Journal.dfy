/**
 The two-slot journal that keeps invalidation markers across restarts on a backend without
 rename (persistStale, loadStale, restoreStale in cache.go).

 A write truncates its slot first, so until it completes the slot cannot be read.  A crash in
 the middle of a write is a write that ends `Torn`, or `Whole` when only its report was lost.
 */
module Journal {
  import opened Wrappers
  import opened Invalidation

  type Markers = map<Key, Marker>

  datatype Slot = Absent | Unreadable | Snapshot(generation: nat, markers: Markers)

  /** How a slot write ends: before truncation, incomplete, complete but unconfirmed, confirmed. */
  datatype Write = NotOpened | Torn | Whole | Confirmed

  /** The two files and the generation the process last confirmed or loaded. */
  datatype Disk = Disk(even: Slot, odd: Slot, generation: nat)

  function SlotOf(d: Disk, generation: nat): Slot {
    if generation % 2 == 0 then d.even else d.odd
  }

  function SetSlot(d: Disk, generation: nat, s: Slot): Disk {
    if generation % 2 == 0 then d.(even := s) else d.(odd := s)
  }

  /** persistStale: the next generation goes to the other slot; only success advances it. */
  function Persist(d: Disk, m: Markers, w: Write): Disk {
    var next := d.generation + 1;
    match w
    case NotOpened => d
    case Torn => SetSlot(d, next, Unreadable)
    case Whole => SetSlot(d, next, Snapshot(next, m))
    case Confirmed => SetSlot(d, next, Snapshot(next, m)).(generation := next)
  }

  predicate Usable(s: Slot) {
    s.Snapshot? && s.generation != 0
  }

  /** loadStale: the complete slot with the highest generation. */
  function Best(d: Disk): Option<Slot> {
    if Usable(d.even) && Usable(d.odd) then Some(if d.even.generation < d.odd.generation then d.odd else d.even)
    else if Usable(d.even) then Some(d.even)
    else if Usable(d.odd) then Some(d.odd)
    else None
  }

  function Reload(d: Disk): Disk {
    match Best(d)
    case None => d.(generation := 0)
    case Some(s) => d.(generation := s.generation)
  }

  class Store {
    var disk: Disk

    constructor ()
      ensures disk == Disk(Absent, Absent, 0)
    {
      disk := Disk(Absent, Absent, 0);
    }

    method PersistStale(m: Markers, w: Write) returns (ok: bool)
      modifies this
      ensures disk == Persist(old(disk), m, w)
      ensures ok <==> w.Confirmed?
    {
      var next := disk.generation + 1;
      if w.NotOpened? { return false; }
      disk := SetSlot(disk, next, Unreadable);
      if w.Torn? { return false; }
      disk := SetSlot(disk, next, Snapshot(next, m));
      if w.Whole? { return false; }
      disk := disk.(generation := next);
      ok := true;
    }

    method LoadStale() returns (found: Option<Slot>)
      modifies this
      ensures found == Best(old(disk)) && disk == Reload(old(disk))
    {
      found := None;
      var slot := 0;
      while slot < 2
        invariant 0 <= slot <= 2
        invariant slot == 0 ==> found == None
        invariant slot == 1 ==> found == if Usable(disk.even) then Some(disk.even) else None
        invariant slot == 2 ==> found == Best(disk)
      {
        var candidate := SlotOf(disk, slot);
        if Usable(candidate) && (found.None? || found.value.generation < candidate.generation) {
          found := Some(candidate);
        }
        slot := slot + 1;
      }
      disk := disk.(generation := if found.Some? then found.value.generation else 0);
    }
  }

  // -------------------------------------------------------------------- all runs

  /** History: every snapshot a write was attempted with, and the last confirmed one. */
  datatype World = World(disk: Disk, attempts: seq<Markers>, confirmed: Option<nat>)

  datatype Event = Save(markers: Markers, write: Write) | Reboot

  function Init(): World {
    World(Disk(Absent, Absent, 0), [], None)
  }

  function Apply(w: World, step: Event): World {
    match step
    case Save(m, write) =>
      World(Persist(w.disk, m, write), w.attempts + [m], if write.Confirmed? then Some(|w.attempts|) else w.confirmed)
    case Reboot => w.(disk := Reload(w.disk))
  }

  function Run(w: World, steps: seq<Event>): World
    decreases |steps|
  {
    if steps == [] then w else Run(Apply(w, steps[0]), steps[1..])
  }

  /** The slot holds a snapshot attempted at or after the last confirmed one. */
  predicate Recent(w: World, s: Slot, generation: nat) {
    && s.Snapshot? && s.generation == generation
    && exists i :: 0 <= i < |w.attempts| && w.attempts[i] == s.markers && (w.confirmed.Some? ==> w.confirmed.value <= i)
  }

  /** The current slot is recent; the other is older, unusable, or a later attempt. */
  predicate Inv(w: World) {
    var d := w.disk;
    && (w.confirmed.Some? ==> w.confirmed.value < |w.attempts| && 0 < d.generation)
    && (0 < d.generation ==> Recent(w, SlotOf(d, d.generation), d.generation))
    && (d.generation == 0 ==> d.even == Absent)
    && (var other := SlotOf(d, d.generation + 1);
        Usable(other) ==> other.generation < d.generation || Recent(w, other, d.generation + 1))
  }

  lemma RecentStays(w: World, m: Markers, s: Slot, generation: nat)
    requires Recent(w, s, generation)
    ensures Recent(w.(attempts := w.attempts + [m]), s, generation)
  {
    var i :| 0 <= i < |w.attempts| && w.attempts[i] == s.markers && (w.confirmed.Some? ==> w.confirmed.value <= i);
    assert (w.attempts + [m])[i] == s.markers;
  }

  lemma SaveKeepsInv(w: World, m: Markers, write: Write)
    requires Inv(w)
    ensures Inv(Apply(w, Save(m, write)))
  {
    var t, d := Apply(w, Save(m, write)), w.disk;
    assert t.attempts[|w.attempts|] == m;
    assert (d.generation + 1) % 2 != d.generation % 2 && (d.generation + 2) % 2 == d.generation % 2;
    if !write.Confirmed? {
      if 0 < d.generation { RecentStays(w, m, SlotOf(d, d.generation), d.generation); }
      if Recent(w, SlotOf(d, d.generation + 1), d.generation + 1) {
        RecentStays(w, m, SlotOf(d, d.generation + 1), d.generation + 1);
      }
    }
  }

  lemma RestartKeepsInv(w: World)
    requires Inv(w)
    ensures Inv(Apply(w, Reboot))
    ensures w.confirmed.Some? ==> Best(w.disk).Some?
    ensures Best(w.disk).Some? ==> Recent(w, Best(w.disk).value, Best(w.disk).value.generation)
  {
    var d := w.disk;
    assert (d.generation + 1) % 2 != d.generation % 2 && (d.generation + 2) % 2 == d.generation % 2;
  }

  lemma {:induction false} RunKeepsInv(w: World, steps: seq<Event>)
    requires Inv(w)
    ensures Inv(Run(w, steps))
    decreases |steps|
  {
    if steps != [] {
      match steps[0] {
        case Save(m, write) => SaveKeepsInv(w, m, write);
        case Reboot => RestartKeepsInv(w);
      }
      RunKeepsInv(Apply(w, steps[0]), steps[1..]);
    }
  }

  /**
   After any sequence of writes that fail or stop at any point and of restarts, startup finds
   the last confirmed snapshot or one attempted later, never an older one.
   */
  lemma StartupNeverGoesBack(steps: seq<Event>)
    ensures var w := Run(Init(), steps);
            w.confirmed.Some? ==>
              && w.confirmed.value < |w.attempts|
              && Best(w.disk).Some? && Best(w.disk).value.Snapshot?
              && exists i :: w.confirmed.value <= i < |w.attempts| && w.attempts[i] == Best(w.disk).value.markers
  {
    RunKeepsInv(Init(), steps);
    var w := Run(Init(), steps);
    RestartKeepsInv(w);
    if w.confirmed.Some? {
      var s := Best(w.disk).value;
      var i :| 0 <= i < |w.attempts| && w.attempts[i] == s.markers && (w.confirmed.Some? ==> w.confirmed.value <= i);
      assert w.confirmed.value <= i < |w.attempts| && w.attempts[i] == s.markers;
    }
  }

  // --------------------------------------------------------------- after a restart

  /** An entry written before the restart is stale under the restored markers exactly when it
      is stale under the recovered snapshot. */
  lemma RestartJudgesTheSame(m: Markers, now: Time, k: Key, storedAt: Time)
    requires storedAt <= now
    ensures (k in Restored(m, now) && !After(storedAt, Restored(m, now)[k])) <==> (k in m && !After(storedAt, m[k]))
  {
  }

  /** At any time, before the restart or after it: what a restored marker withdraws is what its key's
      final time in the snapshot covers, or the restart time for an interrupted barrier. */
  lemma RestoredExactly(m: Markers, now: Time, k: Key, storedAt: Time)
    ensures (k in Restored(m, now) && !After(storedAt, Restored(m, now)[k])) <==>
            k in m && storedAt <= (match m[k] case Barrier => now case Final(at) => at)
  {
  }

  /** A snapshot that was written to the end is the one startup finds, confirmed or not. */
  lemma LastWriteIsFound(steps: seq<Event>, m: Markers, write: Write)
    requires write.Whole? || write.Confirmed?
    ensures var d := Apply(Run(Init(), steps), Save(m, write)).disk;
            Best(d).Some? && Best(d).value.Snapshot? && Best(d).value.markers == m
  {
    RunKeepsInv(Init(), steps);
    var d := Run(Init(), steps).disk;
    assert (d.generation + 1) % 2 != d.generation % 2 && (d.generation + 2) % 2 == d.generation % 2;
  }

  /** What startup makes of the journal in a state of the invalidation protocol. */
  function Resumed(s: State, d: Disk, kept: map<Key, Entry>): State
    requires Best(d).Some? && Best(d).value.Snapshot?
  {
    s.(entries := kept, ops := map[], waiting := map[], lookups := map[], sweep := None,
       view := s.view.(markers := Restored(Best(d).value.markers, s.clock)))
  }

  /**
   If the write that followed the protocol's last marker change got to the end, restarting from the
   journal is the protocol's Restart step, for which every result over its runs holds.
   */
  lemma RestartFromJournal(run: seq<State>, steps: seq<Step>, kept: map<Key, Entry>, saves: seq<Event>, write: Write)
    requires IsRun(run, steps) && (write.Whole? || write.Confirmed?)
    requires Enabled(run[|steps|], Restart(kept))
    ensures var s, d := run[|steps|], Apply(Run(Init(), saves), Save(run[|steps|].view.markers, write)).disk;
            && Best(d).Some? && Best(d).value.Snapshot?
            && IsRun(run + [Resumed(s, d, kept)], steps + [Restart(kept)])
  {
    var s := run[|steps|];
    LastWriteIsFound(saves, s.view.markers, write);
    var d := Apply(Run(Init(), saves), Save(s.view.markers, write)).disk;
    assert Resumed(s, d, kept) == DoRestart(s, kept);
    ExtendRun(run, steps, Restart(kept), Resumed(s, d, kept));
  }

  lemma ExtendRun(run: seq<State>, steps: seq<Step>, step: Step, t: State)
    requires IsRun(run, steps) && Enabled(run[|steps|], step) && t == Invalidation.Apply(run[|steps|], step)
    ensures IsRun(run + [t], steps + [step])
  {
    var r, p := run + [t], steps + [step];
    forall i | 0 <= i < |p| ensures Enabled(r[i], p[i]) && r[i + 1] == Invalidation.Apply(r[i], p[i]) {
      if i < |steps| { assert r[i] == run[i] && p[i] == steps[i] && r[i + 1] == run[i + 1]; }
    }
  }
}
