/**
 The invalidation protocol of the built-in cache (cache.go), with the Vary lookup of
 handler.go, as atomic steps over one shared state.

 A step is one critical section of the source: one acquisition of staleMutex, one commit
 under publishMu, one pass of Cleanup.  Every interleaving of any number of Store, Freshen,
 Invalidate, Retrieve, Cleanup and restart activities is a sequence of these steps.
 */
module Invalidation {
  import opened Wrappers

  type Time = int

  /** A request key, or the key of one Vary variant found through it. */
  datatype Key = Base(url: string) | Variant(url: string, fields: string)

  /** The keys whose invalidation withdraws an entry: its own and its discovery key. */
  predicate Governs(g: Key, k: Key) {
    g == k || g == Base(k.url)
  }

  /** A marker is the far-future barrier of a waiting Invalidate or a final timestamp. */
  datatype Marker = Barrier | Final(at: Time)

  predicate After(at: Time, m: Marker) {
    m.Final? && m.at < at
  }

  datatype Config = Config(ttl: nat, staleMapTTL: nat)

  function Retention(c: Config): nat {
    if c.ttl == 0 then 0 else if c.staleMapTTL < c.ttl then c.ttl else c.staleMapTTL
  }

  /** `began` is when the fetch or validation behind the entry started (RequestTime). */
  datatype Entry = Entry(began: Time, storedAt: Time)

  /** A Store or Freshen holding generationMu: it checks `keys` and writes `targets`. */
  datatype Op = Op(keys: set<Key>, targets: set<Key>, began: Time, checked: set<Key>, stamps: map<Key, Time>)

  /** A retrieval between opening the files and its verdict, or returned to the handler.
      `dropped` records the final markers swept since it returned. */
  datatype Lookup =
    | Opened(key: Key, entry: Entry)
    | Retrieved(key: Key, entry: Entry, stale: bool, dropped: map<Key, Time>)

  /** Cleanup between its entry pass and its marker pass. */
  datatype Sweep = Sweep(start: Time, complete: bool)

  /** The markers, and as history the time each key's latest barrier was published. */
  datatype View = View(config: Config, markers: map<Key, Marker>, lastBarrier: map<Key, Time>)

  datatype State = State(
    clock: Time,
    view: View,
    entries: map<Key, Entry>,
    ops: map<nat, Op>,
    waiting: map<nat, set<Key>>,
    lookups: map<nat, Lookup>,
    sweep: Option<Sweep>)

  function Init(c: Config, clock: Time): State {
    State(clock, View(c, map[], map[]), map[], map[], map[], map[], None)
  }

  // -------------------------------------------------------------------- steps

  function DoTick(s: State, to: Time): State {
    s.(clock := to)
  }

  /** Store and Freshen take generationMu for reading and keep it until they return. */
  function DoBegin(s: State, i: nat, keys: set<Key>, targets: set<Key>, began: Time): State {
    s.(ops := s.ops[i := Op(keys, targets, began, {}, map[])])
  }

  /** The key lists the handler builds: a written variant's discovery key is checked too. */
  predicate ClosedKeys(keys: set<Key>, targets: set<Key>) {
    targets <= keys && forall t :: t in targets ==> Base(t.url) in keys
  }

  /** The keys storeResource publishes under: the request key and, with Vary, its variant. */
  function StoreKeys(url: string, fields: Option<string>): set<Key> {
    if fields.Some? then {Base(url), Variant(url, fields.value)} else {Base(url)}
  }

  /** The keys validationKeys lists: the request key, the discovery key and the served key. */
  function ValidationKeys(request: Key, discovery: Option<Key>, served: Option<Key>): set<Key> {
    {request}
    + (if discovery.Some? then {discovery.value} else {})
    + (if served.Some? then {served.value} else {})
  }

  /** What lookup leaves behind: the served entry is the discovered base or one of its variants. */
  predicate LookupLeft(request: Key, discovery: Option<Key>, served: Option<Key>) {
    && request.Base?
    && (discovery.Some? ==> discovery.value.Base?)
    && (served.Some? ==> discovery.Some? && Governs(discovery.value, served.value))
  }

  function VariantOf(url: string, fields: Option<string>): Option<Key> {
    match fields
    case None => None
    case Some(f) => Some(Variant(url, f))
  }

  lemma HandlerKeysAreClosed(
    url: string, fields: Option<string>, request: Key, discovery: Option<Key>, served: Option<Key>)
    requires LookupLeft(request, discovery, served)
    ensures ClosedKeys(StoreKeys(url, fields), StoreKeys(url, fields))
    ensures forall k :: k in StoreKeys(url, fields) <==> k == Base(url) || Some(k) == VariantOf(url, fields)
    ensures forall k :: k in ValidationKeys(request, discovery, served) <==>
              k == request || Some(k) == discovery || Some(k) == served
    ensures served.Some? ==> ClosedKeys(ValidationKeys(request, discovery, served), {served.value})
    ensures discovery.Some? ==> ClosedKeys(ValidationKeys(request, discovery, served), {discovery.value})
  {
  }

  /** The marker on `k` withdraws work of time `at`. */
  predicate Withdrawn(v: View, k: Key, at: Time) {
    k in v.markers && !After(at, v.markers[k])
  }

  /** One StaleAt call of the supersession loop; a superseded operation returns. */
  function DoCheck(s: State, i: nat, k: Key): State
    requires i in s.ops
  {
    var op := s.ops[i];
    if Withdrawn(s.view, k, op.began) then s.(ops := s.ops - {i})
    else s.(ops := s.ops[i := op.(checked := op.checked + {k})])
  }

  function DoStamp(s: State, i: nat, k: Key): State
    requires i in s.ops
  {
    s.(ops := s.ops[i := s.ops[i].(stamps := s.ops[i].stamps[k := s.clock])])
  }

  function Written(op: Op): map<Key, Entry> {
    map k | k in op.stamps :: Entry(op.began, op.stamps[k])
  }

  function DoCommit(s: State, i: nat): State
    requires i in s.ops
  {
    s.(entries := s.entries + Written(s.ops[i]), ops := s.ops - {i})
  }

  /** What the backing store can hold for `k` while operations are in flight. */
  ghost predicate OnDisk(s: State, k: Key, e: Entry) {
    || (k in s.entries && e == s.entries[k])
    || exists i :: i in s.ops && k in s.ops[i].stamps && e == Entry(s.ops[i].began, s.ops[i].stamps[k])
  }

  function Bump(markers: map<Key, Marker>, keys: set<Key>, now: Time): map<Key, Marker> {
    markers + map k | k in keys && !(k in markers && (markers[k].Barrier? || now <= markers[k].at)) :: Final(now)
  }

  /** A failed operation leaves any mix of old, new and missing targets; keys whose
      removal the backend refused are marked. */
  function DoFail(s: State, i: nat, left: map<Key, Entry>, refused: set<Key>): State
    requires i in s.ops
  {
    s.(entries := (s.entries - s.ops[i].targets) + left,
       view := s.view.(markers := Bump(s.view.markers, refused, s.clock)), ops := s.ops - {i})
  }

  function Mark(markers: map<Key, Marker>, keys: set<Key>, m: Marker): map<Key, Marker> {
    markers + map k | k in keys :: m
  }

  function Date(times: map<Key, Time>, keys: set<Key>, now: Time): map<Key, Time> {
    times + map k | k in keys :: now
  }

  function DoPublishBarrier(s: State, v: nat, keys: set<Key>): State {
    s.(view := s.view.(markers := Mark(s.view.markers, keys, Barrier),
                       lastBarrier := Date(s.view.lastBarrier, keys, s.clock)),
       waiting := s.waiting[v := keys])
  }

  function DoFinalize(s: State, v: nat): State
    requires v in s.waiting
  {
    s.(view := s.view.(markers := Mark(s.view.markers, s.waiting[v], Final(s.clock))),
       waiting := s.waiting - {v})
  }

  function DoOpen(s: State, r: nat, k: Key): State
    requires k in s.entries
  {
    s.(lookups := s.lookups[r := Opened(k, s.entries[k])])
  }

  /** Retrieve reads its marker last and releases cleanupMu. */
  function DoJudge(s: State, r: nat): State
    requires r in s.lookups
  {
    var o := s.lookups[r];
    s.(lookups := s.lookups[r := Retrieved(o.key, o.entry, Withdrawn(s.view, o.key, o.entry.storedAt), map[])])
  }

  /** One StaleAt call of markInvalidatedResource. */
  function DoJudgeAgainst(s: State, r: nat, g: Key): State
    requires r in s.lookups && s.lookups[r].Retrieved?
  {
    var o := s.lookups[r];
    s.(lookups := s.lookups[r := o.(stale := o.stale || Withdrawn(s.view, g, o.entry.storedAt))])
  }

  /** The variant inherits the staleness of an unmarked base entry. */
  function DoInheritStale(s: State, r: nat): State
    requires r in s.lookups && s.lookups[r].Retrieved?
  {
    s.(lookups := s.lookups[r := s.lookups[r].(stale := true)])
  }

  function DoEvict(s: State, k: Key): State {
    s.(entries := s.entries - {k})
  }

  function Expired(s: State, start: Time): set<Key> {
    set k | k in s.entries && s.entries[k].storedAt < start - s.view.config.ttl
  }

  /** The TTL pass; `skipped` are keys being rewritten and keys whose removal failed. */
  function DoSweepEntries(s: State, start: Time, skipped: set<Key>): State {
    var gone := Expired(s, start) - skipped;
    s.(entries := s.entries - gone, sweep := Some(Sweep(start, gone == Expired(s, start))))
  }

  predicate Droppable(v: View, g: Key, sweep: Sweep) {
    && sweep.complete && 0 < v.config.ttl
    && g in v.markers && v.markers[g].Final? && v.markers[g].at < sweep.start - Retention(v.config)
  }

  function Gone(v: View, sweep: Sweep): map<Key, Time> {
    map g | g in v.markers && Droppable(v, g, sweep) :: v.markers[g].at
  }

  function NoteDropped(r: Lookup, gone: map<Key, Time>): Lookup {
    if r.Retrieved? then
      r.(dropped := r.dropped + map g | g in gone && !(g in r.dropped && gone[g] <= r.dropped[g]) :: gone[g])
    else r
  }

  function DoSweepMarkers(s: State): State
    requires s.sweep.Some?
  {
    var gone := Gone(s.view, s.sweep.value);
    s.(view := s.view.(markers := s.view.markers - gone.Keys), sweep := None,
       lookups := map r | r in s.lookups :: NoteDropped(s.lookups[r], gone))
  }

  /** restoreStale: an interrupted barrier becomes the restart time. */
  function Restored(markers: map<Key, Marker>, now: Time): map<Key, Marker> {
    map k | k in markers :: if markers[k].Barrier? then Final(now) else markers[k]
  }

  /** A crash keeps files and persisted markers; restoreStale replaces barriers. */
  function DoRestart(s: State, kept: map<Key, Entry>): State {
    s.(entries := kept, ops := map[], waiting := map[], lookups := map[], sweep := None,
       view := s.view.(markers := Restored(s.view.markers, s.clock)))
  }

  datatype Step =
    | Tick(to: Time)
    | Begin(op: nat, keys: set<Key>, targets: set<Key>, began: Time)
    | Check(op: nat, key: Key)
    | Stamp(op: nat, key: Key)
    | Commit(op: nat)
    | Fail(op: nat, left: map<Key, Entry>, refused: set<Key>)
    | PublishBarrier(inv: nat, keys: set<Key>)
    | Finalize(inv: nat)
    | Open(lookup: nat, key: Key)
    | Judge(lookup: nat)
    | JudgeAgainst(lookup: nat, key: Key)
    | InheritStale(lookup: nat)
    | Evict(key: Key)
    | SweepEntries(start: Time, skipped: set<Key>)
    | SweepMarkers
    | Restart(kept: map<Key, Entry>)

  ghost predicate Enabled(s: State, step: Step) {
    match step
    case Tick(to) => s.clock <= to
    case Begin(i, keys, targets, began) => i !in s.ops && ClosedKeys(keys, targets)
    case Check(i, k) => i in s.ops && k in s.ops[i].keys && s.ops[i].stamps == map[]
    case Stamp(i, k) => i in s.ops && k in s.ops[i].targets && s.ops[i].checked == s.ops[i].keys
    case Commit(i) => i in s.ops && s.ops[i].stamps.Keys == s.ops[i].targets
    case Fail(i, left, refused) =>
      && i in s.ops && refused <= s.ops[i].targets && left.Keys <= s.ops[i].targets
      && forall k :: k in left ==> OnDisk(s, k, left[k])
    case PublishBarrier(v, keys) => v !in s.waiting
    case Finalize(v) => v in s.waiting && s.ops == map[]
    case Open(r, k) => r !in s.lookups && k in s.entries && s.sweep.None?
    case Judge(r) => r in s.lookups && s.lookups[r].Opened?
    case JudgeAgainst(r, g) => r in s.lookups && s.lookups[r].Retrieved? && Governs(g, s.lookups[r].key)
    case InheritStale(r) => r in s.lookups && s.lookups[r].Retrieved?
    case Evict(k) => k in s.entries
    case SweepEntries(start, _) =>
      && s.sweep.None? && start <= s.clock && 0 < s.view.config.ttl
      && forall r :: r in s.lookups ==> s.lookups[r].Retrieved?
    case SweepMarkers => s.sweep.Some?
    case Restart(kept) => forall k :: k in kept ==> OnDisk(s, k, kept[k])
  }

  ghost function Apply(s: State, step: Step): State
    requires Enabled(s, step)
  {
    match step
    case Tick(to) => DoTick(s, to)
    case Begin(i, keys, targets, began) => DoBegin(s, i, keys, targets, began)
    case Check(i, k) => DoCheck(s, i, k)
    case Stamp(i, k) => DoStamp(s, i, k)
    case Commit(i) => DoCommit(s, i)
    case Fail(i, left, refused) => DoFail(s, i, left, refused)
    case PublishBarrier(v, keys) => DoPublishBarrier(s, v, keys)
    case Finalize(v) => DoFinalize(s, v)
    case Open(r, k) => DoOpen(s, r, k)
    case Judge(r) => DoJudge(s, r)
    case JudgeAgainst(r, g) => DoJudgeAgainst(s, r, g)
    case InheritStale(r) => DoInheritStale(s, r)
    case Evict(k) => DoEvict(s, k)
    case SweepEntries(start, skipped) => DoSweepEntries(s, start, skipped)
    case SweepMarkers => DoSweepMarkers(s)
    case Restart(kept) => DoRestart(s, kept)
  }

  // ---------------------------------------------------------------- invariant

  /** The fetch-to-write time exceeds the marker retention. */
  predicate Outlasted(c: Config, began: Time, at: Time) {
    0 < c.ttl && Retention(c) < at - began
  }

  /** Work stamped at `at` began after the last barrier on `g`, or outlasted retention. */
  predicate Succeeds(v: View, g: Key, began: Time, at: Time) {
    g in v.lastBarrier ==> v.lastBarrier[g] < began || Outlasted(v.config, began, at)
  }

  /** An entry that no marker on `g` withdraws began after the last barrier on `g`. */
  predicate Sound(v: View, g: Key, e: Entry) {
    Succeeds(v, g, e.began, e.storedAt) || Withdrawn(v, g, e.storedAt)
  }

  predicate EntryOk(v: View, clock: Time, k: Key, e: Entry) {
    e.storedAt <= clock && Sound(v, k, e) && Sound(v, Base(k.url), e)
  }

  predicate Passed(v: View, g: Key, began: Time, at: Time) {
    (g in v.markers && v.markers[g].Barrier?) || Succeeds(v, g, began, at)
  }

  predicate StampOk(v: View, clock: Time, k: Key, began: Time, at: Time) {
    at <= clock && Passed(v, k, began, at) && Passed(v, Base(k.url), began, at)
  }

  ghost predicate OpOk(v: View, clock: Time, op: Op) {
    && ClosedKeys(op.keys, op.targets)
    && op.stamps.Keys <= op.targets
    && (op.stamps != map[] ==> op.checked == op.keys)
    && (forall g :: g in op.checked ==> Passed(v, g, op.began, clock))
    && (forall k :: k in op.stamps ==> StampOk(v, clock, k, op.began, op.stamps[k]))
  }

  predicate MarkerOk(v: View, clock: Time, g: Key) {
    && (g in v.lastBarrier ==> v.lastBarrier[g] <= clock)
    && (g in v.markers && v.markers[g].Final? ==>
          v.markers[g].at <= clock && (g in v.lastBarrier ==> v.lastBarrier[g] <= v.markers[g].at))
    && (g in v.lastBarrier && g !in v.markers ==> 0 < v.config.ttl && Retention(v.config) < clock - v.lastBarrier[g])
  }

  ghost predicate ViewOk(v: View, clock: Time) {
    forall g :: MarkerOk(v, clock, g)
  }

  /** The entry survives the loss of the marker on `g`. */
  predicate Independent(v: View, g: Key, e: Entry) {
    Succeeds(v, g, e.began, e.storedAt) || (g in v.markers && After(e.storedAt, v.markers[g]))
  }

  predicate SurvivesSweep(v: View, k: Key, e: Entry, sweep: Sweep) {
    && (Droppable(v, k, sweep) ==> Independent(v, k, e))
    && (Droppable(v, Base(k.url), sweep) ==> Independent(v, Base(k.url), e))
  }

  predicate SweptUnder(r: Lookup, g: Key) {
    r.Retrieved? && g in r.dropped && r.entry.storedAt <= r.dropped[g]
  }

  predicate LookupOk(v: View, clock: Time, r: Lookup) {
    && r.entry.storedAt <= clock
    && (Sound(v, r.key, r.entry) || SweptUnder(r, r.key))
    && (Sound(v, Base(r.key.url), r.entry) || SweptUnder(r, Base(r.key.url)))
  }

  ghost predicate Inv(s: State) {
    && ViewOk(s.view, s.clock)
    && (forall k :: k in s.entries ==> EntryOk(s.view, s.clock, k, s.entries[k]))
    && (forall i :: i in s.ops ==> OpOk(s.view, s.clock, s.ops[i]))
    && (forall r :: r in s.lookups ==> LookupOk(s.view, s.clock, s.lookups[r]))
    && (s.sweep.Some? ==>
          && s.sweep.value.start <= s.clock
          && (forall r :: r in s.lookups ==> s.lookups[r].Retrieved?)
          && (forall k :: k in s.entries ==> SurvivesSweep(s.view, k, s.entries[k], s.sweep.value)))
  }

  /** How a step other than a sweep may change what is known about `g`. */
  predicate AdvancesOn(v: View, w: View, clock: Time, g: Key) {
    && w.config == v.config
    && (|| ((g in v.markers <==> g in w.markers) && (g in v.markers ==> w.markers[g] == v.markers[g])
            && SameBarrier(v, w, g))
        || (g in w.markers && w.markers[g].Barrier? && g in w.lastBarrier && w.lastBarrier[g] == clock)
        || (g in w.markers && w.markers[g] == Final(clock) && SameBarrier(v, w, g)))
  }

  predicate SameBarrier(v: View, w: View, g: Key) {
    (g in v.lastBarrier <==> g in w.lastBarrier) && (g in v.lastBarrier ==> w.lastBarrier[g] == v.lastBarrier[g])
  }

  lemma AdvanceKeepsMarker(v: View, w: View, clock: Time, g: Key)
    requires MarkerOk(v, clock, g) && AdvancesOn(v, w, clock, g)
    ensures MarkerOk(w, clock, g)
  {
  }

  lemma AdvanceKeepsSound(v: View, w: View, clock: Time, g: Key, e: Entry)
    requires AdvancesOn(v, w, clock, g) && e.storedAt <= clock && Sound(v, g, e)
    ensures Sound(w, g, e)
  {
  }

  lemma AdvanceKeepsIndependent(v: View, w: View, clock: Time, g: Key, e: Entry, sweep: Sweep)
    requires AdvancesOn(v, w, clock, g) && sweep.start <= clock
    requires Droppable(v, g, sweep) ==> Independent(v, g, e)
    ensures Droppable(w, g, sweep) ==> Independent(w, g, e)
  {
  }

  lemma AdvanceKeepsPassed(v: View, w: View, clock: Time, g: Key, began: Time, at: Time)
    requires AdvancesOn(v, w, clock, g) && Passed(v, g, began, at)
    requires g in v.markers && v.markers[g].Barrier? ==> g in w.markers && w.markers[g].Barrier?
    ensures Passed(w, g, began, at)
  {
  }

  /** Every view-advancing step keeps what is known of entries, lookups and a sweep. */
  lemma AdvanceKeepsInv(s: State, w: View)
    requires Inv(s) && s.ops == map[]
    requires forall g :: AdvancesOn(s.view, w, s.clock, g)
    ensures Inv(s.(view := w))
  {
    forall g ensures MarkerOk(w, s.clock, g) { AdvanceKeepsMarker(s.view, w, s.clock, g); }
    forall k | k in s.entries ensures EntryOk(w, s.clock, k, s.entries[k]) {
      AdvanceKeepsSound(s.view, w, s.clock, k, s.entries[k]);
      AdvanceKeepsSound(s.view, w, s.clock, Base(k.url), s.entries[k]);
    }
    forall r | r in s.lookups ensures LookupOk(w, s.clock, s.lookups[r]) {
      var o := s.lookups[r];
      if Sound(s.view, o.key, o.entry) { AdvanceKeepsSound(s.view, w, s.clock, o.key, o.entry); }
      if Sound(s.view, Base(o.key.url), o.entry) {
        AdvanceKeepsSound(s.view, w, s.clock, Base(o.key.url), o.entry);
      }
    }
    if s.sweep.Some? {
      forall k | k in s.entries ensures SurvivesSweep(w, k, s.entries[k], s.sweep.value) {
        AdvanceKeepsIndependent(s.view, w, s.clock, k, s.entries[k], s.sweep.value);
        AdvanceKeepsIndependent(s.view, w, s.clock, Base(k.url), s.entries[k], s.sweep.value);
      }
    }
  }

  lemma AdvanceKeepsOp(v: View, w: View, clock: Time, op: Op)
    requires OpOk(v, clock, op)
    requires forall g :: AdvancesOn(v, w, clock, g)
    requires forall g :: g in v.markers && v.markers[g].Barrier? ==> g in w.markers && w.markers[g].Barrier?
    ensures OpOk(w, clock, op)
  {
    forall g | g in op.checked ensures Passed(w, g, op.began, clock) {
      AdvanceKeepsPassed(v, w, clock, g, op.began, clock);
    }
    forall k | k in op.stamps ensures StampOk(w, clock, k, op.began, op.stamps[k]) {
      AdvanceKeepsPassed(v, w, clock, k, op.began, op.stamps[k]);
      AdvanceKeepsPassed(v, w, clock, Base(k.url), op.began, op.stamps[k]);
    }
  }

  /** A file on disk came from a committed entry or from an operation that passed its checks. */
  lemma OnDiskOk(s: State, k: Key, e: Entry)
    requires Inv(s) && OnDisk(s, k, e)
    ensures EntryOk(s.view, s.clock, k, e)
    ensures s.sweep.Some? ==> SurvivesSweep(s.view, k, e, s.sweep.value)
  {
    if !(k in s.entries && e == s.entries[k]) {
      var i :| i in s.ops && k in s.ops[i].stamps && e == Entry(s.ops[i].began, s.ops[i].stamps[k]);
      assert StampOk(s.view, s.clock, k, e.began, e.storedAt);
    }
  }

  lemma TickKeepsInv(s: State, to: Time)
    requires Inv(s) && Enabled(s, Tick(to))
    ensures Inv(DoTick(s, to))
  {
    forall g ensures MarkerOk(s.view, to, g) {
      assert MarkerOk(s.view, s.clock, g);
    }
    forall i | i in s.ops ensures OpOk(s.view, to, s.ops[i]) {
      assert OpOk(s.view, s.clock, s.ops[i]);
    }
  }

  lemma BeginKeepsInv(s: State, i: nat, keys: set<Key>, targets: set<Key>, began: Time)
    requires Inv(s) && Enabled(s, Begin(i, keys, targets, began))
    ensures Inv(DoBegin(s, i, keys, targets, began))
  {
  }

  lemma CheckKeepsInv(s: State, i: nat, k: Key)
    requires Inv(s) && Enabled(s, Check(i, k))
    ensures Inv(DoCheck(s, i, k))
  {
    var op := s.ops[i];
    if !Withdrawn(s.view, k, op.began) {
      assert MarkerOk(s.view, s.clock, k);
      assert OpOk(s.view, s.clock, op.(checked := op.checked + {k}));
    }
  }

  lemma StampKeepsInv(s: State, i: nat, k: Key)
    requires Inv(s) && Enabled(s, Stamp(i, k))
    ensures Inv(DoStamp(s, i, k))
  {
  }

  lemma CommitKeepsInv(s: State, i: nat)
    requires Inv(s) && Enabled(s, Commit(i))
    ensures Inv(DoCommit(s, i))
  {
  }

  lemma BumpKeepsInv(s: State, keys: set<Key>)
    requires Inv(s) && s.ops == map[]
    ensures Inv(s.(view := s.view.(markers := Bump(s.view.markers, keys, s.clock))))
  {
    var w := s.view.(markers := Bump(s.view.markers, keys, s.clock));
    forall g ensures AdvancesOn(s.view, w, s.clock, g) {
      assert MarkerOk(s.view, s.clock, g);
    }
    AdvanceKeepsInv(s, w);
  }

  lemma FailKeepsInv(s: State, i: nat, left: map<Key, Entry>, refused: set<Key>)
    requires Inv(s) && Enabled(s, Fail(i, left, refused))
    ensures Inv(DoFail(s, i, left, refused))
  {
    var u := s.(entries := (s.entries - s.ops[i].targets) + left, ops := map[]);
    forall k | k in left
      ensures EntryOk(s.view, s.clock, k, left[k])
      ensures s.sweep.Some? ==> SurvivesSweep(s.view, k, left[k], s.sweep.value)
    {
      OnDiskOk(s, k, left[k]);
    }
    BumpKeepsInv(u, refused);
    var w := s.view.(markers := Bump(s.view.markers, refused, s.clock));
    forall j | j in s.ops ensures OpOk(w, s.clock, s.ops[j]) {
      AdvanceKeepsOp(s.view, w, s.clock, s.ops[j]);
    }
  }

  lemma PublishBarrierKeepsInv(s: State, v: nat, keys: set<Key>)
    requires Inv(s) && Enabled(s, PublishBarrier(v, keys))
    ensures Inv(DoPublishBarrier(s, v, keys))
  {
    var t := DoPublishBarrier(s, v, keys);
    AdvanceKeepsInv(s.(ops := map[]), t.view);
    forall j | j in s.ops ensures OpOk(t.view, s.clock, s.ops[j]) {
      AdvanceKeepsOp(s.view, t.view, s.clock, s.ops[j]);
    }
  }

  lemma FinalizeKeepsInv(s: State, v: nat)
    requires Inv(s) && Enabled(s, Finalize(v))
    ensures Inv(DoFinalize(s, v))
  {
    AdvanceKeepsInv(s, DoFinalize(s, v).view);
  }

  lemma OpenKeepsInv(s: State, r: nat, k: Key)
    requires Inv(s) && Enabled(s, Open(r, k))
    ensures Inv(DoOpen(s, r, k))
  {
  }

  lemma JudgeKeepsInv(s: State, r: nat)
    requires Inv(s) && Enabled(s, Judge(r))
    ensures Inv(DoJudge(s, r))
  {
  }

  lemma JudgeAgainstKeepsInv(s: State, r: nat, g: Key)
    requires Inv(s) && Enabled(s, JudgeAgainst(r, g))
    ensures Inv(DoJudgeAgainst(s, r, g))
  {
  }

  lemma InheritStaleKeepsInv(s: State, r: nat)
    requires Inv(s) && Enabled(s, InheritStale(r))
    ensures Inv(DoInheritStale(s, r))
  {
  }

  lemma EvictKeepsInv(s: State, k: Key)
    requires Inv(s) && Enabled(s, Evict(k))
    ensures Inv(DoEvict(s, k))
  {
  }

  lemma SweepEntriesKeepsInv(s: State, start: Time, skipped: set<Key>)
    requires Inv(s) && Enabled(s, SweepEntries(start, skipped))
    ensures Inv(DoSweepEntries(s, start, skipped))
  {
  }

  function SweptView(v: View, sweep: Sweep): View {
    v.(markers := v.markers - Gone(v, sweep).Keys)
  }

  lemma SweepKeepsSound(v: View, sweep: Sweep, g: Key, e: Entry)
    requires Sound(v, g, e)
    requires Droppable(v, g, sweep) ==> Independent(v, g, e)
    ensures Sound(SweptView(v, sweep), g, e)
  {
  }

  lemma SweepKeepsOp(v: View, sweep: Sweep, clock: Time, op: Op)
    requires OpOk(v, clock, op)
    ensures OpOk(SweptView(v, sweep), clock, op)
  {
    var w := SweptView(v, sweep);
    assert forall g, at :: Passed(v, g, op.began, at) ==> Passed(w, g, op.began, at);
    forall k | k in op.stamps ensures StampOk(w, clock, k, op.began, op.stamps[k]) {
      assert StampOk(v, clock, k, op.began, op.stamps[k]);
    }
  }

  lemma SweepKeepsLookup(v: View, sweep: Sweep, clock: Time, r: Lookup)
    requires LookupOk(v, clock, r) && r.Retrieved?
    ensures LookupOk(SweptView(v, sweep), clock, NoteDropped(r, Gone(v, sweep)))
  {
  }

  lemma SweepMarkersKeepsInv(s: State)
    requires Inv(s) && Enabled(s, SweepMarkers)
    ensures Inv(DoSweepMarkers(s))
  {
    var t := DoSweepMarkers(s);
    var sweep := s.sweep.value;
    forall g ensures MarkerOk(t.view, s.clock, g) {
      assert MarkerOk(s.view, s.clock, g);
    }
    forall k | k in s.entries ensures EntryOk(t.view, s.clock, k, s.entries[k]) {
      assert EntryOk(s.view, s.clock, k, s.entries[k]);
      assert SurvivesSweep(s.view, k, s.entries[k], sweep);
      SweepKeepsSound(s.view, sweep, k, s.entries[k]);
      SweepKeepsSound(s.view, sweep, Base(k.url), s.entries[k]);
    }
    forall i | i in s.ops ensures OpOk(t.view, s.clock, s.ops[i]) {
      assert OpOk(s.view, s.clock, s.ops[i]);
      SweepKeepsOp(s.view, sweep, s.clock, s.ops[i]);
    }
    forall r | r in s.lookups ensures LookupOk(t.view, s.clock, t.lookups[r]) {
      assert LookupOk(s.view, s.clock, s.lookups[r]);
      SweepKeepsLookup(s.view, sweep, s.clock, s.lookups[r]);
    }
  }

  lemma RestartKeepsInv(s: State, kept: map<Key, Entry>)
    requires Inv(s) && Enabled(s, Restart(kept))
    ensures Inv(DoRestart(s, kept))
  {
    var t := DoRestart(s, kept);
    var u := s.(entries := kept, ops := map[], lookups := map[], sweep := None);
    forall k | k in kept ensures EntryOk(s.view, s.clock, k, kept[k]) {
      OnDiskOk(s, k, kept[k]);
    }
    AdvanceKeepsInv(u, t.view);
  }

  lemma StepKeepsInv(s: State, step: Step)
    requires Inv(s) && Enabled(s, step)
    ensures Inv(Apply(s, step))
  {
    match step
    case Tick(to) => TickKeepsInv(s, to);
    case Begin(i, keys, targets, began) => BeginKeepsInv(s, i, keys, targets, began);
    case Check(i, k) => CheckKeepsInv(s, i, k);
    case Stamp(i, k) => StampKeepsInv(s, i, k);
    case Commit(i) => CommitKeepsInv(s, i);
    case Fail(i, left, refused) => FailKeepsInv(s, i, left, refused);
    case PublishBarrier(v, keys) => PublishBarrierKeepsInv(s, v, keys);
    case Finalize(v) => FinalizeKeepsInv(s, v);
    case Open(r, k) => OpenKeepsInv(s, r, k);
    case Judge(r) => JudgeKeepsInv(s, r);
    case JudgeAgainst(r, g) => JudgeAgainstKeepsInv(s, r, g);
    case InheritStale(r) => InheritStaleKeepsInv(s, r);
    case Evict(k) => EvictKeepsInv(s, k);
    case SweepEntries(start, skipped) => SweepEntriesKeepsInv(s, start, skipped);
    case SweepMarkers => SweepMarkersKeepsInv(s);
    case Restart(kept) => RestartKeepsInv(s, kept);
  }

  // --------------------------------------------------------------- whole runs

  /** `run` lists the states of an execution from an empty cache, `steps` its steps. */
  ghost predicate IsRun(run: seq<State>, steps: seq<Step>) {
    && |run| == |steps| + 1
    && run[0] == Init(run[0].view.config, run[0].clock)
    && forall i :: 0 <= i < |steps| ==> Enabled(run[i], steps[i]) && run[i + 1] == Apply(run[i], steps[i])
  }

  lemma {:induction false} RunInv(run: seq<State>, steps: seq<Step>, i: nat)
    requires IsRun(run, steps) && i < |run|
    ensures Inv(run[i]) && run[i].view.config == run[0].view.config
  {
    if i == 0 {
      assert Inv(run[0]);
    } else {
      RunInv(run, steps, i - 1);
      StepKeepsInv(run[i - 1], steps[i - 1]);
    }
  }

  /** Step `i` published a barrier on `g`: the linearization point of Invalidate(g). */
  predicate Invalidates(step: Step, g: Key) {
    step.PublishBarrier? && g in step.keys
  }

  lemma {:induction false} BarrierRemembered(run: seq<State>, steps: seq<Step>, i: nat, j: nat, g: Key)
    requires IsRun(run, steps) && i < j < |run| && Invalidates(steps[i], g)
    ensures g in run[j].view.lastBarrier && run[i].clock <= run[j].view.lastBarrier[g]
  {
    RunInv(run, steps, j - 1);
    if i + 1 < j {
      BarrierRemembered(run, steps, i, j - 1, g);
      assert MarkerOk(run[j - 1].view, run[j - 1].clock, g);
      StepKeepsBarrier(run[j - 1], steps[j - 1], g);
    } else {
      assert run[j] == DoPublishBarrier(run[i], steps[i].inv, steps[i].keys);
    }
  }

  lemma StepKeepsBarrier(s: State, step: Step, g: Key)
    requires Enabled(s, step) && g in s.view.lastBarrier && s.view.lastBarrier[g] <= s.clock
    ensures g in Apply(s, step).view.lastBarrier && s.view.lastBarrier[g] <= Apply(s, step).view.lastBarrier[g]
  {
  }

  /**
   Section 4.4 of RFC 7234 over every run.  If Invalidate published its barrier on `k` at step
   `i` and a Retrieve of `k` reads its marker at a later step `j` and returns a non-stale entry,
   the fetch or validation behind that entry began strictly after the barrier, unless the time
   from its start to its write exceeded the marker retention.
   */
  lemma FreshRetrieveBeganAfterInvalidate(run: seq<State>, steps: seq<Step>, i: nat, j: nat, r: nat, k: Key)
    requires IsRun(run, steps) && i < j < |steps|
    requires Invalidates(steps[i], k)
    requires steps[j] == Judge(r) && run[j].lookups[r].key == k
    requires !run[j + 1].lookups[r].stale
    ensures var e := run[j].lookups[r].entry;
            run[i].clock < e.began || Outlasted(run[0].view.config, e.began, e.storedAt)
  {
    RunInv(run, steps, j);
    BarrierRemembered(run, steps, i, j, k);
    assert LookupOk(run[j].view, run[j].clock, run[j].lookups[r]);
  }

  /**
   A variant that lookup leaves unmarked after judging it against its discovery key began after
   that key's last invalidation.  The one exception besides an outlasting fetch is a sweep that
   dropped the discovery key's marker after the variant's files were opened, under an entry the
   dropped marker still withdrew.
   */
  lemma FreshVariantBeganAfterBaseInvalidate(run: seq<State>, steps: seq<Step>, i: nat, j: nat, r: nat, base: Key)
    requires IsRun(run, steps) && i < j < |steps|
    requires base.Base? && Invalidates(steps[i], base)
    requires steps[j] == JudgeAgainst(r, base) && run[j].lookups[r].key.url == base.url
    requires !run[j + 1].lookups[r].stale
    ensures var e := run[j].lookups[r].entry;
            || run[i].clock < e.began
            || Outlasted(run[0].view.config, e.began, e.storedAt)
            || SweptUnder(run[j].lookups[r], base)
  {
    RunInv(run, steps, j);
    BarrierRemembered(run, steps, i, j, base);
    assert LookupOk(run[j].view, run[j].clock, run[j].lookups[r]);
  }

  /** Every marker a sweep dropped under a retrieval was older than the retention. */
  predicate DroppedLongAgo(c: Config, clock: Time, r: Lookup) {
    r.Retrieved? ==> forall g :: g in r.dropped ==> r.dropped[g] < clock - Retention(c)
  }

  ghost predicate DroppedOk(s: State) {
    forall r :: r in s.lookups ==> DroppedLongAgo(s.view.config, s.clock, s.lookups[r])
  }

  lemma StepKeepsDropped(s: State, step: Step)
    requires DroppedOk(s) && Enabled(s, step)
    requires s.sweep.Some? ==> s.sweep.value.start <= s.clock
    ensures DroppedOk(Apply(s, step))
  {
  }

  lemma {:induction false} RunDropped(run: seq<State>, steps: seq<Step>, i: nat)
    requires IsRun(run, steps) && i < |run|
    ensures DroppedOk(run[i])
  {
    if i != 0 {
      RunDropped(run, steps, i - 1);
      RunInv(run, steps, i - 1);
      StepKeepsDropped(run[i - 1], steps[i - 1]);
    }
  }

  /**
   The sweep exception needs an old variant: while the entry's age is within the marker
   retention, a variant left unmarked began after its discovery key's last invalidation.  Past
   the retention the exception occurs at every age, as SweepRaceServesOldVariant shows.
   */
  lemma YoungVariantBeganAfterBaseInvalidate(run: seq<State>, steps: seq<Step>, i: nat, j: nat, r: nat, base: Key)
    requires IsRun(run, steps) && i < j < |steps|
    requires base.Base? && Invalidates(steps[i], base)
    requires steps[j] == JudgeAgainst(r, base) && run[j].lookups[r].key.url == base.url
    requires !run[j + 1].lookups[r].stale
    requires run[j].clock - run[j].lookups[r].entry.storedAt <= Retention(run[0].view.config)
    ensures var e := run[j].lookups[r].entry;
            run[i].clock < e.began || Outlasted(run[0].view.config, e.began, e.storedAt)
  {
    FreshVariantBeganAfterBaseInvalidate(run, steps, i, j, r, base);
    RunInv(run, steps, j);
    RunDropped(run, steps, j);
    assert DroppedLongAgo(run[j].view.config, run[j].clock, run[j].lookups[r]);
  }

  /**
   Cleanup, eviction, failed stores and restarts never republish: from an invalidation of a
   governing key on, an entry that began before it carries a marker at every later moment it
   is still on disk.
   */
  lemma PreMutationEntryStaysMarked(run: seq<State>, steps: seq<Step>, i: nat, j: nat, k: Key, g: Key)
    requires IsRun(run, steps) && i < j < |run|
    requires Invalidates(steps[i], g) && Governs(g, k) && k in run[j].entries
    requires run[j].entries[k].began <= run[i].clock
    requires !Outlasted(run[0].view.config, run[j].entries[k].began, run[j].entries[k].storedAt)
    ensures Withdrawn(run[j].view, g, run[j].entries[k].storedAt)
  {
    RunInv(run, steps, j);
    BarrierRemembered(run, steps, i, j, g);
    assert EntryOk(run[j].view, run[j].clock, k, run[j].entries[k]);
  }

  /** When the entry pass finishes complete, every surviving entry under any key was stored
      after every marker the marker pass will drop; an incomplete pass drops none. */
  lemma CompletePassOutlivesDroppedMarkers(s: State, start: Time, skipped: set<Key>)
    requires Enabled(s, SweepEntries(start, skipped))
    ensures var t := DoSweepEntries(s, start, skipped);
            && (t.sweep.value.complete <==> Expired(s, start) !! skipped)
            && (forall k, g :: k in t.entries && g in Gone(t.view, t.sweep.value) ==>
                  After(t.entries[k].storedAt, t.view.markers[g]))
            && (!t.sweep.value.complete ==> Gone(t.view, t.sweep.value) == map[])
  {
    var gone := Expired(s, start) - skipped;
    if Expired(s, start) !! skipped {
      assert gone == Expired(s, start);
    } else {
      var k :| k in Expired(s, start) && k in skipped;
      assert k !in gone;
    }
  }
}
