/**
 Stores, Freshens, evictions and retrievals running against each other (cache.go): what a reader
 can get to see of the two files of an entry, on both backends, with a failure possible at every
 access to a file.

 A step is one access to a file or one critical section.  `inPlace` is the backend without rename:
 a write changes the live file at once, and readers of a key wait for its writer lock.  On the
 other backend writes go to staging files, and readers are held off by publishMu alone, from the
 first rename of a commit to the end of a discard.
 */
module Generations {
  import opened Wrappers

  type Key = string

  /** A body file: bytes written by one Store, all of them or not. */
  datatype Body = Body(store: nat, whole: bool)

  /** A header file.  A record was written for the body of `store`; `at` is its date, `bytes` stands
      for the rest of it, which may repeat byte for byte, and `file` is the identity of the file,
      which a retrieval on the rename backend keeps open and so cannot be used again. */
  datatype Header = Incomplete | Record(store: nat, at: int, bytes: int, file: nat)

  datatype Slot = Slot(body: Option<Body>, header: Option<Header>)

  /** Retrieve opens the body, then needs a complete header. */
  predicate Readable(s: Slot) {
    s.body.Some? && s.header.Some? && s.header.value.Record?
  }

  /** The body is not the one the record was written for. */
  predicate Mixed(b: Body, h: Header)
    requires h.Record?
  {
    b != Body(h.store, true)
  }

  function New(op: nat, at: int, bytes: int): Slot {
    Slot(Some(Body(op, true)), Some(Record(op, at, bytes, op)))
  }

  /** How far a Store has come with one key; `BodyTorn` and `HeaderTorn` are in-place writes that
      failed, and `whole` says whether all bytes got there nevertheless. */
  datatype Stage =
    | Begun | BodyReady | BodyTorn(whole: bool) | Ready | HeaderTorn(whole: bool)
    | BodyRenamed | Renamed | Discarded

  /** How far a Freshen has come; `Stopped` is a failed write, in place of the live file if `live`.
      After its commit it has still to hand the new identity and record to its resource. */
  datatype Phase =
    | Locked | Verified(at: int) | Written(header: Header) | Stopped(live: bool, at: int)
    | Renewed(header: Header) | Named(header: Header)

  /** The holder of a key's writer lock; `before` is what the files held when a Store got it. */
  datatype Work =
    | Free
    | Store(op: nat, at: int, bytes: int, stage: Stage, before: Slot)
    | Freshen(op: nat, resource: Option<nat>, phase: Phase)

  /** The ledger's record of a key: its generation identity and its date. */
  datatype Entry = Entry(identity: Option<nat>, at: int)

  /**
   All there is under one key.  `noted` is a marker that Cleanup's pass over the entries found to be
   older than the key's entry.  The last four fields are history.  `residue`: a discard was
   refused both files after the body had been rewritten without its header, and both are still
   there.  `redated`: Freshen has written the header since.  `stores` counts commits, `spoils`
   counts discards that left a rewritten body behind.
   */
  datatype Cell = Cell(
    slot: Slot, work: Work, marker: Option<int>, noted: Option<int>, entry: Option<Entry>,
    residue: bool, redated: bool, stores: nat, spoils: nat)

  const EMPTY := Cell(Slot(None, None), Free, None, None, None, false, false, 0, 0)

  /** A Freshen without a resource brings the response to a HEAD request, which was never stored. */
  datatype Op = StoreOp(keys: set<Key>, failing: bool) | FreshenOp(key: Key, resource: Option<nat>)

  /** The history of a key when a retrieval opened its body. */
  datatype Past = Past(residue: bool, redated: bool, stores: nat, spoils: nat)

  datatype Reader =
    | Opened(key: Key, identity: Option<nat>, body: Body, past: Past)
    | Read(key: Key, identity: Option<nat>, body: Body, past: Past, header: Header)
    | Retrieved(key: Key, identity: Option<nat>, body: Body, past: Past, header: Header, stale: bool)
    | Missed(key: Key, identity: Option<nat>, body: Body, past: Past)

  /** A retrieval that holds publishMu, and in place the key's reader lock. */
  predicate Active(r: Reader) {
    r.Opened? || r.Read?
  }

  datatype State = State(
    inPlace: bool, clock: int, cells: map<Key, Cell>, ops: map<nat, Op>, readers: map<nat, Reader>,
    publisher: Option<nat>, next: nat, nextIdentity: nat)

  function Init(inPlace: bool, clock: int): State {
    State(inPlace, clock, map[], map[], map[], None, 0, 0)
  }

  function CellAt(cells: map<Key, Cell>, k: Key): Cell {
    if k in cells then cells[k] else EMPTY
  }

  function At(s: State, k: Key): Cell {
    CellAt(s.cells, k)
  }

  function Put(s: State, k: Key, c: Cell): State {
    s.(cells := s.cells[k := c])
  }

  // ------------------------------------------------------------- one key at a time

  predicate Marked(marker: Option<int>, at: int) {
    marker.Some? && at <= marker.value
  }

  /** Markers only move forward. */
  function Later(marker: Option<int>, now: int): Option<int> {
    if marker.Some? && now <= marker.value then marker else Some(now)
  }

  /** A key's files have been changed by the Store at this stage. */
  predicate Touched(inPlace: bool, stage: Stage) {
    if inPlace then !stage.Begun? && !stage.Discarded? else stage.BodyRenamed? || stage.Renamed?
  }

  /** Of those, the stages at which the header is still the old one. */
  predicate HeaderOld(inPlace: bool, stage: Stage) {
    if inPlace then stage.BodyReady? || stage.BodyTorn? else stage.BodyRenamed?
  }

  predicate Torn(stage: Stage) {
    stage.BodyTorn? || stage.HeaderTorn?
  }

  /** The order of a Store's accesses to the files of one key. */
  predicate Follows(inPlace: bool, from: Stage, to: Stage) {
    match from
    case Begun => to.BodyReady? || (inPlace && to.BodyTorn?)
    case BodyReady => to.Ready? || (inPlace && to.HeaderTorn?)
    case Ready => !inPlace && to.BodyRenamed?
    case BodyRenamed => !inPlace && to.Renamed?
    case _ => false
  }

  /** What that access does to the files. */
  function Effect(inPlace: bool, slot: Slot, to: Stage, op: nat, at: int, bytes: int): Slot {
    match to
    case BodyReady => if inPlace then slot.(body := Some(Body(op, true))) else slot
    case BodyTorn(whole) => slot.(body := Some(Body(op, whole)))
    case Ready => if inPlace then slot.(header := Some(Record(op, at, bytes, op))) else slot
    case HeaderTorn(whole) => slot.(header := Some(if whole then Record(op, at, bytes, op) else Incomplete))
    case BodyRenamed => slot.(body := Some(Body(op, true)))
    case Renamed => slot.(header := Some(Record(op, at, bytes, op)))
    case _ => slot
  }

  /** A file that is not there counts as removed. */
  predicate Removal(slot: Slot, bodyGone: bool, headerGone: bool) {
    (slot.body.None? ==> bodyGone) && (slot.header.None? ==> headerGone)
  }

  function Without(slot: Slot, bodyGone: bool, headerGone: bool): Slot {
    Slot(if bodyGone then None else slot.body, if headerGone then None else slot.header)
  }

  /** discardUnadmitted and removeEntry: the ledger forgets the key only when both files are gone. */
  function Dropped(c: Cell, bodyGone: bool, headerGone: bool, at: int): Cell {
    c.(slot := Without(c.slot, bodyGone, headerGone),
       entry := if bodyGone && headerGone then None else if c.entry.Some? then c.entry else Some(Entry(None, at)),
       residue := c.residue && !bodyGone && !headerGone,
       redated := c.redated && !bodyGone && !headerGone)
  }

  /** One key of discardPreparedStore: what is left behind is marked. */
  function Discard(c: Cell, inPlace: bool, bodyGone: bool, headerGone: bool, now: int): Cell
    requires c.work.Store?
  {
    var stage := c.work.stage;
    Dropped(c, bodyGone, headerGone, c.work.at).(
      work := c.work.(stage := Discarded),
      marker := if bodyGone && headerGone then c.marker else Later(c.marker, now),
      residue := !bodyGone && !headerGone && (HeaderOld(inPlace, stage) || (c.residue && !Touched(inPlace, stage))),
      redated := false,
      spoils := if !bodyGone && Touched(inPlace, stage) then c.spoils + 1 else c.spoils)
  }

  function Committed(c: Cell, identity: nat): Cell
    requires c.work.Store?
  {
    c.(work := Free, entry := Some(Entry(Some(identity), c.work.at)),
       residue := false, redated := false, stores := c.stores + 1)
  }

  predicate SameIdentity(c: Cell, r: Reader) {
    r.identity.Some? && c.entry.Some? && c.entry.value.identity == r.identity
  }

  function FileOf(h: Option<Header>): Option<nat> {
    if h.Some? && h.value.Record? then Some(h.value.file) else None
  }

  function FileRead(r: Reader): Option<nat> {
    if r.Read? || r.Retrieved? then FileOf(Some(r.header)) else None
  }

  /** resourceWasReplaced: an identity, a date, a record or, after renames, a file that differs. */
  predicate Replaced(inPlace: bool, c: Cell, r: Reader)
    requires r.Retrieved? && c.slot.header.Some? && c.slot.header.value.Record?
  {
    var h := c.slot.header.value;
    || (r.identity.Some? && !SameIdentity(c, r))
    || !(r.header.Record? && h.at == r.header.at && h.bytes == r.header.bytes)
    || (!inPlace && h.file != r.header.file)
  }

  /** How a write of one file ends. */
  datatype Write = NotOpened | LeftPartial | LeftWhole | Done

  function FreshenWrite(c: Cell, inPlace: bool, w: Write, bytes: int, file: nat): Cell
    requires c.work.Freshen? && c.work.phase.Verified? && c.slot.header.Some? && c.slot.header.value.Record?
  {
    var at := c.work.phase.at;
    var h := Record(c.slot.header.value.store, at, bytes, file);
    var d := c.(work := c.work.(phase := if w.Done? then Written(h) else Stopped(inPlace && !w.NotOpened?, at)));
    if !inPlace || w.NotOpened? then d
    else if w.LeftPartial? then d.(slot := c.slot.(header := Some(Incomplete)))
    else d.(slot := c.slot.(header := Some(h)), redated := true)
  }

  /** The commit gives up the reservation; the key's lock stays. */
  function FreshenCommitted(c: Cell, identity: nat): Cell
    requires c.work.Freshen? && c.work.phase.Written? && c.work.phase.header.Record?
  {
    var h := c.work.phase.header;
    c.(slot := c.slot.(header := Some(h)), work := c.work.(phase := Renewed(h)),
       entry := Some(Entry(Some(identity), h.at)), redated := true)
  }

  /** Eviction skips keys with a reservation. */
  predicate Unreserved(w: Work) {
    w.Free? || (w.Freshen? && (w.phase.Renewed? || w.phase.Named?))
  }

  // -------------------------------------------------------------------- steps

  datatype Step =
    | Tick(to: int)
    | Mark(key: Key)
    | PassEntry(key: Key)
    | DropMarker(key: Key)
    | Evict(key: Key, bodyGone: bool, headerGone: bool)
    | BeginStore(dates: map<Key, int>, bytes: int)
    | Progress(key: Key, stage: Stage)
    | Abort(op: nat)
    | TakePublish(op: nat)
    | CommitStore(op: nat)
    | DiscardKey(key: Key, bodyGone: bool, headerGone: bool)
    | EndStore(op: nat)
    | OpenBody(reader: nat, key: Key)
    | ReadHeader(reader: nat)
    | Judge(reader: nat)
    | CheckFreshen(resource: nat, began: int)
    | CheckHead(key: Key, began: int)
    | LockFreshen(op: nat)
    | VerifyFreshen(key: Key)
    | WriteFreshen(key: Key, write: Write, bytes: int)
    | CommitFreshen(key: Key)
    | ReadIdentity(key: Key)
    | AdvanceRecord(key: Key)
    | FailFreshen(key: Key, bodyGone: bool, headerGone: bool)
    | LeaveFreshen(key: Key)

  /** No retrieval is between opening its files and its verdict, on any key or on this one. */
  ghost predicate NoReader(s: State) {
    forall r :: r in s.readers ==> !Active(s.readers[r])
  }

  ghost predicate NoReaderOf(s: State, k: Key) {
    forall r :: r in s.readers && Active(s.readers[r]) ==> s.readers[r].key != k
  }

  /** The key's writer lock can be taken. */
  ghost predicate Lockable(s: State, k: Key) {
    At(s, k).work.Free? && (s.inPlace ==> NoReaderOf(s, k))
  }

  predicate StoreAt(s: State, k: Key, failing: bool) {
    var w := At(s, k).work;
    w.Store? && w.op in s.ops && s.ops[w.op].StoreOp? && s.ops[w.op].failing == failing
  }

  predicate StageOf(s: State, k: Key, op: nat, stage: Stage) {
    At(s, k).work.Store? && At(s, k).work.op == op && At(s, k).work.stage == stage
  }

  predicate AllAt(s: State, op: nat, stage: Stage)
    requires op in s.ops && s.ops[op].StoreOp?
  {
    forall k :: k in s.ops[op].keys ==> StageOf(s, k, op, stage)
  }

  /** The Store has changed a published file, or has begun to discard. */
  ghost predicate Published(s: State, op: nat)
    requires op in s.ops && s.ops[op].StoreOp?
  {
    exists k :: k in s.ops[op].keys && Published1(s.inPlace, At(s, k))
  }

  predicate Published1(inPlace: bool, c: Cell) {
    c.work.Store? && (Touched(inPlace, c.work.stage) || c.work.stage.Discarded?)
  }

  predicate FreshenAt(s: State, k: Key) {
    At(s, k).work.Freshen? && At(s, k).work.op in s.ops
  }

  ghost predicate Enabled(s: State, step: Step) {
    match step
    case Tick(_) => true
    case Mark(_) => true
    case PassEntry(k) =>
      // A complete pass leaves the entry only if it is younger than markers past their retention.
      && At(s, k).marker.Some? && At(s, k).marker.value < s.clock
      && (At(s, k).entry.Some? ==> At(s, k).marker.value < At(s, k).entry.value.at)
    case DropMarker(k) => NoReader(s) && At(s, k).marker.Some? && At(s, k).noted == At(s, k).marker
    case Evict(k, b, h) => Unreserved(At(s, k).work) && At(s, k).entry.Some? && Removal(At(s, k).slot, b, h)
    case BeginStore(dates, _) => forall k :: k in dates ==> Lockable(s, k) && dates[k] <= s.clock
    case Progress(k, to) =>
      && StoreAt(s, k, false) && Follows(s.inPlace, At(s, k).work.stage, to)
      && (to.BodyRenamed? || to.Renamed? ==> s.publisher == Some(At(s, k).work.op))
    case Abort(i) => i in s.ops && s.ops[i].StoreOp?
    case TakePublish(i) =>
      && i in s.ops && s.publisher.None? && NoReader(s)
      && (s.ops[i].StoreOp? ==> s.ops[i].failing || AllAt(s, i, Ready))
      && (s.ops[i].FreshenOp? ==>
            var w := At(s, s.ops[i].key).work;
            w.Freshen? && w.op == i && (w.phase.Written? || w.phase.Stopped?))
    case CommitStore(i) =>
      && i in s.ops && s.ops[i].StoreOp? && !s.ops[i].failing && s.publisher == Some(i)
      && AllAt(s, i, if s.inPlace then Ready else Renamed)
    case DiscardKey(k, b, h) =>
      && StoreAt(s, k, true) && s.publisher == Some(At(s, k).work.op) && Published(s, At(s, k).work.op)
      && !At(s, k).work.stage.Discarded? && Removal(At(s, k).slot, b, h)
    case EndStore(i) =>
      && i in s.ops && s.ops[i].StoreOp? && s.ops[i].failing && s.publisher == Some(i)
      && (!Published(s, i) || AllAt(s, i, Discarded))
    case OpenBody(r, k) =>
      && r !in s.readers && s.publisher.None? && At(s, k).slot.body.Some?
      && (s.inPlace ==> At(s, k).work.Free?)
    case ReadHeader(r) => r in s.readers && s.readers[r].Opened?
    case Judge(r) => r in s.readers && s.readers[r].Read? && s.readers[r].header.Record?
    case CheckFreshen(r, began) =>
      && r in s.readers && s.readers[r].Retrieved? && began <= s.clock
      && !Marked(At(s, s.readers[r].key).marker, began)
    case CheckHead(k, began) => began <= s.clock && !Marked(At(s, k).marker, began)
    case LockFreshen(i) => i in s.ops && s.ops[i].FreshenOp? && Lockable(s, s.ops[i].key)
    case VerifyFreshen(k) => FreshenAt(s, k) && At(s, k).work.phase.Locked?
    case WriteFreshen(k, w, _) => FreshenAt(s, k) && At(s, k).work.phase.Verified? && Readable(At(s, k).slot)
    case CommitFreshen(k) =>
      && FreshenAt(s, k) && s.publisher == Some(At(s, k).work.op)
      && At(s, k).work.phase.Written? && At(s, k).work.phase.header.Record?
    case ReadIdentity(k) => FreshenAt(s, k) && At(s, k).work.phase.Renewed?
    case AdvanceRecord(k) => FreshenAt(s, k) && At(s, k).work.phase.Named?
    case FailFreshen(k, b, h) =>
      && FreshenAt(s, k) && s.publisher == Some(At(s, k).work.op)
      && At(s, k).work.phase.Stopped? && At(s, k).work.phase.live && Removal(At(s, k).slot, b, h)
    case LeaveFreshen(k) =>
      && FreshenAt(s, k)
      && var p := At(s, k).work.phase;
         p.Locked? || p.Verified? || (p.Stopped? && !p.live) || (p.Written? && !s.inPlace)
  }

  // ------------------------------------------------------------------- effects

  function DoBeginStore(s: State, dates: map<Key, int>, bytes: int): State {
    s.(cells := s.cells + map k | k in dates :: Claimed(At(s, k), s.next, dates[k], bytes),
       ops := s.ops[s.next := StoreOp(dates.Keys, false)], next := s.next + 1)
  }

  function Claimed(c: Cell, op: nat, at: int, bytes: int): Cell {
    c.(work := Store(op, at, bytes, Begun, c.slot))
  }

  function Progressed(c: Cell, inPlace: bool, to: Stage): Cell
    requires c.work.Store?
  {
    var w := c.work;
    c.(slot := Effect(inPlace, c.slot, to, w.op, w.at, w.bytes), work := w.(stage := to))
  }

  function DoProgress(s: State, k: Key, to: Stage): State
    requires StoreAt(s, k, false)
  {
    var i := At(s, k).work.op;
    var ops := if Torn(to) then s.ops[i := s.ops[i].(failing := true)] else s.ops;
    Put(s, k, Progressed(At(s, k), s.inPlace, to)).(ops := ops)
  }

  function Commitment(s: State, i: nat): map<Key, Cell>
    requires i in s.ops && s.ops[i].StoreOp? && forall k :: k in s.ops[i].keys ==> At(s, k).work.Store?
  {
    map k | k in s.ops[i].keys :: Committed(At(s, k), s.nextIdentity)
  }

  function DoCommitStore(s: State, i: nat): State
    requires i in s.ops && s.ops[i].StoreOp? && forall k :: k in s.ops[i].keys ==> At(s, k).work.Store?
  {
    s.(cells := s.cells + Commitment(s, i), ops := s.ops - {i}, publisher := None, nextIdentity := s.nextIdentity + 1)
  }

  function DoEndStore(s: State, i: nat): State
    requires i in s.ops && s.ops[i].StoreOp?
  {
    s.(cells := s.cells + map k | k in s.ops[i].keys :: At(s, k).(work := Free), ops := s.ops - {i}, publisher := None)
  }

  function DoOpenBody(s: State, r: nat, k: Key): State
    requires At(s, k).slot.body.Some?
  {
    var c := At(s, k);
    var identity := if c.entry.Some? then c.entry.value.identity else None;
    var past := Past(c.residue, c.redated, c.stores, c.spoils);
    s.(readers := s.readers[r := Opened(k, identity, c.slot.body.value, past)])
  }

  function DoReadHeader(s: State, r: nat): State
    requires r in s.readers
  {
    var o := s.readers[r];
    var h := At(s, o.key).slot.header;
    s.(readers := s.readers[r := if h.Some? && h.value.Record? then Read(o.key, o.identity, o.body, o.past, h.value)
                                 else Missed(o.key, o.identity, o.body, o.past)])
  }

  function DoJudge(s: State, r: nat): State
    requires r in s.readers && s.readers[r].Read? && s.readers[r].header.Record?
  {
    var o := s.readers[r];
    var stale := Marked(At(s, o.key).marker, o.header.at);
    s.(readers := s.readers[r := Retrieved(o.key, o.identity, o.body, o.past, o.header, stale)])
  }

  /** Freshen has passed its marker checks, before it takes the key's lock. */
  function DoCheckFreshen(s: State, k: Key, r: Option<nat>): State {
    s.(ops := s.ops[s.next := FreshenOp(k, r)], next := s.next + 1)
  }

  function DoLockFreshen(s: State, i: nat): State
    requires i in s.ops && s.ops[i].FreshenOp?
  {
    var k := s.ops[i].key;
    Put(s, k, At(s, k).(work := Freshen(i, s.ops[i].resource, Locked)))
  }

  /** The lock and everything else the operation holds is released. */
  function DoLeaveFreshen(s: State, k: Key, c: Cell): State
    requires At(s, k).work.Freshen?
  {
    var i := At(s, k).work.op;
    Put(s, k, c.(work := Free)).(ops := s.ops - {i}, publisher := if s.publisher == Some(i) then None else s.publisher)
  }

  predicate Agrees(inPlace: bool, c: Cell, k: Key, r: Reader) {
    r.Retrieved? && r.key == k && Readable(c.slot) && !Replaced(inPlace, c, r)
  }

  /** The check before the write: a resource has to agree, a HEAD response only needs a record. */
  predicate Verifies(s: State, k: Key)
    requires At(s, k).work.Freshen?
  {
    var c := At(s, k);
    match c.work.resource
    case None => Readable(c.slot)
    case Some(r) => r in s.readers && Agrees(s.inPlace, c, k, s.readers[r])
  }

  function Checked(c: Cell, now: int): Cell
    requires c.work.Freshen?
  {
    c.(work := c.work.(phase := Verified(now)))
  }

  function DoVerifyFreshen(s: State, k: Key): State
    requires At(s, k).work.Freshen?
  {
    var c := At(s, k);
    if Verifies(s, k) then Put(s, k, Checked(c, s.clock)) else DoLeaveFreshen(s, k, c)
  }

  function DoWriteFreshen(s: State, k: Key, w: Write, bytes: int): State
    requires At(s, k).work.Freshen? && At(s, k).work.phase.Verified? && Readable(At(s, k).slot)
  {
    Put(s, k, FreshenWrite(At(s, k), s.inPlace, w, bytes, s.next)).(next := s.next + 1)
  }

  function DoCommitFreshen(s: State, k: Key): State
    requires At(s, k).work.Freshen? && At(s, k).work.phase.Written? && At(s, k).work.phase.header.Record?
  {
    Put(s, k, FreshenCommitted(At(s, k), s.nextIdentity)).(publisher := None, nextIdentity := s.nextIdentity + 1)
  }

  /** A resource with an identity gets the one the ledger has for the key now, if any. */
  function Identified(r: Reader, c: Cell): Reader {
    if r.identity.None? then r else r.(identity := if c.entry.Some? then c.entry.value.identity else None)
  }

  /** In place the resource gets the record that was written; otherwise the one its file now holds. */
  function Advanced(inPlace: bool, r: Reader, c: Cell, h: Header): Reader {
    if !r.Retrieved? then r
    else if inPlace then r.(header := h, stale := false)
    else if c.slot.header.Some? && c.slot.header.value.Record? then r.(header := c.slot.header.value, stale := false)
    else r
  }

  function ReadersWith(readers: map<nat, Reader>, r: Option<nat>, o: Option<Reader>): map<nat, Reader> {
    if r.Some? && o.Some? then readers[r.value := o.value] else readers
  }

  function ResourceOf(s: State, k: Key): Option<Reader>
    requires At(s, k).work.Freshen?
  {
    var r := At(s, k).work.resource;
    if r.Some? && r.value in s.readers then Some(s.readers[r.value]) else None
  }

  function Nominate(c: Cell): Cell
    requires c.work.Freshen? && c.work.phase.Renewed?
  {
    c.(work := c.work.(phase := Named(c.work.phase.header)))
  }

  function DoReadIdentity(s: State, k: Key): State
    requires At(s, k).work.Freshen? && At(s, k).work.phase.Renewed?
  {
    var c, o := At(s, k), ResourceOf(s, k);
    Put(s, k, Nominate(c)).(
      readers := ReadersWith(s.readers, c.work.resource, if o.Some? then Some(Identified(o.value, c)) else None))
  }

  function DoAdvanceRecord(s: State, k: Key): State
    requires At(s, k).work.Freshen? && At(s, k).work.phase.Named?
  {
    var c, o := At(s, k), ResourceOf(s, k);
    var advanced := if o.Some? then Some(Advanced(s.inPlace, o.value, c, c.work.phase.header)) else None;
    DoLeaveFreshen(s, k, c).(readers := ReadersWith(s.readers, c.work.resource, advanced))
  }

  ghost function Apply(s: State, step: Step): State
    requires Enabled(s, step)
  {
    match step
    case Tick(to) => s.(clock := to)
    case Mark(k) => Put(s, k, At(s, k).(marker := Later(At(s, k).marker, s.clock)))
    case PassEntry(k) => Put(s, k, At(s, k).(noted := At(s, k).marker))
    case DropMarker(k) => Put(s, k, At(s, k).(marker := None))
    case Evict(k, b, h) => Put(s, k, Dropped(At(s, k), b, h, 0))
    case BeginStore(dates, bytes) => DoBeginStore(s, dates, bytes)
    case Progress(k, to) => DoProgress(s, k, to)
    case Abort(i) => s.(ops := s.ops[i := s.ops[i].(failing := true)])
    case TakePublish(i) => s.(publisher := Some(i))
    case CommitStore(i) => DoCommitStore(s, i)
    case DiscardKey(k, b, h) => Put(s, k, Discard(At(s, k), s.inPlace, b, h, s.clock))
    case EndStore(i) => DoEndStore(s, i)
    case OpenBody(r, k) => DoOpenBody(s, r, k)
    case ReadHeader(r) => DoReadHeader(s, r)
    case Judge(r) => DoJudge(s, r)
    case CheckFreshen(r, _) => DoCheckFreshen(s, s.readers[r].key, Some(r))
    case CheckHead(k, _) => DoCheckFreshen(s, k, None)
    case LockFreshen(i) => DoLockFreshen(s, i)
    case VerifyFreshen(k) => DoVerifyFreshen(s, k)
    case WriteFreshen(k, w, bytes) => DoWriteFreshen(s, k, w, bytes)
    case CommitFreshen(k) => DoCommitFreshen(s, k)
    case ReadIdentity(k) => DoReadIdentity(s, k)
    case AdvanceRecord(k) => DoAdvanceRecord(s, k)
    case FailFreshen(k, b, h) => DoLeaveFreshen(s, k, Dropped(At(s, k), b, h, At(s, k).work.phase.at))
    case LeaveFreshen(k) => DoLeaveFreshen(s, k, At(s, k))
  }

  // ---------------------------------------------------------------- invariant

  predicate Below(s: Slot, n: nat) {
    && (s.body.Some? ==> s.body.value.store < n)
    && (s.header.Some? && s.header.value.Record? ==> s.header.value.store < n && s.header.value.file < n)
  }

  /** A readable pair is mixed exactly when the key holds a residue. */
  predicate PairOk(s: Slot, residue: bool) {
    Readable(s) ==> (Mixed(s.body.value, s.header.value) <==> residue)
  }

  /** What a Store has made of the files at each stage. */
  function Live(inPlace: bool, before: Slot, stage: Stage, op: nat, at: int, bytes: int): Slot {
    if !Touched(inPlace, stage) then before
    else if stage.BodyTorn? then before.(body := Some(Body(op, stage.whole)))
    else if stage == HeaderTorn(false) then Slot(Some(Body(op, true)), Some(Incomplete))
    else if HeaderOld(inPlace, stage) then before.(body := Some(Body(op, true)))
    else New(op, at, bytes)
  }

  /** The files without what a Store in flight has done to them. */
  function Base(c: Cell): Slot {
    if c.work.Store? && !c.work.stage.Discarded? then c.work.before else c.slot
  }

  /** The stages a Store can be in on this backend. */
  predicate Proper(inPlace: bool, stage: Stage) {
    if inPlace then !stage.BodyRenamed? && !stage.Renamed? else !Torn(stage)
  }

  predicate StoreOk(inPlace: bool, publisher: Option<nat>, next: nat, c: Cell)
    requires c.work.Store?
  {
    var w := c.work;
    && w.op < next && Below(w.before, w.op) && Proper(inPlace, w.stage)
    && (!w.stage.Discarded? ==> c.slot == Live(inPlace, w.before, w.stage, w.op, w.at, w.bytes))
    && (w.stage.Discarded? || (!inPlace && Touched(inPlace, w.stage)) ==> publisher == Some(w.op))
  }

  predicate PhaseOk(inPlace: bool, next: nat, c: Cell)
    requires c.work.Freshen?
  {
    var w := c.work;
    && w.op < next
    && (w.phase.Verified? ==> Readable(c.slot))
    && (w.phase.Written? ==>
          && Readable(c.slot) && w.phase.header.Record? && w.phase.header.store == c.slot.header.value.store
          && w.phase.header.file < next && (!inPlace ==> c.slot.header.value.file < w.phase.header.file))
    && (w.phase.Renewed? || w.phase.Named? ==> w.phase.header.Record? && w.phase.header.file < next)
  }

  predicate CellOk(inPlace: bool, publisher: Option<nat>, next: nat, nextIdentity: nat, c: Cell) {
    && Below(c.slot, next) && PairOk(Base(c), c.residue)
    && (c.entry.Some? && c.entry.value.identity.Some? ==> c.entry.value.identity.value < nextIdentity)
    && (c.work.Store? ==> StoreOk(inPlace, publisher, next, c))
    && (c.work.Freshen? ==> PhaseOk(inPlace, next, c))
  }

  /** The holder of a key's lock is a known operation on that key. */
  predicate HolderOk(ops: map<nat, Op>, k: Key, w: Work) {
    && (w.Store? ==> w.op in ops && ops[w.op].StoreOp? && k in ops[w.op].keys)
    && (w.Store? && (Torn(w.stage) || w.stage.Discarded?) ==> ops[w.op].failing)
    && (w.Freshen? ==> w.op in ops && ops[w.op] == FreshenOp(k, w.resource))
  }

  /** A Store holds the locks of all its keys. */
  predicate HoldsAll(cells: map<Key, Cell>, i: nat, op: Op) {
    op.StoreOp? ==> forall k :: k in op.keys ==> Holds(CellAt(cells, k), i)
  }

  predicate Holds(c: Cell, i: nat) {
    c.work.Store? && c.work.op == i
  }

  /** A file a reader knows is older than what a writer of the key has yet to publish. */
  predicate FileFrom(inPlace: bool, next: nat, c: Cell, file: nat) {
    && file < next && (c.work.Store? ==> file < c.work.op)
    && (!inPlace && c.work.Freshen? && c.work.phase.Written? && c.work.phase.header.Record? ==>
          file < c.work.phase.header.file)
  }

  predicate ReaderOk(inPlace: bool, publisher: Option<nat>, next: nat, c: Cell, r: Reader) {
    && r.body.store < next && (c.work.Store? ==> r.body.store < c.work.op)
    && (FileRead(r).Some? ==> FileFrom(inPlace, next, c, FileRead(r).value))
    && (Active(r) ==> publisher.None? && (inPlace ==> c.work.Free?))
    && (r.Opened? && c.slot.header.Some? && c.slot.header.value.Record? ==>
          (Mixed(r.body, c.slot.header.value) <==> r.past.residue))
    && (r.Read? ==> r.header.Record? && (Mixed(r.body, r.header) <==> r.past.residue))
  }

  /** The resource and the key share an identity, or after renames the header file. */
  predicate Tied(inPlace: bool, c: Cell, r: Reader) {
    SameIdentity(c, r) || (!inPlace && FileRead(r).Some? && FileRead(r) == FileOf(Base(c).header))
  }

  /** A retrieval that is tied to its key says that no Store committed since, and that the body is
      the one read exactly if no discard left another one behind. */
  predicate IdentityOk(inPlace: bool, nextIdentity: nat, c: Cell, r: Reader) {
    && r.past.spoils <= c.spoils && r.past.stores <= c.stores
    && (r.identity.Some? ==> r.identity.value < nextIdentity)
    && (Active(r) || Tied(inPlace, c, r) ==> SameBody(c, r))
  }

  predicate SameBody(c: Cell, r: Reader) {
    && r.past.stores == c.stores
    && (Base(c).body.Some? ==> (Base(c).body.value == r.body <==> r.past.spoils == c.spoils))
  }

  /** From its verification to its return a Freshen and its resource are about the same body, unless
      the resource has no identity and files none either. */
  predicate FreshenOk(inPlace: bool, readers: map<nat, Reader>, k: Key, c: Cell) {
    c.work.Freshen? && c.work.resource.Some? && !c.work.phase.Locked? && !c.work.phase.Stopped? ==>
      var r := c.work.resource.value;
      && r in readers && readers[r].Retrieved? && readers[r].key == k
      && (!inPlace || readers[r].identity.Some? ==> SameBody(c, readers[r]))
  }

  ghost predicate CellsOk(s: State) {
    forall k :: CellOk(s.inPlace, s.publisher, s.next, s.nextIdentity, At(s, k))
  }

  ghost predicate HoldersOk(s: State) {
    && (forall k :: HolderOk(s.ops, k, At(s, k).work))
    && (forall i :: i in s.ops ==> i < s.next && HoldsAll(s.cells, i, s.ops[i]))
  }

  ghost predicate ReadersOk(s: State) {
    forall r :: r in s.readers ==>
      && ReaderOk(s.inPlace, s.publisher, s.next, At(s, s.readers[r].key), s.readers[r])
      && IdentityOk(s.inPlace, s.nextIdentity, At(s, s.readers[r].key), s.readers[r])
  }

  ghost predicate FreshensOk(s: State) {
    forall k :: FreshenOk(s.inPlace, s.readers, k, At(s, k))
  }

  ghost predicate Inv(s: State) {
    && CellsOk(s) && HoldersOk(s) && ReadersOk(s) && FreshensOk(s)
    && (s.publisher.Some? ==> s.publisher.value in s.ops && NoReader(s))
  }

  // ------------------------------------------------------------ one cell changes

  predicate SameHolder(v: Work, w: Work) {
    && (v.Store? <==> w.Store?) && (v.Store? ==> v.op == w.op)
    && (v.Freshen? <==> w.Freshen?) && (v.Freshen? ==> v.op == w.op && v.resource == w.resource)
  }

  lemma PutKeepsInv(s: State, k: Key, d: Cell)
    requires Inv(s) && SameHolder(At(s, k).work, d.work) && HolderOk(s.ops, k, d.work)
    requires FreshenOk(s.inPlace, s.readers, k, d)
    requires CellOk(s.inPlace, s.publisher, s.next, s.nextIdentity, d)
    requires forall r :: r in s.readers && s.readers[r].key == k ==>
               && ReaderOk(s.inPlace, s.publisher, s.next, d, s.readers[r])
               && IdentityOk(s.inPlace, s.nextIdentity, d, s.readers[r])
    ensures Inv(Put(s, k, d))
  {
    var t := Put(s, k, d);
    assert forall j :: At(t, j) == if j == k then d else At(s, j);
    assert HoldersOk(t) by {
      forall i | i in s.ops ensures HoldsAll(t.cells, i, s.ops[i]) {
        assert HoldsAll(s.cells, i, s.ops[i]);
        if s.ops[i].StoreOp? && k in s.ops[i].keys { assert Holds(CellAt(s.cells, k), i); }
      }
    }
  }

  lemma MarkKeepsCell(inPlace: bool, publisher: Option<nat>, next: nat, ids: nat, c: Cell, d: Cell)
    requires CellOk(inPlace, publisher, next, ids, c) && d == c.(marker := d.marker, noted := d.noted)
    ensures CellOk(inPlace, publisher, next, ids, d)
    ensures forall r :: ReaderOk(inPlace, publisher, next, c, r) ==> ReaderOk(inPlace, publisher, next, d, r)
    ensures forall r :: IdentityOk(inPlace, ids, c, r) ==> IdentityOk(inPlace, ids, d, r)
    ensures forall readers, k :: FreshenOk(inPlace, readers, k, c) ==> FreshenOk(inPlace, readers, k, d)
  {
  }

  lemma MarkKeepsInv(s: State, k: Key, d: Cell)
    requires Inv(s) && d == At(s, k).(marker := d.marker, noted := d.noted)
    ensures Inv(Put(s, k, d))
  {
    MarkKeepsCell(s.inPlace, s.publisher, s.next, s.nextIdentity, At(s, k), d);
    assert HolderOk(s.ops, k, At(s, k).work) && FreshenOk(s.inPlace, s.readers, k, At(s, k));
    PutKeepsInv(s, k, d);
  }

  lemma EvictKeepsCell(inPlace: bool, publisher: Option<nat>, next: nat, ids: nat, c: Cell, b: bool, h: bool)
    requires CellOk(inPlace, publisher, next, ids, c) && Unreserved(c.work) && c.entry.Some?
    ensures CellOk(inPlace, publisher, next, ids, Dropped(c, b, h, 0))
    ensures forall r :: ReaderOk(inPlace, publisher, next, c, r) ==>
            ReaderOk(inPlace, publisher, next, Dropped(c, b, h, 0), r)
    ensures forall r :: IdentityOk(inPlace, ids, c, r) ==> IdentityOk(inPlace, ids, Dropped(c, b, h, 0), r)
  {
  }

  lemma EvictKeepsInv(s: State, k: Key, b: bool, h: bool)
    requires Inv(s) && Enabled(s, Evict(k, b, h))
    ensures Inv(Put(s, k, Dropped(At(s, k), b, h, 0)))
  {
    EvictKeepsCell(s.inPlace, s.publisher, s.next, s.nextIdentity, At(s, k), b, h);
    assert HolderOk(s.ops, k, At(s, k).work) && FreshenOk(s.inPlace, s.readers, k, At(s, k));
    PutKeepsInv(s, k, Dropped(At(s, k), b, h, 0));
  }

  lemma DiscardKeepsCell(
    inPlace: bool, publisher: Option<nat>, next: nat, ids: nat, c: Cell, b: bool, h: bool, now: int)
    requires CellOk(inPlace, publisher, next, ids, c) && c.work.Store? && publisher == Some(c.work.op)
    requires !c.work.stage.Discarded? && Removal(c.slot, b, h)
    ensures CellOk(inPlace, publisher, next, ids, Discard(c, inPlace, b, h, now))
  {
  }

  lemma DiscardKeepsReader(
    inPlace: bool, publisher: Option<nat>, next: nat, ids: nat, c: Cell, b: bool, h: bool, now: int, r: Reader)
    requires CellOk(inPlace, publisher, next, ids, c) && c.work.Store? && publisher == Some(c.work.op)
    requires !c.work.stage.Discarded? && Removal(c.slot, b, h)
    requires ReaderOk(inPlace, publisher, next, c, r) && IdentityOk(inPlace, ids, c, r)
    ensures ReaderOk(inPlace, publisher, next, Discard(c, inPlace, b, h, now), r)
    ensures IdentityOk(inPlace, ids, Discard(c, inPlace, b, h, now), r)
  {
  }

  lemma DiscardKeepsInv(s: State, k: Key, b: bool, h: bool)
    requires Inv(s) && Enabled(s, DiscardKey(k, b, h))
    ensures Inv(Put(s, k, Discard(At(s, k), s.inPlace, b, h, s.clock)))
  {
    var c := At(s, k);
    DiscardKeepsCell(s.inPlace, s.publisher, s.next, s.nextIdentity, c, b, h, s.clock);
    forall r | r in s.readers && s.readers[r].key == k
      ensures ReaderOk(s.inPlace, s.publisher, s.next, Discard(c, s.inPlace, b, h, s.clock), s.readers[r])
      ensures IdentityOk(s.inPlace, s.nextIdentity, Discard(c, s.inPlace, b, h, s.clock), s.readers[r])
    {
      DiscardKeepsReader(s.inPlace, s.publisher, s.next, s.nextIdentity, c, b, h, s.clock, s.readers[r]);
    }
    assert HolderOk(s.ops, k, c.work);
    PutKeepsInv(s, k, Discard(c, s.inPlace, b, h, s.clock));
  }

  lemma AbortKeepsInv(s: State, i: nat)
    requires Inv(s) && i in s.ops && s.ops[i].StoreOp?
    ensures Inv(s.(ops := s.ops[i := s.ops[i].(failing := true)]))
  {
    var t := s.(ops := s.ops[i := s.ops[i].(failing := true)]);
    assert forall k :: At(t, k) == At(s, k);
    assert HoldersOk(t) by {
      forall j | j in t.ops ensures j < t.next && HoldsAll(t.cells, j, t.ops[j]) {
        assert HoldsAll(s.cells, j, s.ops[j]);
      }
      forall k ensures HolderOk(t.ops, k, At(t, k).work) { assert HolderOk(s.ops, k, At(s, k).work); }
    }
  }

  lemma ProgressKeepsCell(inPlace: bool, publisher: Option<nat>, next: nat, ids: nat, c: Cell, to: Stage)
    requires CellOk(inPlace, publisher, next, ids, c) && c.work.Store? && Follows(inPlace, c.work.stage, to)
    requires to.BodyRenamed? || to.Renamed? ==> publisher == Some(c.work.op)
    ensures CellOk(inPlace, publisher, next, ids, Progressed(c, inPlace, to))
    ensures Base(Progressed(c, inPlace, to)) == Base(c)
  {
  }

  /** A writer of `k` has no reader of `k` to notice it, unless it only wrote to staging files. */
  lemma ProgressKeepsReader(inPlace: bool, publisher: Option<nat>, next: nat, ids: nat, c: Cell, to: Stage, r: Reader)
    requires CellOk(inPlace, publisher, next, ids, c) && c.work.Store? && Follows(inPlace, c.work.stage, to)
    requires to.BodyRenamed? || to.Renamed? ==> publisher == Some(c.work.op)
    requires ReaderOk(inPlace, publisher, next, c, r) && IdentityOk(inPlace, ids, c, r)
    ensures ReaderOk(inPlace, publisher, next, Progressed(c, inPlace, to), r)
    ensures IdentityOk(inPlace, ids, Progressed(c, inPlace, to), r)
  {
    ProgressKeepsCell(inPlace, publisher, next, ids, c, to);
  }

  lemma ProgressKeepsInv(s: State, k: Key, to: Stage)
    requires Inv(s) && Enabled(s, Progress(k, to))
    ensures Inv(DoProgress(s, k, to))
  {
    var c := At(s, k);
    var u := if Torn(to) then s.(ops := s.ops[c.work.op := s.ops[c.work.op].(failing := true)]) else s;
    if Torn(to) { AbortKeepsInv(s, c.work.op); }
    ProgressKeepsCell(s.inPlace, s.publisher, s.next, s.nextIdentity, c, to);
    forall r | r in s.readers && s.readers[r].key == k
      ensures ReaderOk(s.inPlace, s.publisher, s.next, Progressed(c, s.inPlace, to), s.readers[r])
      ensures IdentityOk(s.inPlace, s.nextIdentity, Progressed(c, s.inPlace, to), s.readers[r])
    {
      ProgressKeepsReader(s.inPlace, s.publisher, s.next, s.nextIdentity, c, to, s.readers[r]);
    }
    assert HolderOk(u.ops, k, c.work);
    PutKeepsInv(u, k, Progressed(c, s.inPlace, to));
  }

  lemma TakePublishKeepsInv(s: State, i: nat)
    requires Inv(s) && Enabled(s, TakePublish(i))
    ensures Inv(s.(publisher := Some(i)))
  {
    var t := s.(publisher := Some(i));
    assert forall k :: At(t, k) == At(s, k);
    forall k ensures CellOk(t.inPlace, t.publisher, t.next, t.nextIdentity, At(t, k)) {
      assert CellOk(s.inPlace, s.publisher, s.next, s.nextIdentity, At(s, k));
    }
  }

  // --------------------------------------------------------- several cells change

  lemma CellAtPlus(cells: map<Key, Cell>, more: map<Key, Cell>, k: Key)
    ensures CellAt(cells + more, k) == if k in more then more[k] else CellAt(cells, k)
  {
  }

  lemma ClaimCell(inPlace: bool, publisher: Option<nat>, next: nat, ids: nat, c: Cell, at: int, bytes: int)
    requires CellOk(inPlace, publisher, next, ids, c)
    ensures CellOk(inPlace, publisher, next + 1, ids, c)
    ensures c.work.Free? ==> CellOk(inPlace, publisher, next + 1, ids, Claimed(c, next, at, bytes))
  {
  }

  lemma ClaimReader(inPlace: bool, publisher: Option<nat>, next: nat, ids: nat, c: Cell, at: int, bytes: int, r: Reader)
    requires ReaderOk(inPlace, publisher, next, c, r) && IdentityOk(inPlace, ids, c, r)
    ensures ReaderOk(inPlace, publisher, next + 1, c, r)
    ensures c.work.Free? && (inPlace ==> !Active(r)) ==>
              && ReaderOk(inPlace, publisher, next + 1, Claimed(c, next, at, bytes), r)
              && IdentityOk(inPlace, ids, Claimed(c, next, at, bytes), r)
  {
  }

  lemma BeginCellsOk(s: State, dates: map<Key, int>, bytes: int)
    requires Inv(s) && forall k :: k in dates ==> Lockable(s, k)
    ensures CellsOk(DoBeginStore(s, dates, bytes)) && FreshensOk(DoBeginStore(s, dates, bytes))
  {
    var t := DoBeginStore(s, dates, bytes);
    forall k
      ensures CellOk(t.inPlace, t.publisher, t.next, t.nextIdentity, At(t, k))
      ensures FreshenOk(t.inPlace, t.readers, k, At(t, k))
    {
      assert FreshenOk(s.inPlace, s.readers, k, At(s, k));
      ClaimCell(s.inPlace, s.publisher, s.next, s.nextIdentity, At(s, k), if k in dates then dates[k] else 0, bytes);
      assert At(t, k) == if k in dates then Claimed(At(s, k), s.next, dates[k], bytes) else At(s, k);
      assert k in dates ==> Lockable(s, k);
    }
  }

  lemma BeginHoldersOk(s: State, dates: map<Key, int>, bytes: int)
    requires Inv(s) && forall k :: k in dates ==> Lockable(s, k)
    ensures HoldersOk(DoBeginStore(s, dates, bytes))
  {
    var t := DoBeginStore(s, dates, bytes);
    forall k ensures HolderOk(t.ops, k, At(t, k).work) {
      assert HolderOk(s.ops, k, At(s, k).work);
      if k in dates { assert At(t, k) == Claimed(At(s, k), s.next, dates[k], bytes); }
    }
    forall i | i in t.ops ensures i < t.next && HoldsAll(t.cells, i, t.ops[i]) {
      if i != s.next && s.ops[i].StoreOp? {
        assert HoldsAll(s.cells, i, s.ops[i]);
        forall k | k in s.ops[i].keys ensures Holds(CellAt(t.cells, k), i) {
          assert k in dates ==> Lockable(s, k);
          assert Holds(CellAt(s.cells, k), i);
        }
      }
    }
  }

  lemma BeginReadersOk(s: State, dates: map<Key, int>, bytes: int)
    requires Inv(s) && forall k :: k in dates ==> Lockable(s, k)
    ensures ReadersOk(DoBeginStore(s, dates, bytes))
  {
    var t := DoBeginStore(s, dates, bytes);
    forall r | r in t.readers
      ensures ReaderOk(t.inPlace, t.publisher, t.next, At(t, t.readers[r].key), t.readers[r])
      ensures IdentityOk(t.inPlace, t.nextIdentity, At(t, t.readers[r].key), t.readers[r])
    {
      var k := s.readers[r].key;
      assert At(t, k) == if k in dates then Claimed(At(s, k), s.next, dates[k], bytes) else At(s, k);
      assert k in dates ==> Lockable(s, k);
      var at := if k in dates then dates[k] else 0;
      ClaimReader(s.inPlace, s.publisher, s.next, s.nextIdentity, At(s, k), at, bytes, s.readers[r]);
    }
  }

  lemma BeginKeepsInv(s: State, dates: map<Key, int>, bytes: int)
    requires Inv(s) && forall k :: k in dates ==> Lockable(s, k)
    ensures Inv(DoBeginStore(s, dates, bytes))
  {
    BeginCellsOk(s, dates, bytes);
    BeginHoldersOk(s, dates, bytes);
    BeginReadersOk(s, dates, bytes);
  }

  /** A Store returns: its keys are free, and `fs` says what it leaves under each of them. */
  function Finished(s: State, i: nat, fs: map<Key, Cell>, ids: nat): State {
    s.(cells := s.cells + fs, ops := s.ops - {i}, publisher := None, nextIdentity := ids)
  }

  ghost predicate Finishes(s: State, i: nat, fs: map<Key, Cell>, ids: nat) {
    && i in s.ops && s.ops[i].StoreOp? && s.publisher == Some(i) && fs.Keys == s.ops[i].keys && s.nextIdentity <= ids
    && forall k :: k in fs ==> fs[k].work.Free? && CellOk(s.inPlace, None, s.next, ids, fs[k])
  }

  lemma FinishCellsOk(s: State, i: nat, fs: map<Key, Cell>, ids: nat)
    requires Inv(s) && Finishes(s, i, fs, ids)
    ensures CellsOk(Finished(s, i, fs, ids)) && FreshensOk(Finished(s, i, fs, ids))
    ensures HoldersOk(Finished(s, i, fs, ids))
  {
    var t := Finished(s, i, fs, ids);
    forall k ensures At(t, k) == if k in fs then fs[k] else At(s, k) { CellAtPlus(s.cells, fs, k); }
    forall k
      ensures CellOk(t.inPlace, t.publisher, t.next, t.nextIdentity, At(t, k))
      ensures FreshenOk(t.inPlace, t.readers, k, At(t, k))
      ensures HolderOk(t.ops, k, At(t, k).work)
    {
      assert CellOk(s.inPlace, s.publisher, s.next, s.nextIdentity, At(s, k));
      assert FreshenOk(s.inPlace, s.readers, k, At(s, k));
      assert HolderOk(s.ops, k, At(s, k).work);
    }
    forall j | j in t.ops ensures j < t.next && HoldsAll(t.cells, j, t.ops[j]) {
      assert HoldsAll(s.cells, j, s.ops[j]) && HoldsAll(s.cells, i, s.ops[i]);
      if s.ops[j].StoreOp? {
        forall k | k in s.ops[j].keys ensures Holds(CellAt(t.cells, k), j) {
          assert k in fs ==> Holds(CellAt(s.cells, k), i);
          assert Holds(CellAt(s.cells, k), j);
        }
      }
    }
  }

  lemma FinishKeepsInv(s: State, i: nat, fs: map<Key, Cell>, ids: nat)
    requires Inv(s) && Finishes(s, i, fs, ids)
    requires forall r :: r in s.readers && s.readers[r].key in fs ==>
             IdentityOk(s.inPlace, ids, fs[s.readers[r].key], s.readers[r])
    ensures Inv(Finished(s, i, fs, ids))
  {
    var t := Finished(s, i, fs, ids);
    FinishCellsOk(s, i, fs, ids);
    forall r | r in t.readers
      ensures ReaderOk(t.inPlace, t.publisher, t.next, At(t, t.readers[r].key), t.readers[r])
      ensures IdentityOk(t.inPlace, t.nextIdentity, At(t, t.readers[r].key), t.readers[r])
    {
      CellAtPlus(s.cells, fs, s.readers[r].key);
      assert ReaderOk(s.inPlace, s.publisher, s.next, At(s, s.readers[r].key), s.readers[r]);
    }
  }

  lemma CommitCell(inPlace: bool, publisher: Option<nat>, next: nat, ids: nat, c: Cell)
    requires CellOk(inPlace, publisher, next, ids, c) && c.work.Store?
    requires c.work.stage == if inPlace then Ready else Renamed
    ensures CellOk(inPlace, None, next, ids + 1, Committed(c, ids))
    ensures Committed(c, ids).slot == New(c.work.op, c.work.at, c.work.bytes)
  {
  }

  lemma CommitReader(inPlace: bool, publisher: Option<nat>, next: nat, ids: nat, c: Cell, r: Reader)
    requires CellOk(inPlace, publisher, next, ids, c) && c.work.Store?
    requires c.work.stage == if inPlace then Ready else Renamed
    requires ReaderOk(inPlace, publisher, next, c, r) && IdentityOk(inPlace, ids, c, r)
    ensures IdentityOk(inPlace, ids + 1, Committed(c, ids), r)
  {
  }

  lemma CommitStage(s: State, i: nat, k: Key)
    requires Inv(s) && Enabled(s, CommitStore(i)) && k in s.ops[i].keys
    ensures At(s, k).work.Store? && At(s, k).work.stage == if s.inPlace then Ready else Renamed
    ensures CellOk(s.inPlace, s.publisher, s.next, s.nextIdentity, At(s, k))
  {
    assert StageOf(s, k, i, if s.inPlace then Ready else Renamed);
  }

  lemma CommitFinishes(s: State, i: nat)
    requires Inv(s) && Enabled(s, CommitStore(i))
    ensures Finishes(s, i, Commitment(s, i), s.nextIdentity + 1)
  {
    var fs := Commitment(s, i);
    forall k | k in fs ensures fs[k].work.Free? && CellOk(s.inPlace, None, s.next, s.nextIdentity + 1, fs[k]) {
      CommitStage(s, i, k);
      CommitCell(s.inPlace, s.publisher, s.next, s.nextIdentity, At(s, k));
    }
  }

  lemma CommitKeepsInv(s: State, i: nat)
    requires Inv(s) && Enabled(s, CommitStore(i))
    ensures Inv(DoCommitStore(s, i))
  {
    var fs := Commitment(s, i);
    CommitFinishes(s, i);
    forall r | r in s.readers && s.readers[r].key in fs
      ensures IdentityOk(s.inPlace, s.nextIdentity + 1, fs[s.readers[r].key], s.readers[r])
    {
      CommitStage(s, i, s.readers[r].key);
      CommitReader(s.inPlace, s.publisher, s.next, s.nextIdentity, At(s, s.readers[r].key), s.readers[r]);
    }
    FinishKeepsInv(s, i, fs, s.nextIdentity + 1);
  }

  lemma EndCell(inPlace: bool, publisher: Option<nat>, next: nat, ids: nat, c: Cell)
    requires CellOk(inPlace, publisher, next, ids, c) && c.work.Store?
    requires c.work.stage.Discarded? || !Touched(inPlace, c.work.stage)
    ensures CellOk(inPlace, None, next, ids, c.(work := Free))
    ensures forall r :: IdentityOk(inPlace, ids, c, r) ==> IdentityOk(inPlace, ids, c.(work := Free), r)
  {
  }

  lemma EndKeepsInv(s: State, i: nat)
    requires Inv(s) && Enabled(s, EndStore(i))
    ensures Inv(DoEndStore(s, i))
  {
    var fs := map k | k in s.ops[i].keys :: At(s, k).(work := Free);
    forall k | k in fs
      ensures fs[k].work.Free? && CellOk(s.inPlace, None, s.next, s.nextIdentity, fs[k])
      ensures forall r :: IdentityOk(s.inPlace, s.nextIdentity, At(s, k), r) ==>
                IdentityOk(s.inPlace, s.nextIdentity, fs[k], r)
    {
      assert HoldsAll(s.cells, i, s.ops[i]) && Holds(CellAt(s.cells, k), i);
      assert StageOf(s, k, i, Discarded) || !Published1(s.inPlace, At(s, k));
      EndCell(s.inPlace, s.publisher, s.next, s.nextIdentity, At(s, k));
    }
    FinishKeepsInv(s, i, fs, s.nextIdentity);
  }

  // ------------------------------------------------------------ readers and Freshen

  lemma ReaderKeepsInv(s: State, r: nat, o: Reader)
    requires Inv(s) && (r in s.readers ==> !s.readers[r].Retrieved?) && (Active(o) ==> s.publisher.None?)
    requires ReaderOk(s.inPlace, s.publisher, s.next, At(s, o.key), o)
    requires IdentityOk(s.inPlace, s.nextIdentity, At(s, o.key), o)
    ensures Inv(s.(readers := s.readers[r := o]))
  {
    var t := s.(readers := s.readers[r := o]);
    assert forall k :: At(t, k) == At(s, k);
    forall k ensures FreshenOk(t.inPlace, t.readers, k, At(t, k)) {
      assert FreshenOk(s.inPlace, s.readers, k, At(s, k));
    }
  }

  lemma OpenKeepsInv(s: State, r: nat, k: Key)
    requires Inv(s) && Enabled(s, OpenBody(r, k))
    ensures Inv(DoOpenBody(s, r, k))
  {
    assert CellOk(s.inPlace, s.publisher, s.next, s.nextIdentity, At(s, k));
    ReaderKeepsInv(s, r, DoOpenBody(s, r, k).readers[r]);
  }

  lemma ReadHeaderKeepsInv(s: State, r: nat)
    requires Inv(s) && Enabled(s, ReadHeader(r))
    ensures Inv(DoReadHeader(s, r))
  {
    ReaderKeepsInv(s, r, DoReadHeader(s, r).readers[r]);
  }

  lemma JudgeKeepsInv(s: State, r: nat)
    requires Inv(s) && Enabled(s, Judge(r))
    ensures Inv(DoJudge(s, r))
  {
    ReaderKeepsInv(s, r, DoJudge(s, r).readers[r]);
  }

  /** One more number has been given out. */
  lemma NextKeepsInv(s: State)
    requires Inv(s)
    ensures Inv(s.(next := s.next + 1))
  {
    var t := s.(next := s.next + 1);
    assert forall k :: At(t, k) == At(s, k);
    forall k ensures CellOk(t.inPlace, t.publisher, t.next, t.nextIdentity, At(t, k)) {
      ClaimCell(s.inPlace, s.publisher, s.next, s.nextIdentity, At(s, k), 0, 0);
    }
    forall j | j in t.readers
      ensures ReaderOk(t.inPlace, t.publisher, t.next, At(t, t.readers[j].key), t.readers[j])
    {
      ClaimReader(s.inPlace, s.publisher, s.next, s.nextIdentity, At(s, s.readers[j].key), 0, 0, s.readers[j]);
    }
  }

  lemma CheckFreshenKeepsInv(s: State, k: Key, r: Option<nat>)
    requires Inv(s)
    ensures Inv(DoCheckFreshen(s, k, r))
  {
    var u, t := s.(next := s.next + 1), DoCheckFreshen(s, k, r);
    NextKeepsInv(s);
    assert forall j :: At(t, j) == At(u, j);
    assert HoldersOk(t) by {
      forall j ensures HolderOk(t.ops, j, At(t, j).work) {
        assert HolderOk(s.ops, j, At(s, j).work) && CellOk(s.inPlace, s.publisher, s.next, s.nextIdentity, At(s, j));
      }
      forall i | i in t.ops ensures i < t.next && HoldsAll(t.cells, i, t.ops[i]) {
        assert i != s.next ==> HoldsAll(s.cells, i, s.ops[i]);
      }
    }
  }

  lemma FreshenWriteKeepsCell(inPlace: bool, publisher: Option<nat>, next: nat, ids: nat, c: Cell, w: Write, bytes: int)
    requires CellOk(inPlace, publisher, next, ids, c) && c.work.Freshen? && c.work.phase.Verified? && Readable(c.slot)
    ensures CellOk(inPlace, publisher, next + 1, ids, FreshenWrite(c, inPlace, w, bytes, next))
    ensures forall r :: ReaderOk(inPlace, publisher, next, c, r) ==>
              ReaderOk(inPlace, publisher, next + 1, FreshenWrite(c, inPlace, w, bytes, next), r)
    ensures forall r :: IdentityOk(inPlace, ids, c, r) ==>
              IdentityOk(inPlace, ids, FreshenWrite(c, inPlace, w, bytes, next), r)
  {
  }

  lemma FreshenWriteKeepsInv(s: State, k: Key, w: Write, bytes: int)
    requires Inv(s) && Enabled(s, WriteFreshen(k, w, bytes))
    ensures Inv(DoWriteFreshen(s, k, w, bytes))
  {
    var u := s.(next := s.next + 1);
    NextKeepsInv(s);
    FreshenWriteKeepsCell(s.inPlace, s.publisher, s.next, s.nextIdentity, At(s, k), w, bytes);
    assert HolderOk(s.ops, k, At(s, k).work) && FreshenOk(s.inPlace, s.readers, k, At(s, k));
    assert At(u, k) == At(s, k);
    PutKeepsInv(u, k, FreshenWrite(At(s, k), s.inPlace, w, bytes, s.next));
  }

  /** A lock changes hands between a free key and a Freshen; nothing else about the key changes. */
  lemma LockKeepsReader(inPlace: bool, publisher: Option<nat>, next: nat, ids: nat, c: Cell, w: Work, r: Reader)
    requires ReaderOk(inPlace, publisher, next, c, r) && IdentityOk(inPlace, ids, c, r) && c.work.Free?
    requires w.Freshen? && w.phase.Locked?
    requires inPlace ==> !Active(r)
    ensures ReaderOk(inPlace, publisher, next, c.(work := w), r) && IdentityOk(inPlace, ids, c.(work := w), r)
  {
  }

  lemma LockHoldersOk(s: State, i: nat)
    requires Inv(s) && Enabled(s, LockFreshen(i))
    ensures HoldersOk(DoLockFreshen(s, i))
  {
    var t, k := DoLockFreshen(s, i), s.ops[i].key;
    var w := Freshen(i, s.ops[i].resource, Locked);
    assert forall j :: At(t, j) == if j == k then At(s, k).(work := w) else At(s, j);
    forall j ensures HolderOk(t.ops, j, At(t, j).work) { assert HolderOk(s.ops, j, At(s, j).work); }
    forall j | j in t.ops ensures j < t.next && HoldsAll(t.cells, j, t.ops[j]) {
      assert HoldsAll(s.cells, j, s.ops[j]);
      if s.ops[j].StoreOp? {
        forall x | x in s.ops[j].keys ensures Holds(CellAt(t.cells, x), j) { assert Holds(CellAt(s.cells, x), j); }
      }
    }
  }

  lemma LockReadersOk(s: State, i: nat)
    requires Inv(s) && Enabled(s, LockFreshen(i))
    ensures ReadersOk(DoLockFreshen(s, i))
  {
    var t, k := DoLockFreshen(s, i), s.ops[i].key;
    var w := Freshen(i, s.ops[i].resource, Locked);
    assert forall j :: At(t, j) == if j == k then At(s, k).(work := w) else At(s, j);
    forall r | r in t.readers
      ensures ReaderOk(t.inPlace, t.publisher, t.next, At(t, t.readers[r].key), t.readers[r])
      ensures IdentityOk(t.inPlace, t.nextIdentity, At(t, t.readers[r].key), t.readers[r])
    {
      assert ReaderOk(s.inPlace, s.publisher, s.next, At(s, s.readers[r].key), s.readers[r]);
      if s.readers[r].key == k {
        LockKeepsReader(s.inPlace, s.publisher, s.next, s.nextIdentity, At(s, k), w, s.readers[r]);
      }
    }
  }

  lemma LockFreshenKeepsInv(s: State, i: nat)
    requires Inv(s) && Enabled(s, LockFreshen(i))
    ensures Inv(DoLockFreshen(s, i))
  {
    var t, k := DoLockFreshen(s, i), s.ops[i].key;
    LockHoldersOk(s, i);
    LockReadersOk(s, i);
    forall j
      ensures CellOk(t.inPlace, t.publisher, t.next, t.nextIdentity, At(t, j))
      ensures FreshenOk(t.inPlace, t.readers, j, At(t, j))
    {
      assert At(t, j) == if j == k then At(s, k).(work := Freshen(i, s.ops[i].resource, Locked)) else At(s, j);
      assert CellOk(s.inPlace, s.publisher, s.next, s.nextIdentity, At(s, j));
      assert FreshenOk(s.inPlace, s.readers, j, At(s, j));
    }
  }

  /** A Freshen returns and leaves `d` under its key. */
  function Left(s: State, k: Key, d: Cell, ids: nat): State
    requires At(s, k).work.Freshen?
  {
    DoLeaveFreshen(s, k, d).(nextIdentity := ids)
  }

  lemma LeaveHoldersOk(s: State, k: Key, d: Cell, ids: nat)
    requires Inv(s) && At(s, k).work.Freshen? && d.work.Free?
    ensures HoldersOk(Left(s, k, d, ids))
  {
    var t, i := Left(s, k, d, ids), At(s, k).work.op;
    assert forall j :: At(t, j) == if j == k then d else At(s, j);
    assert HolderOk(s.ops, k, At(s, k).work);
    forall j ensures HolderOk(t.ops, j, At(t, j).work) { assert HolderOk(s.ops, j, At(s, j).work); }
    forall j | j in t.ops ensures j < t.next && HoldsAll(t.cells, j, t.ops[j]) {
      assert HoldsAll(s.cells, j, s.ops[j]);
      if s.ops[j].StoreOp? {
        forall x | x in s.ops[j].keys ensures Holds(CellAt(t.cells, x), j) { assert Holds(CellAt(s.cells, x), j); }
      }
    }
  }

  lemma LeaveCellsOk(s: State, k: Key, d: Cell, ids: nat)
    requires Inv(s) && At(s, k).work.Freshen? && d.work.Free? && s.nextIdentity <= ids
    requires CellOk(s.inPlace, None, s.next, ids, d)
    ensures CellsOk(Left(s, k, d, ids)) && FreshensOk(Left(s, k, d, ids))
  {
    var t, i := Left(s, k, d, ids), At(s, k).work.op;
    assert forall j :: At(t, j) == if j == k then d else At(s, j);
    assert HolderOk(s.ops, k, At(s, k).work);
    forall j
      ensures CellOk(t.inPlace, t.publisher, t.next, t.nextIdentity, At(t, j))
      ensures FreshenOk(t.inPlace, t.readers, j, At(t, j))
    {
      assert CellOk(s.inPlace, s.publisher, s.next, s.nextIdentity, At(s, j));
      assert FreshenOk(s.inPlace, s.readers, j, At(s, j));
      assert HolderOk(s.ops, j, At(s, j).work);
    }
  }

  lemma LeaveKeepsInv(s: State, k: Key, d: Cell, ids: nat)
    requires Inv(s) && At(s, k).work.Freshen? && d.work.Free? && s.nextIdentity <= ids
    requires CellOk(s.inPlace, None, s.next, ids, d)
    requires forall r :: r in s.readers && s.readers[r].key == k ==>
               ReaderOk(s.inPlace, None, s.next, d, s.readers[r]) && IdentityOk(s.inPlace, ids, d, s.readers[r])
    ensures Inv(Left(s, k, d, ids))
  {
    var t := Left(s, k, d, ids);
    assert forall j :: At(t, j) == if j == k then d else At(s, j);
    LeaveHoldersOk(s, k, d, ids);
    LeaveCellsOk(s, k, d, ids);
    forall r | r in t.readers
      ensures ReaderOk(t.inPlace, t.publisher, t.next, At(t, t.readers[r].key), t.readers[r])
      ensures IdentityOk(t.inPlace, t.nextIdentity, At(t, t.readers[r].key), t.readers[r])
    {
      assert ReaderOk(s.inPlace, s.publisher, s.next, At(s, s.readers[r].key), s.readers[r]);
      assert IdentityOk(s.inPlace, s.nextIdentity, At(s, s.readers[r].key), s.readers[r]);
    }
  }

  lemma FreeKeepsCell(inPlace: bool, publisher: Option<nat>, next: nat, ids: nat, c: Cell)
    requires CellOk(inPlace, publisher, next, ids, c) && c.work.Freshen?
    ensures CellOk(inPlace, None, next, ids, c.(work := Free))
    ensures forall r :: ReaderOk(inPlace, publisher, next, c, r) ==> ReaderOk(inPlace, None, next, c.(work := Free), r)
    ensures forall r :: IdentityOk(inPlace, ids, c, r) ==> IdentityOk(inPlace, ids, c.(work := Free), r)
  {
  }

  lemma LeaveFreshenKeepsInv(s: State, k: Key)
    requires Inv(s) && At(s, k).work.Freshen?
    ensures Inv(DoLeaveFreshen(s, k, At(s, k)))
  {
    FreeKeepsCell(s.inPlace, s.publisher, s.next, s.nextIdentity, At(s, k));
    LeaveKeepsInv(s, k, At(s, k).(work := Free), s.nextIdentity);
  }

  lemma CheckedKeepsCell(inPlace: bool, publisher: Option<nat>, next: nat, ids: nat, c: Cell, now: int)
    requires CellOk(inPlace, publisher, next, ids, c) && c.work.Freshen? && c.work.phase.Locked? && Readable(c.slot)
    ensures CellOk(inPlace, publisher, next, ids, Checked(c, now))
    ensures forall r :: ReaderOk(inPlace, publisher, next, c, r) ==>
              ReaderOk(inPlace, publisher, next, Checked(c, now), r)
    ensures forall r :: IdentityOk(inPlace, ids, c, r) ==> IdentityOk(inPlace, ids, Checked(c, now), r)
  {
  }

  lemma VerifyKeepsInv(s: State, k: Key)
    requires Inv(s) && Enabled(s, VerifyFreshen(k))
    ensures Inv(DoVerifyFreshen(s, k))
  {
    var c := At(s, k);
    if Verifies(s, k) {
      assert HolderOk(s.ops, k, c.work);
      CheckedKeepsCell(s.inPlace, s.publisher, s.next, s.nextIdentity, c, s.clock);
      assert FreshenOk(s.inPlace, s.readers, k, Checked(c, s.clock));
      PutKeepsInv(s, k, Checked(c, s.clock));
    } else {
      LeaveFreshenKeepsInv(s, k);
    }
  }

  lemma FailKeepsCell(inPlace: bool, publisher: Option<nat>, next: nat, ids: nat, c: Cell, b: bool, h: bool, at: int)
    requires CellOk(inPlace, publisher, next, ids, c) && c.work.Freshen?
    ensures CellOk(inPlace, None, next, ids, Dropped(c, b, h, at).(work := Free))
    ensures forall r :: ReaderOk(inPlace, publisher, next, c, r) ==>
              ReaderOk(inPlace, None, next, Dropped(c, b, h, at).(work := Free), r)
    ensures forall r :: IdentityOk(inPlace, ids, c, r) ==>
              IdentityOk(inPlace, ids, Dropped(c, b, h, at).(work := Free), r)
  {
  }

  lemma FailFreshenKeepsInv(s: State, k: Key, b: bool, h: bool, at: int)
    requires Inv(s) && At(s, k).work.Freshen?
    ensures Inv(DoLeaveFreshen(s, k, Dropped(At(s, k), b, h, at)))
  {
    FailKeepsCell(s.inPlace, s.publisher, s.next, s.nextIdentity, At(s, k), b, h, at);
    LeaveKeepsInv(s, k, Dropped(At(s, k), b, h, at).(work := Free), s.nextIdentity);
  }

  lemma RenewCell(inPlace: bool, publisher: Option<nat>, next: nat, ids: nat, c: Cell)
    requires CellOk(inPlace, publisher, next, ids, c) && c.work.Freshen? && c.work.phase.Written? && publisher.Some?
    ensures CellOk(inPlace, None, next, ids + 1, FreshenCommitted(c, ids))
  {
  }

  lemma RenewReader(inPlace: bool, publisher: Option<nat>, next: nat, ids: nat, c: Cell, r: Reader)
    requires CellOk(inPlace, publisher, next, ids, c) && c.work.Freshen? && c.work.phase.Written? && publisher.Some?
    requires ReaderOk(inPlace, publisher, next, c, r) && IdentityOk(inPlace, ids, c, r)
    ensures ReaderOk(inPlace, None, next, FreshenCommitted(c, ids), r)
    ensures IdentityOk(inPlace, ids + 1, FreshenCommitted(c, ids), r)
  {
  }

  lemma RenewHoldersOk(s: State, k: Key)
    requires Inv(s) && Enabled(s, CommitFreshen(k))
    ensures HoldersOk(DoCommitFreshen(s, k))
  {
    var t, d := DoCommitFreshen(s, k), FreshenCommitted(At(s, k), s.nextIdentity);
    assert forall j :: At(t, j) == if j == k then d else At(s, j);
    forall j ensures HolderOk(t.ops, j, At(t, j).work) { assert HolderOk(s.ops, j, At(s, j).work); }
    forall j | j in t.ops ensures j < t.next && HoldsAll(t.cells, j, t.ops[j]) {
      assert HoldsAll(s.cells, j, s.ops[j]);
      if s.ops[j].StoreOp? {
        forall x | x in s.ops[j].keys ensures Holds(CellAt(t.cells, x), j) { assert Holds(CellAt(s.cells, x), j); }
      }
    }
  }

  lemma RenewCellsOk(s: State, k: Key)
    requires Inv(s) && Enabled(s, CommitFreshen(k))
    ensures CellsOk(DoCommitFreshen(s, k)) && FreshensOk(DoCommitFreshen(s, k))
  {
    var t, d := DoCommitFreshen(s, k), FreshenCommitted(At(s, k), s.nextIdentity);
    assert forall j :: At(t, j) == if j == k then d else At(s, j);
    assert HolderOk(s.ops, k, At(s, k).work);
    forall j
      ensures CellOk(t.inPlace, t.publisher, t.next, t.nextIdentity, At(t, j))
      ensures FreshenOk(t.inPlace, t.readers, j, At(t, j))
    {
      assert CellOk(s.inPlace, s.publisher, s.next, s.nextIdentity, At(s, j));
      assert FreshenOk(s.inPlace, s.readers, j, At(s, j)) && HolderOk(s.ops, j, At(s, j).work);
      if j == k { RenewCell(s.inPlace, s.publisher, s.next, s.nextIdentity, At(s, k)); }
    }
  }

  lemma CommitFreshenKeepsInv(s: State, k: Key)
    requires Inv(s) && Enabled(s, CommitFreshen(k))
    ensures Inv(DoCommitFreshen(s, k))
  {
    var t, d := DoCommitFreshen(s, k), FreshenCommitted(At(s, k), s.nextIdentity);
    assert forall j :: At(t, j) == if j == k then d else At(s, j);
    RenewHoldersOk(s, k);
    RenewCellsOk(s, k);
    forall r | r in t.readers
      ensures ReaderOk(t.inPlace, t.publisher, t.next, At(t, t.readers[r].key), t.readers[r])
      ensures IdentityOk(t.inPlace, t.nextIdentity, At(t, t.readers[r].key), t.readers[r])
    {
      var o := s.readers[r];
      assert CellOk(s.inPlace, s.publisher, s.next, s.nextIdentity, At(s, k));
      assert ReaderOk(s.inPlace, s.publisher, s.next, At(s, o.key), o);
      assert IdentityOk(s.inPlace, s.nextIdentity, At(s, o.key), o);
      if o.key == k { RenewReader(s.inPlace, s.publisher, s.next, s.nextIdentity, At(s, k), o); }
    }
  }

  /** The resource of a Freshen that has committed is told what the ledger and the file hold. */
  lemma SwapReaderKeepsInv(s: State, k: Key, r: nat, o: Reader)
    requires Inv(s) && r in s.readers && s.readers[r].Retrieved? && o.Retrieved? && o.key == s.readers[r].key == k
    requires ReaderOk(s.inPlace, s.publisher, s.next, At(s, k), o)
    requires IdentityOk(s.inPlace, s.nextIdentity, At(s, k), o)
    requires !s.inPlace || o.identity.Some? ==> SameBody(At(s, k), o)
    ensures Inv(s.(readers := s.readers[r := o]))
  {
    var t := s.(readers := s.readers[r := o]);
    assert forall j :: At(t, j) == At(s, j);
    forall j ensures FreshenOk(t.inPlace, t.readers, j, At(t, j)) {
      assert FreshenOk(s.inPlace, s.readers, j, At(s, j));
    }
  }

  /** The resource has its key's identity again, unless an eviction came first. */
  lemma NameKeepsReader(inPlace: bool, publisher: Option<nat>, next: nat, ids: nat, c: Cell, r: Reader)
    requires CellOk(inPlace, publisher, next, ids, c) && r.Retrieved?
    requires ReaderOk(inPlace, publisher, next, c, r) && IdentityOk(inPlace, ids, c, r)
    requires !inPlace || r.identity.Some? ==> SameBody(c, r)
    ensures ReaderOk(inPlace, publisher, next, c, Identified(r, c)) && IdentityOk(inPlace, ids, c, Identified(r, c))
    ensures !inPlace || Identified(r, c).identity.Some? ==> SameBody(c, Identified(r, c))
  {
  }

  /** The phase moves on after the commit, and nothing else. */
  lemma NamedKeepsCell(inPlace: bool, publisher: Option<nat>, next: nat, ids: nat, c: Cell)
    requires CellOk(inPlace, publisher, next, ids, c) && c.work.Freshen? && c.work.phase.Renewed?
    ensures CellOk(inPlace, publisher, next, ids, Nominate(c))
    ensures forall r :: ReaderOk(inPlace, publisher, next, c, r) ==> ReaderOk(inPlace, publisher, next, Nominate(c), r)
    ensures forall r :: IdentityOk(inPlace, ids, c, r) ==> IdentityOk(inPlace, ids, Nominate(c), r)
    ensures forall readers, k :: FreshenOk(inPlace, readers, k, c) ==> FreshenOk(inPlace, readers, k, Nominate(c))
  {
  }

  lemma NominateKeepsInv(s: State, k: Key)
    requires Inv(s) && At(s, k).work.Freshen? && At(s, k).work.phase.Renewed?
    ensures Inv(Put(s, k, Nominate(At(s, k))))
  {
    NamedKeepsCell(s.inPlace, s.publisher, s.next, s.nextIdentity, At(s, k));
    assert HolderOk(s.ops, k, At(s, k).work) && FreshenOk(s.inPlace, s.readers, k, At(s, k));
    PutKeepsInv(s, k, Nominate(At(s, k)));
  }

  lemma ReadIdentityKeepsInv(s: State, k: Key)
    requires Inv(s) && Enabled(s, ReadIdentity(k))
    ensures Inv(DoReadIdentity(s, k))
  {
    var c, u := At(s, k), Put(s, k, Nominate(At(s, k)));
    NominateKeepsInv(s, k);
    if c.work.resource.Some? {
      assert At(u, k) == Nominate(c) && FreshenOk(u.inPlace, u.readers, k, Nominate(c));
      var r := c.work.resource.value;
      NameKeepsReader(u.inPlace, u.publisher, u.next, u.nextIdentity, Nominate(c), u.readers[r]);
      SwapReaderKeepsInv(u, k, r, Identified(s.readers[r], Nominate(c)));
    }
  }

  lemma AdvanceRecordKeepsInv(s: State, k: Key)
    requires Inv(s) && Enabled(s, AdvanceRecord(k))
    ensures Inv(DoAdvanceRecord(s, k))
  {
    var c := At(s, k);
    LeaveFreshenKeepsInv(s, k);
    if c.work.resource.Some? {
      var u := DoLeaveFreshen(s, k, c);
      assert FreshenOk(s.inPlace, s.readers, k, c) && CellOk(s.inPlace, s.publisher, s.next, s.nextIdentity, c);
      var o := s.readers[c.work.resource.value];
      assert ReaderOk(s.inPlace, s.publisher, s.next, c, o) && IdentityOk(s.inPlace, s.nextIdentity, c, o);
      assert At(u, k) == c.(work := Free);
      SwapReaderKeepsInv(u, k, c.work.resource.value, Advanced(s.inPlace, o, c, c.work.phase.header));
    }
  }

  // --------------------------------------------------------------- whole runs

  predicate Environment(step: Step) {
    step.Tick? || step.Mark? || step.PassEntry? || step.DropMarker? || step.Evict?
  }

  predicate Reading(step: Step) {
    step.OpenBody? || step.ReadHeader? || step.Judge?
  }

  predicate Preparing(step: Step) {
    step.BeginStore? || step.Progress? || step.Abort? || step.TakePublish?
  }

  predicate Ending(step: Step) {
    step.CommitStore? || step.DiscardKey? || step.EndStore?
  }

  predicate Checking(step: Step) {
    step.CheckFreshen? || step.CheckHead? || step.LockFreshen? || step.VerifyFreshen?
  }

  predicate Renewing(step: Step) {
    step.WriteFreshen? || step.CommitFreshen? || step.FailFreshen?
  }

  predicate Returning(step: Step) {
    step.ReadIdentity? || step.AdvanceRecord? || step.LeaveFreshen?
  }

  lemma TickKeepsInv(s: State, to: int)
    requires Inv(s)
    ensures Inv(s.(clock := to))
  {
    assert forall k :: At(s.(clock := to), k) == At(s, k);
  }

  lemma EnvironmentKeepsInv(s: State, step: Step)
    requires Inv(s) && Enabled(s, step) && Environment(step)
    ensures Inv(Apply(s, step))
  {
    match step
    case Tick(to) => TickKeepsInv(s, to);
    case Mark(k) => MarkKeepsInv(s, k, At(s, k).(marker := Later(At(s, k).marker, s.clock)));
    case PassEntry(k) => MarkKeepsInv(s, k, At(s, k).(noted := At(s, k).marker));
    case DropMarker(k) => MarkKeepsInv(s, k, At(s, k).(marker := None));
    case Evict(k, b, h) => EvictKeepsInv(s, k, b, h);
  }

  lemma ReadingKeepsInv(s: State, step: Step)
    requires Inv(s) && Enabled(s, step) && Reading(step)
    ensures Inv(Apply(s, step))
  {
    match step
    case OpenBody(r, k) => OpenKeepsInv(s, r, k);
    case ReadHeader(r) => ReadHeaderKeepsInv(s, r);
    case Judge(r) => JudgeKeepsInv(s, r);
  }

  lemma PreparingKeepsInv(s: State, step: Step)
    requires Inv(s) && Enabled(s, step) && Preparing(step)
    ensures Inv(Apply(s, step))
  {
    match step
    case BeginStore(dates, bytes) => BeginKeepsInv(s, dates, bytes);
    case Progress(k, to) => ProgressKeepsInv(s, k, to);
    case Abort(i) => AbortKeepsInv(s, i);
    case TakePublish(i) => TakePublishKeepsInv(s, i);
  }

  lemma EndingKeepsInv(s: State, step: Step)
    requires Inv(s) && Enabled(s, step) && Ending(step)
    ensures Inv(Apply(s, step))
  {
    match step
    case CommitStore(i) => CommitKeepsInv(s, i);
    case DiscardKey(k, b, h) => DiscardKeepsInv(s, k, b, h);
    case EndStore(i) => EndKeepsInv(s, i);
  }

  lemma CheckingKeepsInv(s: State, step: Step)
    requires Inv(s) && Enabled(s, step) && Checking(step)
    ensures Inv(Apply(s, step))
  {
    match step
    case CheckFreshen(r, _) => CheckFreshenKeepsInv(s, s.readers[r].key, Some(r));
    case CheckHead(k, _) => CheckFreshenKeepsInv(s, k, None);
    case LockFreshen(i) => LockFreshenKeepsInv(s, i);
    case VerifyFreshen(k) => VerifyKeepsInv(s, k);
  }

  lemma RenewingKeepsInv(s: State, step: Step)
    requires Inv(s) && Enabled(s, step) && Renewing(step)
    ensures Inv(Apply(s, step))
  {
    match step
    case WriteFreshen(k, w, bytes) => FreshenWriteKeepsInv(s, k, w, bytes);
    case CommitFreshen(k) => CommitFreshenKeepsInv(s, k);
    case FailFreshen(k, b, h) => FailFreshenKeepsInv(s, k, b, h, At(s, k).work.phase.at);
  }

  lemma ReturningKeepsInv(s: State, step: Step)
    requires Inv(s) && Enabled(s, step) && Returning(step)
    ensures Inv(Apply(s, step))
  {
    match step
    case ReadIdentity(k) => ReadIdentityKeepsInv(s, k);
    case AdvanceRecord(k) => AdvanceRecordKeepsInv(s, k);
    case LeaveFreshen(k) => LeaveFreshenKeepsInv(s, k);
  }

  lemma StepKeepsInv(s: State, step: Step)
    requires Inv(s) && Enabled(s, step)
    ensures Inv(Apply(s, step))
  {
    if Environment(step) { EnvironmentKeepsInv(s, step); }
    else if Reading(step) { ReadingKeepsInv(s, step); }
    else if Preparing(step) { PreparingKeepsInv(s, step); }
    else if Ending(step) { EndingKeepsInv(s, step); }
    else if Checking(step) { CheckingKeepsInv(s, step); }
    else if Renewing(step) { RenewingKeepsInv(s, step); }
    else { ReturningKeepsInv(s, step); }
  }

  ghost predicate IsRun(run: seq<State>, steps: seq<Step>) {
    && |run| == |steps| + 1
    && run[0] == Init(run[0].inPlace, run[0].clock)
    && forall i :: 0 <= i < |steps| ==> Enabled(run[i], steps[i]) && run[i + 1] == Apply(run[i], steps[i])
  }

  lemma InitInv(inPlace: bool, clock: int)
    ensures Inv(Init(inPlace, clock))
  {
    assert forall k :: At(Init(inPlace, clock), k) == EMPTY;
  }

  lemma {:induction false} RunInv(run: seq<State>, steps: seq<Step>, i: nat)
    requires IsRun(run, steps) && i < |run|
    ensures Inv(run[i])
  {
    if i == 0 {
      InitInv(run[0].inPlace, run[0].clock);
    } else {
      RunInv(run, steps, i - 1);
      StepKeepsInv(run[i - 1], steps[i - 1]);
    }
  }

  // ------------------------------------------------------ dates and markers

  predicate HeaderBy(s: Slot, t: int) {
    s.header.Some? && s.header.value.Record? ==> s.header.value.at <= t
  }

  /** The marker is no earlier than the ledger's date and the header's, so Cleanup did not pass it. */
  predicate Outdated(c: Cell, s: Slot) {
    && c.marker.Some? && c.entry.Some? && c.entry.value.at <= c.marker.value && HeaderBy(s, c.marker.value)
    && c.noted != c.marker
  }

  predicate WorkBy(w: Work, t: int) {
    && (w.Store? ==> w.at <= t)
    && (w.Freshen? && (w.phase.Verified? || w.phase.Stopped?) ==> w.phase.at <= t)
    && (w.Freshen? && w.phase.Written? && w.phase.header.Record? ==> w.phase.header.at <= t)
  }

  /** No date is ahead of the clock, and a residue is marked until Freshen has dated its header anew. */
  predicate DatesOk(clock: int, c: Cell) {
    && HeaderBy(c.slot, clock) && HeaderBy(Base(c), clock) && WorkBy(c.work, clock)
    && (c.entry.Some? ==> c.entry.value.at <= clock)
    && (c.residue && !c.redated ==> Outdated(c, Base(c)))
    && (c.work.Store? && c.work.stage.Discarded? && Readable(c.slot) ==> Outdated(c, c.slot))
    && (c.noted.Some? ==> c.noted.value < clock)
  }

  /** A retrieval that opened such a residue finds it marked. */
  predicate ReaderDates(c: Cell, r: Reader) {
    r.past.residue && !r.past.redated ==>
      && (r.Opened? && c.slot.header.Some? && c.slot.header.value.Record? ==> Marked(c.marker, c.slot.header.value.at))
      && (r.Read? && r.header.Record? ==> Marked(c.marker, r.header.at))
  }

  ghost predicate Dated(s: State) {
    && (forall k :: DatesOk(s.clock, At(s, k)))
    && (forall r :: r in s.readers ==> ReaderDates(At(s, s.readers[r].key), s.readers[r]))
  }

  lemma PutKeepsDates(s: State, k: Key, d: Cell)
    requires Dated(s) && DatesOk(s.clock, d)
    requires forall r :: r in s.readers && s.readers[r].key == k ==> ReaderDates(d, s.readers[r])
    ensures Dated(Put(s, k, d))
  {
    var t := Put(s, k, d);
    assert forall j :: At(t, j) == if j == k then d else At(s, j);
  }

  lemma MarkDates(clock: int, c: Cell)
    requires DatesOk(clock, c)
    ensures DatesOk(clock, c.(marker := Later(c.marker, clock)))
    ensures forall r :: ReaderDates(c, r) ==> ReaderDates(c.(marker := Later(c.marker, clock)), r)
  {
  }

  lemma DropDates(clock: int, c: Cell)
    requires DatesOk(clock, c) && c.noted == c.marker
    ensures DatesOk(clock, c.(marker := None))
  {
  }

  lemma PassDates(clock: int, c: Cell)
    requires DatesOk(clock, c) && c.marker.Some? && c.marker.value < clock
    requires c.entry.Some? ==> c.marker.value < c.entry.value.at
    ensures DatesOk(clock, c.(noted := c.marker))
    ensures forall r :: ReaderDates(c, r) ==> ReaderDates(c.(noted := c.marker), r)
  {
  }

  lemma EvictDates(clock: int, c: Cell, b: bool, h: bool)
    requires DatesOk(clock, c) && Unreserved(c.work) && c.entry.Some?
    ensures DatesOk(clock, Dropped(c, b, h, 0))
    ensures forall r :: ReaderDates(c, r) ==> ReaderDates(Dropped(c, b, h, 0), r)
  {
  }

  lemma ProgressDates(s: State, k: Key, to: Stage)
    requires Inv(s) && Dated(s) && Enabled(s, Progress(k, to))
    ensures Dated(Put(s, k, Progressed(At(s, k), s.inPlace, to)))
  {
    var c := At(s, k);
    var d := Progressed(c, s.inPlace, to);
    assert CellOk(s.inPlace, s.publisher, s.next, s.nextIdentity, c) && DatesOk(s.clock, c);
    forall r | r in s.readers && s.readers[r].key == k ensures ReaderDates(d, s.readers[r]) {
      assert ReaderOk(s.inPlace, s.publisher, s.next, c, s.readers[r]) && ReaderDates(c, s.readers[r]);
    }
    PutKeepsDates(s, k, d);
  }

  lemma DiscardDates(s: State, k: Key, b: bool, h: bool)
    requires Inv(s) && Dated(s) && Enabled(s, DiscardKey(k, b, h))
    ensures Dated(Put(s, k, Discard(At(s, k), s.inPlace, b, h, s.clock)))
  {
    var c := At(s, k);
    var d := Discard(c, s.inPlace, b, h, s.clock);
    assert CellOk(s.inPlace, s.publisher, s.next, s.nextIdentity, c) && DatesOk(s.clock, c);
    forall r | r in s.readers && s.readers[r].key == k ensures ReaderDates(d, s.readers[r]) {
      assert ReaderOk(s.inPlace, s.publisher, s.next, c, s.readers[r]);
    }
    PutKeepsDates(s, k, d);
  }

  lemma FreshenWriteDates(s: State, k: Key, w: Write, bytes: int)
    requires Inv(s) && Dated(s) && Enabled(s, WriteFreshen(k, w, bytes))
    ensures Dated(DoWriteFreshen(s, k, w, bytes))
  {
    var c := At(s, k);
    var d := FreshenWrite(c, s.inPlace, w, bytes, s.next);
    assert DatesOk(s.clock, c);
    forall r | r in s.readers && s.readers[r].key == k ensures ReaderDates(d, s.readers[r]) {
      assert ReaderOk(s.inPlace, s.publisher, s.next, c, s.readers[r]) && ReaderDates(c, s.readers[r]);
    }
    PutKeepsDates(s, k, d);
    IdleDates(Put(s, k, d), DoWriteFreshen(s, k, w, bytes));
  }

  lemma BeginDates(s: State, dates: map<Key, int>, bytes: int)
    requires Dated(s) && forall k :: k in dates ==> Lockable(s, k) && dates[k] <= s.clock
    ensures Dated(DoBeginStore(s, dates, bytes))
  {
    var t := DoBeginStore(s, dates, bytes);
    forall k ensures DatesOk(t.clock, At(t, k)) && forall r :: ReaderDates(At(s, k), r) ==> ReaderDates(At(t, k), r) {
      assert DatesOk(s.clock, At(s, k));
      assert At(t, k) == if k in dates then Claimed(At(s, k), s.next, dates[k], bytes) else At(s, k);
      assert k in dates ==> Lockable(s, k);
    }
  }

  lemma CommitDates(s: State, i: nat)
    requires Inv(s) && Dated(s) && Enabled(s, CommitStore(i))
    ensures Dated(DoCommitStore(s, i))
  {
    var t := DoCommitStore(s, i);
    forall k ensures DatesOk(t.clock, At(t, k)) && forall r :: !Active(r) ==> ReaderDates(At(t, k), r) {
      assert DatesOk(s.clock, At(s, k)) && CellOk(s.inPlace, s.publisher, s.next, s.nextIdentity, At(s, k));
      if k in s.ops[i].keys {
        assert StageOf(s, k, i, if s.inPlace then Ready else Renamed);
        CommitCell(s.inPlace, s.publisher, s.next, s.nextIdentity, At(s, k));
        assert At(t, k) == Committed(At(s, k), s.nextIdentity);
      }
    }
  }

  lemma EndDates(s: State, i: nat)
    requires Inv(s) && Dated(s) && Enabled(s, EndStore(i))
    ensures Dated(DoEndStore(s, i))
  {
    var t := DoEndStore(s, i);
    forall k ensures DatesOk(t.clock, At(t, k)) && forall r :: !Active(r) ==> ReaderDates(At(t, k), r) {
      assert DatesOk(s.clock, At(s, k)) && CellOk(s.inPlace, s.publisher, s.next, s.nextIdentity, At(s, k));
      if k in s.ops[i].keys {
        assert HoldsAll(s.cells, i, s.ops[i]) && Holds(CellAt(s.cells, k), i);
        assert StageOf(s, k, i, Discarded) || !Published1(s.inPlace, At(s, k));
        assert At(t, k) == At(s, k).(work := Free);
      }
    }
  }

  lemma OneReaderDates(s: State, r: nat, o: Reader)
    requires Dated(s) && ReaderDates(At(s, o.key), o)
    ensures Dated(s.(readers := s.readers[r := o]))
  {
    var t := s.(readers := s.readers[r := o]);
    assert forall k :: At(t, k) == At(s, k);
  }

  lemma OpenDates(s: State, r: nat, k: Key)
    requires Inv(s) && Dated(s) && Enabled(s, OpenBody(r, k))
    ensures Dated(DoOpenBody(s, r, k))
  {
    assert DatesOk(s.clock, At(s, k)) && CellOk(s.inPlace, s.publisher, s.next, s.nextIdentity, At(s, k));
    OneReaderDates(s, r, DoOpenBody(s, r, k).readers[r]);
  }

  lemma ReadingKeepsDates(s: State, step: Step)
    requires Inv(s) && Dated(s) && Enabled(s, step) && Reading(step)
    ensures Dated(Apply(s, step))
  {
    match step
    case OpenBody(r, k) => OpenDates(s, r, k);
    case ReadHeader(r) => OneReaderDates(s, r, DoReadHeader(s, r).readers[r]);
    case Judge(r) => OneReaderDates(s, r, DoJudge(s, r).readers[r]);
  }

  /** The state differs in one cell at most, and in nothing dates depend on. */
  lemma OneCellDates(s: State, t: State, k: Key)
    requires Dated(s) && t.clock == s.clock && t.readers == s.readers && DatesOk(s.clock, At(t, k))
    requires forall j :: j != k ==> At(t, j) == At(s, j)
    requires forall r :: r in s.readers && s.readers[r].key == k ==> ReaderDates(At(t, k), s.readers[r])
    ensures Dated(t)
  {
  }

  lemma FreshenDates(s: State, k: Key, d: Cell, t: State)
    requires Inv(s) && Dated(s) && t.cells == s.cells[k := d] && t.clock == s.clock && t.readers == s.readers
    requires DatesOk(s.clock, d) && d.slot == At(s, k).slot && d.marker == At(s, k).marker
    ensures Dated(t)
  {
    assert forall j :: At(t, j) == if j == k then d else At(s, j);
    forall r | r in s.readers && s.readers[r].key == k ensures ReaderDates(d, s.readers[r]) {
      assert ReaderDates(At(s, k), s.readers[r]);
    }
    OneCellDates(s, t, k);
  }

  lemma LockFreshenDates(s: State, i: nat)
    requires Inv(s) && Dated(s) && Enabled(s, LockFreshen(i))
    ensures Dated(DoLockFreshen(s, i))
  {
    var k := s.ops[i].key;
    assert DatesOk(s.clock, At(s, k));
    FreshenDates(s, k, At(s, k).(work := Freshen(i, s.ops[i].resource, Locked)), DoLockFreshen(s, i));
  }

  lemma LeaveFreshenDates(s: State, k: Key)
    requires Inv(s) && Dated(s) && At(s, k).work.Freshen?
    ensures Dated(DoLeaveFreshen(s, k, At(s, k)))
  {
    assert DatesOk(s.clock, At(s, k));
    FreshenDates(s, k, At(s, k).(work := Free), DoLeaveFreshen(s, k, At(s, k)));
  }

  lemma VerifyDates(s: State, k: Key)
    requires Inv(s) && Dated(s) && At(s, k).work.Freshen?
    ensures Dated(DoVerifyFreshen(s, k))
  {
    var c := At(s, k);
    assert DatesOk(s.clock, c);
    LeaveFreshenDates(s, k);
    FreshenDates(s, k, Checked(c, s.clock), Put(s, k, Checked(c, s.clock)));
  }

  lemma FailFreshenDates(s: State, k: Key, b: bool, h: bool)
    requires Inv(s) && Dated(s) && Enabled(s, FailFreshen(k, b, h))
    ensures Dated(DoLeaveFreshen(s, k, Dropped(At(s, k), b, h, At(s, k).work.phase.at)))
  {
    var c := At(s, k);
    var d := Dropped(c, b, h, c.work.phase.at).(work := Free);
    var t := DoLeaveFreshen(s, k, Dropped(c, b, h, c.work.phase.at));
    assert DatesOk(s.clock, c);
    assert forall j :: At(t, j) == if j == k then d else At(s, j);
    forall r | r in s.readers && s.readers[r].key == k ensures ReaderDates(d, s.readers[r]) {
      assert ReaderOk(s.inPlace, s.publisher, s.next, c, s.readers[r]);
    }
    OneCellDates(s, t, k);
  }

  lemma CommitFreshenDates(s: State, k: Key)
    requires Inv(s) && Dated(s) && Enabled(s, CommitFreshen(k))
    ensures Dated(DoCommitFreshen(s, k))
  {
    var c, t := At(s, k), DoCommitFreshen(s, k);
    var d := FreshenCommitted(c, s.nextIdentity);
    assert DatesOk(s.clock, c);
    assert forall j :: At(t, j) == if j == k then d else At(s, j);
    forall r | r in t.readers ensures ReaderDates(At(t, t.readers[r].key), t.readers[r]) {
      assert ReaderOk(s.inPlace, s.publisher, s.next, At(s, s.readers[r].key), s.readers[r]);
    }
  }

  /** A resource is not a retrieval in progress, which dates are about. */
  lemma ReadIdentityDates(s: State, k: Key)
    requires Inv(s) && Dated(s) && Enabled(s, ReadIdentity(k))
    ensures Dated(DoReadIdentity(s, k))
  {
    var c := At(s, k);
    var d := Nominate(c);
    assert DatesOk(s.clock, c) && FreshenOk(s.inPlace, s.readers, k, c);
    FreshenDates(s, k, d, Put(s, k, d));
    if c.work.resource.Some? {
      var r := c.work.resource.value;
      OneReaderDates(Put(s, k, d), r, Identified(s.readers[r], c));
    }
  }

  lemma AdvanceRecordDates(s: State, k: Key)
    requires Inv(s) && Dated(s) && Enabled(s, AdvanceRecord(k))
    ensures Dated(DoAdvanceRecord(s, k))
  {
    var c := At(s, k);
    assert FreshenOk(s.inPlace, s.readers, k, c);
    LeaveFreshenDates(s, k);
    if c.work.resource.Some? {
      var r := c.work.resource.value;
      OneReaderDates(DoLeaveFreshen(s, k, c), r, Advanced(s.inPlace, s.readers[r], c, c.work.phase.header));
    }
  }

  /** The clock does not run backwards. */
  predicate Forward(s: State, step: Step) {
    step.Tick? ==> s.clock <= step.to
  }

  /** A step that leaves all cells and readers alone. */
  lemma IdleDates(s: State, t: State)
    requires Dated(s) && t.cells == s.cells && t.readers == s.readers && s.clock <= t.clock
    ensures Dated(t)
  {
    assert forall k :: At(t, k) == At(s, k);
    forall k ensures DatesOk(t.clock, At(t, k)) { assert DatesOk(s.clock, At(s, k)); }
  }

  lemma DropMarkerDates(s: State, k: Key)
    requires Dated(s) && Enabled(s, DropMarker(k))
    ensures Dated(Put(s, k, At(s, k).(marker := None)))
  {
    DropDates(s.clock, At(s, k));
    forall r | r in s.readers ensures !Active(s.readers[r]) {}
    PutKeepsDates(s, k, At(s, k).(marker := None));
  }

  lemma PassedDates(s: State, k: Key)
    requires Dated(s) && Enabled(s, PassEntry(k))
    ensures Dated(Put(s, k, At(s, k).(noted := At(s, k).marker)))
  {
    PassDates(s.clock, At(s, k));
    PutKeepsDates(s, k, At(s, k).(noted := At(s, k).marker));
  }

  lemma MarkedDates(s: State, k: Key)
    requires Dated(s)
    ensures Dated(Put(s, k, At(s, k).(marker := Later(At(s, k).marker, s.clock))))
  {
    MarkDates(s.clock, At(s, k));
    PutKeepsDates(s, k, At(s, k).(marker := Later(At(s, k).marker, s.clock)));
  }

  lemma EvictedDates(s: State, k: Key, b: bool, h: bool)
    requires Dated(s) && Enabled(s, Evict(k, b, h))
    ensures Dated(Put(s, k, Dropped(At(s, k), b, h, 0)))
  {
    EvictDates(s.clock, At(s, k), b, h);
    PutKeepsDates(s, k, Dropped(At(s, k), b, h, 0));
  }

  lemma ProgressedDates(s: State, k: Key, to: Stage)
    requires Inv(s) && Dated(s) && Enabled(s, Progress(k, to))
    ensures Dated(DoProgress(s, k, to))
  {
    ProgressDates(s, k, to);
    IdleDates(Put(s, k, Progressed(At(s, k), s.inPlace, to)), DoProgress(s, k, to));
  }

  lemma EnvironmentKeepsDates(s: State, step: Step)
    requires Dated(s) && Enabled(s, step) && Forward(s, step) && Environment(step)
    ensures Dated(Apply(s, step))
  {
    match step
    case Tick(to) => IdleDates(s, s.(clock := to));
    case Mark(k) => MarkedDates(s, k);
    case PassEntry(k) => PassedDates(s, k);
    case DropMarker(k) => DropMarkerDates(s, k);
    case Evict(k, b, h) => EvictedDates(s, k, b, h);
  }

  lemma PreparingKeepsDates(s: State, step: Step)
    requires Inv(s) && Dated(s) && Enabled(s, step) && Preparing(step)
    ensures Dated(Apply(s, step))
  {
    match step
    case BeginStore(dates, bytes) => BeginDates(s, dates, bytes);
    case Progress(k, to) => ProgressedDates(s, k, to);
    case Abort(i) => IdleDates(s, Apply(s, step));
    case TakePublish(i) => IdleDates(s, Apply(s, step));
  }

  lemma EndingKeepsDates(s: State, step: Step)
    requires Inv(s) && Dated(s) && Enabled(s, step) && Ending(step)
    ensures Dated(Apply(s, step))
  {
    match step
    case CommitStore(i) => CommitDates(s, i);
    case DiscardKey(k, b, h) => DiscardDates(s, k, b, h);
    case EndStore(i) => EndDates(s, i);
  }

  lemma CheckingKeepsDates(s: State, step: Step)
    requires Inv(s) && Dated(s) && Enabled(s, step) && Checking(step)
    ensures Dated(Apply(s, step))
  {
    match step
    case CheckFreshen(r, _) => IdleDates(s, Apply(s, step));
    case CheckHead(k, _) => IdleDates(s, Apply(s, step));
    case LockFreshen(i) => LockFreshenDates(s, i);
    case VerifyFreshen(k) => VerifyDates(s, k);
  }

  lemma RenewingKeepsDates(s: State, step: Step)
    requires Inv(s) && Dated(s) && Enabled(s, step) && Renewing(step)
    ensures Dated(Apply(s, step))
  {
    match step
    case WriteFreshen(k, w, bytes) => FreshenWriteDates(s, k, w, bytes);
    case CommitFreshen(k) => CommitFreshenDates(s, k);
    case FailFreshen(k, b, h) => FailFreshenDates(s, k, b, h);
  }

  lemma ReturningKeepsDates(s: State, step: Step)
    requires Inv(s) && Dated(s) && Enabled(s, step) && Returning(step)
    ensures Dated(Apply(s, step))
  {
    match step
    case ReadIdentity(k) => ReadIdentityDates(s, k);
    case AdvanceRecord(k) => AdvanceRecordDates(s, k);
    case LeaveFreshen(k) => LeaveFreshenDates(s, k);
  }

  lemma StepKeepsDates(s: State, step: Step)
    requires Inv(s) && Dated(s) && Enabled(s, step) && Forward(s, step)
    ensures Dated(Apply(s, step))
  {
    if Environment(step) { EnvironmentKeepsDates(s, step); }
    else if Reading(step) { ReadingKeepsDates(s, step); }
    else if Preparing(step) { PreparingKeepsDates(s, step); }
    else if Ending(step) { EndingKeepsDates(s, step); }
    else if Checking(step) { CheckingKeepsDates(s, step); }
    else if Renewing(step) { RenewingKeepsDates(s, step); }
    else { ReturningKeepsDates(s, step); }
  }

  ghost predicate IsForward(run: seq<State>, steps: seq<Step>)
    requires |run| == |steps| + 1
  {
    forall i :: 0 <= i < |steps| ==> Forward(run[i], steps[i])
  }

  lemma {:induction false} RunDated(run: seq<State>, steps: seq<Step>, i: nat)
    requires IsRun(run, steps) && IsForward(run, steps) && i < |run|
    ensures Dated(run[i])
  {
    if i == 0 {
      assert forall k :: At(run[0], k) == EMPTY;
    } else {
      RunDated(run, steps, i - 1);
      RunInv(run, steps, i - 1);
      StepKeepsDates(run[i - 1], steps[i - 1]);
    }
  }
}
