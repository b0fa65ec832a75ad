/**
 What each ledger step does to one key, exactly: which entries a cleanup, an admission and the size
 limit remove and which they spare, and what size, date and reservation a key is left with.
 */
module LedgerResults {
  import opened Wrappers
  import opened Ledger

  function EntryOf(s: Ledger, k: string): Option<Entry> {
    if k in s.index then Some(s.index[k]) else None
  }

  function ReservationOf(s: Ledger, k: string): Option<int> {
    if k in s.reservations then Some(s.reservations[k]) else None
  }

  // ------------------------------------------------------------------ the TTL sweep

  /** The entry is older than the cutoff. */
  predicate Expired(s: Ledger, k: string, cutoff: int) {
    k in s.index && s.index[k].storedAt < cutoff
  }

  /** A writer holds the key, or the backend will not remove its files. */
  predicate Stuck(s: Ledger, k: string, refused: set<string>) {
    k in s.reservations || k in refused
  }

  lemma {:induction false} SweepVisits(s: Ledger, rest: seq<string>, cutoff: int, refused: set<string>)
    ensures var (t, complete) := SweepExpired(s, rest, cutoff, refused);
            && t.reservations == s.reservations
            && (forall k :: k in t.index ==> k in s.index && t.index[k] == s.index[k])
            && (forall k :: k in s.index ==>
                  (k !in t.index <==> k in rest && s.index[k].storedAt < cutoff && !Stuck(s, k, refused)))
            && (complete <==> forall k :: k in rest && Expired(s, k, cutoff) ==> !Stuck(s, k, refused))
    decreases |rest|
  {
    if rest != [] {
      var k, front := rest[|rest| - 1], rest[..|rest| - 1];
      assert forall j :: j in rest <==> j in front || j == k;
      if Expired(s, k, cutoff) && !Stuck(s, k, refused) {
        SweepVisits(Drop(s, k), front, cutoff, refused);
      } else {
        SweepVisits(s, front, cutoff, refused);
      }
    }
  }

  /**
   A sweep removes exactly the entries stored before the cutoff that no writer holds and whose files
   can be removed, and leaves all others as they are.  It is complete exactly when it had to skip none.
   */
  lemma SweepExactly(s: Ledger, cutoff: int, refused: set<string>)
    requires Balanced(s)
    ensures var (t, complete) := SweepExpired(s, s.order, cutoff, refused);
            && t.index ==
               (map k | k in s.index && (cutoff <= s.index[k].storedAt || k in s.reservations || k in refused)
                  :: s.index[k])
            && (complete <==> forall k :: k in s.index && (k in s.reservations || k in refused) ==>
                                cutoff <= s.index[k].storedAt)
  {
    assert forall k :: k in s.order <==> k in s.index;
    SweepVisits(s, s.order, cutoff, refused);
    var (t, complete) := SweepExpired(s, s.order, cutoff, refused);
    SweptIndex(s, t.index, cutoff, refused);
    if !complete {
      var k :| k in s.order && Expired(s, k, cutoff) && Stuck(s, k, refused);
      assert k in s.index && (k in s.reservations || k in refused) && s.index[k].storedAt < cutoff;
    }
  }

  lemma SweptIndex(s: Ledger, index: map<string, Entry>, cutoff: int, refused: set<string>)
    requires forall k :: k in index ==> k in s.index && index[k] == s.index[k]
    requires forall k :: k in s.index ==> (k !in index <==> s.index[k].storedAt < cutoff && !Stuck(s, k, refused))
    ensures index ==
            (map k | k in s.index && (cutoff <= s.index[k].storedAt || k in s.reservations || k in refused)
               :: s.index[k])
  {
  }

  // ---------------------------------------------------- what admission and the limit remove

  /** What the cache would hold and have promised with the item in place and nothing removed. */
  function Need(s: Ledger, k: string, item: int): int {
    s.totalSize - SizeOf(s, k) + s.reservedSize - Reserved(s, k) + item
  }

  /** Of the index, the first `n` of the candidates are gone: as few as bring `need` down to the limit,
      or all of them. */
  ghost predicate FewestGone(
    index: map<string, Entry>, c: seq<string>, after: map<string, Entry>, need: int, limit: int, n: nat) {
    && n <= |c| && (forall k :: k in c ==> k in index)
    && after == index - Keys(c[..n])
    && (forall m :: 0 <= m < n ==> limit < need - Total(c[..m], index))
    && (need - Total(c[..n], index) <= limit || n == |c|)
  }

  lemma RunIsFewest(s: Ledger, c: seq<string>, t: Ledger, target: int, n: nat, need: int, limit: int)
    requires ShortestRun(s, c, t, target, n) && need - limit == s.totalSize - target
    ensures FewestGone(s.index, c, t.index, need, limit, n)
  {
  }

  /** What may be removed for `k`: entries that no writer holds, that are not its own and whose files the
      backend removes. */
  lemma AdmissionCandidates(s: Ledger, k: string, refused: set<string>, j: string)
    requires Balanced(s)
    ensures j in Candidates(s.order, s.reservations.Keys + {k}, refused) <==>
            j in s.index && j != k && j !in s.reservations && j !in refused
  {
    CandidatesFacts(s.order, s.reservations.Keys + {k}, refused);
  }

  lemma EvictionIs(s: Ledger, maxSize: int, k: string, item: int, refused: set<string>)
    requires 0 <= item <= maxSize && 0 < maxSize
    ensures var target := AdmissionTarget(s, maxSize, k, item);
            var t := Evict(s, s.order, s.reservations.Keys + {k}, refused, target);
            && Reserve(s, maxSize, k, item, refused).0.index == t.index
            && Reserve(s, maxSize, k, item, refused).1 == (t.totalSize <= target)
            && Need(s, k, item) - maxSize == s.totalSize - target
  {
  }

  /** An item that may fit removes the least recently used of those, as few as it takes. */
  lemma AdmissionRemoves(s: Ledger, maxSize: int, k: string, item: int, refused: set<string>) returns (n: nat)
    requires Balanced(s) && 0 <= item <= maxSize && 0 < maxSize
    ensures FewestGone(s.index, Candidates(s.order, s.reservations.Keys + {k}, refused),
                       Reserve(s, maxSize, k, item, refused).0.index, Need(s, k, item), maxSize, n)
  {
    var target := AdmissionTarget(s, maxSize, k, item);
    var c := Candidates(s.order, s.reservations.Keys + {k}, refused);
    n := EvictRemovesShortestRun(s, s.order, s.reservations.Keys + {k}, refused, target);
    EvictionIs(s, maxSize, k, item, refused);
    var t := Evict(s, s.order, s.reservations.Keys + {k}, refused, target);
    RunIsFewest(s, c, t, target, n, Need(s, k, item), maxSize);
  }

  /** Any other item removes nothing. */
  lemma AdmissionSpares(s: Ledger, maxSize: int, k: string, item: int, refused: set<string>)
    requires item < 0 || maxSize <= 0 || maxSize < item
    ensures Reserve(s, maxSize, k, item, refused).0.index == s.index
    ensures Reserve(s, maxSize, k, item, refused).1 <==> 0 <= item && maxSize <= 0
  {
  }

  /** An item within the limit is admitted exactly when the cache is within it too once all of those are
      gone. */
  lemma AdmissionExactly(s: Ledger, maxSize: int, k: string, item: int, refused: set<string>)
    requires Balanced(s) && 0 <= item <= maxSize && 0 < maxSize
    ensures var c := Candidates(s.order, s.reservations.Keys + {k}, refused);
            && (forall j :: j in c ==> j in s.index)
            && (Reserve(s, maxSize, k, item, refused).1 <==> Need(s, k, item) - Total(c, s.index) <= maxSize)
  {
    AdmissionRefusedOnlyWithoutRoom(s, maxSize, k, item, refused);
    EvictionIs(s, maxSize, k, item, refused);
  }

  /** An admitted item reserves what it adds to its key; a refused one changes no reservation. */
  lemma AdmissionReserves(s: Ledger, maxSize: int, k: string, item: int, refused: set<string>)
    requires Balanced(s)
    ensures var (t, ok) := Reserve(s, maxSize, k, item, refused);
            t.reservations == if ok then s.reservations[k := Max(item - SizeOf(s, k), 0)] else s.reservations
  {
    AdmissionFacts(s, maxSize, k, item, refused);
  }

  /** The size limit removes the least recently used entries that no writer holds and that can be
      removed, as few as it takes, and nothing within the limit. */
  lemma LimitExactly(w: World, refused: set<string>) returns (n: nat)
    requires Balanced(w.ledger) && 0 < w.maxSize
    ensures FewestGone(w.ledger.index, Candidates(w.ledger.order, w.ledger.reservations.Keys, refused),
                       Apply(w, EnforceStep(refused)).ledger.index, w.ledger.totalSize, w.maxSize, n)
  {
    var s := w.ledger;
    n := EvictRemovesShortestRun(s, s.order, s.reservations.Keys, refused, w.maxSize);
    RunIsFewest(s, Candidates(s.order, s.reservations.Keys, refused), Apply(w, EnforceStep(refused)).ledger,
                w.maxSize, n, s.totalSize, w.maxSize);
  }

  /** Without a limit it removes nothing. */
  lemma NoLimit(w: World, refused: set<string>)
    requires w.maxSize <= 0
    ensures Apply(w, EnforceStep(refused)) == w
  {
  }

  // ------------------------------------------------------- what a step does to a key

  /** The entry of `k` after a step that is no eviction. */
  function EntryAfter(w: World, step: Step, k: string): Option<Entry>
    requires Enabled(w, step) && !step.ReserveStep? && !step.EnforceStep?
  {
    var e := EntryOf(w.ledger, k);
    match step
    case TrackStep(j, at) => if j == k then Some(Entry(w.admitted[k], at)) else e
    case DiscardStep(j, residual, at, kept) =>
      if j != k then e
      else if !kept then None
      else if e.Some? then Some(Entry(Max(e.value.size, residual), e.value.storedAt))
      else Some(Entry(Max(residual, 1), at))
    case SweepStep(cutoff, refused) =>
      if e.Some? && e.value.storedAt < cutoff && k !in w.ledger.reservations && k !in refused then None else e
    case _ => e
  }

  /** A publication records its size and date, a failed write what it left, and nothing else does. */
  lemma StepEntry(w: World, step: Step, k: string)
    requires Balanced(w.ledger) && Enabled(w, step) && !step.ReserveStep? && !step.EnforceStep?
    ensures EntryOf(Apply(w, step).ledger, k) == EntryAfter(w, step, k)
  {
    if step.SweepStep? { SweepExactly(w.ledger, step.cutoff, step.refused); }
  }

  /** The writer of a key holds a reservation from its begin to its publication or return. */
  function ReservationAfter(w: World, step: Step, k: string): Option<int>
    requires Enabled(w, step) && !step.ReserveStep?
  {
    match step
    case BeginStep(j) => if j == k then Some(0) else ReservationOf(w.ledger, k)
    case TrackStep(j, _) => if j == k then None else ReservationOf(w.ledger, k)
    case ReleaseStep(j) => if j == k then None else ReservationOf(w.ledger, k)
    case _ => ReservationOf(w.ledger, k)
  }

  lemma StepReservation(w: World, step: Step, k: string)
    requires Balanced(w.ledger) && Enabled(w, step) && !step.ReserveStep?
    ensures ReservationOf(Apply(w, step).ledger, k) == ReservationAfter(w, step, k)
  {
    if step.SweepStep? { SweepFacts(w.ledger, w.ledger.order, step.cutoff, step.refused); }
    if step.EnforceStep? {
      EvictFacts(w.ledger, w.ledger.order, w.ledger.reservations.Keys, step.refused, w.maxSize);
    }
  }

  /** An admitted size is what the writer asked for last, until it publishes or gives up. */
  lemma StepAdmitted(w: World, step: Step, k: string)
    requires Enabled(w, step)
    ensures AdmittedAt(Apply(w, step).admitted, k) ==
            match step
            case ReserveStep(j, item, refused) =>
              var ok := Reserve(w.ledger, w.maxSize, k, item, refused).1;
              if j == k && ok then Some(item) else AdmittedAt(w.admitted, k)
            case TrackStep(j, _) => if j == k then None else AdmittedAt(w.admitted, k)
            case ReleaseStep(j) => if j == k then None else AdmittedAt(w.admitted, k)
            case DiscardStep(j, _, _, _) => if j == k then None else AdmittedAt(w.admitted, k)
            case _ => AdmittedAt(w.admitted, k)
  {
  }

  lemma ThreeSteps(w: World, a: Step, b: Step, c: Step)
    requires Enabled(w, a) && Enabled(Apply(w, a), b) && Enabled(Apply(Apply(w, a), b), c)
    ensures Run(w, [a, b, c]) == Some(Apply(Apply(Apply(w, a), b), c))
  {
    assert [a, b, c][1..] == [b, c] && [b, c][1..] == [c] && [c][1..] == [];
    var v := Apply(Apply(w, a), b);
    assert Run(v, [c]) == Run(Apply(v, c), []);
  }

  /** A writer that is admitted gets its entry recorded and leaves no reservation behind. */
  lemma WriterPublishes(w: World, k: string, item: int, refused: set<string>, at: int)
    requires Inv(w) && k !in w.ledger.reservations && Reserve(Begin(w.ledger, k), w.maxSize, k, item, refused).1
    ensures var t := Run(w, [BeginStep(k), ReserveStep(k, item, refused), TrackStep(k, at)]);
            && t.Some? && EntryOf(t.value.ledger, k) == Some(Entry(item, at))
            && ReservationOf(t.value.ledger, k) == None && AdmittedAt(t.value.admitted, k) == None
  {
    var u := Apply(w, BeginStep(k));
    var v := Apply(u, ReserveStep(k, item, refused));
    assert k in v.admitted && v.admitted[k] == item;
    ThreeSteps(w, BeginStep(k), ReserveStep(k, item, refused), TrackStep(k, at));
  }

  /** One that is not can always give up. */
  lemma WriterGivesUp(w: World, k: string)
    requires k in w.ledger.reservations
    ensures Enabled(w, ReleaseStep(k)) && ReservationOf(Apply(w, ReleaseStep(k)).ledger, k) == None
  {
  }
}
