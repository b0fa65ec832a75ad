/**
 The capacity ledger of cache.go: committed sizes in least-recently-used order, and the growth
 reserved by writers that have been admitted but have not published yet.

 Each source method runs under lruMutex and is one function on `Ledger` here; class `Cache`
 performs them in place.  `refused` is an oracle: the keys whose files the backend will not
 remove during that call.
 */
module Ledger {
  import opened Wrappers

  datatype Entry = Entry(size: int, storedAt: int)

  /** `order` has the most recently used key first. */
  datatype Ledger = Ledger(
    order: seq<string>,
    index: map<string, Entry>,
    totalSize: int,
    reservations: map<string, int>,
    reservedSize: int)

  // --------------------------------------------------------------- conservation

  function Total(order: seq<string>, index: map<string, Entry>): int
    requires forall k :: k in order ==> k in index
  {
    if order == [] then 0 else index[order[0]].size + Total(order[1..], index)
  }

  ghost function Sum(m: map<string, int>): int {
    if m == map[] then 0 else var k :| k in m; m[k] + Sum(m - {k})
  }

  predicate Distinct(order: seq<string>) {
    forall i, j :: 0 <= i < j < |order| ==> order[i] != order[j]
  }

  /** The list holds each indexed key once, and the total is the sum of their sizes. */
  ghost predicate Indexed(order: seq<string>, index: map<string, Entry>, total: int) {
    && Distinct(order)
    && (forall k :: k in order <==> k in index)
    && (forall k :: k in index ==> 0 <= index[k].size)
    && total == Total(order, index)
  }

  ghost predicate Held(reservations: map<string, int>, reserved: int) {
    && (forall k :: k in reservations ==> 0 <= reservations[k])
    && reserved == Sum(reservations)
  }

  /** Both counters are the sums of what they count. */
  ghost predicate Balanced(s: Ledger) {
    Indexed(s.order, s.index, s.totalSize) && Held(s.reservations, s.reservedSize)
  }

  lemma {:induction false} TotalAppend(a: seq<string>, b: seq<string>, index: map<string, Entry>)
    requires forall k :: k in a + b ==> k in index
    ensures (forall k :: k in a ==> k in index) && (forall k :: k in b ==> k in index)
    ensures Total(a + b, index) == Total(a, index) + Total(b, index)
  {
    assert forall k :: k in a || k in b ==> k in a + b;
    if a == [] {
      assert a + b == b;
    } else {
      assert (a + b)[1..] == a[1..] + b;
      TotalAppend(a[1..], b, index);
    }
  }

  lemma {:induction false} TotalFrame(order: seq<string>, m: map<string, Entry>, n: map<string, Entry>)
    requires forall k :: k in order ==> k in m && k in n && m[k].size == n[k].size
    ensures Total(order, m) == Total(order, n)
  {
    if order != [] {
      TotalFrame(order[1..], m, n);
    }
  }

  lemma {:induction false} TotalNonNegative(order: seq<string>, m: map<string, Entry>)
    requires forall k :: k in order ==> k in m && 0 <= m[k].size
    ensures 0 <= Total(order, m)
  {
    if order != [] {
      TotalNonNegative(order[1..], m);
    }
  }

  lemma {:induction false} SumWithout(m: map<string, int>, k: string)
    requires k in m
    ensures Sum(m) == m[k] + Sum(m - {k})
  {
    var j :| j in m && Sum(m) == m[j] + Sum(m - {j});
    if j != k {
      SumWithout(m - {j}, k);
      SumWithout(m - {k}, j);
      assert m - {j} - {k} == m - {k} - {j};
    }
  }

  lemma SumSet(m: map<string, int>, k: string, v: int)
    ensures Sum(m[k := v]) == Sum(m) - (if k in m then m[k] else 0) + v
  {
    SumWithout(m[k := v], k);
    assert m[k := v] - {k} == m - {k};
    if k in m { SumWithout(m, k); } else { assert m - {k} == m; }
  }

  lemma {:induction false} SumNonNegative(m: map<string, int>)
    requires forall k :: k in m ==> 0 <= m[k]
    ensures 0 <= Sum(m)
  {
    if m != map[] {
      var k :| k in m && Sum(m) == m[k] + Sum(m - {k});
      SumNonNegative(m - {k});
    }
  }

  // ----------------------------------------------------------------- operations

  function Without(order: seq<string>, k: string): (r: seq<string>)
    ensures forall j :: j in r ==> j in order
    ensures forall j :: j in order && j != k ==> j in r
    ensures |r| <= |order|
  {
    if order == [] then []
    else if order[0] == k then order[1..]
    else [order[0]] + Without(order[1..], k)
  }

  function SizeOf(s: Ledger, k: string): int {
    if k in s.index then s.index[k].size else 0
  }

  function Reserved(s: Ledger, k: string): int {
    if k in s.reservations then s.reservations[k] else 0
  }

  /** removeEntry, once both files are gone. */
  function Drop(s: Ledger, k: string): Ledger
    requires k in s.index
  {
    s.(order := Without(s.order, k), index := s.index - {k}, totalSize := s.totalSize - s.index[k].size)
  }

  function Release(s: Ledger, k: string): Ledger {
    s.(reservedSize := s.reservedSize - Reserved(s, k), reservations := s.reservations - {k})
  }

  function Begin(s: Ledger, k: string): Ledger {
    s.(reservations := s.reservations[k := 0])
  }

  /** trackEntry: the publication replaces the key's size and its reservation. */
  function Track(s: Ledger, k: string, size: int, at: int): Ledger {
    Release(s, k).(order := [k] + Without(s.order, k),
                   index := s.index[k := Entry(size, at)],
                   totalSize := s.totalSize - SizeOf(s, k) + size)
  }

  function Touch(s: Ledger, k: string): Ledger {
    if k in s.index then s.(order := [k] + Without(s.order, k)) else s
  }

  /** The eviction loops: `rest` is what is left to visit, its last key next. */
  function Evict(s: Ledger, rest: seq<string>, keep: set<string>, refused: set<string>, target: int): Ledger
    decreases |rest|
  {
    if rest == [] || s.totalSize <= target then s
    else
      var k, front := rest[|rest| - 1], rest[..|rest| - 1];
      if k in keep || k in refused || k !in s.index then Evict(s, front, keep, refused, target)
      else Evict(Drop(s, k), front, keep, refused, target)
  }

  /** What evictForAdmissionLocked must bring the total down to. */
  function AdmissionTarget(s: Ledger, maxSize: int, k: string, item: int): int {
    maxSize - (s.reservedSize - Reserved(s, k)) - item + SizeOf(s, k)
  }

  function EvictForAdmission(s: Ledger, maxSize: int, k: string, item: int, refused: set<string>): (Ledger, bool) {
    if item < 0 then (s, false)
    else if maxSize <= 0 then (s, true)
    else if maxSize < item then (s, false)
    else
      var target := AdmissionTarget(s, maxSize, k, item);
      var t := Evict(s, s.order, s.reservations.Keys + {k}, refused, target);
      (t, t.totalSize <= target)
  }

  function Max(a: int, b: int): int {
    if a < b then b else a
  }

  /** reserveEntry: on admission the key reserves its net growth. */
  function Reserve(s: Ledger, maxSize: int, k: string, item: int, refused: set<string>): (Ledger, bool) {
    var (t, ok) := EvictForAdmission(s, maxSize, k, item, refused);
    if !ok then (t, false)
    else
      var growth := Max(item - SizeOf(t, k), 0);
      (t.(reservedSize := t.reservedSize + growth - Reserved(t, k), reservations := t.reservations[k := growth]), true)
  }

  /** discardUnadmitted: residue the backend will not remove stays in the ledger. */
  function Discard(s: Ledger, k: string, residual: int, at: int, refused: bool): Ledger {
    if k in s.index then
      if !refused then Drop(s, k)
      else if s.index[k].size < residual then
        s.(totalSize := s.totalSize + residual - s.index[k].size, index := s.index[k := s.index[k].(size := residual)])
      else s
    else if !refused then s
    else
      var size := if residual <= 0 then 1 else residual;
      s.(order := [k] + s.order, index := s.index[k := Entry(size, at)], totalSize := s.totalSize + size)
  }

  /** cleanupTTLExpired from the least recently used end; false when an expired key was skipped. */
  function SweepExpired(s: Ledger, rest: seq<string>, cutoff: int, refused: set<string>): (Ledger, bool)
    decreases |rest|
  {
    if rest == [] then (s, true)
    else
      var k, front := rest[|rest| - 1], rest[..|rest| - 1];
      if k !in s.index || cutoff <= s.index[k].storedAt then SweepExpired(s, front, cutoff, refused)
      else if k in s.reservations || k in refused then (SweepExpired(s, front, cutoff, refused).0, false)
      else SweepExpired(Drop(s, k), front, cutoff, refused)
  }

  // ------------------------------------------------- operations keep the balance

  lemma {:induction false} WithoutFacts(order: seq<string>, k: string)
    requires Distinct(order)
    ensures Distinct(Without(order, k)) && k !in Without(order, k)
  {
    if order != [] {
      WithoutFacts(order[1..], k);
      if order[0] != k {
        var r := Without(order[1..], k);
        forall i, j | 0 <= i < j < |r| + 1 ensures ([order[0]] + r)[i] != ([order[0]] + r)[j] {
          if i == 0 { assert r[j - 1] in order[1..]; }
        }
      }
    }
  }

  /** Removal from the list closes the gap and moves nothing else. */
  lemma {:induction false} WithoutCutsOne(order: seq<string>, k: string) returns (i: nat)
    requires k in order
    ensures i < |order| && order[i] == k && Without(order, k) == order[..i] + order[i + 1..]
  {
    if order[0] == k {
      i := 0;
    } else {
      i := WithoutCutsOne(order[1..], k);
      assert order[1..][..i] == order[1..i + 1] && order[1..][i + 1..] == order[i + 2..];
      assert [order[0]] + order[1..i + 1] == order[..i + 1];
      i := i + 1;
    }
  }

  lemma {:induction false} TotalWithout(order: seq<string>, k: string, index: map<string, Entry>)
    requires Distinct(order) && k in order && forall j :: j in order ==> j in index
    ensures Total(Without(order, k), index) == Total(order, index) - index[k].size
  {
    if order[0] != k {
      TotalWithout(order[1..], k, index);
      assert ([order[0]] + Without(order[1..], k))[1..] == Without(order[1..], k);
    }
  }

  lemma DropBalanced(s: Ledger, k: string)
    requires Balanced(s) && k in s.index
    ensures Balanced(Drop(s, k))
  {
    WithoutFacts(s.order, k);
    TotalWithout(s.order, k, s.index);
    TotalFrame(Without(s.order, k), s.index, s.index - {k});
  }

  lemma ReleaseBalanced(s: Ledger, k: string)
    requires Balanced(s)
    ensures Balanced(Release(s, k))
  {
    if k in s.reservations { SumWithout(s.reservations, k); } else { assert s.reservations - {k} == s.reservations; }
  }

  lemma BeginBalanced(s: Ledger, k: string)
    requires Balanced(s) && k !in s.reservations
    ensures Balanced(Begin(s, k))
  {
    SumSet(s.reservations, k, 0);
  }

  lemma {:induction false} WithoutAbsent(order: seq<string>, k: string)
    requires k !in order
    ensures Without(order, k) == order
  {
    if order != [] {
      WithoutAbsent(order[1..], k);
    }
  }

  lemma FrontMembers(order: seq<string>, k: string)
    requires Distinct(order)
    ensures Distinct([k] + Without(order, k))
    ensures forall j :: j in [k] + Without(order, k) <==> j == k || j in order
  {
    WithoutFacts(order, k);
  }

  lemma FrontTotal(order: seq<string>, index: map<string, Entry>, k: string, e: Entry)
    requires Distinct(order) && forall j :: j in order <==> j in index
    ensures forall j :: j in [k] + Without(order, k) ==> j in index[k := e]
    ensures Total([k] + Without(order, k), index[k := e])
         == Total(order, index) - (if k in index then index[k].size else 0) + e.size
  {
    var rest := Without(order, k);
    WithoutFacts(order, k);
    assert ([k] + rest)[1..] == rest;
    TotalFrame(rest, index, index[k := e]);
    if k in index {
      TotalWithout(order, k, index);
    } else {
      WithoutAbsent(order, k);
    }
  }

  /** Moving or adding a key at the front with a new size changes the total by the difference. */
  lemma PutFirst(order: seq<string>, index: map<string, Entry>, total: int, k: string, e: Entry)
    requires Indexed(order, index, total) && 0 <= e.size
    ensures Indexed([k] + Without(order, k), index[k := e],
                    total - (if k in index then index[k].size else 0) + e.size)
  {
    FrontMembers(order, k);
    FrontTotal(order, index, k, e);
  }

  lemma Resize(order: seq<string>, index: map<string, Entry>, total: int, k: string, e: Entry)
    requires Indexed(order, index, total) && k in index && 0 <= e.size
    ensures Indexed(order, index[k := e], total - index[k].size + e.size)
  {
    ResizeTotal(order, index, k, e);
  }

  lemma ResizeTotal(order: seq<string>, index: map<string, Entry>, k: string, e: Entry)
    requires Distinct(order) && k in order && forall j :: j in order ==> j in index
    ensures Total(order, index[k := e]) == Total(order, index) - index[k].size + e.size
  {
    WithoutFacts(order, k);
    TotalWithout(order, k, index);
    TotalWithout(order, k, index[k := e]);
    TotalFrame(Without(order, k), index, index[k := e]);
  }

  lemma TrackBalanced(s: Ledger, k: string, size: int, at: int)
    requires Balanced(s) && 0 <= size
    ensures Balanced(Track(s, k, size, at))
  {
    ReleaseBalanced(s, k);
    PutFirst(s.order, s.index, s.totalSize, k, Entry(size, at));
  }

  lemma TouchBalanced(s: Ledger, k: string)
    requires Balanced(s)
    ensures Balanced(Touch(s, k))
  {
    if k in s.index {
      PutFirst(s.order, s.index, s.totalSize, k, s.index[k]);
      assert s.index[k := s.index[k]] == s.index;
    }
  }

  /** Residue under a key that has no entry. */
  lemma ResidueBalanced(s: Ledger, k: string, size: int, at: int)
    requires Balanced(s) && k !in s.index && 0 <= size
    ensures Indexed([k] + s.order, s.index[k := Entry(size, at)], s.totalSize + size)
  {
    WithoutAbsent(s.order, k);
    PutFirst(s.order, s.index, s.totalSize, k, Entry(size, at));
  }

  lemma DiscardBalanced(s: Ledger, k: string, residual: int, at: int, refused: bool)
    requires Balanced(s)
    ensures Balanced(Discard(s, k, residual, at, refused))
  {
    if k in s.index {
      if !refused { DropBalanced(s, k); }
      else if s.index[k].size < residual {
        Resize(s.order, s.index, s.totalSize, k, s.index[k].(size := residual));
      }
    } else if refused {
      ResidueBalanced(s, k, if residual <= 0 then 1 else residual, at);
    }
  }

  /** Eviction changes nothing but unprotected entries, and keeps the balance. */
  lemma {:induction false} EvictFacts(
    s: Ledger, rest: seq<string>, keep: set<string>, refused: set<string>, target: int)
    requires Balanced(s)
    ensures var t := Evict(s, rest, keep, refused, target);
            && Balanced(t) && t.totalSize <= s.totalSize
            && t.reservations == s.reservations && t.reservedSize == s.reservedSize
            && (forall k :: k in t.index ==> k in s.index && t.index[k] == s.index[k])
            && (forall k :: k in s.index && (k in keep || k in refused) ==> k in t.index)
    decreases |rest|
  {
    if rest != [] && target < s.totalSize {
      var k, front := rest[|rest| - 1], rest[..|rest| - 1];
      if k in keep || k in refused || k !in s.index {
        EvictFacts(s, front, keep, refused, target);
      } else {
        DropBalanced(s, k);
        EvictFacts(Drop(s, k), front, keep, refused, target);
      }
    }
  }

  lemma AdmissionFacts(s: Ledger, maxSize: int, k: string, item: int, refused: set<string>)
    requires Balanced(s)
    ensures var (t, ok) := EvictForAdmission(s, maxSize, k, item, refused);
            && Balanced(t) && t.totalSize <= s.totalSize
            && t.reservations == s.reservations && t.reservedSize == s.reservedSize
            && (forall j :: j in t.index ==> j in s.index && t.index[j] == s.index[j])
            && (forall j :: j in s.index && (j in s.reservations || j == k) ==> j in t.index)
  {
    EvictFacts(s, s.order, s.reservations.Keys + {k}, refused, AdmissionTarget(s, maxSize, k, item));
  }

  lemma AdmissionBalanced(s: Ledger, maxSize: int, k: string, item: int, refused: set<string>)
    requires Balanced(s)
    ensures Balanced(EvictForAdmission(s, maxSize, k, item, refused).0)
  {
    EvictFacts(s, s.order, s.reservations.Keys + {k}, refused, AdmissionTarget(s, maxSize, k, item));
  }

  lemma HeldSet(m: map<string, int>, reserved: int, k: string, v: int)
    requires Held(m, reserved) && 0 <= v
    ensures Held(m[k := v], reserved + v - if k in m then m[k] else 0)
  {
    SumSet(m, k, v);
  }

  lemma ReserveBalanced(s: Ledger, maxSize: int, k: string, item: int, refused: set<string>)
    requires Balanced(s)
    ensures Balanced(Reserve(s, maxSize, k, item, refused).0)
  {
    AdmissionBalanced(s, maxSize, k, item, refused);
    var t := EvictForAdmission(s, maxSize, k, item, refused).0;
    HeldSet(t.reservations, t.reservedSize, k, Max(item - SizeOf(t, k), 0));
  }

  lemma {:induction false} SweepFacts(s: Ledger, rest: seq<string>, cutoff: int, refused: set<string>)
    requires Balanced(s)
    ensures var (t, complete) := SweepExpired(s, rest, cutoff, refused);
            && Balanced(t) && t.totalSize <= s.totalSize
            && t.reservations == s.reservations && t.reservedSize == s.reservedSize
            && (forall k :: k in t.index ==> k in s.index && t.index[k] == s.index[k])
            && (forall k :: k in s.index && k in s.reservations ==> k in t.index)
            && (complete ==> forall k :: k in t.index && k in rest ==> cutoff <= t.index[k].storedAt)
    decreases |rest|
  {
    if rest != [] {
      var k, front := rest[|rest| - 1], rest[..|rest| - 1];
      assert forall j :: j in rest <==> j in front || j == k;
      if k in s.index && s.index[k].storedAt < cutoff && k !in s.reservations && k !in refused {
        DropBalanced(s, k);
        SweepFacts(Drop(s, k), front, cutoff, refused);
      } else {
        SweepFacts(s, front, cutoff, refused);
      }
    }
  }

  // ------------------------------------------------------- the bound over all runs

  /**
   The ledger with its writers.  `admitted` is the item size the holder of a key's writer lock
   was last admitted with; the rest is history.  `residue` is the growth ever left by writes that
   failed and whose files the backend refused to remove, `leftover` the keys where that happened
   and that have not been published since.
   */
  datatype World = World(
    maxSize: int, ledger: Ledger, admitted: map<string, int>, residue: int, leftover: set<string>)

  datatype Step =
    | BeginStep(key: string)
    | ReserveStep(key: string, item: int, refused: set<string>)
    | TrackStep(key: string, at: int)
    | ReleaseStep(key: string)
    | DiscardStep(key: string, residual: int, at: int, kept: bool)
    | TouchStep(key: string)
    | SweepStep(cutoff: int, refused: set<string>)
    | EnforceStep(refused: set<string>)

  /** The key's writer lock: one writer per key begins, and only it tracks or releases. */
  predicate Enabled(w: World, step: Step) {
    match step
    case BeginStep(k) => k !in w.ledger.reservations
    case ReserveStep(k, _, _) => k in w.ledger.reservations
    case TrackStep(k, _) => k in w.admitted
    case ReleaseStep(k) => k in w.ledger.reservations
    case DiscardStep(_, _, _, _) => true
    case TouchStep(_) => true
    case SweepStep(_, _) => true
    case EnforceStep(_) => true
  }

  function Apply(w: World, step: Step): World
    requires Enabled(w, step)
  {
    match step
    case BeginStep(k) => w.(ledger := Begin(w.ledger, k))
    case ReserveStep(k, item, refused) =>
      var (t, ok) := Reserve(w.ledger, w.maxSize, k, item, refused);
      w.(ledger := t, admitted := if ok then w.admitted[k := item] else w.admitted)
    case TrackStep(k, at) =>
      w.(ledger := Track(w.ledger, k, w.admitted[k], at), admitted := w.admitted - {k},
         leftover := w.leftover - {k})
    case ReleaseStep(k) => w.(ledger := Release(w.ledger, k), admitted := w.admitted - {k})
    case DiscardStep(k, residual, at, kept) =>
      var t := Discard(w.ledger, k, residual, at, kept);
      w.(ledger := t, admitted := w.admitted - {k},
         residue := w.residue + Max(t.totalSize - w.ledger.totalSize, 0),
         leftover := if kept then w.leftover + {k} else w.leftover - {k})
    case TouchStep(k) => w.(ledger := Touch(w.ledger, k))
    case SweepStep(cutoff, refused) =>
      w.(ledger := SweepExpired(w.ledger, w.ledger.order, cutoff, refused).0)
    case EnforceStep(refused) =>
      if w.maxSize <= 0 then w
      else w.(ledger := Evict(w.ledger, w.ledger.order, w.ledger.reservations.Keys, refused, w.maxSize))
  }

  /** An admitted writer's reservation covers exactly its net growth. */
  predicate Covered(s: Ledger, admitted: map<string, int>) {
    forall k :: k in admitted ==>
      && k in s.reservations && 0 <= admitted[k]
      && s.reservations[k] == Max(admitted[k] - SizeOf(s, k), 0)
  }

  ghost predicate Inv(w: World) {
    && Balanced(w.ledger) && Covered(w.ledger, w.admitted) && 0 <= w.residue
    && (0 < w.maxSize ==> w.ledger.totalSize + w.ledger.reservedSize <= w.maxSize + w.residue)
  }

  /** Eviction spared `t` every key a writer holds, so reservations still cover their growth. */
  lemma AdmittedCovered(s: Ledger, t: Ledger, admitted: map<string, int>, k: string, item: int, reserved: int)
    requires Covered(s, admitted) && t.reservations == s.reservations
    requires forall j :: j in t.index ==> j in s.index && t.index[j] == s.index[j]
    requires forall j :: j in s.index && (j in s.reservations || j == k) ==> j in t.index
    ensures Covered(t, admitted)
    ensures var u := t.(reservedSize := reserved, reservations := t.reservations[k := Max(item - SizeOf(t, k), 0)]);
            0 <= item ==> Covered(u, admitted[k := item])
  {
  }

  lemma ReserveCovers(s: Ledger, maxSize: int, admitted: map<string, int>, k: string, item: int, refused: set<string>)
    requires Balanced(s) && Covered(s, admitted)
    ensures var r := Reserve(s, maxSize, k, item, refused); Covered(r.0, if r.1 then admitted[k := item] else admitted)
  {
    var t := EvictForAdmission(s, maxSize, k, item, refused).0;
    AdmissionFacts(s, maxSize, k, item, refused);
    AdmittedCovered(s, t, admitted, k, item, t.reservedSize + Max(item - SizeOf(t, k), 0) - Reserved(t, k));
  }

  lemma ReserveWithin(s: Ledger, maxSize: int, limit: int, k: string, item: int, refused: set<string>)
    requires Balanced(s) && 0 < maxSize <= limit && s.totalSize + s.reservedSize <= limit
    ensures var t := Reserve(s, maxSize, k, item, refused).0; t.totalSize + t.reservedSize <= limit
  {
    AdmissionFacts(s, maxSize, k, item, refused);
    assert k in s.index ==> s.index[k].size >= 0;
    assert k in s.reservations ==> s.reservations[k] >= 0;
  }

  lemma ReserveKeepsInv(w: World, k: string, item: int, refused: set<string>)
    requires Inv(w) && k in w.ledger.reservations
    ensures Inv(Apply(w, ReserveStep(k, item, refused)))
  {
    var r := Reserve(w.ledger, w.maxSize, k, item, refused);
    assert Balanced(r.0) by { ReserveBalanced(w.ledger, w.maxSize, k, item, refused); }
    assert Covered(r.0, if r.1 then w.admitted[k := item] else w.admitted) by {
      ReserveCovers(w.ledger, w.maxSize, w.admitted, k, item, refused);
    }
    if 0 < w.maxSize { ReserveWithin(w.ledger, w.maxSize, w.maxSize + w.residue, k, item, refused); }
  }

  lemma TrackKeepsInv(w: World, k: string, at: int)
    requires Inv(w) && k in w.admitted
    ensures Inv(Apply(w, TrackStep(k, at)))
  {
    TrackBalanced(w.ledger, k, w.admitted[k], at);
  }

  lemma DiscardKeepsInv(w: World, k: string, residual: int, at: int, kept: bool)
    requires Inv(w)
    ensures Inv(Apply(w, DiscardStep(k, residual, at, kept)))
    ensures !kept ==> Apply(w, DiscardStep(k, residual, at, kept)).residue == w.residue
  {
    DiscardBalanced(w.ledger, k, residual, at, kept);
  }

  lemma SweepKeepsInv(w: World, cutoff: int, refused: set<string>)
    requires Inv(w)
    ensures Inv(Apply(w, SweepStep(cutoff, refused)))
  {
    SweepFacts(w.ledger, w.ledger.order, cutoff, refused);
  }

  lemma EnforceKeepsInv(w: World, refused: set<string>)
    requires Inv(w)
    ensures Inv(Apply(w, EnforceStep(refused)))
  {
    EvictFacts(w.ledger, w.ledger.order, w.ledger.reservations.Keys, refused, w.maxSize);
  }

  lemma BeginKeepsInv(w: World, k: string)
    requires Inv(w) && k !in w.ledger.reservations
    ensures Inv(Apply(w, BeginStep(k)))
  {
    BeginBalanced(w.ledger, k);
  }

  lemma ReleaseKeepsInv(w: World, k: string)
    requires Inv(w) && k in w.ledger.reservations
    ensures Inv(Apply(w, ReleaseStep(k)))
  {
    ReleaseBalanced(w.ledger, k);
  }

  lemma TouchCovers(s: Ledger, admitted: map<string, int>, k: string)
    requires Covered(s, admitted)
    ensures Covered(Touch(s, k), admitted)
    ensures Touch(s, k).totalSize == s.totalSize && Touch(s, k).reservedSize == s.reservedSize
  {
  }

  lemma TouchKeepsInv(w: World, k: string)
    requires Inv(w)
    ensures Inv(Apply(w, TouchStep(k)))
  {
    assert Balanced(Touch(w.ledger, k)) by { TouchBalanced(w.ledger, k); }
    TouchCovers(w.ledger, w.admitted, k);
  }

  lemma StepKeepsInv(w: World, step: Step)
    requires Inv(w) && Enabled(w, step)
    ensures Inv(Apply(w, step))
    ensures !(step.DiscardStep? && step.kept) ==> Apply(w, step).residue == w.residue
  {
    match step
    case BeginStep(k) => BeginKeepsInv(w, k);
    case ReserveStep(k, item, refused) => ReserveKeepsInv(w, k, item, refused);
    case TrackStep(k, at) => TrackKeepsInv(w, k, at);
    case ReleaseStep(k) => ReleaseKeepsInv(w, k);
    case DiscardStep(k, residual, at, kept) => DiscardKeepsInv(w, k, residual, at, kept);
    case TouchStep(k) => TouchKeepsInv(w, k);
    case SweepStep(cutoff, refused) => SweepKeepsInv(w, cutoff, refused);
    case EnforceStep(refused) => EnforceKeepsInv(w, refused);
  }

  /** The state after `steps`, or None when one of them is not enabled. */
  function Run(w: World, steps: seq<Step>): Option<World>
    decreases |steps|
  {
    if steps == [] then Some(w)
    else if Enabled(w, steps[0]) then Run(Apply(w, steps[0]), steps[1..])
    else None
  }

  /**
   From a balanced ledger within its limit, after any interleaving of writers, evictions and
   cleanups: both counters still equal the sums over the index and the reservations, and only
   residue the backend refused to remove can put them over the limit.
   */
  lemma {:induction false} LimitHoldsOverRuns(w: World, steps: seq<Step>)
    requires Inv(w) && Run(w, steps).Some?
    ensures var t := Run(w, steps).value;
            && Balanced(t.ledger)
            && (0 < w.maxSize ==> t.ledger.totalSize + t.ledger.reservedSize <= w.maxSize + t.residue)
            && ((forall i :: 0 <= i < |steps| ==> !(steps[i].DiscardStep? && steps[i].kept)) ==> t.residue == w.residue)
    decreases |steps|
  {
    if steps != [] {
      StepKeepsInv(w, steps[0]);
      LimitHoldsOverRuns(Apply(w, steps[0]), steps[1..]);
    }
  }

  // ------------------------------------------------- the excess is what is left over

  /** What a key may add to the excess: nothing unless it is left over, and once its writer is
      admitted again only what the publication will give back. */
  function Surplus(e: Entry, left: bool, admitted: Option<int>): int {
    if !left then 0 else if admitted.Some? then Max(e.size - admitted.value, 0) else e.size
  }

  function AdmittedAt(admitted: map<string, int>, k: string): Option<int> {
    if k in admitted then Some(admitted[k]) else None
  }

  /** The index with surpluses for sizes. */
  function Surpluses(index: map<string, Entry>, leftover: set<string>, admitted: map<string, int>): map<string, Entry> {
    map k | k in index :: Entry(Surplus(index[k], k in leftover, AdmittedAt(admitted, k)), 0)
  }

  ghost function Excess(s: Ledger, leftover: set<string>, admitted: map<string, int>): int
    requires forall k :: k in s.order ==> k in s.index
  {
    Total(s.order, Surpluses(s.index, leftover, admitted))
  }

  ghost predicate Within(maxSize: int, s: Ledger, leftover: set<string>, admitted: map<string, int>) {
    && (forall k :: k in s.order ==> k in s.index)
    && (0 < maxSize ==> s.totalSize + s.reservedSize <= maxSize + Excess(s, leftover, admitted))
  }

  lemma SurplusBounds(e: Entry, left: bool, admitted: Option<int>)
    requires 0 <= e.size && (admitted.Some? ==> 0 <= admitted.value)
    ensures 0 <= Surplus(e, left, admitted) <= e.size
  {
  }

  /** An entry that goes takes at least its surplus with it. */
  lemma DropExcess(s: Ledger, k: string, leftover: set<string>, admitted: map<string, int>)
    requires Balanced(s) && k in s.index
    ensures (forall j :: j in Drop(s, k).order ==> j in Drop(s, k).index)
    ensures Excess(Drop(s, k), leftover, admitted) ==
            Excess(s, leftover, admitted) - Surplus(s.index[k], k in leftover, AdmittedAt(admitted, k))
  {
    var m, n := Surpluses(s.index, leftover, admitted), Surpluses(s.index - {k}, leftover, admitted);
    WithoutFacts(s.order, k);
    TotalWithout(s.order, k, m);
    TotalFrame(Without(s.order, k), m, n);
  }

  /** Everything that bears on one key's surplus changes for that key alone. */
  ghost predicate OnlyAt(
    k: string, left: set<string>, left': set<string>, adm: map<string, int>, adm': map<string, int>)
  {
    forall j :: j != k ==> (j in left <==> j in left') && AdmittedAt(adm, j) == AdmittedAt(adm', j)
  }

  function SurplusAt(index: map<string, Entry>, left: set<string>, adm: map<string, int>, k: string): int {
    if k in index then Surplus(index[k], k in left, AdmittedAt(adm, k)) else 0
  }

  lemma SurplusesPut(
    index: map<string, Entry>, k: string, e: Entry, left: set<string>, left': set<string>, adm: map<string, int>,
    adm': map<string, int>)
    requires OnlyAt(k, left, left', adm, adm')
    ensures Surpluses(index[k := e], left', adm') ==
            Surpluses(index, left, adm)[k := Entry(Surplus(e, k in left', AdmittedAt(adm', k)), 0)]
  {
  }

  /** A key at the front with a new surplus. */
  lemma FrontExcess(
    order: seq<string>, index: map<string, Entry>, k: string, e: Entry, left: set<string>, left': set<string>,
    adm: map<string, int>, adm': map<string, int>)
    requires Distinct(order) && (forall j :: j in order <==> j in index) && OnlyAt(k, left, left', adm, adm')
    ensures forall j :: j in [k] + Without(order, k) ==> j in index[k := e]
    ensures Total([k] + Without(order, k), Surpluses(index[k := e], left', adm')) ==
            Total(order, Surpluses(index, left, adm)) - SurplusAt(index, left, adm, k)
            + Surplus(e, k in left', AdmittedAt(adm', k))
  {
    SurplusesPut(index, k, e, left, left', adm, adm');
    FrontTotal(order, Surpluses(index, left, adm), k, Entry(Surplus(e, k in left', AdmittedAt(adm', k)), 0));
  }

  /** A key that stays in its place, or has no entry. */
  lemma PlaceExcess(
    order: seq<string>, index: map<string, Entry>, k: string, e: Entry, left: set<string>, left': set<string>,
    adm: map<string, int>, adm': map<string, int>)
    requires Distinct(order) && (forall j :: j in order <==> j in index) && OnlyAt(k, left, left', adm, adm')
    requires k in index
    ensures Total(order, Surpluses(index[k := e], left', adm')) ==
            Total(order, Surpluses(index, left, adm)) - SurplusAt(index, left, adm, k)
            + Surplus(e, k in left', AdmittedAt(adm', k))
  {
    SurplusesPut(index, k, e, left, left', adm, adm');
    ResizeTotal(order, Surpluses(index, left, adm), k, Entry(Surplus(e, k in left', AdmittedAt(adm', k)), 0));
  }

  lemma AbsentExcess(
    order: seq<string>, index: map<string, Entry>, k: string, left: set<string>, left': set<string>,
    adm: map<string, int>, adm': map<string, int>)
    requires (forall j :: j in order <==> j in index) && OnlyAt(k, left, left', adm, adm') && k !in index
    ensures Total(order, Surpluses(index, left', adm')) == Total(order, Surpluses(index, left, adm))
  {
    TotalFrame(order, Surpluses(index, left, adm), Surpluses(index, left', adm'));
  }

  /** The same key with the same entry, as far as the excess goes. */
  lemma SameEntryExcess(
    s: Ledger, k: string, left: set<string>, left': set<string>, adm: map<string, int>, adm': map<string, int>)
    requires Balanced(s) && OnlyAt(k, left, left', adm, adm')
    ensures Excess(s, left', adm') ==
            Excess(s, left, adm) - SurplusAt(s.index, left, adm, k) + SurplusAt(s.index, left', adm', k)
  {
    if k in s.index {
      PlaceExcess(s.order, s.index, k, s.index[k], left, left', adm, adm');
      assert s.index[k := s.index[k]] == s.index;
    } else {
      AbsentExcess(s.order, s.index, k, left, left', adm, adm');
    }
  }

  predicate Admissions(adm: map<string, int>) {
    forall k :: k in adm ==> 0 <= adm[k]
  }

  /** Eviction takes at least as much off the total as off the excess. */
  lemma {:induction false} EvictExcess(
    s: Ledger, rest: seq<string>, keep: set<string>, refused: set<string>, target: int, left: set<string>,
    adm: map<string, int>)
    requires Balanced(s) && Admissions(adm)
    ensures var t := Evict(s, rest, keep, refused, target);
            Balanced(t) && t.totalSize - Excess(t, left, adm) <= s.totalSize - Excess(s, left, adm)
    decreases |rest|
  {
    if rest != [] && target < s.totalSize {
      var k, front := rest[|rest| - 1], rest[..|rest| - 1];
      if k in keep || k in refused || k !in s.index {
        EvictExcess(s, front, keep, refused, target, left, adm);
      } else {
        DropBalanced(s, k);
        DropExcess(s, k, left, adm);
        SurplusBounds(s.index[k], k in left, AdmittedAt(adm, k));
        EvictExcess(Drop(s, k), front, keep, refused, target, left, adm);
      }
    }
  }

  lemma {:induction false} SweepExcess(
    s: Ledger, rest: seq<string>, cutoff: int, refused: set<string>, left: set<string>, adm: map<string, int>)
    requires Balanced(s) && Admissions(adm)
    ensures var t := SweepExpired(s, rest, cutoff, refused).0;
            Balanced(t) && t.totalSize - Excess(t, left, adm) <= s.totalSize - Excess(s, left, adm)
    decreases |rest|
  {
    if rest != [] {
      var k, front := rest[|rest| - 1], rest[..|rest| - 1];
      if k in s.index && s.index[k].storedAt < cutoff && k !in s.reservations && k !in refused {
        DropBalanced(s, k);
        DropExcess(s, k, left, adm);
        SurplusBounds(s.index[k], k in left, AdmittedAt(adm, k));
        SweepExcess(Drop(s, k), front, cutoff, refused, left, adm);
      } else {
        SweepExcess(s, front, cutoff, refused, left, adm);
      }
    }
  }

  lemma {:induction false} TotalAtMost(order: seq<string>, m: map<string, Entry>, n: map<string, Entry>)
    requires forall k :: k in order ==> k in m && k in n && m[k].size <= n[k].size
    ensures Total(order, m) <= Total(order, n)
  {
    if order != [] { TotalAtMost(order[1..], m, n); }
  }

  /** The excess is no less than any one surplus in it. */
  lemma ExcessHolds(s: Ledger, left: set<string>, adm: map<string, int>, k: string)
    requires Balanced(s) && Admissions(adm)
    ensures 0 <= SurplusAt(s.index, left, adm, k) <= Excess(s, left, adm)
  {
    var m := Surpluses(s.index, left, adm);
    forall j | j in s.order ensures 0 <= m[j].size { SurplusBounds(s.index[j], j in left, AdmittedAt(adm, j)); }
    if k in s.index {
      TotalWithout(s.order, k, m);
      TotalNonNegative(Without(s.order, k), m);
    } else {
      TotalNonNegative(s.order, m);
    }
  }

  lemma ReleaseWithin(max: int, s: Ledger, left: set<string>, adm: map<string, int>, k: string)
    requires Balanced(s) && Within(max, s, left, adm) && Admissions(adm)
    ensures Within(max, Release(s, k), left, adm - {k})
  {
    SameEntryExcess(s, k, left, left, adm, adm - {k});
    if k in s.index { SurplusBounds(s.index[k], k in left, AdmittedAt(adm, k)); }
  }

  lemma TouchWithin(max: int, s: Ledger, left: set<string>, adm: map<string, int>, k: string)
    requires Balanced(s) && Within(max, s, left, adm)
    ensures Within(max, Touch(s, k), left, adm)
  {
    if k in s.index {
      FrontExcess(s.order, s.index, k, s.index[k], left, left, adm, adm);
      assert s.index[k := s.index[k]] == s.index;
    }
  }

  lemma TrackWithin(max: int, s: Ledger, left: set<string>, adm: map<string, int>, k: string, at: int)
    requires Balanced(s) && Within(max, s, left, adm) && Covered(s, adm) && k in adm
    ensures Within(max, Track(s, k, adm[k], at), left - {k}, adm - {k})
  {
    FrontExcess(s.order, s.index, k, Entry(adm[k], at), left, left - {k}, adm, adm - {k});
  }

  /** The key is gone, and with it its surplus. */
  lemma GoneExcess(s: Ledger, left: set<string>, adm: map<string, int>, k: string)
    requires Balanced(s) && k in s.index
    ensures forall j :: j in Drop(s, k).order ==> j in Drop(s, k).index
    ensures Excess(Drop(s, k), left - {k}, adm - {k}) ==
            Excess(s, left, adm) - Surplus(s.index[k], k in left, AdmittedAt(adm, k))
  {
    var t := Drop(s, k);
    DropExcess(s, k, left, adm);
    assert Balanced(t) by { DropBalanced(s, k); }
    AbsentExcess(t.order, t.index, k, left, left - {k}, adm, adm - {k});
  }

  lemma DiscardGone(max: int, s: Ledger, left: set<string>, adm: map<string, int>, k: string)
    requires Balanced(s) && Within(max, s, left, adm) && Admissions(adm) && k in s.index
    ensures Within(max, Drop(s, k), left - {k}, adm - {k})
  {
    SurplusBounds(s.index[k], k in left, AdmittedAt(adm, k));
    GoneExcess(s, left, adm, k);
  }

  lemma DiscardGrown(max: int, s: Ledger, left: set<string>, adm: map<string, int>, k: string, residual: int)
    requires Balanced(s) && Within(max, s, left, adm) && Admissions(adm) && k in s.index && s.index[k].size < residual
    ensures Within(max, Discard(s, k, residual, 0, true), left + {k}, adm - {k})
  {
    SurplusBounds(s.index[k], k in left, AdmittedAt(adm, k));
    PlaceExcess(s.order, s.index, k, s.index[k].(size := residual), left, left + {k}, adm, adm - {k});
  }

  lemma DiscardAdded(max: int, s: Ledger, left: set<string>, adm: map<string, int>, k: string, residual: int, at: int)
    requires Distinct(s.order) && (forall j :: j in s.order <==> j in s.index) && Within(max, s, left, adm)
    requires k !in s.index
    ensures Within(max, Discard(s, k, residual, at, true), left + {k}, adm - {k})
  {
    var e := Entry(if residual <= 0 then 1 else residual, at);
    WithoutAbsent(s.order, k);
    FrontExcess(s.order, s.index, k, e, left, left + {k}, adm, adm - {k});
    assert Surplus(e, true, None) == e.size && SurplusAt(s.index, left, adm, k) == 0;
  }

  lemma DiscardWithin(
    max: int, s: Ledger, left: set<string>, adm: map<string, int>, k: string, residual: int, at: int, kept: bool)
    requires Balanced(s) && Within(max, s, left, adm) && Admissions(adm)
    ensures Within(max, Discard(s, k, residual, at, kept), if kept then left + {k} else left - {k}, adm - {k})
  {
    if k in s.index && !kept {
      DiscardGone(max, s, left, adm, k);
    } else if k in s.index && s.index[k].size < residual {
      DiscardGrown(max, s, left, adm, k, residual);
    } else if k in s.index || !kept {
      SameEntryExcess(s, k, left, if kept then left + {k} else left - {k}, adm, adm - {k});
      if k in s.index { SurplusBounds(s.index[k], k in left, AdmittedAt(adm, k)); }
    } else {
      DiscardAdded(max, s, left, adm, k, residual, at);
    }
  }

  /** Admission checks against the limit itself, not against the excess. */
  lemma AdmitWithin(max: int, s: Ledger, t: Ledger, left: set<string>, adm: map<string, int>, k: string, item: int)
    requires Balanced(t) && Admissions(adm) && 0 <= item && 0 < max && Reserved(t, k) >= 0
    requires t.totalSize <= AdmissionTarget(t, max, k, item)
    requires t.totalSize + t.reservedSize <= max + Excess(t, left, adm)
    ensures t.totalSize + t.reservedSize + Max(item - SizeOf(t, k), 0) - Reserved(t, k) <=
            max + Excess(t, left, adm[k := item])
  {
    SameEntryExcess(t, k, left, left, adm, adm[k := item]);
    ExcessHolds(t, left, adm[k := item], k);
  }

  lemma ReserveStaysWithin(
    max: int, s: Ledger, left: set<string>, adm: map<string, int>, k: string, item: int, refused: set<string>)
    requires Balanced(s) && Within(max, s, left, adm) && Admissions(adm)
    ensures var r := Reserve(s, max, k, item, refused); Within(max, r.0, left, if r.1 then adm[k := item] else adm)
  {
    var t := EvictForAdmission(s, max, k, item, refused).0;
    AdmissionFacts(s, max, k, item, refused);
    EvictExcess(s, s.order, s.reservations.Keys + {k}, refused, AdmissionTarget(s, max, k, item), left, adm);
    if Reserve(s, max, k, item, refused).1 && 0 < max {
      assert AdmissionTarget(t, max, k, item) == AdmissionTarget(s, max, k, item);
      AdmitWithin(max, s, t, left, adm, k, item);
    }
  }

  ghost predicate Bounded(w: World) {
    Inv(w) && Within(w.maxSize, w.ledger, w.leftover, w.admitted)
  }

  lemma StepKeepsWithin(w: World, step: Step)
    requires Bounded(w) && Enabled(w, step)
    ensures var t := Apply(w, step); Within(t.maxSize, t.ledger, t.leftover, t.admitted)
  {
    var max, s, left, adm := w.maxSize, w.ledger, w.leftover, w.admitted;
    assert Admissions(adm);
    match step
    case BeginStep(k) =>
    case ReserveStep(k, item, refused) => ReserveStaysWithin(max, s, left, adm, k, item, refused);
    case TrackStep(k, at) => TrackWithin(max, s, left, adm, k, at);
    case ReleaseStep(k) => ReleaseWithin(max, s, left, adm, k);
    case DiscardStep(k, residual, at, kept) => DiscardWithin(max, s, left, adm, k, residual, at, kept);
    case TouchStep(k) => TouchWithin(max, s, left, adm, k);
    case SweepStep(cutoff, refused) =>
      SweepFacts(s, s.order, cutoff, refused);
      SweepExcess(s, s.order, cutoff, refused, left, adm);
    case EnforceStep(refused) =>
      EvictFacts(s, s.order, s.reservations.Keys, refused, max);
      EvictExcess(s, s.order, s.reservations.Keys, refused, max, left, adm);
  }

  /** The sizes of the entries that are left over from failed writes. */
  ghost function LeftoverSize(s: Ledger, leftover: set<string>): int
    requires forall k :: k in s.order ==> k in s.index
  {
    Excess(s, leftover, map[])
  }

  lemma ExcessAtMostLeftover(s: Ledger, leftover: set<string>, admitted: map<string, int>)
    requires Balanced(s) && Admissions(admitted)
    ensures Excess(s, leftover, admitted) <= LeftoverSize(s, leftover)
    ensures (forall k :: k in leftover ==> k !in s.index) ==> LeftoverSize(s, leftover) == 0
  {
    var m, n := Surpluses(s.index, leftover, admitted), Surpluses(s.index, leftover, map[]);
    forall k | k in s.order ensures m[k].size <= n[k].size {
      SurplusBounds(s.index[k], k in leftover, AdmittedAt(admitted, k));
    }
    TotalAtMost(s.order, m, n);
    if forall k :: k in leftover ==> k !in s.index { TotalZero(s.order, n); }
  }

  lemma {:induction false} TotalZero(order: seq<string>, m: map<string, Entry>)
    requires forall k :: k in order ==> k in m && m[k].size == 0
    ensures Total(order, m) == 0
  {
    if order != [] { TotalZero(order[1..], m); }
  }

  lemma {:induction false} RunStaysBounded(w: World, steps: seq<Step>)
    requires Bounded(w) && Run(w, steps).Some?
    ensures Bounded(Run(w, steps).value) && Run(w, steps).value.maxSize == w.maxSize
    decreases |steps|
  {
    if steps != [] {
      StepKeepsInv(w, steps[0]);
      StepKeepsWithin(w, steps[0]);
      RunStaysBounded(Apply(w, steps[0]), steps[1..]);
    }
  }

  /**
   From a ledger within its limit, after any interleaving: the limit is exceeded by no more than
   the entries still indexed that a failed write left behind and no publication replaced, so not
   at all once they are gone.
   */
  lemma ExcessIsLeftOver(w: World, steps: seq<Step>)
    requires Inv(w) && Run(w, steps).Some? && 0 < w.maxSize && w.ledger.totalSize + w.ledger.reservedSize <= w.maxSize
    ensures var t := Run(w, steps).value;
            && Balanced(t.ledger)
            && t.ledger.totalSize + t.ledger.reservedSize <= w.maxSize + LeftoverSize(t.ledger, t.leftover)
            && ((forall k :: k in t.leftover ==> k !in t.ledger.index) ==>
                  t.ledger.totalSize + t.ledger.reservedSize <= w.maxSize)
  {
    assert Admissions(w.admitted);
    ExcessHolds(w.ledger, w.leftover, w.admitted, "");
    RunStaysBounded(w, steps);
    var t := Run(w, steps).value;
    assert Admissions(t.admitted);
    ExcessAtMostLeftover(t.ledger, t.leftover, t.admitted);
  }

  // ----------------------------------------------------------- what eviction removes

  /** The keys eviction may take, least recently used first. */
  function Candidates(rest: seq<string>, keep: set<string>, refused: set<string>): seq<string> {
    if rest == [] then []
    else
      var k, front := rest[|rest| - 1], rest[..|rest| - 1];
      if k in keep || k in refused then Candidates(front, keep, refused)
      else [k] + Candidates(front, keep, refused)
  }

  lemma {:induction false} CandidatesFacts(rest: seq<string>, keep: set<string>, refused: set<string>)
    requires Distinct(rest)
    ensures var c := Candidates(rest, keep, refused);
            Distinct(c) && forall k :: k in c <==> k in rest && k !in keep && k !in refused
  {
    if rest != [] {
      var k, front := rest[|rest| - 1], rest[..|rest| - 1];
      CandidatesFacts(front, keep, refused);
      assert forall j :: j in rest <==> j in front || j == k;
      assert k !in front;
    }
  }

  function Keys(c: seq<string>): set<string> {
    set k | k in c
  }

  /** `t` is `s` without the first `n` of the candidates `c`, and `n` is the least number that
      reaches the target, or all of them. */
  ghost predicate ShortestRun(s: Ledger, c: seq<string>, t: Ledger, target: int, n: nat) {
    && n <= |c| && (forall k :: k in c ==> k in s.index)
    && t.index == s.index - Keys(c[..n])
    && t.totalSize == s.totalSize - Total(c[..n], s.index)
    && (forall m :: 0 <= m < n ==> target < s.totalSize - Total(c[..m], s.index))
    && (t.totalSize <= target || n == |c|)
  }

  /** One more candidate in front: sizes and keys of the removed run. */
  lemma RunStep(s: Ledger, k: string, d: seq<string>, n: nat)
    requires k in s.index && k !in d && 0 < n <= |d| + 1 && forall j :: j in d ==> j in s.index
    ensures forall j :: j in ([k] + d)[..n] ==> j in s.index
    ensures forall j :: j in d[..n - 1] ==> j in Drop(s, k).index
    ensures Total(([k] + d)[..n], s.index) == s.index[k].size + Total(d[..n - 1], Drop(s, k).index)
    ensures s.index - Keys(([k] + d)[..n]) == Drop(s, k).index - Keys(d[..n - 1])
  {
    var c := ([k] + d)[..n];
    assert c[1..] == d[..n - 1] && c[0] == k;
    assert c == [k] + d[..n - 1];
    TotalFrame(d[..n - 1], s.index, Drop(s, k).index);
    assert Keys(c) == {k} + Keys(d[..n - 1]);
  }

  lemma ShortestRunStep(s: Ledger, k: string, d: seq<string>, t: Ledger, target: int, n: nat)
    requires k in s.index && k !in d && target < s.totalSize && ShortestRun(Drop(s, k), d, t, target, n)
    ensures ShortestRun(s, [k] + d, t, target, n + 1)
  {
    var c := [k] + d;
    RunStep(s, k, d, n + 1);
    forall m | 0 <= m < n + 1 ensures target < s.totalSize - Total(c[..m], s.index) {
      if m == 0 { assert c[..0] == []; } else { RunStep(s, k, d, m); }
    }
  }

  /**
   Eviction removes a run of candidates from the least recently used end: nothing else, and no
   candidate more than it takes to reach the target.  It stops short of the target only when
   every candidate is gone.
   */
  lemma {:induction false} EvictRemovesShortestRun(
    s: Ledger, rest: seq<string>, keep: set<string>, refused: set<string>, target: int) returns (n: nat)
    requires Distinct(rest) && forall k :: k in rest ==> k in s.index
    ensures ShortestRun(s, Candidates(rest, keep, refused), Evict(s, rest, keep, refused, target), target, n)
    decreases |rest|
  {
    CandidatesFacts(rest, keep, refused);
    if rest == [] || s.totalSize <= target {
      n := 0;
      assert Candidates(rest, keep, refused)[..0] == [];
    } else {
      var k, front := rest[|rest| - 1], rest[..|rest| - 1];
      if k in keep || k in refused {
        n := EvictRemovesShortestRun(s, front, keep, refused, target);
      } else {
        CandidatesFacts(front, keep, refused);
        n := EvictRemovesShortestRun(Drop(s, k), front, keep, refused, target);
        ShortestRunStep(s, k, Candidates(front, keep, refused), Evict(s, rest, keep, refused, target), target, n);
        n := n + 1;
      }
    }
  }

  /**
   An item that fits the limit is refused exactly when removing every entry that is unreserved,
   is not the item's own and can be removed would still leave too little room.
   */
  lemma AdmissionRefusedOnlyWithoutRoom(s: Ledger, maxSize: int, k: string, item: int, refused: set<string>)
    requires Balanced(s) && 0 <= item <= maxSize && 0 < maxSize
    ensures var c := Candidates(s.order, s.reservations.Keys + {k}, refused);
            && (forall j :: j in c <==> j in s.index && j !in s.reservations && j != k && j !in refused)
            && (Reserve(s, maxSize, k, item, refused).1 <==>
                s.totalSize - Total(c, s.index) <= AdmissionTarget(s, maxSize, k, item))
  {
    var keep, target := s.reservations.Keys + {k}, AdmissionTarget(s, maxSize, k, item);
    var c := Candidates(s.order, keep, refused);
    CandidatesFacts(s.order, keep, refused);
    var n := EvictRemovesShortestRun(s, s.order, keep, refused, target);
    assert c[..n] + c[n..] == c && c[..|c|] == c;
    TotalAppend(c[..n], c[n..], s.index);
    TotalNonNegative(c[n..], s.index);
  }

  // ------------------------------------------------------------ least recently used

  /** When a key was last published or touched, counted in steps. */
  function UsedAt(used: map<string, nat>, k: string): int {
    if k in used then used[k] else -1
  }

  /** The list is in strictly descending order of last use. */
  ghost predicate ByRecency(order: seq<string>, used: map<string, nat>, now: nat) {
    && (forall k :: k in order ==> 0 <= UsedAt(used, k) < now)
    && (forall i, j :: 0 <= i < j < |order| ==> UsedAt(used, order[j]) < UsedAt(used, order[i]))
  }

  datatype History = History(world: World, used: map<string, nat>, now: nat)

  /** The key a step puts to use: published, touched, or left behind by a failed write. */
  function UseOf(s: Ledger, step: Step): Option<string> {
    match step
    case TrackStep(k, _) => Some(k)
    case TouchStep(k) => if k in s.index then Some(k) else None
    case DiscardStep(k, _, _, kept) => if kept && k !in s.index then Some(k) else None
    case _ => None
  }

  function Advance(h: History, step: Step): History
    requires Enabled(h.world, step)
  {
    var use := UseOf(h.world.ledger, step);
    History(Apply(h.world, step), if use.Some? then h.used[use.value := h.now] else h.used, h.now + 1)
  }

  lemma RecencyTail(order: seq<string>, used: map<string, nat>, now: nat)
    requires order != [] && ByRecency(order, used, now)
    ensures ByRecency(order[1..], used, now) && forall x :: x in order[1..] ==> UsedAt(used, x) < UsedAt(used, order[0])
  {
    var rest := order[1..];
    assert forall j :: 0 <= j < |rest| ==> rest[j] == order[j + 1];
  }

  lemma RecencyFront(k: string, rest: seq<string>, used: map<string, nat>, now: nat)
    requires ByRecency(rest, used, now) && 0 <= UsedAt(used, k) < now
    requires forall x :: x in rest ==> UsedAt(used, x) < UsedAt(used, k)
    ensures ByRecency([k] + rest, used, now)
  {
  }

  lemma {:induction false} WithoutKeepsRecency(order: seq<string>, k: string, used: map<string, nat>, now: nat)
    requires ByRecency(order, used, now)
    ensures ByRecency(Without(order, k), used, now) && (k in order ==> k !in Without(order, k))
  {
    if order != [] {
      RecencyTail(order, used, now);
      if order[0] != k {
        WithoutKeepsRecency(order[1..], k, used, now);
        RecencyFront(order[0], Without(order[1..], k), used, now);
      }
    }
  }

  lemma FrontIsLatest(order: seq<string>, k: string, used: map<string, nat>, now: nat)
    requires ByRecency(order, used, now) && k !in order
    ensures ByRecency([k] + order, used[k := now], now + 1)
  {
    assert forall x :: x in order ==> UsedAt(used[k := now], x) == UsedAt(used, x);
    assert ByRecency(order, used[k := now], now + 1);
    RecencyFront(k, order, used[k := now], now + 1);
  }

  lemma MoveKeepsRecency(order: seq<string>, k: string, used: map<string, nat>, now: nat)
    requires ByRecency(order, used, now)
    ensures ByRecency([k] + Without(order, k), used[k := now], now + 1)
  {
    WithoutKeepsRecency(order, k, used, now);
    assert k !in Without(order, k) by { if k !in order { WithoutAbsent(order, k); } }
    FrontIsLatest(Without(order, k), k, used, now);
  }

  lemma {:induction false} EvictKeepsRecency(
    s: Ledger, rest: seq<string>, keep: set<string>, refused: set<string>, target: int, used: map<string, nat>,
    now: nat)
    requires ByRecency(s.order, used, now)
    ensures ByRecency(Evict(s, rest, keep, refused, target).order, used, now)
    decreases |rest|
  {
    if rest != [] && target < s.totalSize {
      var k, front := rest[|rest| - 1], rest[..|rest| - 1];
      if k in keep || k in refused || k !in s.index {
        EvictKeepsRecency(s, front, keep, refused, target, used, now);
      } else {
        WithoutKeepsRecency(s.order, k, used, now);
        EvictKeepsRecency(Drop(s, k), front, keep, refused, target, used, now);
      }
    }
  }

  lemma {:induction false} SweepKeepsRecency(
    s: Ledger, rest: seq<string>, cutoff: int, refused: set<string>, used: map<string, nat>, now: nat)
    requires ByRecency(s.order, used, now)
    ensures ByRecency(SweepExpired(s, rest, cutoff, refused).0.order, used, now)
    decreases |rest|
  {
    if rest != [] {
      var k, front := rest[|rest| - 1], rest[..|rest| - 1];
      if k in s.index && s.index[k].storedAt < cutoff && k !in s.reservations && k !in refused {
        WithoutKeepsRecency(s.order, k, used, now);
        SweepKeepsRecency(Drop(s, k), front, cutoff, refused, used, now);
      } else {
        SweepKeepsRecency(s, front, cutoff, refused, used, now);
      }
    }
  }

  ghost predicate Ordered(h: History) {
    && ByRecency(h.world.ledger.order, h.used, h.now)
    && (forall k :: k in h.world.ledger.order <==> k in h.world.ledger.index)
  }

  lemma DiscardKeepsRecency(s: Ledger, k: string, residual: int, at: int, kept: bool, used: map<string, nat>, now: nat)
    requires ByRecency(s.order, used, now) && forall j :: j in s.order <==> j in s.index
    ensures var used' := if kept && k !in s.index then used[k := now] else used;
            ByRecency(Discard(s, k, residual, at, kept).order, used', now + 1)
  {
    assert ByRecency(s.order, used, now + 1);
    if k in s.index && !kept {
      WithoutKeepsRecency(s.order, k, used, now + 1);
    } else if k !in s.index && kept {
      FrontIsLatest(s.order, k, used, now);
    }
  }

  lemma StepKeepsRecency(h: History, step: Step)
    requires Ordered(h) && Enabled(h.world, step)
    ensures ByRecency(Apply(h.world, step).ledger.order, Advance(h, step).used, h.now + 1)
  {
    var s := h.world.ledger;
    match step
    case BeginStep(_) =>
    case ReserveStep(k, item, refused) =>
      var target := AdmissionTarget(s, h.world.maxSize, k, item);
      EvictKeepsRecency(s, s.order, s.reservations.Keys + {k}, refused, target, h.used, h.now);
    case TrackStep(k, _) => MoveKeepsRecency(s.order, k, h.used, h.now);
    case ReleaseStep(_) =>
    case DiscardStep(k, residual, at, kept) => DiscardKeepsRecency(s, k, residual, at, kept, h.used, h.now);
    case TouchStep(k) => if k in s.index { MoveKeepsRecency(s.order, k, h.used, h.now); }
    case SweepStep(cutoff, refused) => SweepKeepsRecency(s, s.order, cutoff, refused, h.used, h.now);
    case EnforceStep(refused) =>
      EvictKeepsRecency(s, s.order, s.reservations.Keys, refused, h.world.maxSize, h.used, h.now);
  }

  function RunOf(h: History, steps: seq<Step>): Option<History>
    decreases |steps|
  {
    if steps == [] then Some(h)
    else if Enabled(h.world, steps[0]) then RunOf(Advance(h, steps[0]), steps[1..])
    else None
  }

  /** After any run the list is in the order in which its entries were last used. */
  lemma {:induction false} OrderIsRecency(h: History, steps: seq<Step>)
    requires Inv(h.world) && Ordered(h) && RunOf(h, steps).Some?
    ensures var t := RunOf(h, steps).value; Inv(t.world) && Ordered(t) && Run(h.world, steps) == Some(t.world)
    decreases |steps|
  {
    if steps != [] {
      StepKeepsInv(h.world, steps[0]);
      StepKeepsRecency(h, steps[0]);
      OrderIsRecency(Advance(h, steps[0]), steps[1..]);
    }
  }

  lemma {:induction false} CandidatesOldestFirst(
    rest: seq<string>, keep: set<string>, refused: set<string>, used: map<string, nat>, now: nat)
    requires ByRecency(rest, used, now)
    ensures var c := Candidates(rest, keep, refused);
            && (forall k :: k in c ==> k in rest)
            && (forall i, j :: 0 <= i < j < |c| ==> UsedAt(used, c[i]) < UsedAt(used, c[j]))
  {
    if rest != [] {
      var k, front := rest[|rest| - 1], rest[..|rest| - 1];
      CandidatesOldestFirst(front, keep, refused, used, now);
      forall x | x in front ensures UsedAt(used, k) < UsedAt(used, x) {
        var i :| 0 <= i < |front| && front[i] == x;
        assert rest[i] == x;
      }
    }
  }

  lemma PrefixIsOlder(c: seq<string>, n: nat, used: map<string, nat>, a: string, b: string)
    requires n <= |c| && a in Keys(c[..n]) && b in c && b !in Keys(c[..n])
    requires forall i, j :: 0 <= i < j < |c| ==> UsedAt(used, c[i]) < UsedAt(used, c[j])
    ensures UsedAt(used, a) < UsedAt(used, b)
  {
    var i :| 0 <= i < n && c[..n][i] == a;
    var j :| 0 <= j < |c| && c[j] == b;
    assert forall m :: 0 <= m < n ==> c[..n][m] == c[m];
    assert j >= n;
  }

  /** Whatever eviction removes was used before every entry it could have removed and kept. */
  lemma EvictsLeastRecentlyUsed(
    s: Ledger, keep: set<string>, refused: set<string>, target: int, used: map<string, nat>, now: nat, a: string,
    b: string)
    requires Balanced(s) && ByRecency(s.order, used, now)
    requires var t := Evict(s, s.order, keep, refused, target); a in s.index && a !in t.index && b in t.index
    requires b !in keep && b !in refused
    ensures UsedAt(used, a) < UsedAt(used, b)
  {
    var c := Candidates(s.order, keep, refused);
    EvictFacts(s, s.order, keep, refused, target);
    CandidatesFacts(s.order, keep, refused);
    var n := EvictRemovesShortestRun(s, s.order, keep, refused, target);
    CandidatesOldestFirst(s.order, keep, refused, used, now);
    PrefixIsOlder(c, n, used, a, b);
  }

  // -------------------------------------------------------------- the cache object

  /** The ledger fields of the cache, updated in place by the source's methods. */
  class Cache {
    const maxSize: int
    var order: seq<string>
    var index: map<string, Entry>
    var totalSize: int
    var reservations: map<string, int>
    var reservedSize: int

    function Model(): Ledger
      reads this
    {
      Ledger(order, index, totalSize, reservations, reservedSize)
    }

    ghost predicate Valid()
      reads this
    {
      Balanced(Model())
    }

    constructor (maxSize: int)
      ensures Valid()
      ensures this.maxSize == maxSize && Model() == Ledger([], map[], 0, map[], 0)
    {
      this.maxSize := maxSize;
      order, index, totalSize, reservations, reservedSize := [], map[], 0, map[], 0;
    }

    /** The caller holds the key's writer lock, so the key has no reservation yet. */
    method BeginReservation(k: string)
      requires Valid() && k !in reservations
      modifies this
      ensures Valid()
      ensures Model() == Begin(old(Model()), k)
    {
      BeginBalanced(Model(), k);
      reservations := reservations[k := 0];
    }

    method ReleaseReservation(k: string)
      requires Valid()
      modifies this
      ensures Valid()
      ensures Model() == Release(old(Model()), k)
    {
      ReleaseBalanced(Model(), k);
      reservedSize := reservedSize - (if k in reservations then reservations[k] else 0);
      reservations := reservations - {k};
    }

    method TrackEntry(k: string, size: int, at: int)
      requires Valid() && 0 <= size
      modifies this
      ensures Valid()
      ensures Model() == Track(old(Model()), k, size, at)
    {
      TrackBalanced(Model(), k, size, at);
      var reserved := if k in reservations then reservations[k] else 0;
      reservedSize := reservedSize - reserved;
      reservations := reservations - {k};
      if k in index {
        ReplaceTracked(k, size, at);
      } else {
        WithoutAbsent(order, k);
        InsertTracked(k, size, at);
      }
    }

    method ReplaceTracked(k: string, size: int, at: int)
      requires k in index
      modifies this`order, this`index, this`totalSize
      ensures order == [k] + Without(old(order), k) && index == old(index)[k := Entry(size, at)]
      ensures totalSize == old(totalSize) - old(index)[k].size + size
    {
      totalSize := totalSize - index[k].size;
      index := index[k := Entry(size, at)];
      totalSize := totalSize + size;
      MoveToFront(k);
    }

    method InsertTracked(k: string, size: int, at: int)
      modifies this`order, this`index, this`totalSize
      ensures order == [k] + old(order) && index == old(index)[k := Entry(size, at)]
      ensures totalSize == old(totalSize) + size
    {
      order := [k] + order;
      index := index[k := Entry(size, at)];
      totalSize := totalSize + size;
    }

    method TouchEntry(k: string)
      requires Valid()
      modifies this
      ensures Valid()
      ensures Model() == Touch(old(Model()), k)
    {
      TouchBalanced(Model(), k);
      if k in index {
        MoveToFront(k);
      }
    }

    method MoveToFront(k: string)
      modifies this`order
      ensures order == [k] + Without(old(order), k)
    {
      order := [k] + Without(order, k);
    }

    method RemoveEntry(k: string, refused: bool) returns (ok: bool)
      requires k in index
      modifies this
      ensures ok == !refused
      ensures Model() == if ok then Drop(old(Model()), k) else old(Model())
    {
      if refused { return false; }
      order := Without(order, k);
      totalSize := totalSize - index[k].size;
      index := index - {k};
      ok := true;
    }

    method EvictDownTo(keep: set<string>, refused: set<string>, target: int)
      modifies this
      ensures Model() == Evict(old(Model()), old(order), keep, refused, target)
    {
      var visit, i := order, |order|;
      assert visit[..i] == visit;
      while 0 < i && target < totalSize
        invariant 0 <= i <= |visit|
        invariant Evict(Model(), visit[..i], keep, refused, target) == Evict(old(Model()), visit, keep, refused, target)
      {
        var k := visit[i - 1];
        assert visit[..i][..i - 1] == visit[..i - 1];
        if k !in keep && k in index {
          var _ := RemoveEntry(k, k in refused);
        }
        i := i - 1;
      }
    }

    method EvictForAdmissionLocked(k: string, item: int, refused: set<string>) returns (ok: bool)
      modifies this
      ensures Model() == EvictForAdmission(old(Model()), maxSize, k, item, refused).0
      ensures ok == EvictForAdmission(old(Model()), maxSize, k, item, refused).1
    {
      if item < 0 { return false; }
      if maxSize <= 0 { return true; }
      if maxSize < item { return false; }
      var existing := if k in index then index[k].size else 0;
      var otherReserved := reservedSize - (if k in reservations then reservations[k] else 0);
      var target := maxSize - otherReserved - item + existing;
      EvictDownTo(reservations.Keys + {k}, refused, target);
      ok := totalSize <= target;
    }

    method ReserveEntry(k: string, item: int, refused: set<string>) returns (ok: bool)
      requires Valid()
      modifies this
      ensures Valid()
      ensures Model() == Reserve(old(Model()), maxSize, k, item, refused).0
      ensures ok == Reserve(old(Model()), maxSize, k, item, refused).1
    {
      ReserveBalanced(Model(), maxSize, k, item, refused);
      ok := ReserveLocked(k, item, refused);
    }

    method ReserveLocked(k: string, item: int, refused: set<string>) returns (ok: bool)
      modifies this
      ensures Model() == Reserve(old(Model()), maxSize, k, item, refused).0
      ensures ok == Reserve(old(Model()), maxSize, k, item, refused).1
    {
      ok := EvictForAdmissionLocked(k, item, refused);
      if ok {
        var growth := Max(item - (if k in index then index[k].size else 0), 0);
        reservedSize := reservedSize + growth - (if k in reservations then reservations[k] else 0);
        reservations := reservations[k := growth];
      }
    }

    method DiscardUnadmitted(k: string, residual: int, at: int, refused: bool)
      requires Valid()
      modifies this
      ensures Valid()
      ensures Model() == Discard(old(Model()), k, residual, at, refused)
    {
      DiscardBalanced(Model(), k, residual, at, refused);
      if k in index {
        DiscardTracked(k, residual, refused);
      } else if refused {
        var size := if residual <= 0 then 1 else residual;
        order := [k] + order;
        index := index[k := Entry(size, at)];
        totalSize := totalSize + size;
      }
    }

    method DiscardTracked(k: string, residual: int, refused: bool)
      requires k in index
      modifies this
      ensures Model() == Discard(old(Model()), k, residual, 0, refused)
    {
      var ok := RemoveEntry(k, refused);
      if !ok && index[k].size < residual {
        totalSize := totalSize + residual - index[k].size;
        index := index[k := index[k].(size := residual)];
      }
    }

    method CleanupTTLExpired(cutoff: int, refused: set<string>) returns (complete: bool)
      requires Valid()
      modifies this
      ensures Valid()
      ensures (Model(), complete) == SweepExpired(old(Model()), old(order), cutoff, refused)
    {
      SweepFacts(Model(), order, cutoff, refused);
      complete := Sweep(cutoff, refused);
    }

    method Sweep(cutoff: int, refused: set<string>) returns (complete: bool)
      modifies this
      ensures Model() == SweepExpired(old(Model()), old(order), cutoff, refused).0
      ensures complete == SweepExpired(old(Model()), old(order), cutoff, refused).1
    {
      complete := true;
      var visit, i := order, |order|;
      assert visit[..i] == visit;
      while 0 < i
        invariant 0 <= i <= |visit|
        invariant SweepExpired(Model(), visit[..i], cutoff, refused).0 ==
                  SweepExpired(old(Model()), visit, cutoff, refused).0
        invariant (complete && SweepExpired(Model(), visit[..i], cutoff, refused).1) ==
                  SweepExpired(old(Model()), visit, cutoff, refused).1
      {
        var k := visit[i - 1];
        assert visit[..i][..i - 1] == visit[..i - 1];
        if k in index && index[k].storedAt < cutoff {
          if k in reservations {
            complete := false;
          } else {
            var ok := RemoveEntry(k, k in refused);
            complete := complete && ok;
          }
        }
        i := i - 1;
      }
    }

    method EnforceMaxSize(refused: set<string>)
      requires Valid()
      modifies this
      ensures Valid()
      ensures Model() == Evict(old(Model()), old(order), old(reservations).Keys, refused, maxSize)
    {
      EvictFacts(Model(), order, reservations.Keys, refused, maxSize);
      EvictDownTo(reservations.Keys, refused, maxSize);
    }
  }
}
