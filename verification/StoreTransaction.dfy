/**
 The multi-key Store of cache.go: stage a body and a header per key, publish all of them or
 discard all of them, with a failure possible at every step of the backend.

 `inPlace` is the backend without rename: a write changes the live file at once.  On the other
 backend writes go to staging files and commit renames them into place.  This is one call as its
 loops perform it, under the writer lock of every key; module Generations runs such calls against
 each other and against readers.
 */
module StoreTransaction {
  import opened Wrappers

  /** A body file: some other bytes, or the whole body of one generation. */
  datatype Body = Partial | Whole(generation: nat)

  /** A header file: incomplete, which reads as a miss, or a whole record. */
  datatype Header = Incomplete | Record(generation: nat, storedAt: int)

  datatype Files = Files(bodies: map<string, Body>, headers: map<string, Header>)

  /** How a write of one file ends. */
  datatype Write = NotOpened | LeftPartial | LeftWhole | Done

  /** Backend outcomes for one key: its two writes, its admission after the body, its two
      renames, and whether each file can be removed again. */
  datatype Outcome = Outcome(
    body: Write, admitted: bool, header: Write,
    renameBody: bool, renameHeader: bool, bodyRemovable: bool, headerRemovable: bool)

  /** The two files of one key. */
  datatype Slot = Slot(body: Option<Body>, header: Option<Header>)

  function At(f: Files, k: string): Slot {
    Slot(if k in f.bodies then Some(f.bodies[k]) else None,
         if k in f.headers then Some(f.headers[k]) else None)
  }

  function MarkerAt(markers: map<string, int>, k: string): Option<int> {
    if k in markers then Some(markers[k]) else None
  }

  /** Retrieve opens the body, then needs a complete header. */
  predicate Readable(s: Slot) {
    s.body.Some? && s.header.Some? && s.header.value.Record?
  }

  predicate MissingOrMarked(s: Slot, marker: Option<int>) {
    Readable(s) ==> marker.Some? && s.header.value.storedAt <= marker.value
  }

  /** What a reader gets is one generation throughout, or is marked stale. */
  predicate Coherent(s: Slot, marker: Option<int>) {
    MissingOrMarked(s, marker) || s.body.value == Whole(s.header.value.generation)
  }

  predicate NotBefore(m: Option<int>, n: Option<int>) {
    m.Some? ==> n.Some? && m.value <= n.value
  }

  predicate Prepared(o: Outcome) {
    o.body.Done? && o.admitted && o.header.Done?
  }

  /** The backend lets this key's part of the transaction through. */
  predicate Completes(o: Outcome, inPlace: bool) {
    Prepared(o) && (inPlace || (o.renameBody && o.renameHeader))
  }

  function New(generation: nat, now: int): Slot {
    Slot(Some(Whole(generation)), Some(Record(generation, now)))
  }

  /** Something a reader can open has been changed: in place once the first body is opened for writing,
      otherwise by the first rename, which comes after all files are staged. */
  ghost predicate Publishes(keys: seq<string>, outcomes: map<string, Outcome>, inPlace: bool, canceled: bool)
    requires forall k :: k in keys ==> k in outcomes
  {
    && keys != []
    && if inPlace then !outcomes[keys[0]].body.NotOpened?
       else !canceled && (forall k :: k in keys ==> Prepared(outcomes[k])) && outcomes[keys[0]].renameBody
  }

  /** What removing the files of one key leaves. */
  function Left(s: Slot, o: Outcome): Slot {
    Slot(if o.bodyRemovable then None else s.body, if o.headerRemovable then None else s.header)
  }

  /** A marker is set only for what is left, and never moved back. */
  function MarkedLeft(m: Option<int>, o: Outcome, now: int): Option<int> {
    if o.bodyRemovable && o.headerRemovable then m else if m.Some? && now <= m.value then m else Some(now)
  }

  predicate Undone(before: Slot, marker: Option<int>, after: Slot, marked: Option<int>, o: Outcome, now: int) {
    after == Left(before, o) && marked == MarkedLeft(marker, o, now) && MissingOrMarked(after, marked)
  }

  /** No complete header on disk is dated after `now`. */
  ghost predicate DatedBy(f: Files, now: int) {
    forall k :: k in f.headers && f.headers[k].Record? ==> f.headers[k].storedAt <= now
  }

  ghost predicate Distinct(keys: seq<string>) {
    forall i, j :: 0 <= i < j < |keys| ==> keys[i] != keys[j]
  }

  class Storage {
    const inPlace: bool
    var files: Files
    var markers: map<string, int>
    var reservations: set<string>

    constructor (inPlace: bool)
      ensures this.inPlace == inPlace && files == Files(map[], map[]) && markers == map[] && reservations == {}
    {
      this.inPlace := inPlace;
      files, markers, reservations := Files(map[], map[]), map[], {};
    }

    /** vfsWrite of a body: opening truncates, so only an unopened file is untouched. */
    method WriteBody(k: string, w: Write, generation: nat) returns (published: bool)
      modifies this`files
      ensures published <==> inPlace && !w.NotOpened?
      ensures files.headers == old(files).headers
      ensures files.bodies ==
              if published then old(files).bodies[k := if w.LeftPartial? then Partial else Whole(generation)]
              else old(files).bodies
    {
      published := inPlace && !w.NotOpened?;
      if published {
        files := files.(bodies := files.bodies[k := if w.LeftPartial? then Partial else Whole(generation)]);
      }
    }

    method WriteHeader(k: string, w: Write, generation: nat, at: int) returns (published: bool)
      modifies this`files
      ensures published <==> inPlace && !w.NotOpened?
      ensures files.bodies == old(files).bodies
      ensures files.headers ==
              if published then old(files).headers[k := if w.LeftPartial? then Incomplete else Record(generation, at)]
              else old(files).headers
    {
      published := inPlace && !w.NotOpened?;
      if published {
        files := files.(headers := files.headers[k := if w.LeftPartial? then Incomplete else Record(generation, at)]);
      }
    }

    /** prepareResourceForKey: the body, admission of its size, then the header. */
    method Prepare(k: string, o: Outcome, generation: nat, now: int) returns (ok: bool, published: bool)
      requires DatedBy(files, now)
      modifies this`files
      ensures DatedBy(files, now)
      ensures forall j :: j != k ==> At(files, j) == At(old(files), j)
      ensures !published ==> files == old(files)
      ensures published <==> inPlace && !o.body.NotOpened?
      ensures ok <==> Prepared(o)
      ensures ok && inPlace ==> At(files, k) == New(generation, now)
    {
      published := WriteBody(k, o.body, generation);
      if !o.body.Done? || !o.admitted { return false, published; }
      var headerPublished := WriteHeader(k, o.header, generation, now);
      published := published || headerPublished;
      ok := o.header.Done?;
    }

    /** commitStagedLocked over the staged pairs; in place there is nothing left to rename. */
    method Commit(keys: seq<string>, outcomes: map<string, Outcome>, generation: nat, now: int)
      returns (ok: bool, published: bool)
      requires forall k :: k in keys ==> k in outcomes
      requires DatedBy(files, now)
      modifies this`files
      ensures DatedBy(files, now)
      ensures forall j :: j !in keys ==> At(files, j) == At(old(files), j)
      ensures !published ==> files == old(files)
      ensures inPlace ==> ok && files == old(files)
      ensures ok <==> inPlace || forall k :: k in keys ==> outcomes[k].renameBody && outcomes[k].renameHeader
      ensures published <==> !inPlace && keys != [] && outcomes[keys[0]].renameBody
      ensures ok && !inPlace ==> forall k :: k in keys ==> At(files, k) == New(generation, now)
    {
      ok, published := true, false;
      if inPlace { return; }
      var i := 0;
      while i < |keys|
        invariant 0 <= i <= |keys|
        invariant DatedBy(files, now)
        invariant forall j :: j !in keys ==> At(files, j) == At(old(files), j)
        invariant !published ==> files == old(files)
        invariant published <==> 0 < i
        invariant forall n :: 0 <= n < i ==> At(files, keys[n]) == New(generation, now)
        invariant forall n :: 0 <= n < i ==> outcomes[keys[n]].renameBody && outcomes[keys[n]].renameHeader
      {
        var o := outcomes[keys[i]];
        if !o.renameBody { return false, published; }
        files := files.(bodies := files.bodies[keys[i] := Whole(generation)]);
        published := true;
        if !o.renameHeader { return false, true; }
        files := files.(headers := files.headers[keys[i] := Record(generation, now)]);
        i := i + 1;
      }
    }

    /** discardUnadmitted and the marker of discardPreparedStore, for one key. */
    method DiscardKey(k: string, o: Outcome, now: int)
      requires DatedBy(files, now)
      modifies this`files, this`markers
      ensures DatedBy(files, now)
      ensures forall j :: j != k ==> At(files, j) == At(old(files), j)
      ensures forall j :: j != k ==> MarkerAt(markers, j) == MarkerAt(old(markers), j)
      ensures NotBefore(MarkerAt(old(markers), k), MarkerAt(markers, k))
      ensures MissingOrMarked(At(files, k), MarkerAt(markers, k))
      ensures At(files, k) == Left(At(old(files), k), o)
      ensures MarkerAt(markers, k) == MarkedLeft(MarkerAt(old(markers), k), o, now)
    {
      var bodies := if o.bodyRemovable then files.bodies - {k} else files.bodies;
      var headers := if o.headerRemovable then files.headers - {k} else files.headers;
      files := Files(bodies, headers);
      if !(o.bodyRemovable && o.headerRemovable) && !(k in markers && now <= markers[k]) {
        markers := markers[k := now];
      }
    }

    /** Every key of a transaction that has published anything is discarded. */
    method DiscardPrepared(keys: seq<string>, outcomes: map<string, Outcome>, now: int)
      requires Distinct(keys) && forall k :: k in keys ==> k in outcomes
      requires DatedBy(files, now)
      modifies this`files, this`markers
      ensures DatedBy(files, now)
      ensures forall j :: j !in keys ==> At(files, j) == At(old(files), j)
      ensures forall j :: j !in keys ==> MarkerAt(markers, j) == MarkerAt(old(markers), j)
      ensures forall j :: NotBefore(MarkerAt(old(markers), j), MarkerAt(markers, j))
      ensures forall k :: k in keys ==> MissingOrMarked(At(files, k), MarkerAt(markers, k))
      ensures forall k :: k in keys ==> At(files, k) == Left(At(old(files), k), outcomes[k])
      ensures forall k :: k in keys ==> MarkerAt(markers, k) == MarkedLeft(MarkerAt(old(markers), k), outcomes[k], now)
    {
      var i := 0;
      while i < |keys|
        invariant 0 <= i <= |keys|
        invariant DatedBy(files, now)
        invariant forall j :: j !in keys ==> At(files, j) == At(old(files), j)
        invariant forall j :: j !in keys ==> MarkerAt(markers, j) == MarkerAt(old(markers), j)
        invariant forall j :: NotBefore(MarkerAt(old(markers), j), MarkerAt(markers, j))
        invariant forall n :: 0 <= n < i ==>
          Undone(At(old(files), keys[n]), MarkerAt(old(markers), keys[n]), At(files, keys[n]),
                 MarkerAt(markers, keys[n]), outcomes[keys[n]], now)
        invariant forall n :: i <= n < |keys| ==>
          At(files, keys[n]) == At(old(files), keys[n]) && MarkerAt(markers, keys[n]) == MarkerAt(old(markers), keys[n])
      {
        DiscardKey(keys[i], outcomes[keys[i]], now);
        i := i + 1;
      }
    }

    /**
     StoreContext from its reservations to its return.  `canceled` is a context cancelled
     before the commit.  Success publishes the new generation under every key.  A failure that
     changed no published file leaves everything as it was; any other failure leaves every
     key missing or marked stale.  What the call has changed is no unmarked mix of generations,
     whatever it found; markers only advance, other keys are untouched and the transaction's
     reservations are gone.
     */
    method Store(keys: seq<string>, outcomes: map<string, Outcome>, generation: nat, now: int, canceled: bool)
      returns (ok: bool, published: bool)
      requires Distinct(keys) && forall k :: k in keys ==> k in outcomes
      requires DatedBy(files, now)
      modifies this
      ensures ok <==> !canceled && forall k :: k in keys ==> Completes(outcomes[k], inPlace)
      ensures ok ==> markers == old(markers) && forall k :: k in keys ==> At(files, k) == New(generation, now)
      ensures !ok && !published ==> files == old(files) && markers == old(markers)
      ensures !ok && published ==> forall k :: k in keys ==> MissingOrMarked(At(files, k), MarkerAt(markers, k))
      ensures published <==> Publishes(keys, outcomes, inPlace, canceled)
      ensures !ok && published ==> forall k :: k in keys ==>
                && (outcomes[k].bodyRemovable ==> At(files, k).body == None)
                && (outcomes[k].headerRemovable ==> At(files, k).header == None)
                && MarkerAt(markers, k) == MarkedLeft(MarkerAt(old(markers), k), outcomes[k], now)
      ensures ok || published ==> forall k :: k in keys ==> Coherent(At(files, k), MarkerAt(markers, k))
      ensures forall j :: Coherent(At(old(files), j), MarkerAt(old(markers), j)) ==>
              Coherent(At(files, j), MarkerAt(markers, j))
      ensures forall j :: NotBefore(MarkerAt(old(markers), j), MarkerAt(markers, j))
      ensures forall j :: j !in keys ==> At(files, j) == At(old(files), j)
      ensures forall j :: j !in keys ==> MarkerAt(markers, j) == MarkerAt(old(markers), j)
      ensures reservations == old(reservations) - set k | k in keys
      ensures DatedBy(files, now)
    {
      reservations := reservations + set k | k in keys;
      ok, published := PrepareAll(keys, outcomes, generation, now);
      if ok && canceled { ok := false; }
      if ok {
        var renamed;
        ok, renamed := Commit(keys, outcomes, generation, now);
        published := published || renamed;
      }
      if !ok && published {
        DiscardPrepared(keys, outcomes, now);
      }
      reservations := reservations - set k | k in keys;
    }

    /** prepareStoreEntries: on the rename backend nothing a reader can open has changed. */
    method PrepareAll(keys: seq<string>, outcomes: map<string, Outcome>, generation: nat, now: int)
      returns (ok: bool, published: bool)
      requires Distinct(keys) && forall k :: k in keys ==> k in outcomes
      requires DatedBy(files, now)
      modifies this`files
      ensures DatedBy(files, now)
      ensures forall j :: j !in keys ==> At(files, j) == At(old(files), j)
      ensures !published ==> files == old(files)
      ensures published <==> inPlace && keys != [] && !outcomes[keys[0]].body.NotOpened?
      ensures ok <==> forall k :: k in keys ==> Prepared(outcomes[k])
      ensures ok && inPlace ==> forall k :: k in keys ==> At(files, k) == New(generation, now)
    {
      ok, published := true, false;
      var i := 0;
      while i < |keys|
        invariant 0 <= i <= |keys|
        invariant DatedBy(files, now)
        invariant forall j :: j !in keys ==> At(files, j) == At(old(files), j)
        invariant !published ==> files == old(files)
        invariant published <==> inPlace && 0 < i
        invariant forall n :: 0 <= n < i ==> Prepared(outcomes[keys[n]])
        invariant inPlace ==> forall n :: 0 <= n < i ==> At(files, keys[n]) == New(generation, now)
      {
        var done, changed := Prepare(keys[i], outcomes[keys[i]], generation, now);
        published := published || changed;
        if !done { return false, published; }
        i := i + 1;
      }
    }
  }
}
