/**
 The Cache-Control parser and printer (cachecontrol.go), section 5.2 of RFC 7234.  The printer
 writes values with Go's %q, the parser knows no escapes: the two are inverse exactly on the
 directives whose values need none.
 */
module CacheControl {
  import opened Wrappers
  import opened GoQuote
  import opened GoStrings

  const COMMA := 44
  const SPACE := 32
  const EQUALS := 61
  const SEPARATOR: Text := [44, 32]

  /** strings.ToLower and strings.EqualFold, symbol by symbol. */
  datatype Case = Case(lower: nat -> nat, fold: nat -> nat)

  type Directives = map<Text, seq<Text>>

  function Lower(s: Text, c: Case): (r: Text)
    ensures |r| == |s| && forall i :: 0 <= i < |s| ==> r[i] == c.lower(s[i])
  {
    if s == [] then [] else [c.lower(s[0])] + Lower(s[1..], c)
  }

  // ---------------------------------------------------------------------- the map

  ghost function Alike(cc: Directives, key: Text, c: Case): set<Text> {
    set k | k in cc && EqualFold(k, key, c.fold)
  }

  /** The stored spelling of a directive. */
  ghost function Lookup(cc: Directives, key: Text, c: Case): Option<Text> {
    if Lower(key, c) in cc then Some(Lower(key, c))
    else if key in cc then Some(key)
    else
      var names := Sorted(Alike(cc, key, c));
      if names == [] then None else Some(names[0])
  }

  ghost function Added(cc: Directives, key: Text, val: Text, c: Case): Directives {
    var stored := Lookup(cc, key, c);
    var k := if stored.Some? then stored.value else Lower(key, c);
    Put(cc, k, val)
  }

  function Put(cc: Directives, k: Text, val: Text): Directives {
    var old_ := if k in cc then cc[k] else [];
    cc[k := if val == [] then old_ else old_ + [val]]
  }

  lemma LookupFinds(cc: Directives, key: Text, c: Case)
    ensures Lookup(cc, key, c).Some? ==> Lookup(cc, key, c).value in cc
  {
    var names := Sorted(Alike(cc, key, c));
    if names != [] { assert names[0] in names; }
  }

  lemma LeastIsFirst(names: set<Text>, least: Text)
    requires least in names && forall n :: n in names ==> n == least || Below(least, n)
    ensures Sorted(names) != [] && Sorted(names)[0] == least
  {
    var s := Sorted(names);
    assert least in s;
    assert s[0] in names;
    BelowOrders(least, s[0]);
  }

  /** A directive is found under its lower-case spelling first, then as written, then under the least
      spelling that differs in case alone, and otherwise not at all. */
  lemma LookupExactly(cc: Directives, key: Text, c: Case)
    ensures match Lookup(cc, key, c)
            case None => Lower(key, c) !in cc && key !in cc && forall k :: k in cc ==> !EqualFold(k, key, c.fold)
            case Some(k) =>
              && k in cc && (Lower(key, c) in cc ==> k == Lower(key, c))
              && (Lower(key, c) !in cc && key in cc ==> k == key)
              && (Lower(key, c) !in cc && key !in cc ==>
                    EqualFold(k, key, c.fold) &&
                    forall x :: x in cc && EqualFold(x, key, c.fold) ==> x == k || Below(k, x))
  {
    var alike := Alike(cc, key, c);
    var names := Sorted(alike);
    SortedNone(alike);
    if names != [] {
      assert names[0] in names;
      forall x | x in cc && EqualFold(x, key, c.fold) ensures x == names[0] || Below(names[0], x) {
        assert x in alike && x in names;
        var i :| 0 <= i < |names| && names[i] == x;
      }
    } else {
      assert forall x :: x in cc ==> x !in alike;
    }
  }

  class CacheControlMap {
    var cc: Directives

    constructor ()
      ensures cc == map[]
    {
      cc := map[];
    }

    method LookupKey(key: Text, c: Case) returns (found: Text, exists_: bool)
      ensures Lookup(cc, key, c) == if exists_ then Some(found) else None
    {
      var lower := Lower(key, c);
      if lower in cc {
        return lower, true;
      }
      if key in cc {
        return key, true;
      }
      found := [];
      var left := cc.Keys;
      ghost var alike := Alike(cc, key, c);
      assert [] !in alike;
      while left != {}
        invariant left <= cc.Keys
        invariant found == [] ==> alike <= left
        invariant found != [] ==> found in alike - left
        invariant found != [] ==> forall n :: n in alike - left ==> n == found || Below(found, n)
        decreases left
      {
        var candidate :| candidate in left;
        if EqualFold(candidate, key, c.fold) && (found == [] || Below(candidate, found)) {
          StillLeast(alike, left, candidate, found);
          found := candidate;
        } else if found != [] && candidate in alike {
          BelowOrders(candidate, found);
        }
        left := left - {candidate};
      }
      exists_ := found != [];
      if exists_ {
        LeastIsFirst(alike, found);
      } else {
        SortedNone(alike);
      }
    }

    method Add(key: Text, val: Text, c: Case)
      modifies this
      ensures cc == Added(old(cc), key, val, c)
    {
      var stored, exists_ := LookupKey(key, c);
      LookupFinds(cc, key, c);
      var k := stored;
      if !exists_ {
        k := Lower(key, c);
        cc := cc[k := []];
      }
      if val != [] {
        cc := cc[k := cc[k] + [val]];
      }
    }
  }

  lemma StillLeast(alike: set<Text>, left: set<Text>, candidate: Text, found: Text)
    requires found != [] ==> forall n :: n in alike - left ==> n == found || Below(found, n)
    requires found == [] ==> alike <= left
    requires found == [] || Below(candidate, found)
    ensures forall n :: n in alike - (left - {candidate}) ==> n == candidate || Below(candidate, n)
  {
    forall n | n in alike - (left - {candidate}) ensures n == candidate || Below(candidate, n) {
      if n != candidate && n != found { BelowTransitive(candidate, found, n); }
    }
  }

  // ------------------------------------------------------------------- the parser

  predicate Separator(x: nat) {
    x == COMMA || x == 10 || x == 13 || x == SPACE || x == 9
  }

  predicate Delimiter(x: nat) {
    Separator(x) || x == QUOTE || x == EQUALS
  }

  predicate IsQuote(x: nat) {
    x == QUOTE
  }

  /** A call of Add. */
  datatype Call = Call(key: Text, val: Text)

  /** The token at the start of `s` and the length it takes up. */
  function TokenAt(s: Text): (r: (Text, nat))
    requires s != []
    ensures !Separator(s[0]) && s[0] != EQUALS ==> r.1 > 0
  {
    if s[0] == QUOTE then var t := Before(s[1..], IsQuote); (t, |t| + 2)
    else var t := Before(s, Delimiter); (t, |t|)
  }

  function Drop(s: Text, n: nat): (r: Text)
    ensures n > 0 && s != [] ==> |r| < |s|
  {
    if n <= |s| then s[n..] else []
  }

  /** What the parser adds for `s`: `isValue` says "=" was read, `lastKey` whose value it would be. */
  function Calls(s: Text, isValue: bool, lastKey: Text): seq<Call>
    decreases |s|
  {
    if s == [] then []
    else if Separator(s[0]) then Calls(s[1..], isValue, lastKey)
    else if s[0] == EQUALS then Calls(s[1..], true, lastKey)
    else
      var (t, n) := TokenAt(s);
      if isValue then [Call(lastKey, t)] + Calls(Drop(s, n), false, lastKey)
      else [Call(t, [])] + Calls(Drop(s, n), false, t)
  }

  ghost function AddedAll(cc: Directives, calls: seq<Call>, c: Case): Directives {
    if calls == [] then cc
    else
      var x := calls[|calls| - 1];
      Added(AddedAll(cc, calls[..|calls| - 1], c), x.key, x.val, c)
  }

  ghost function Parsed(input: Text, c: Case): Directives {
    AddedAll(map[], Calls(input, false, []), c)
  }

  lemma AddOne(cc: Directives, calls: seq<Call>, x: Call, c: Case)
    ensures AddedAll(cc, calls + [x], c) == Added(AddedAll(cc, calls, c), x.key, x.val, c)
  {
    assert (calls + [x])[..|calls|] == calls;
  }

  /** The parser's loop from here on, with the calls already made. */
  ghost function Made(done: seq<Call>, s: Text, isValue: bool, lastKey: Text): seq<Call>
    decreases |s|
  {
    if s == [] then done
    else if Separator(s[0]) then Made(done, s[1..], isValue, lastKey)
    else if s[0] == EQUALS then Made(done, s[1..], true, lastKey)
    else if isValue then Made(done + [Call(lastKey, TokenAt(s).0)], Drop(s, TokenAt(s).1), false, lastKey)
    else Made(done + [Call(TokenAt(s).0, [])], Drop(s, TokenAt(s).1), false, TokenAt(s).0)
  }

  lemma CallsToken(s: Text, isValue: bool, lastKey: Text)
    requires s != [] && !Separator(s[0]) && s[0] != EQUALS
    ensures Calls(s, isValue, lastKey) ==
            [if isValue then Call(lastKey, TokenAt(s).0) else Call(TokenAt(s).0, [])] +
              Calls(Drop(s, TokenAt(s).1), false, if isValue then lastKey else TokenAt(s).0)
  {
  }

  lemma MadeToken(done: seq<Call>, s: Text, isValue: bool, lastKey: Text, t: Text, rest: Text)
    requires s != [] && !Separator(s[0]) && s[0] != EQUALS && t == TokenAt(s).0 && rest == Drop(s, TokenAt(s).1)
    ensures isValue ==> Made(done, s, isValue, lastKey) == Made(done + [Call(lastKey, t)], rest, false, lastKey)
    ensures !isValue ==> Made(done, s, isValue, lastKey) == Made(done + [Call(t, [])], rest, false, t)
  {
  }

  lemma Moved(done: seq<Call>, x: Call, rest: seq<Call>)
    ensures done + ([x] + rest) == (done + [x]) + rest
  {
  }

  lemma {:induction false} MadeIsCalls(done: seq<Call>, s: Text, isValue: bool, lastKey: Text)
    ensures Made(done, s, isValue, lastKey) == done + Calls(s, isValue, lastKey)
    decreases |s|
  {
    if s == [] {
    } else if Separator(s[0]) {
      MadeIsCalls(done, s[1..], isValue, lastKey);
    } else if s[0] == EQUALS {
      MadeIsCalls(done, s[1..], true, lastKey);
    } else {
      var t, rest := TokenAt(s).0, Drop(s, TokenAt(s).1);
      var x, key := if isValue then Call(lastKey, t) else Call(t, []), if isValue then lastKey else t;
      CallsToken(s, isValue, lastKey);
      MadeToken(done, s, isValue, lastKey, t, rest);
      MadeIsCalls(done + [x], rest, false, key);
      Moved(done, x, Calls(rest, false, key));
    }
  }

  lemma MadeFromStart(input: Text)
    ensures Made([], input, false, []) == Calls(input, false, [])
  {
    MadeIsCalls([], input, false, []);
    assert [] + Calls(input, false, []) == Calls(input, false, []);
  }

  method Feed(d: CacheControlMap, ghost done: seq<Call>, key: Text, val: Text, c: Case) returns (ghost all: seq<Call>)
    requires d.cc == AddedAll(map[], done, c)
    modifies d
    ensures all == done + [Call(key, val)] && d.cc == AddedAll(map[], all, c)
  {
    all := done + [Call(key, val)];
    AddOne(map[], done, Call(key, val), c);
    d.Add(key, val, c);
  }

  /** `rest` is the input from the source's `pos` on. */
  method ParseCacheControl(input: Text, c: Case) returns (d: CacheControlMap)
    ensures fresh(d) && d.cc == Parsed(input, c)
  {
    d := new CacheControlMap();
    var isValue, lastKey, rest := false, [], input;
    ghost var done: seq<Call> := [];
    while rest != []
      invariant fresh(d) && d.cc == AddedAll(map[], done, c)
      invariant Made(done, rest, isValue, lastKey) == Made([], input, false, [])
      decreases |rest|
    {
      if Separator(rest[0]) {
        rest := rest[1..];
      } else if rest[0] == EQUALS {
        isValue := true;
        rest := rest[1..];
      } else {
        var found := TokenAt(rest);
        var next := Drop(rest, found.1);
        MadeToken(done, rest, isValue, lastKey, found.0, next);
        if isValue {
          done := Feed(d, done, lastKey, found.0, c);
          isValue := false;
        } else {
          done := Feed(d, done, found.0, [], c);
          lastKey := found.0;
        }
        rest := next;
      }
    }
    MadeFromStart(input);
  }

  // ------------------------------------------------------------------ the printer

  datatype Item = Item(key: Text, value: Option<Text>)

  function ValueItems(k: Text, vals: seq<Text>): (r: seq<Item>)
  {
    if vals == [] then [] else [Item(k, Some(vals[0]))] + ValueItems(k, vals[1..])
  }

  function ItemsOf(k: Text, vals: seq<Text>): seq<Item> {
    if vals == [] then [Item(k, None)] else ValueItems(k, vals)
  }

  function Items(cc: Directives, keys: seq<Text>): seq<Item>
    requires forall k :: k in keys ==> k in cc
  {
    if keys == [] then [] else ItemsOf(keys[0], cc[keys[0]]) + Items(cc, keys[1..])
  }

  /** "%s" or "%s=%q" */
  function ItemText(it: Item, unicode: nat -> bool): Text {
    match it.value
    case None => it.key
    case Some(v) => it.key + ([EQUALS] + Quote(v, unicode))
  }

  /** The buffer: every item with a separator behind it. */
  function Buffer(items: seq<Item>, unicode: nat -> bool): Text {
    if items == [] then [] else ItemText(items[0], unicode) + (SEPARATOR + Buffer(items[1..], unicode))
  }

  function TrimSuffix(s: Text): Text {
    if |s| >= 2 && s[|s| - 2..] == SEPARATOR then s[..|s| - 2] else s
  }

  ghost function Printed(cc: Directives, unicode: nat -> bool): Text {
    TrimSuffix(Buffer(Items(cc, Sorted(cc.Keys)), unicode))
  }

  lemma {:induction false} BufferAppend(a: seq<Item>, b: seq<Item>, unicode: nat -> bool)
    ensures Buffer(a + b, unicode) == Buffer(a, unicode) + Buffer(b, unicode)
  {
    if a == [] {
      assert a + b == b;
    } else {
      assert (a + b)[1..] == a[1..] + b;
      BufferAppend(a[1..], b, unicode);
      var t, x, y := ItemText(a[0], unicode), Buffer(a[1..], unicode), Buffer(b, unicode);
      assert t + (SEPARATOR + (x + y)) == (t + (SEPARATOR + x)) + y;
    }
  }

  lemma BufferOne(it: Item, unicode: nat -> bool)
    ensures Buffer([it], unicode) == ItemText(it, unicode) + SEPARATOR
  {
    assert [it][1..] == [];
  }

  lemma {:induction false} ValueItemsAppend(k: Text, vals: seq<Text>, v: Text)
    ensures ValueItems(k, vals + [v]) == ValueItems(k, vals) + [Item(k, Some(v))]
  {
    if vals == [] {
      assert [v][1..] == [];
    } else {
      assert (vals + [v])[1..] == vals[1..] + [v];
      ValueItemsAppend(k, vals[1..], v);
    }
  }

  lemma {:induction false} ItemsAppend(cc: Directives, keys: seq<Text>, k: Text)
    requires k in cc && forall n :: n in keys ==> n in cc
    ensures Items(cc, keys + [k]) == Items(cc, keys) + ItemsOf(k, cc[k])
  {
    if keys == [] {
      assert Items(cc, [k]) == ItemsOf(k, cc[k]) + Items(cc, []);
    } else {
      assert (keys + [k])[1..] == keys[1..] + [k];
      ItemsAppend(cc, keys[1..], k);
    }
  }

  lemma BufferValue(k: Text, vals: seq<Text>, j: nat, unicode: nat -> bool)
    requires j < |vals|
    ensures Buffer(ValueItems(k, vals[..j + 1]), unicode) ==
            Buffer(ValueItems(k, vals[..j]), unicode) + (ItemText(Item(k, Some(vals[j])), unicode) + SEPARATOR)
  {
    assert vals[..j + 1] == vals[..j] + [vals[j]];
    ValueItemsAppend(k, vals[..j], vals[j]);
    BufferAppend(ValueItems(k, vals[..j]), [Item(k, Some(vals[j]))], unicode);
    BufferOne(Item(k, Some(vals[j])), unicode);
  }

  lemma BufferDirective(cc: Directives, keys: seq<Text>, i: nat, unicode: nat -> bool)
    requires i < |keys| && forall k :: k in keys ==> k in cc
    ensures Buffer(Items(cc, keys[..i + 1]), unicode) ==
            Buffer(Items(cc, keys[..i]), unicode) + Buffer(ItemsOf(keys[i], cc[keys[i]]), unicode)
  {
    assert keys[..i + 1] == keys[..i] + [keys[i]];
    ItemsAppend(cc, keys[..i], keys[i]);
    BufferAppend(Items(cc, keys[..i]), ItemsOf(keys[i], cc[keys[i]]), unicode);
  }

  /** One turn of the printer's outer loop. */
  method WriteDirective(k: Text, vals: seq<Text>, unicode: nat -> bool) returns (r: Text)
    ensures r == Buffer(ItemsOf(k, vals), unicode)
  {
    if |vals| == 0 {
      BufferOne(Item(k, None), unicode);
      return k + SEPARATOR;
    }
    r := [];
    for j := 0 to |vals|
      invariant r == Buffer(ValueItems(k, vals[..j]), unicode)
    {
      BufferValue(k, vals, j, unicode);
      r := r + ((k + ([EQUALS] + Quote(vals[j], unicode))) + SEPARATOR);
    }
    assert vals[..|vals|] == vals;
  }

  method String(cc: Directives, unicode: nat -> bool) returns (r: Text)
    ensures r == Printed(cc, unicode)
  {
    var keys := SortNames(cc.Keys);
    assert forall k :: k in keys ==> k in cc;
    r := [];
    for i := 0 to |keys|
      invariant r == Buffer(Items(cc, keys[..i]), unicode)
    {
      var text := WriteDirective(keys[i], cc[keys[i]], unicode);
      BufferDirective(cc, keys, i, unicode);
      r := r + text;
    }
    assert keys[..|keys|] == keys;
    r := TrimSuffix(r);
  }

  // ------------------------------------------------- what the parser reads back

  function Joined(items: seq<Item>, unicode: nat -> bool): Text {
    if items == [] then []
    else if |items| == 1 then ItemText(items[0], unicode)
    else ItemText(items[0], unicode) + (SEPARATOR + Joined(items[1..], unicode))
  }

  lemma {:induction false} BufferJoined(items: seq<Item>, unicode: nat -> bool)
    requires items != []
    ensures Buffer(items, unicode) == Joined(items, unicode) + SEPARATOR
  {
    if |items| == 1 {
      BufferOne(items[0], unicode);
      assert items == [items[0]];
    } else {
      BufferJoined(items[1..], unicode);
      var t, x := ItemText(items[0], unicode), Joined(items[1..], unicode);
      assert t + (SEPARATOR + (x + SEPARATOR)) == (t + (SEPARATOR + x)) + SEPARATOR;
    }
  }

  lemma TrimmedBuffer(items: seq<Item>, unicode: nat -> bool)
    ensures TrimSuffix(Buffer(items, unicode)) == Joined(items, unicode)
  {
    if items != [] {
      BufferJoined(items, unicode);
      var j := Joined(items, unicode);
      assert (j + SEPARATOR)[|j|..] == SEPARATOR && (j + SEPARATOR)[..|j|] == j;
    }
  }

  predicate NameText(k: Text) {
    k != [] && forall i :: 0 <= i < |k| ==> !Delimiter(k[i])
  }

  lemma CallsOfName(k: Text, rest: Text, lastKey: Text)
    requires NameText(k) && (rest == [] || Delimiter(rest[0]))
    ensures Calls(k + rest, false, lastKey) == [Call(k, [])] + Calls(rest, false, k)
  {
    BeforeStop(k, rest, Delimiter);
    assert !Delimiter((k + rest)[0]);
    assert Drop(k + rest, |k|) == rest;
  }

  lemma CallsOfValue(v: Text, rest: Text, lastKey: Text)
    requires QUOTE !in v
    ensures Calls([EQUALS] + ([QUOTE] + (v + ([QUOTE] + rest))), false, lastKey) ==
            [Call(lastKey, v)] + Calls(rest, false, lastKey)
  {
    var q := [QUOTE] + (v + ([QUOTE] + rest));
    assert ([EQUALS] + q)[1..] == q;
    assert q[1..] == v + ([QUOTE] + rest);
    BeforeStop(v, [QUOTE] + rest, IsQuote);
    assert Drop(q, |v| + 2) == rest;
  }

  function ItemCalls(it: Item, unicode: nat -> bool): seq<Call> {
    if it.value.None? then [Call(it.key, [])] else [Call(it.key, []), Call(it.key, Escaped(it.value.value, unicode))]
  }

  function AllItemCalls(items: seq<Item>, unicode: nat -> bool): seq<Call> {
    if items == [] then [] else ItemCalls(items[0], unicode) + AllItemCalls(items[1..], unicode)
  }

  predicate Readable(it: Item) {
    NameText(it.key) && (it.value.Some? ==> QUOTE !in it.value.value)
  }

  lemma Spelled(k: Text, e: Text, rest: Text)
    ensures (k + ([EQUALS] + ([QUOTE] + e + [QUOTE]))) + rest == k + ([EQUALS] + ([QUOTE] + (e + ([QUOTE] + rest))))
  {
  }

  lemma CallsOfPair(k: Text, e: Text, rest: Text, lastKey: Text)
    requires NameText(k) && QUOTE !in e
    ensures Calls(k + ([EQUALS] + ([QUOTE] + (e + ([QUOTE] + rest)))), false, lastKey) ==
            [Call(k, []), Call(k, e)] + Calls(rest, false, k)
  {
    CallsOfName(k, [EQUALS] + ([QUOTE] + (e + ([QUOTE] + rest))), lastKey);
    CallsOfValue(e, rest, k);
    Joining(Call(k, []), Call(k, e), Calls(rest, false, k));
  }

  lemma Joining(x: Call, y: Call, rest: seq<Call>)
    ensures [x] + ([y] + rest) == [x, y] + rest
  {
  }

  lemma CallsOfItem(it: Item, rest: Text, lastKey: Text, unicode: nat -> bool)
    requires Readable(it) && (rest == [] || rest[0] == COMMA)
    ensures Calls(ItemText(it, unicode) + rest, false, lastKey) == ItemCalls(it, unicode) + Calls(rest, false, it.key)
  {
    if it.value.None? {
      CallsOfName(it.key, rest, lastKey);
    } else {
      var e := Escaped(it.value.value, unicode);
      EscapedNoQuote(it.value.value, unicode);
      Spelled(it.key, e, rest);
      CallsOfPair(it.key, e, rest, lastKey);
    }
  }

  lemma {:induction false} CallsOfItems(items: seq<Item>, lastKey: Text, unicode: nat -> bool)
    requires forall it :: it in items ==> Readable(it)
    ensures Calls(Joined(items, unicode), false, lastKey) == AllItemCalls(items, unicode)
  {
    if |items| == 1 {
      CallsOfItem(items[0], [], lastKey, unicode);
      assert ItemText(items[0], unicode) + [] == ItemText(items[0], unicode);
      assert items[1..] == [];
    } else if items != [] {
      var rest := Joined(items[1..], unicode);
      CallsOfItem(items[0], SEPARATOR + rest, lastKey, unicode);
      assert (SEPARATOR + rest)[1..] == [SPACE] + rest && ([SPACE] + rest)[1..] == rest;
      CallsOfItems(items[1..], items[0].key, unicode);
    }
  }

  // ---------------------------------------------------------- and builds from it

  /** Lower-case directive names, told apart by case folding. */
  ghost predicate RegularNames(names: set<Text>, c: Case) {
    && (forall k :: k in names ==> NameText(k) && Lower(k, c) == k)
    && (forall k, l :: k in names && l in names && EqualFold(k, l, c.fold) ==> k == l)
  }

  lemma AddedIsPut(cur: Directives, k: Text, val: Text, names: set<Text>, c: Case)
    requires RegularNames(names, c) && cur.Keys <= names && k in names
    ensures Added(cur, k, val, c) == Put(cur, k, val)
  {
    if k !in cur {
      assert Alike(cur, k, c) == {} by { assert forall l :: l in cur ==> l in cur.Keys; }
      SortedNone(Alike(cur, k, c));
    }
  }

  /** The values that come back: escaped, and without the empty ones. */
  function Stored(vals: seq<Text>, unicode: nat -> bool): seq<Text> {
    if vals == [] then [] else (if vals[0] == [] then [] else [Escaped(vals[0], unicode)]) + Stored(vals[1..], unicode)
  }

  function At(cur: Directives, k: Text): seq<Text> {
    if k in cur then cur[k] else []
  }

  lemma EscapedEmpty(v: Text, unicode: nat -> bool)
    ensures v == [] <==> Escaped(v, unicode) == []
  {
    EscapedLength(v, unicode);
  }

  /** Calls whose keys are regular names all land under their own key. */
  function PutAll(cur: Directives, calls: seq<Call>): Directives {
    if calls == [] then cur
    else
      var x := calls[|calls| - 1];
      Put(PutAll(cur, calls[..|calls| - 1]), x.key, x.val)
  }

  /** The values the calls give to `k`, in order. */
  function ValuesFor(calls: seq<Call>, k: Text): seq<Text> {
    if calls == [] then []
    else
      var x := calls[|calls| - 1];
      ValuesFor(calls[..|calls| - 1], k) + if x.key == k && x.val != [] then [x.val] else []
  }

  function KeysOf(calls: seq<Call>): set<Text> {
    set x | x in calls :: x.key
  }

  lemma KeysOfLast(calls: seq<Call>)
    requires calls != []
    ensures KeysOf(calls) == KeysOf(calls[..|calls| - 1]) + {calls[|calls| - 1].key}
  {
    var n := |calls| - 1;
    assert calls == calls[..n] + [calls[n]];
  }

  lemma {:induction false} PutAllKeys(cur: Directives, calls: seq<Call>)
    ensures PutAll(cur, calls).Keys == cur.Keys + KeysOf(calls)
  {
    if calls != [] {
      KeysOfLast(calls);
      PutAllKeys(cur, calls[..|calls| - 1]);
    }
  }

  lemma {:induction false} PutAllAt(cur: Directives, calls: seq<Call>, k: Text)
    ensures At(PutAll(cur, calls), k) == At(cur, k) + ValuesFor(calls, k)
  {
    if calls != [] {
      var n := |calls| - 1;
      PutAllAt(cur, calls[..n], k);
      PutAt(PutAll(cur, calls[..n]), calls[n].key, calls[n].val, k);
    }
  }

  lemma PutAt(cur: Directives, key: Text, val: Text, k: Text)
    ensures At(Put(cur, key, val), k) == At(cur, k) + if key == k && val != [] then [val] else []
  {
  }

  lemma {:induction false} AddedIsPutAll(cur: Directives, calls: seq<Call>, names: set<Text>, c: Case)
    requires RegularNames(names, c) && cur.Keys <= names && KeysOf(calls) <= names
    ensures AddedAll(cur, calls, c) == PutAll(cur, calls)
  {
    if calls != [] {
      var n := |calls| - 1;
      KeysOfLast(calls);
      AddedIsPutAll(cur, calls[..n], names, c);
      PutAllKeys(cur, calls[..n]);
      AddedIsPut(PutAll(cur, calls[..n]), calls[n].key, calls[n].val, names, c);
    }
  }

  lemma {:induction false} ValuesForAppend(a: seq<Call>, b: seq<Call>, k: Text)
    ensures ValuesFor(a + b, k) == ValuesFor(a, k) + ValuesFor(b, k)
  {
    if b == [] {
      assert a + b == a;
    } else {
      var n := |b| - 1;
      assert (a + b)[..|a| + n] == a + b[..n];
      ValuesForAppend(a, b[..n], k);
    }
  }

  lemma ItemValues(it: Item, k: Text, unicode: nat -> bool)
    ensures ValuesFor(ItemCalls(it, unicode), k) ==
            if it.key == k && it.value.Some? then Stored([it.value.value], unicode) else []
  {
    var one := [Call(it.key, [])];
    assert one[..0] == [] && ValuesFor(one, k) == [];
    if it.value.Some? {
      EscapedEmpty(it.value.value, unicode);
      var single := [it.value.value];
      assert single[1..] == [];
      assert ItemCalls(it, unicode)[..1] == one;
    }
  }

  lemma {:induction false} ValueItemsValues(k: Text, vals: seq<Text>, l: Text, unicode: nat -> bool)
    ensures ValuesFor(AllItemCalls(ValueItems(k, vals), unicode), l) == if k == l then Stored(vals, unicode) else []
  {
    if vals != [] {
      var it, rest := Item(k, Some(vals[0])), ValueItems(k, vals[1..]);
      assert ValueItems(k, vals)[1..] == rest;
      ValueItemsValues(k, vals[1..], l, unicode);
      ItemValues(it, l, unicode);
      ValuesForAppend(ItemCalls(it, unicode), AllItemCalls(rest, unicode), l);
      StoredCons(vals, unicode);
    }
  }

  lemma StoredCons(vals: seq<Text>, unicode: nat -> bool)
    requires vals != []
    ensures Stored(vals, unicode) == Stored([vals[0]], unicode) + Stored(vals[1..], unicode)
  {
    var one := [vals[0]];
    assert one[1..] == [];
  }

  lemma DirectiveValues(k: Text, vals: seq<Text>, l: Text, unicode: nat -> bool)
    ensures ValuesFor(AllItemCalls(ItemsOf(k, vals), unicode), l) == if k == l then Stored(vals, unicode) else []
  {
    if vals == [] {
      var one := [Item(k, None)];
      assert one[1..] == [];
      ItemValues(one[0], l, unicode);
      assert AllItemCalls(one, unicode) == ItemCalls(one[0], unicode) + [];
    } else {
      ValueItemsValues(k, vals, l, unicode);
    }
  }

  lemma {:induction false} AllItemCallsAppend(a: seq<Item>, b: seq<Item>, unicode: nat -> bool)
    ensures AllItemCalls(a + b, unicode) == AllItemCalls(a, unicode) + AllItemCalls(b, unicode)
  {
    if a == [] {
      assert a + b == b;
    } else {
      assert (a + b)[1..] == a[1..] + b;
      AllItemCallsAppend(a[1..], b, unicode);
    }
  }

  lemma ValuesSplit(a: seq<Item>, b: seq<Item>, l: Text, unicode: nat -> bool)
    ensures ValuesFor(AllItemCalls(a + b, unicode), l) ==
            ValuesFor(AllItemCalls(a, unicode), l) + ValuesFor(AllItemCalls(b, unicode), l)
  {
    AllItemCallsAppend(a, b, unicode);
    ValuesForAppend(AllItemCalls(a, unicode), AllItemCalls(b, unicode), l);
  }

  lemma ItemsFirst(cc: Directives, keys: seq<Text>, l: Text, unicode: nat -> bool)
    requires keys != [] && forall k :: k in keys ==> k in cc
    ensures keys[0] in keys
    ensures ValuesFor(AllItemCalls(Items(cc, keys), unicode), l) ==
            (if keys[0] == l then Stored(cc[keys[0]], unicode) else []) +
              ValuesFor(AllItemCalls(Items(cc, keys[1..]), unicode), l)
  {
    var k := keys[0];
    assert k in keys;
    DirectiveValues(k, cc[k], l, unicode);
    ValuesSplit(ItemsOf(k, cc[k]), Items(cc, keys[1..]), l, unicode);
  }

  lemma {:induction false} DirectivesValues(cc: Directives, keys: seq<Text>, l: Text, unicode: nat -> bool)
    requires Ascending(keys) && forall k :: k in keys ==> k in cc
    ensures ValuesFor(AllItemCalls(Items(cc, keys), unicode), l) == if l in keys then Stored(cc[l], unicode) else []
  {
    if keys != [] {
      assert keys == [keys[0]] + keys[1..];
      AscendingHead(keys);
      DirectivesValues(cc, keys[1..], l, unicode);
      ItemsFirst(cc, keys, l, unicode);
    }
  }

  lemma {:induction false} ItemKeys(items: seq<Item>, unicode: nat -> bool)
    ensures KeysOf(AllItemCalls(items, unicode)) == set it | it in items :: it.key
  {
    if items != [] {
      ItemKeys(items[1..], unicode);
      var a, b := ItemCalls(items[0], unicode), AllItemCalls(items[1..], unicode);
      assert KeysOf(a + b) == KeysOf(a) + KeysOf(b);
      assert a[0].key == items[0].key;
      assert KeysOf(a) == {items[0].key};
      assert items == [items[0]] + items[1..];
    }
  }

  lemma {:induction false} ValueItemsKeys(k: Text, vals: seq<Text>)
    ensures forall it :: it in ValueItems(k, vals) ==> it.key == k
  {
    if vals != [] { ValueItemsKeys(k, vals[1..]); }
  }

  lemma {:induction false} DirectiveKeys(cc: Directives, keys: seq<Text>)
    requires forall k :: k in keys ==> k in cc
    ensures forall it :: it in Items(cc, keys) ==> it.key in keys
    ensures forall k :: k in keys ==> exists it :: it in Items(cc, keys) && it.key == k
  {
    if keys != [] {
      var k, rest := keys[0], keys[1..];
      assert k in keys && keys == [k] + rest;
      DirectiveKeys(cc, rest);
      ValueItemsKeys(k, cc[k]);
      var its := ItemsOf(k, cc[k]);
      assert its != [] && its[0] in its && its[0].key == k;
      assert its[0] in Items(cc, keys);
      forall l | l in keys ensures exists it :: it in Items(cc, keys) && it.key == l {
        if l != k {
          var it :| it in Items(cc, rest) && it.key == l;
          assert it in Items(cc, keys);
        }
      }
    }
  }

  ghost predicate QuoteFree(cc: Directives) {
    forall k, v :: k in cc && v in cc[k] ==> QUOTE !in v
  }

  lemma {:induction false} ValueItemsReadable(k: Text, vals: seq<Text>)
    requires NameText(k) && forall v :: v in vals ==> QUOTE !in v
    ensures forall it :: it in ValueItems(k, vals) ==> Readable(it)
  {
    if vals != [] { ValueItemsReadable(k, vals[1..]); }
  }

  lemma {:induction false} ItemsReadable(cc: Directives, keys: seq<Text>)
    requires QuoteFree(cc) && forall k :: k in keys ==> k in cc && NameText(k)
    ensures forall it :: it in Items(cc, keys) ==> Readable(it)
  {
    if keys != [] {
      assert keys[0] in keys;
      ValueItemsReadable(keys[0], cc[keys[0]]);
      ItemsReadable(cc, keys[1..]);
    }
  }

  lemma ItemsAdded(cc: Directives, keys: seq<Text>, c: Case, unicode: nat -> bool)
    requires RegularNames(cc.Keys, c) && Ascending(keys) && forall k :: k in keys <==> k in cc
    ensures var r := AddedAll(map[], AllItemCalls(Items(cc, keys), unicode), c);
            r.Keys == cc.Keys && forall k :: k in cc ==> r[k] == Stored(cc[k], unicode)
  {
    var calls := AllItemCalls(Items(cc, keys), unicode);
    assert KeysOf(calls) == cc.Keys by {
      ItemKeys(Items(cc, keys), unicode);
      DirectiveKeys(cc, keys);
    }
    AddedIsPutAll(map[], calls, cc.Keys, c);
    PutAllKeys(map[], calls);
    forall k | k in cc ensures PutAll(map[], calls)[k] == Stored(cc[k], unicode) {
      PutAllAt(map[], calls, k);
      DirectivesValues(cc, keys, k, unicode);
      assert At(PutAll(map[], calls), k) == [] + ValuesFor(calls, k);
    }
  }

  /** Parsing a printed map gives every directive back, with its values escaped. */
  lemma ParsePrinted(cc: Directives, c: Case, unicode: nat -> bool)
    requires RegularNames(cc.Keys, c) && QuoteFree(cc)
    ensures var r := Parsed(Printed(cc, unicode), c);
            r.Keys == cc.Keys && forall k :: k in cc ==> r[k] == Stored(cc[k], unicode)
  {
    var keys := Sorted(cc.Keys);
    var items := Items(cc, keys);
    ItemsReadable(cc, keys);
    TrimmedBuffer(items, unicode);
    CallsOfItems(items, [], unicode);
    ItemsAdded(cc, keys, c, unicode);
  }

  // ------------------------------------------------------------------- the results

  lemma {:induction false} StoredShrinks(vals: seq<Text>, unicode: nat -> bool)
    ensures |Stored(vals, unicode)| <= |vals|
  {
    if vals != [] { StoredShrinks(vals[1..], unicode); }
  }

  predicate Faithful(v: Text, unicode: nat -> bool) {
    v != [] && Plain(v, unicode)
  }

  lemma {:induction false} StoredSame(vals: seq<Text>, unicode: nat -> bool)
    ensures Stored(vals, unicode) == vals <==> forall v :: v in vals ==> Faithful(v, unicode)
  {
    if vals != [] {
      var rest := Stored(vals[1..], unicode);
      StoredSame(vals[1..], unicode);
      StoredShrinks(vals[1..], unicode);
      EscapedLength(vals[0], unicode);
      assert vals == [vals[0]] + vals[1..];
      if Stored(vals, unicode) == vals {
        assert vals[0] != [];
        assert ([Escaped(vals[0], unicode)] + rest)[1..] == rest;
      }
      if forall v :: v in vals ==> Faithful(v, unicode) {
        assert vals[0] in vals;
        assert forall v :: v in vals[1..] ==> v in vals;
      }
    }
  }

  lemma TokenQuoteFree(s: Text)
    requires s != []
    ensures QUOTE !in TokenAt(s).0
  {
    BeforeNoStop(s[1..], IsQuote);
    BeforeNoStop(s, Delimiter);
  }

  lemma {:induction false} CallsQuoteFree(s: Text, isValue: bool, lastKey: Text)
    ensures forall x :: x in Calls(s, isValue, lastKey) ==> QUOTE !in x.val
    decreases |s|
  {
    if s == [] {
    } else if Separator(s[0]) {
      CallsQuoteFree(s[1..], isValue, lastKey);
    } else if s[0] == EQUALS {
      CallsQuoteFree(s[1..], true, lastKey);
    } else {
      var (t, n) := TokenAt(s);
      CallsToken(s, isValue, lastKey);
      TokenQuoteFree(s);
      CallsQuoteFree(Drop(s, n), false, if isValue then lastKey else t);
    }
  }

  lemma {:induction false} AddedQuoteFree(cur: Directives, calls: seq<Call>, c: Case)
    requires QuoteFree(cur) && forall x :: x in calls ==> QUOTE !in x.val
    ensures QuoteFree(AddedAll(cur, calls, c))
  {
    if calls != [] {
      var n := |calls| - 1;
      AddedQuoteFree(cur, calls[..n], c);
      var mid, x := AddedAll(cur, calls[..n], c), calls[n];
      assert x in calls;
      PutQuoteFree(mid, x.val);
    }
  }

  lemma PutQuoteFree(cur: Directives, val: Text)
    requires QuoteFree(cur) && QUOTE !in val
    ensures forall k :: QuoteFree(Put(cur, k, val))
  {
  }

  /** No parsed value holds a quote, whatever the header says. */
  lemma ParsedQuoteFree(input: Text, c: Case)
    ensures QuoteFree(Parsed(input, c))
  {
    CallsQuoteFree(input, false, []);
    AddedQuoteFree(map[], Calls(input, false, []), c);
  }

  ghost predicate AllFaithful(cc: Directives, unicode: nat -> bool) {
    forall k, v :: k in cc && v in cc[k] ==> Faithful(v, unicode)
  }

  lemma SameIfFaithful(cc: Directives, r: Directives, unicode: nat -> bool)
    requires r.Keys == cc.Keys && forall k :: k in cc ==> r[k] == Stored(cc[k], unicode)
    ensures r == cc <==> AllFaithful(cc, unicode)
  {
    forall k | k in cc ensures r[k] == cc[k] <==> forall v :: v in cc[k] ==> Faithful(v, unicode) {
      StoredSame(cc[k], unicode);
    }
    if r == cc {
      forall k, v | k in cc && v in cc[k] ensures Faithful(v, unicode) {
        assert r[k] == cc[k];
      }
    }
    if AllFaithful(cc, unicode) {
      assert forall k :: k in cc ==> r[k] == cc[k];
    }
  }

  /** The parser inverts the printer, repeated values in order, exactly when no value is empty or
      changed by %q. */
  lemma RoundTrip(cc: Directives, c: Case, unicode: nat -> bool)
    requires RegularNames(cc.Keys, c)
    ensures Parsed(Printed(cc, unicode), c) == cc <==> AllFaithful(cc, unicode)
  {
    var r := Parsed(Printed(cc, unicode), c);
    if QuoteFree(cc) {
      ParsePrinted(cc, c, unicode);
      SameIfFaithful(cc, r, unicode);
    } else {
      assert QuoteFree(r) by { ParsedQuoteFree(Printed(cc, unicode), c); }
      var k, v :| k in cc && v in cc[k] && QUOTE in v;
      assert !Faithful(v, unicode);
    }
  }

  // ----------------------------------------------------------------- header values

  /** Case mapping acts on ASCII as it does in Unicode. */
  ghost predicate AsciiCase(c: Case) {
    forall x: nat :: x < 128 ==> c.lower(x) == LowerAscii(x) && c.fold(x) == LowerAscii(x)
  }

  /** A token of section 3.2.6 of RFC 7230 without upper-case letters. */
  predicate LowerToken(k: Text) {
    k != [] && forall i :: 0 <= i < |k| ==> TokenSymbol(k[i]) && LowerAscii(k[i]) == k[i]
  }

  predicate PlainAscii(v: Text) {
    forall i :: 0 <= i < |v| ==> 0x20 <= v[i] < 0x7f && v[i] != QUOTE && v[i] != BACKSLASH
  }

  lemma LowerTokensAreRegular(names: set<Text>, c: Case)
    requires AsciiCase(c) && forall k :: k in names ==> LowerToken(k)
    ensures RegularNames(names, c)
  {
    forall k | k in names ensures NameText(k) && Lower(k, c) == k {
    }
    forall k, l | k in names && l in names && EqualFold(k, l, c.fold) ensures k == l {
      forall i | 0 <= i < |k| ensures k[i] == l[i] {
        assert c.fold(k[i]) == k[i] && c.fold(l[i]) == l[i];
      }
    }
  }

  /** Every map of lower-case tokens and plain ASCII values round-trips. */
  lemma TokensRoundTrip(cc: Directives, c: Case, unicode: nat -> bool)
    requires AsciiCase(c) && forall k :: k in cc ==> LowerToken(k)
    requires forall k, v :: k in cc && v in cc[k] ==> v != [] && PlainAscii(v)
    ensures Parsed(Printed(cc, unicode), c) == cc
  {
    LowerTokensAreRegular(cc.Keys, c);
    forall k, v | k in cc && v in cc[k] ensures Faithful(v, unicode) {
      assert PlainAscii(v);
    }
    RoundTrip(cc, c, unicode);
  }

  lemma Unfaithful(cc: Directives, k: Text, v: Text, c: Case, unicode: nat -> bool)
    requires RegularNames(cc.Keys, c) && k in cc && v in cc[k] && !Faithful(v, unicode)
    ensures Parsed(Printed(cc, unicode), c) != cc
  {
    RoundTrip(cc, c, unicode);
    assert !AllFaithful(cc, unicode);
  }

  lemma BackslashIsNotPlain(unicode: nat -> bool)
    ensures !Plain([BACKSLASH], unicode)
  {
    assert [BACKSLASH][0] == BACKSLASH;
  }

  lemma LetterIsLowerToken()
    ensures LowerToken([112])
  {
    assert [112][0] == 112;
  }

  /** p="\\" comes back with two backslashes. */
  lemma BackslashDoesNotRoundTrip(c: Case, unicode: nat -> bool)
    requires AsciiCase(c)
    ensures var cc := map[[112] := [[BACKSLASH]]]; Parsed(Printed(cc, unicode), c) != cc
  {
    var cc: Directives := map[[112] := [[BACKSLASH]]];
    LetterIsLowerToken();
    LowerTokensAreRegular(cc.Keys, c);
    BackslashIsNotPlain(unicode);
    Unfaithful(cc, [112], [BACKSLASH], c, unicode);
  }

  // ------------------------------------------------------------- headers as they are sent

  /** A value is sent as a token or in quotes. */
  datatype Given = Bare(token: Text) | InQuotes(text: Text)

  datatype Sent = Sent(name: Text, given: Option<Given>)

  /** A word holds no quote, comma, blank, line break or equals sign. */
  predicate Word(s: Text) {
    s != [] && forall i :: 0 <= i < |s| ==> s[i] !in {34, 44, 32, 9, 10, 13, 61}
  }

  /** Names and bare values are words; quotes hold no quote. */
  predicate SentOk(d: Sent) {
    && Word(d.name)
    && (d.given.Some? && d.given.value.Bare? ==> Word(d.given.value.token))
    && (d.given.Some? && d.given.value.InQuotes? ==> QUOTE !in d.given.value.text)
  }

  function GivenText(g: Given): Text {
    match g
    case Bare(t) => t
    case InQuotes(t) => [QUOTE] + t + [QUOTE]
  }

  function SentText(d: Sent): Text {
    match d.given
    case None => d.name
    case Some(g) => d.name + ([EQUALS] + GivenText(g))
  }

  function SentAll(ds: seq<Sent>, sep: Text): Text {
    if ds == [] then [] else if |ds| == 1 then SentText(ds[0]) else SentText(ds[0]) + (sep + SentAll(ds[1..], sep))
  }

  function Value(g: Given): Text {
    match g
    case Bare(t) => t
    case InQuotes(t) => t
  }

  function SentCalls(d: Sent): seq<Call> {
    match d.given
    case None => [Call(d.name, [])]
    case Some(g) => [Call(d.name, []), Call(d.name, Value(g))]
  }

  function AllSentCalls(ds: seq<Sent>): seq<Call> {
    if ds == [] then [] else SentCalls(ds[0]) + AllSentCalls(ds[1..])
  }

  lemma CallsOfBare(t: Text, rest: Text, lastKey: Text)
    requires NameText(t) && (rest == [] || Delimiter(rest[0]))
    ensures Calls([EQUALS] + (t + rest), false, lastKey) == [Call(lastKey, t)] + Calls(rest, false, lastKey)
  {
    assert ([EQUALS] + (t + rest))[1..] == t + rest;
    BeforeStop(t, rest, Delimiter);
    assert !Delimiter((t + rest)[0]);
    assert Drop(t + rest, |t|) == rest;
  }

  lemma CallsOfSent(d: Sent, rest: Text, lastKey: Text)
    requires SentOk(d) && (rest == [] || Separator(rest[0]))
    ensures Calls(SentText(d) + rest, false, lastKey) == SentCalls(d) + Calls(rest, false, d.name)
  {
    match d.given
    case None => CallsOfName(d.name, rest, lastKey);
    case Some(InQuotes(t)) =>
      Spelled(d.name, t, rest);
      CallsOfPair(d.name, t, rest, lastKey);
    case Some(Bare(t)) =>
      assert SentText(d) + rest == d.name + ([EQUALS] + (t + rest));
      CallsOfName(d.name, [EQUALS] + (t + rest), lastKey);
      CallsOfBare(t, rest, d.name);
      Joining(Call(d.name, []), Call(d.name, t), Calls(rest, false, d.name));
  }

  lemma {:induction false} CallsSkip(sep: Text, rest: Text, lastKey: Text)
    requires forall i :: 0 <= i < |sep| ==> Separator(sep[i])
    ensures Calls(sep + rest, false, lastKey) == Calls(rest, false, lastKey)
  {
    if sep == [] {
      assert sep + rest == rest;
    } else {
      assert (sep + rest)[1..] == sep[1..] + rest;
      CallsSkip(sep[1..], rest, lastKey);
    }
  }

  lemma {:induction false} CallsOfAll(ds: seq<Sent>, sep: Text, lastKey: Text)
    requires (forall d :: d in ds ==> SentOk(d)) && sep != [] && forall i :: 0 <= i < |sep| ==> Separator(sep[i])
    ensures Calls(SentAll(ds, sep), false, lastKey) == AllSentCalls(ds)
  {
    if |ds| == 1 {
      CallsOfSent(ds[0], [], lastKey);
      assert SentText(ds[0]) + [] == SentText(ds[0]) && ds[1..] == [];
    } else if ds != [] {
      var rest := SentAll(ds[1..], sep);
      CallsOfSent(ds[0], sep + rest, lastKey);
      CallsSkip(sep, rest, ds[0].name);
      CallsOfAll(ds[1..], sep, ds[0].name);
    }
  }

  /** Every symbol is ASCII, whose case needs no tables. */
  predicate Ascii(k: Text) {
    forall i :: 0 <= i < |k| ==> k[i] < 128
  }

  ghost predicate AllLower(names: set<Text>, c: Case) {
    forall k :: k in names ==> Ascii(k) && Lower(k, c) == k
  }

  lemma LowerIsLower(k: Text, c: Case)
    requires AsciiCase(c) && Ascii(k)
    ensures Ascii(Lower(k, c)) && Lower(Lower(k, c), c) == Lower(k, c)
  {
  }

  lemma FoldIsLower(k: Text, l: Text, c: Case)
    requires AsciiCase(c) && Ascii(k) && Ascii(l) && EqualFold(k, l, c.fold)
    ensures Lower(k, c) == Lower(l, c)
  {
    forall i | 0 <= i < |k| ensures Lower(k, c)[i] == Lower(l, c)[i] {
      assert c.fold(k[i]) == c.fold(l[i]) && c.lower(k[i]) == c.fold(k[i]);
    }
  }

  /** Whatever case a name comes in, it is stored in lower case. */
  lemma AddedLower(cur: Directives, key: Text, val: Text, c: Case)
    requires AsciiCase(c) && Ascii(key) && AllLower(cur.Keys, c)
    ensures Added(cur, key, val, c) == Put(cur, Lower(key, c), val)
  {
    LookupExactly(cur, key, c);
    var found := Lookup(cur, key, c);
    if found.Some? {
      assert found.value in cur.Keys;
      if Lower(key, c) !in cur && key !in cur { FoldIsLower(found.value, key, c); }
    }
  }

  /** The calls with all names in lower case. */
  function Lowered(calls: seq<Call>, c: Case): (r: seq<Call>)
    ensures |r| == |calls|
    ensures forall i :: 0 <= i < |calls| ==> r[i] == Call(Lower(calls[i].key, c), calls[i].val)
  {
    seq(|calls|, i requires 0 <= i < |calls| => Call(Lower(calls[i].key, c), calls[i].val))
  }

  lemma LoweredLast(calls: seq<Call>, c: Case)
    requires calls != []
    ensures Lowered(calls, c)[..|calls| - 1] == Lowered(calls[..|calls| - 1], c)
  {
  }

  lemma {:induction false} AddedAllLower(calls: seq<Call>, c: Case)
    requires AsciiCase(c) && forall x :: x in calls ==> Ascii(x.key)
    ensures AddedAll(map[], calls, c) == PutAll(map[], Lowered(calls, c))
    ensures AllLower(AddedAll(map[], calls, c).Keys, c)
  {
    if calls != [] {
      var n := |calls| - 1;
      assert calls[n] in calls;
      AddedAllLower(calls[..n], c);
      LoweredLast(calls, c);
      AddedLower(AddedAll(map[], calls[..n], c), calls[n].key, calls[n].val, c);
      LowerIsLower(calls[n].key, c);
    }
  }

  /** The values sent under a name, in order; an empty one counts as none. */
  function Heard(ds: seq<Sent>, k: Text, c: Case): seq<Text> {
    if ds == [] then []
    else
      var own := Lower(ds[0].name, c) == k && ds[0].given.Some? && Value(ds[0].given.value) != [];
      (if own then [Value(ds[0].given.value)] else []) + Heard(ds[1..], k, c)
  }

  lemma LoweredAppend(a: seq<Call>, b: seq<Call>, c: Case)
    ensures Lowered(a + b, c) == Lowered(a, c) + Lowered(b, c)
  {
  }

  lemma SentValues(d: Sent, k: Text, c: Case)
    ensures ValuesFor(Lowered(SentCalls(d), c), k) == Heard([d], k, c)
  {
    var l := Lowered(SentCalls(d), c);
    var first := [Call(Lower(d.name, c), [])];
    assert first[..0] == [] && ValuesFor(first, k) == [];
    if d.given.Some? { assert l[..1] == first; } else { assert l == first; }
    assert [d][1..] == [];
  }

  lemma HeardCons(ds: seq<Sent>, k: Text, c: Case)
    requires ds != []
    ensures Heard(ds, k, c) == Heard([ds[0]], k, c) + Heard(ds[1..], k, c)
  {
    assert [ds[0]][1..] == [];
  }

  lemma {:induction false} AllSentValues(ds: seq<Sent>, k: Text, c: Case)
    ensures ValuesFor(Lowered(AllSentCalls(ds), c), k) == Heard(ds, k, c)
  {
    if ds != [] {
      AllSentValues(ds[1..], k, c);
      SentValues(ds[0], k, c);
      LoweredAppend(SentCalls(ds[0]), AllSentCalls(ds[1..]), c);
      ValuesForAppend(Lowered(SentCalls(ds[0]), c), Lowered(AllSentCalls(ds[1..]), c), k);
      HeardCons(ds, k, c);
    }
  }

  lemma SentKey(d: Sent, c: Case)
    ensures KeysOf(Lowered(SentCalls(d), c)) == {Lower(d.name, c)}
  {
    assert Lowered(SentCalls(d), c)[0].key == Lower(d.name, c);
  }

  lemma KeysAppend(a: seq<Call>, b: seq<Call>)
    ensures KeysOf(a + b) == KeysOf(a) + KeysOf(b)
  {
  }

  function LowerNames(ds: seq<Sent>, c: Case): set<Text> {
    set d | d in ds :: Lower(d.name, c)
  }

  lemma LowerNamesCons(ds: seq<Sent>, c: Case)
    requires ds != []
    ensures LowerNames(ds, c) == {Lower(ds[0].name, c)} + LowerNames(ds[1..], c)
  {
    assert ds == [ds[0]] + ds[1..];
  }

  lemma {:induction false} AllSentKeys(ds: seq<Sent>, c: Case)
    ensures KeysOf(Lowered(AllSentCalls(ds), c)) == LowerNames(ds, c)
  {
    if ds != [] {
      AllSentKeys(ds[1..], c);
      LoweredAppend(SentCalls(ds[0]), AllSentCalls(ds[1..]), c);
      KeysAppend(Lowered(SentCalls(ds[0]), c), Lowered(AllSentCalls(ds[1..]), c));
      SentKey(ds[0], c);
      LowerNamesCons(ds, c);
    }
  }

  lemma {:induction false} AllSentAscii(ds: seq<Sent>)
    requires forall d :: d in ds ==> Ascii(d.name)
    ensures forall x :: x in AllSentCalls(ds) ==> Ascii(x.key)
  {
    if ds != [] {
      assert ds[0] in ds;
      AllSentAscii(ds[1..]);
    }
  }

  /**
   A header as it is sent: directives in any case, with values bare or in quotes, separated by commas,
   blanks or line breaks.  Every directive comes out in lower case, with the values sent under all
   spellings of its name, in order.
   */
  lemma SentIsParsed(ds: seq<Sent>, sep: Text, c: Case)
    requires AsciiCase(c) && (forall d :: d in ds ==> SentOk(d) && Ascii(d.name))
    requires sep != [] && forall i :: 0 <= i < |sep| ==> sep[i] in {44, 32, 9, 10, 13}
    ensures var r := Parsed(SentAll(ds, sep), c);
            r.Keys == LowerNames(ds, c) && forall k :: k in r ==> r[k] == Heard(ds, k, c)
  {
    var calls := AllSentCalls(ds);
    var r := Parsed(SentAll(ds, sep), c);
    CallsOfAll(ds, sep, []);
    AllSentKeys(ds, c);
    AllSentAscii(ds);
    AddedAllLower(calls, c);
    PutAllKeys(map[], Lowered(calls, c));
    forall k | k in r ensures r[k] == Heard(ds, k, c) {
      PutAllAt(map[], Lowered(calls, c), k);
      AllSentValues(ds, k, c);
      assert At(PutAll(map[], Lowered(calls, c)), k) == [] + ValuesFor(Lowered(calls, c), k);
    }
  }

  lemma CallsOfLast(v: Text, end: Text, key: Text)
    requires QUOTE !in v && (end == [] || end == [QUOTE])
    ensures Calls([EQUALS] + ([QUOTE] + (v + end)), false, key) == [Call(key, v)]
  {
    var q := [QUOTE] + (v + end);
    assert ([EQUALS] + q)[1..] == q && q[1..] == v + end;
    BeforeStop(v, end, IsQuote);
    assert Drop(q, |v| + 2) == [];
    CallsToken(q, true, key);
  }

  /** A quote that is never closed ends with the header. */
  lemma UnclosedQuote(name: Text, v: Text, c: Case)
    requires NameText(name) && QUOTE !in v
    ensures Parsed(name + ([EQUALS] + ([QUOTE] + (v + []))), c) ==
            Parsed(name + ([EQUALS] + ([QUOTE] + (v + [QUOTE]))), c)
  {
    CallsOfName(name, [EQUALS] + ([QUOTE] + (v + [])), []);
    CallsOfName(name, [EQUALS] + ([QUOTE] + (v + [QUOTE])), []);
    CallsOfLast(v, [], name);
    CallsOfLast(v, [QUOTE], name);
  }
}
