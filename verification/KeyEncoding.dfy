/**
 Cache keys (key.go).  A key's string names a file, so two requests share an entry exactly when
 their key strings agree: the encoding has to be injective, for every Vary header and every
 header value a client can send.
 */
module KeyEncoding {
  import opened Wrappers
  import opened GoQuote
  import opened GoStrings

  const UNIT := 31
  const COLON := 58
  const EQUALS := 61
  const COMMA := 44
  const OPEN := 91
  const CLOSE := 93

  /** "missing" */
  const MISSING: Text := [109, 105, 115, 115, 105, 110, 103]
  /** "\x1fHTTPCACHE-VARY/2\x1f" */
  const NAMESPACE: Text := [31, 72, 84, 84, 80, 67, 65, 67, 72, 69, 45, 86, 65, 82, 89, 47, 50, 31]

  /** http.Header: field lines under raw names. */
  type Header = map<Text, seq<Text>>

  /** `url` is the canonical URL's string. */
  datatype Key = Key(method_: Text, url: Text, vary: seq<Text>)

  // ---------------------------------------------------------------- the Vary header

  function FieldName(part: Text): Text {
    Canonical(Trim(part, Space))
  }

  function NamesOf(parts: seq<Text>): seq<Text> {
    if parts == [] then []
    else
      var name := FieldName(parts[0]);
      (if name != [] then [name] else []) + NamesOf(parts[1..])
  }

  /** The field names a Vary header lists. */
  function VaryNames(header: Text): seq<Text> {
    NamesOf(Split(header, COMMA))
  }

  lemma NamesNext(names: seq<Text>, parts: seq<Text>, i: nat)
    requires i < |parts|
    ensures var n := FieldName(parts[i]);
            names + NamesOf(parts[i..]) == (if n != [] then names + [n] else names) + NamesOf(parts[i + 1..])
  {
    assert parts[i..][1..] == parts[i + 1..];
  }

  method ParseVary(header: Text) returns (names: seq<Text>)
    ensures names == VaryNames(header)
  {
    var parts := Split(header, COMMA);
    names := [];
    for i := 0 to |parts|
      invariant names + NamesOf(parts[i..]) == VaryNames(header)
    {
      NamesNext(names, parts, i);
      var name := FieldName(parts[i]);
      if name != [] {
        names := names + [name];
      }
    }
  }

  predicate CommaFree(s: Text) {
    forall c :: c in s ==> c != COMMA
  }

  lemma {:induction false} TitleCaseSymbols(s: Text, upper: bool)
    requires Token(s)
    ensures IsText(TitleCase(s, upper)) && CommaFree(TitleCase(s, upper))
  {
    if s != [] {
      assert s[0] in s;
      assert forall c :: c in s[1..] ==> c in s;
      TitleCaseSymbols(s[1..], s[0] == 45);
    }
  }

  lemma FieldNameSymbols(part: Text)
    requires IsText(part) && CommaFree(part)
    ensures IsText(FieldName(part)) && CommaFree(FieldName(part))
  {
    TrimSymbols(part, Space);
    if Token(Trim(part, Space)) { TitleCaseSymbols(Trim(part, Space), true); }
  }

  lemma {:induction false} NamesOfSymbols(parts: seq<Text>)
    requires forall p :: p in parts ==> IsText(p) && CommaFree(p)
    ensures forall n :: n in NamesOf(parts) ==> IsText(n) && CommaFree(n)
  {
    if parts != [] {
      FieldNameSymbols(parts[0]);
      NamesOfSymbols(parts[1..]);
    }
  }

  /** Whatever the header says, no name it yields holds a comma. */
  lemma VaryNamesSymbols(header: Text)
    requires IsText(header)
    ensures forall n :: n in VaryNames(header) ==> IsText(n) && CommaFree(n)
  {
    SplitParts(header, COMMA);
    NamesOfSymbols(Split(header, COMMA));
  }

  /** A name as a Vary header may list it: in canonical form, without commas and blanks around it. */
  predicate Listable(n: Text) {
    n != [] && Canonical(n) == n && CommaFree(n) && !Space(n[0]) && !Space(n[|n| - 1])
  }

  /** The names after commas and any blanks, as in "A,B" and "A, B". */
  function Padded(names: seq<Text>, pad: Text): seq<Text> {
    seq(|names|, i requires 0 <= i < |names| => if i == 0 then names[0] else pad + names[i])
  }

  /** One part of a Vary header: a name with blanks around it, or blanks alone. */
  predicate Part(before: Text, n: Text, after: Text) {
    && (n == [] || Listable(n))
    && (forall c :: c in before ==> Space(c)) && (forall c :: c in after ==> Space(c))
  }

  function Filled(names: seq<Text>): seq<Text> {
    if names == [] then [] else (if names[0] == [] then [] else [names[0]]) + Filled(names[1..])
  }

  lemma PartName(before: Text, n: Text, after: Text)
    requires Part(before, n, after)
    ensures FieldName(before + n + after) == n && CommaFree(before + n + after)
  {
    if n == [] {
      var s := before + n + after;
      assert forall c :: c in s ==> Space(c);
      TrimAll(s);
    } else {
      TrimPadded(before, n, after, Space);
    }
  }

  lemma {:induction false} TrimAll(s: Text)
    requires forall c :: c in s ==> Space(c)
    ensures TrimLeft(s, Space) == []
  {
    if s != [] { TrimAll(s[1..]); }
  }

  lemma {:induction false} NamesOfParts(parts: seq<Text>, names: seq<Text>)
    requires |parts| == |names| && forall i :: 0 <= i < |names| ==> FieldName(parts[i]) == names[i]
    ensures NamesOf(parts) == Filled(names)
  {
    if parts != [] { NamesOfParts(parts[1..], names[1..]); }
  }

  /** Parsing gives every name in the list, in order, whatever blanks and empty parts are around. */
  lemma VaryPartsParse(parts: seq<Text>, names: seq<Text>, before: seq<Text>, after: seq<Text>)
    requires names != [] && |parts| == |before| == |after| == |names|
    requires forall i :: 0 <= i < |names| ==>
               Part(before[i], names[i], after[i]) && parts[i] == before[i] + names[i] + after[i]
    ensures VaryNames(Join(parts, COMMA)) == Filled(names)
  {
    forall i | 0 <= i < |names| ensures FieldName(parts[i]) == names[i] && CommaFree(parts[i]) {
      PartName(before[i], names[i], after[i]);
    }
    SplitJoin(parts, COMMA);
    NamesOfParts(parts, names);
  }

  lemma {:induction false} FilledAll(names: seq<Text>)
    requires forall i :: 0 <= i < |names| ==> names[i] != []
    ensures Filled(names) == names
  {
    if names != [] {
      assert names == [names[0]] + names[1..];
      FilledAll(names[1..]);
    }
  }

  lemma PaddedName(pad: Text, n: Text)
    requires Listable(n) && forall c :: c in pad ==> Space(c)
    ensures FieldName(pad + n) == n && FieldName(n) == n && CommaFree(pad + n)
  {
    PartName(pad, n, []);
    PartName([], n, []);
    assert pad + n + [] == pad + n && [] + n + [] == n;
  }

  /** In particular a list written with commas and uniform blanks gives itself back. */
  lemma VaryListParses(names: seq<Text>, pad: Text)
    requires names != [] && (forall n :: n in names ==> Listable(n)) && forall c :: c in pad ==> Space(c)
    ensures VaryNames(Join(Padded(names, pad), COMMA)) == names
  {
    var parts := Padded(names, pad);
    forall i | 0 <= i < |names| ensures FieldName(parts[i]) == names[i] && names[i] != [] && CommaFree(parts[i]) {
      assert names[i] in names;
      PaddedName(pad, names[i]);
    }
    SplitJoin(parts, COMMA);
    NamesOfParts(parts, names);
    FilledAll(names);
  }

  // -------------------------------------------------------------- a request's field

  predicate IsHeader(h: Header) {
    forall k :: k in h ==> forall v :: v in h[k] ==> forall c :: c in v ==> Symbol(c)
  }

  ghost function Matching(h: Header, name: Text, fold: nat -> nat): set<Text> {
    set k | k in h && EqualFold(k, name, fold)
  }

  ghost function LinesUnder(h: Header, names: seq<Text>): seq<Text>
    requires forall k :: k in names ==> k in h
  {
    if names == [] then [] else h[names[0]] + LinesUnder(h, names[1..])
  }

  /** The field's lines over every spelling of its name, in a fixed order; a missing field differs
      from one present without lines. */
  ghost function FieldLines(h: Header, name: Text, fold: nat -> nat): Option<seq<Text>> {
    var names := Matching(h, name, fold);
    if names == {} then None else Some(LinesUnder(h, Sorted(names)))
  }

  function More(lines: seq<Text>, unicode: nat -> bool): Text {
    if lines == [] then [] else [COMMA] + Quote(lines[0], unicode) + More(lines[1..], unicode)
  }

  function Items(lines: seq<Text>, unicode: nat -> bool): Text {
    if lines == [] then [] else Quote(lines[0], unicode) + More(lines[1..], unicode)
  }

  function Encoded(lines: Option<seq<Text>>, unicode: nat -> bool): Text {
    match lines
    case None => MISSING
    case Some(l) => [OPEN] + Items(l, unicode) + [CLOSE]
  }

  lemma {:induction false} MoreAppend(lines: seq<Text>, v: Text, unicode: nat -> bool)
    ensures More(lines + [v], unicode) == More(lines, unicode) + [COMMA] + Quote(v, unicode)
  {
    if lines != [] {
      assert (lines + [v])[1..] == lines[1..] + [v];
      MoreAppend(lines[1..], v, unicode);
    } else {
      assert [v][1..] == [];
    }
  }

  lemma ItemsAppend(lines: seq<Text>, v: Text, unicode: nat -> bool)
    ensures Items(lines + [v], unicode) ==
            Items(lines, unicode) + (if lines == [] then [] else [COMMA]) + Quote(v, unicode)
  {
    if lines != [] {
      assert (lines + [v])[1..] == lines[1..] + [v];
      MoreAppend(lines[1..], v, unicode);
    } else {
      assert [v][1..] == [];
    }
  }

  /** The builder after `lines`. */
  function Opened(lines: seq<Text>, unicode: nat -> bool): Text {
    [OPEN] + Items(lines, unicode)
  }

  lemma Prepend(i: Text, q: Text)
    ensures [OPEN] + (i + [] + q) == ([OPEN] + i) + q
    ensures [OPEN] + (i + [COMMA] + q) == ([OPEN] + i + [COMMA]) + q
  {
  }

  lemma OpenedAppend(before: seq<Text>, v: Text, unicode: nat -> bool)
    ensures Opened(before + [v], unicode) ==
            (if before == [] then Opened(before, unicode) else Opened(before, unicode) + [COMMA]) + Quote(v, unicode)
  {
    ItemsAppend(before, v, unicode);
    Prepend(Items(before, unicode), Quote(v, unicode));
  }

  /** The inner loop from `lines[j]` on, with the builder at `b`. */
  function Writing(b: Text, first: bool, lines: seq<Text>, j: nat, unicode: nat -> bool): Text
    requires j <= |lines|
    decreases |lines| - j
  {
    if j == |lines| then b
    else Writing((if first then b else b + [COMMA]) + Quote(lines[j], unicode), false, lines, j + 1, unicode)
  }

  lemma FirstMoves(before: seq<Text>, lines: seq<Text>, j: nat)
    requires j <= |lines|
    ensures before + lines[j..] == if j == |lines| then before else (before + [lines[j]]) + lines[j + 1..]
  {
  }

  lemma {:induction false} WritingOpens(before: seq<Text>, lines: seq<Text>, j: nat, unicode: nat -> bool)
    requires j <= |lines|
    ensures Writing(Opened(before, unicode), before == [], lines, j, unicode) == Opened(before + lines[j..], unicode)
    decreases |lines| - j
  {
    FirstMoves(before, lines, j);
    if j < |lines| {
      OpenedAppend(before, lines[j], unicode);
      WritingOpens(before + [lines[j]], lines, j + 1, unicode);
    }
  }

  lemma {:induction false} LinesUnderAppend(h: Header, names: seq<Text>, k: Text)
    requires k in h && forall n :: n in names ==> n in h
    ensures LinesUnder(h, names + [k]) == LinesUnder(h, names) + h[k]
  {
    if names != [] {
      assert (names + [k])[1..] == names[1..] + [k];
      LinesUnderAppend(h, names[1..], k);
    } else {
      assert LinesUnder(h, [k]) == h[k] + LinesUnder(h, []);
    }
  }

  /** The inner loop: the lines under one spelling of the name. */
  method WriteLines(b: Text, none: bool, lines: seq<Text>, unicode: nat -> bool) returns (r: Text, first: bool)
    ensures r == Writing(b, none, lines, 0, unicode) && first == (none && lines == [])
  {
    r, first := b, none;
    for j := 0 to |lines|
      invariant Writing(r, first, lines, j, unicode) == Writing(b, none, lines, 0, unicode)
      invariant first == (none && j == 0)
    {
      if !first {
        r := r + [COMMA];
      }
      first := false;
      r := r + Quote(lines[j], unicode);
    }
  }

  lemma LinesUnderSlice(h: Header, keys: seq<Text>, i: nat)
    requires i < |keys| && forall k :: k in keys ==> k in h
    ensures LinesUnder(h, keys[..i + 1]) == LinesUnder(h, keys[..i]) + h[keys[i]]
  {
    assert keys[..i + 1] == keys[..i] + [keys[i]];
    LinesUnderAppend(h, keys[..i], keys[i]);
  }

  /** One turn of the outer loop. */
  lemma WriteSpelling(h: Header, keys: seq<Text>, i: nat, unicode: nat -> bool)
    requires i < |keys| && forall k :: k in keys ==> k in h
    ensures var now, next := LinesUnder(h, keys[..i]), LinesUnder(h, keys[..i + 1]);
            && Writing(Opened(now, unicode), now == [], h[keys[i]], 0, unicode) == Opened(next, unicode)
            && (next == [] <==> now == [] && h[keys[i]] == [])
  {
    var lines := h[keys[i]];
    WritingOpens(LinesUnder(h, keys[..i]), lines, 0, unicode);
    assert lines[0..] == lines;
    LinesUnderSlice(h, keys, i);
  }

  lemma FieldLinesAre(h: Header, name: Text, fold: nat -> nat)
    ensures var keys := Sorted(Matching(h, name, fold));
            FieldLines(h, name, fold) == if keys == [] then None else Some(LinesUnder(h, keys))
  {
    SortedNone(Matching(h, name, fold));
  }

  /** No spelling, no field. */
  lemma FieldMissing(h: Header, name: Text, fold: nat -> nat)
    ensures FieldLines(h, name, fold).None? <==> forall k :: k in h ==> !EqualFold(k, name, fold)
  {
    var m := Matching(h, name, fold);
    assert forall k :: k in m <==> k in h && EqualFold(k, name, fold);
    assert m == {} <==> forall k :: k !in m;
  }

  lemma {:induction false} LinesUnderFrame(h: Header, g: Header, names: seq<Text>)
    requires forall k :: k in names ==> k in h && k in g && h[k] == g[k]
    ensures LinesUnder(h, names) == LinesUnder(g, names)
  {
    if names != [] { LinesUnderFrame(h, g, names[1..]); }
  }

  lemma SortedLeast(names: set<Text>, k: Text)
    requires k !in names && forall x :: x in names ==> Below(k, x)
    ensures Sorted(names + {k}) == [k] + Sorted(names)
  {
    var ks := Sorted(names);
    forall x | x in ks ensures Below(k, x) { assert x in names; }
    assert Ascending([k] + ks);
    SortedUnique(names + {k}, [k] + ks);
  }

  /** The lines under the least spelling come first, then those of the header without it. */
  lemma FieldLinesExactly(h: Header, name: Text, fold: nat -> nat, k: Text)
    requires k in h && EqualFold(k, name, fold)
    requires forall x :: x in h && EqualFold(x, name, fold) ==> x == k || Below(k, x)
    ensures var rest := FieldLines(h - {k}, name, fold);
            FieldLines(h, name, fold) == Some(h[k] + if rest.Some? then rest.value else [])
  {
    var m, n := Matching(h, name, fold), Matching(h - {k}, name, fold);
    var ks := Sorted(n);
    assert m == n + {k};
    SortedLeast(n, k);
    assert ([k] + ks)[1..] == ks;
    forall x | x in ks ensures x in h { assert x in n; }
    LinesUnderFrame(h, h - {k}, ks);
    SortedNone(n);
  }

  method VaryFieldKey(h: Header, name: Text, fold: nat -> nat, unicode: nat -> bool) returns (r: Text)
    ensures r == Encoded(FieldLines(h, name, fold), unicode)
  {
    FieldLinesAre(h, name, fold);
    var matching := set k | k in h && EqualFold(k, name, fold);
    assert matching == Matching(h, name, fold);
    var keys := SortNames(matching);
    if |keys| == 0 {
      return MISSING;
    }
    r := WriteField(h, keys, unicode);
  }

  method WriteField(h: Header, keys: seq<Text>, unicode: nat -> bool) returns (r: Text)
    requires forall k :: k in keys ==> k in h
    ensures r == Encoded(Some(LinesUnder(h, keys)), unicode)
  {
    r := [OPEN];
    var first := true;
    for i := 0 to |keys|
      invariant r == Opened(LinesUnder(h, keys[..i]), unicode) && first == (LinesUnder(h, keys[..i]) == [])
    {
      WriteSpelling(h, keys, i, unicode);
      r, first := WriteLines(r, first, h[keys[i]], unicode);
    }
    assert keys[..|keys|] == keys;
    r := r + [CLOSE];
  }

  // ------------------------------------------------------- one field says one thing

  /** What follows a string of the list, up to the closing bracket. */
  function Rest(lines: seq<Text>, unicode: nat -> bool): (r: Text)
    ensures r != [] && r[0] != QUOTE && (lines == [] <==> r == [CLOSE]) && (lines != [] <==> r[0] == COMMA)
  {
    if lines == [] then [CLOSE] else [COMMA] + ([QUOTE] + Tail(lines[0], Rest(lines[1..], unicode), unicode))
  }

  lemma RestCons(lines: seq<Text>, unicode: nat -> bool)
    requires lines != []
    ensures Rest(lines, unicode)[1..] == [QUOTE] + Tail(lines[0], Rest(lines[1..], unicode), unicode)
  {
  }

  lemma Separated(q: Text, m: Text)
    ensures ([COMMA] + q + m) + [CLOSE] == [COMMA] + (q + (m + [CLOSE]))
  {
  }

  lemma {:induction false} RestIsMore(lines: seq<Text>, unicode: nat -> bool)
    ensures More(lines, unicode) + [CLOSE] == Rest(lines, unicode)
  {
    if lines != [] {
      RestIsMore(lines[1..], unicode);
      Separated(Quote(lines[0], unicode), More(lines[1..], unicode));
      QuoteTail(lines[0], Rest(lines[1..], unicode), unicode);
    }
  }

  lemma Bracketed(q: Text, m: Text)
    ensures var e := [OPEN] + (q + m) + [CLOSE]; e[0] == OPEN && e[1..] == q + (m + [CLOSE])
  {
  }

  /** The encoding, one string at a time from the left. */
  lemma EncodedParts(lines: seq<Text>, unicode: nat -> bool)
    ensures var e := Encoded(Some(lines), unicode);
            && e[0] == OPEN
            && e[1..] == if lines == [] then [CLOSE] else [QUOTE] + Tail(lines[0], Rest(lines[1..], unicode), unicode)
  {
    if lines != [] {
      RestIsMore(lines[1..], unicode);
      Bracketed(Quote(lines[0], unicode), More(lines[1..], unicode));
      QuoteTail(lines[0], Rest(lines[1..], unicode), unicode);
    } else {
      assert Encoded(Some(lines), unicode) == [OPEN, CLOSE];
    }
  }

  /** A text read inside a string that starts with a plain symbol takes it from the string. */
  lemma TailHead(v: Text, x: Text, c: nat, unicode: nat -> bool)
    requires Tail(v, x, unicode)[0] == c && c != BACKSLASH && c != QUOTE
    ensures v != [] && Tail(v, x, unicode)[1..] == Tail(v[1..], x, unicode)
  {
    TailNil(x, unicode);
    TailCons(v, x, unicode);
    EscapeHead(v[0], unicode);
  }

  lemma TailQuote(v: Text, x: Text, unicode: nat -> bool)
    requires Tail(v, x, unicode)[0] == QUOTE
    ensures v == [] && Tail(v, x, unicode)[1..] == x
  {
    TailNil(x, unicode);
    if v != [] { TailCons(v, x, unicode); }
  }

  /** Two tails of a list of quoted strings never agree once one of them is read from inside a
      string: commas and quotes would have to trade places for ever. */
  lemma {:induction false} OutOfStep(us: seq<Text>, v: Text, vs: seq<Text>, unicode: nat -> bool)
    ensures Rest(us, unicode) != Tail(v, Rest(vs, unicode), unicode)
    decreases |us| + |vs|
  {
    var l, r := Rest(us, unicode), Tail(v, Rest(vs, unicode), unicode);
    if l == r {
      TailHead(v, Rest(vs, unicode), l[0], unicode);
      if us != [] {
        RestCons(us, unicode);
        TailQuote(v[1..], Rest(vs, unicode), unicode);
        OutOfStep(vs, us[0], us[1..], unicode);
      }
    }
  }

  /** Nor does a field's encoding ever start inside a string of another's. */
  lemma NotInsideString(w: Text, us: seq<Text>, lines: seq<Text>, unicode: nat -> bool)
    ensures Tail(w, Rest(us, unicode), unicode) != Encoded(Some(lines), unicode)
  {
    var x := Rest(us, unicode);
    if Tail(w, x, unicode) == Encoded(Some(lines), unicode) {
      EncodedParts(lines, unicode);
      TailHead(w, x, OPEN, unicode);
      if lines != [] {
        TailQuote(w[1..], x, unicode);
        OutOfStep(us, lines[0], lines[1..], unicode);
      }
    }
  }

  ghost predicate AreTexts(vs: seq<Text>) {
    forall v :: v in vs ==> IsText(v)
  }

  lemma {:induction false} RestInjective(us: seq<Text>, vs: seq<Text>, unicode: nat -> bool)
    requires AreTexts(us) && AreTexts(vs) && Rest(us, unicode) == Rest(vs, unicode)
    ensures us == vs
    decreases |us|, 1
  {
    if us != [] {
      RestCons(us, unicode);
      RestCons(vs, unicode);
      SameList(us, vs, unicode);
    }
  }

  lemma {:induction false} SameList(us: seq<Text>, vs: seq<Text>, unicode: nat -> bool)
    requires us != [] && vs != [] && AreTexts(us) && AreTexts(vs)
    requires [QUOTE] + Tail(us[0], Rest(us[1..], unicode), unicode) ==
             [QUOTE] + Tail(vs[0], Rest(vs[1..], unicode), unicode)
    ensures us == vs
    decreases |us|, 0
  {
    var x, y := Rest(us[1..], unicode), Rest(vs[1..], unicode);
    assert ([QUOTE] + Tail(us[0], x, unicode))[1..] == Tail(us[0], x, unicode);
    assert ([QUOTE] + Tail(vs[0], y, unicode))[1..] == Tail(vs[0], y, unicode);
    TailPrefixFree(us[0], vs[0], x, y, unicode);
    RestInjective(us[1..], vs[1..], unicode);
    assert us == [us[0]] + us[1..] && vs == [vs[0]] + vs[1..];
  }

  ghost predicate AreLines(l: Option<seq<Text>>) {
    l.Some? ==> AreTexts(l.value)
  }

  /** A field's encoding determines its lines, with missing apart from empty. */
  lemma EncodedInjective(a: Option<seq<Text>>, b: Option<seq<Text>>, unicode: nat -> bool)
    requires AreLines(a) && AreLines(b) && Encoded(a, unicode) == Encoded(b, unicode)
    ensures a == b
  {
    if a.Some? { EncodedParts(a.value, unicode); }
    if b.Some? { EncodedParts(b.value, unicode); }
    if a.Some? && a.value != [] { SameList(a.value, b.value, unicode); }
  }

  // ------------------------------------------------------------- one entry of a key

  function Entry(name: Text, lines: Option<seq<Text>>, unicode: nat -> bool): Text {
    name + ([EQUALS] + Encoded(lines, unicode))
  }

  lemma Cut(a: Text, y: Text, k: nat)
    requires k <= |a|
    ensures (a + y)[k..] == a[k..] + y
    ensures forall c :: c in a[k..] ==> c in a
  {
  }

  /** "=" and a text that never reads on from inside a list's string. */
  ghost predicate Foreign(y: Text, unicode: nat -> bool) {
    2 <= |y| && y[0] == EQUALS && forall w, us :: Tail(w, Rest(us, unicode), unicode) != y[1..]
  }

  lemma AfterString(us: seq<Text>, rest: Text, y: Text, unicode: nat -> bool)
    requires CommaFree(rest) && Foreign(y, unicode)
    ensures Rest(us, unicode) != rest + y
  {
    assert rest != [] ==> (rest + y)[0] == rest[0] && rest[0] in rest;
  }

  lemma AtStringEnd(us: seq<Text>, rest: Text, y: Text, unicode: nat -> bool)
    requires CommaFree(rest) && Foreign(y, unicode)
    ensures Tail([], Rest(us, unicode), unicode) != rest + y
  {
    TailNil(Rest(us, unicode), unicode);
    if rest != [] {
      Cut(rest, y, 1);
      AfterString(us, rest[1..], y, unicode);
    }
  }

  /** "=" inside an escape is the whole escape. */
  lemma AtEquals(u: Text, us: seq<Text>, rest: Text, y: Text, unicode: nat -> bool)
    requires u != [] && Foreign(y, unicode) && |rest| < |Escape(u[0], unicode)|
    ensures Tail(u, Rest(us, unicode), unicode) != rest + y
  {
    var e, x := Escape(u[0], unicode), Rest(us, unicode);
    TailCons(u, x, unicode);
    if Tail(u, x, unicode) == rest + y {
      assert e[|rest|] == (rest + y)[|rest|] == EQUALS;
      EscapeSymbols(u[0], unicode);
      EscapeHead(u[0], unicode);
      Cut(rest, y, 0);
    }
  }

  /** What remains of a string of the list cannot hold a comma-free text, "=" and an encoding. */
  lemma {:induction false} NoEntryInString(u: Text, us: seq<Text>, rest: Text, y: Text, unicode: nat -> bool)
    requires CommaFree(rest) && Foreign(y, unicode)
    ensures Tail(u, Rest(us, unicode), unicode) != rest + y
    decreases |u|
  {
    if u == [] {
      AtStringEnd(us, rest, y, unicode);
    } else {
      var e := Escape(u[0], unicode);
      if |rest| < |e| {
        AtEquals(u, us, rest, y, unicode);
      } else {
        TailCons(u, Rest(us, unicode), unicode);
        Cut(rest, y, |e|);
        Cut(e, Tail(u[1..], Rest(us, unicode), unicode), |e|);
        NoEntryInString(u[1..], us, rest[|e|..], y, unicode);
      }
    }
  }

  lemma EncodedEnds(lines: Option<seq<Text>>, unicode: nat -> bool)
    ensures var e := Encoded(lines, unicode); e != [] && (e[|e| - 1] == CLOSE <==> lines.Some?)
  {
  }

  lemma NoShiftInList(rest: Text, y: Text, lines: seq<Text>, unicode: nat -> bool)
    requires CommaFree(rest) && Foreign(y, unicode)
    ensures Encoded(Some(lines), unicode) != rest + y
  {
    var e := Encoded(Some(lines), unicode);
    if e == rest + y {
      EncodedParts(lines, unicode);
      assert e[|rest|] == EQUALS && rest != [] && e[1..][|rest| - 1] == EQUALS;
      assert lines != [] && 2 <= |rest|;
      Cut(rest, y, 2);
      assert e[2..] == e[1..][1..];
      NoEntryInString(lines[0], lines[1..], rest[2..], y, unicode);
    }
  }

  lemma LastOf(rest: Text, e: Text)
    requires e != []
    ensures var t := rest + ([EQUALS] + e); |t| == |rest| + 1 + |e| && t[|t| - 1] == e[|e| - 1] && t[|rest|] == EQUALS
  {
  }

  /** No field's encoding holds a comma-free text, "=" and another field's encoding. */
  lemma NoShift(rest: Text, a: Option<seq<Text>>, b: Option<seq<Text>>, unicode: nat -> bool)
    requires CommaFree(rest)
    ensures Encoded(b, unicode) != rest + ([EQUALS] + Encoded(a, unicode))
  {
    var e := Encoded(a, unicode);
    var y := [EQUALS] + e;
    EncodedEnds(a, unicode);
    EncodedEnds(b, unicode);
    LastOf(rest, e);
    if a.Some? && b.Some? {
      forall w, us ensures Tail(w, Rest(us, unicode), unicode) != y[1..] {
        NotInsideString(w, us, a.value, unicode);
      }
      NoShiftInList(rest, y, b.value, unicode);
    }
  }

  /** An entry determines the name and the lines, for every name a Vary header can list, even one
      that is no field name and holds "=", quotes or brackets. */
  lemma EntryInjective(m: Text, a: Option<seq<Text>>, n: Text, b: Option<seq<Text>>, unicode: nat -> bool)
    requires CommaFree(m) && CommaFree(n) && AreLines(a) && AreLines(b)
    requires Entry(m, a, unicode) == Entry(n, b, unicode)
    ensures m == n && a == b
  {
    EntryParts(m, a, unicode);
    EntryParts(n, b, unicode);
    if |m| < |n| {
      ShorterName(m, a, n, b, unicode);
    } else if |n| < |m| {
      ShorterName(n, b, m, a, unicode);
    } else {
      EncodedInjective(a, b, unicode);
    }
  }

  lemma EntryParts(m: Text, a: Option<seq<Text>>, unicode: nat -> bool)
    ensures var e := Entry(m, a, unicode); |m| + 1 <= |e| && e[..|m|] == m && e[|m| + 1..] == Encoded(a, unicode)
  {
    Parts(m, Encoded(a, unicode));
  }

  lemma Parts(m: Text, x: Text)
    ensures var e := m + ([EQUALS] + x); |m| + 1 <= |e| && e[..|m|] == m && e[|m| + 1..] == x
  {
  }

  lemma Shifted(m: Text, x: Text, n: Text, y: Text)
    requires |m| < |n| && m + ([EQUALS] + x) == n + ([EQUALS] + y)
    ensures x == n[|m| + 1..] + ([EQUALS] + y)
  {
    assert (m + ([EQUALS] + x))[|m| + 1..] == x;
    Cut(n, [EQUALS] + y, |m| + 1);
  }

  lemma SuffixCommaFree(s: Text, k: nat)
    requires CommaFree(s) && k <= |s|
    ensures CommaFree(s[k..])
  {
    forall c | c in s[k..] ensures c != COMMA {
      assert c in s;
    }
  }

  lemma ShorterName(m: Text, a: Option<seq<Text>>, n: Text, b: Option<seq<Text>>, unicode: nat -> bool)
    requires CommaFree(n) && |m| < |n|
    ensures Entry(m, a, unicode) != Entry(n, b, unicode)
  {
    var x, y := Encoded(a, unicode), Encoded(b, unicode);
    if m + ([EQUALS] + x) == n + ([EQUALS] + y) {
      Shifted(m, x, n, y);
      SuffixCommaFree(n, |m| + 1);
      NoShift(n[|m| + 1..], b, a, unicode);
    }
  }

  // ------------------------------------------------------------------ the whole key

  function Tagged(vary: seq<Text>, unicode: nat -> bool): Text {
    if vary == [] then [] else [UNIT] + (Quote(vary[0], unicode) + Tagged(vary[1..], unicode))
  }

  function KeyText(k: Key, unicode: nat -> bool): Text {
    (if k.vary == [] then [] else NAMESPACE) + (k.method_ + ([COLON] + (k.url + Tagged(k.vary, unicode))))
  }

  lemma {:induction false} TaggedAppend(vary: seq<Text>, v: Text, unicode: nat -> bool)
    ensures Tagged(vary + [v], unicode) == Tagged(vary, unicode) + [UNIT] + Quote(v, unicode)
  {
    if vary == [] {
      assert [v][1..] == [];
    } else {
      assert (vary + [v])[1..] == vary[1..] + [v];
      TaggedAppend(vary[1..], v, unicode);
    }
  }

  /** The builder after the method, the URL and the first `i` entries. */
  function Written(k: Key, i: nat, unicode: nat -> bool): Text
    requires i <= |k.vary|
  {
    (if k.vary == [] then [] else NAMESPACE) + (k.method_ + ([COLON] + (k.url + Tagged(k.vary[..i], unicode))))
  }

  lemma WriteEntry(k: Key, i: nat, unicode: nat -> bool)
    requires i < |k.vary|
    ensures Written(k, i + 1, unicode) == Written(k, i, unicode) + [UNIT] + Quote(k.vary[i], unicode)
  {
    assert k.vary[..i + 1] == k.vary[..i] + [k.vary[i]];
    TaggedAppend(k.vary[..i], k.vary[i], unicode);
  }

  method String(k: Key, unicode: nat -> bool) returns (b: Text)
    ensures b == KeyText(k, unicode)
  {
    var namespace := [];
    if |k.vary| != 0 {
      namespace := NAMESPACE;
    }
    b := namespace + k.method_ + [COLON] + k.url;
    assert b == Written(k, 0, unicode);
    for i := 0 to |k.vary|
      invariant b == Written(k, i, unicode)
    {
      WriteEntry(k, i, unicode);
      b := b + [UNIT];
      b := b + Quote(k.vary[i], unicode);
    }
    assert k.vary[..|k.vary|] == k.vary;
  }

  predicate Free(s: Text, c: nat) {
    forall x :: x in s ==> x != c
  }

  lemma Misaligned(a: Text, b: Text, x: Text, y: Text, c: nat)
    requires Free(b, c) && (x == [] || x[0] == c) && |a| < |b|
    ensures a + x != b + y
  {
    assert (b + y)[|a|] == b[|a|] && b[|a|] in b;
    assert x != [] ==> (a + x)[|a|] == x[0];
  }

  lemma SplitAtSymbol(a: Text, b: Text, x: Text, y: Text, c: nat)
    requires Free(a, c) && Free(b, c) && (x == [] || x[0] == c) && (y == [] || y[0] == c)
    requires a + x == b + y
    ensures a == b && x == y
  {
    if |a| < |b| { Misaligned(a, b, x, y, c); }
    if |b| < |a| { Misaligned(b, a, y, x, c); }
    assert (a + x)[..|a|] == a && (b + y)[..|b|] == b;
    assert (a + x)[|a|..] == x && (b + y)[|b|..] == y;
  }

  lemma {:induction false} TaggedInjective(us: seq<Text>, vs: seq<Text>, unicode: nat -> bool)
    requires AreTexts(us) && AreTexts(vs) && Tagged(us, unicode) == Tagged(vs, unicode)
    ensures us == vs
  {
    if us != [] && vs != [] {
      assert Tagged(us, unicode)[1..] == Quote(us[0], unicode) + Tagged(us[1..], unicode);
      assert Tagged(vs, unicode)[1..] == Quote(vs[0], unicode) + Tagged(vs[1..], unicode);
      QuotePrefixFree(us[0], vs[0], Tagged(us[1..], unicode), Tagged(vs[1..], unicode), unicode);
      TaggedInjective(us[1..], vs[1..], unicode);
      assert us == [us[0]] + us[1..] && vs == [vs[0]] + vs[1..];
    }
  }

  /** A method token and a URL string, which percent-encodes control bytes. */
  ghost predicate Proper(k: Key) {
    Free(k.method_, COLON) && Free(k.method_, UNIT) && Free(k.url, UNIT) && AreTexts(k.vary)
  }

  lemma NamespaceMarksVary(k: Key, unicode: nat -> bool)
    requires Proper(k)
    ensures KeyText(k, unicode) != [] && (KeyText(k, unicode)[0] == UNIT <==> k.vary != [])
  {
    assert k.method_ != [] ==> k.method_[0] in k.method_;
  }

  /** Distinct keys have distinct strings, and no varied key prints like an unvaried one. */
  lemma KeyTextInjective(k: Key, l: Key, unicode: nat -> bool)
    requires Proper(k) && Proper(l)
    ensures KeyText(k, unicode) == KeyText(l, unicode) <==> k == l
  {
    if KeyText(k, unicode) == KeyText(l, unicode) {
      var x, y := k.url + Tagged(k.vary, unicode), l.url + Tagged(l.vary, unicode);
      NamespaceMarksVary(k, unicode);
      NamespaceMarksVary(l, unicode);
      var n := if k.vary == [] then 0 else |NAMESPACE|;
      assert KeyText(k, unicode)[n..] == k.method_ + ([COLON] + x);
      assert KeyText(l, unicode)[n..] == l.method_ + ([COLON] + y);
      SplitAtSymbol(k.method_, l.method_, [COLON] + x, [COLON] + y, COLON);
      assert ([COLON] + x)[1..] == x && ([COLON] + y)[1..] == y;
      SplitAtSymbol(k.url, l.url, Tagged(k.vary, unicode), Tagged(l.vary, unicode), UNIT);
      TaggedInjective(k.vary, l.vary, unicode);
    }
  }

  // ----------------------------------------------------------- keys of two requests

  ghost function Entries(names: seq<Text>, h: Header, fold: nat -> nat, unicode: nat -> bool): (r: seq<Text>)
    ensures |r| == |names|
  {
    if names == [] then []
    else
      var last := names[|names| - 1];
      Entries(names[..|names| - 1], h, fold, unicode) + [Entry(last, FieldLines(h, last, fold), unicode)]
  }

  lemma {:induction false} EntriesAt(names: seq<Text>, i: nat, h: Header, fold: nat -> nat, unicode: nat -> bool)
    requires i < |names|
    ensures Entries(names, h, fold, unicode)[i] == Entry(names[i], FieldLines(h, names[i], fold), unicode)
  {
    if i < |names| - 1 { EntriesAt(names[..|names| - 1], i, h, fold, unicode); }
  }

  ghost function Varied(k: Key, header: Text, h: Header, fold: nat -> nat, unicode: nat -> bool): Key {
    k.(vary := k.vary + Entries(VaryNames(header), h, fold, unicode))
  }

  /** The list of entries after the first `i` names. */
  ghost function Listed(
    vary: seq<Text>, names: seq<Text>, i: nat, h: Header, fold: nat -> nat, unicode: nat -> bool): seq<Text>
    requires i <= |names|
  {
    vary + Entries(names[..i], h, fold, unicode)
  }

  lemma ListNext(vary: seq<Text>, names: seq<Text>, i: nat, h: Header, fold: nat -> nat, unicode: nat -> bool)
    requires i < |names|
    ensures Listed(vary, names, i + 1, h, fold, unicode) ==
            Listed(vary, names, i, h, fold, unicode) + [Entry(names[i], FieldLines(h, names[i], fold), unicode)]
  {
    assert names[..i + 1][..i] == names[..i];
  }

  method Vary(k: Key, header: Text, h: Header, fold: nat -> nat, unicode: nat -> bool) returns (k2: Key)
    ensures k2 == Varied(k, header, h, fold, unicode)
  {
    k2 := k;
    var names := ParseVary(header);
    assert k.vary == Listed(k.vary, names, 0, h, fold, unicode);
    for i := 0 to |names|
      invariant k2 == Key(k.method_, k.url, Listed(k.vary, names, i, h, fold, unicode))
    {
      var text := VaryFieldKey(h, names[i], fold, unicode);
      ListNext(k.vary, names, i, h, fold, unicode);
      k2 := k2.(vary := k2.vary + [names[i] + ([EQUALS] + text)]);
    }
    assert names[..|names|] == names;
  }

  /** The two requests agree on every field of the list, line by line. */
  ghost predicate Agree(names: seq<Text>, g: Header, h: Header, fold: nat -> nat) {
    forall n :: n in names ==> FieldLines(g, n, fold) == FieldLines(h, n, fold)
  }

  lemma {:induction false} LinesUnderTexts(h: Header, names: seq<Text>)
    requires IsHeader(h) && forall k :: k in names ==> k in h
    ensures AreTexts(LinesUnder(h, names))
  {
    if names != [] {
      LinesUnderTexts(h, names[1..]);
      assert names[0] in h;
      forall v | v in LinesUnder(h, names) ensures IsText(v) {
        assert v in h[names[0]] || v in LinesUnder(h, names[1..]);
      }
    }
  }

  lemma FieldLinesTexts(h: Header, name: Text, fold: nat -> nat)
    requires IsHeader(h)
    ensures AreLines(FieldLines(h, name, fold))
  {
    LinesUnderTexts(h, Sorted(Matching(h, name, fold)));
  }

  lemma EntriesAgree(ms: seq<Text>, g: Header, ns: seq<Text>, h: Header, fold: nat -> nat, unicode: nat -> bool)
    requires IsHeader(g) && IsHeader(h)
    requires (forall n :: n in ms ==> CommaFree(n)) && (forall n :: n in ns ==> CommaFree(n))
    ensures Entries(ms, g, fold, unicode) == Entries(ns, h, fold, unicode) <==> ms == ns && Agree(ms, g, h, fold)
  {
    var es, fs := Entries(ms, g, fold, unicode), Entries(ns, h, fold, unicode);
    if es == fs {
      forall i | 0 <= i < |ms| ensures ms[i] == ns[i] && FieldLines(g, ms[i], fold) == FieldLines(h, ms[i], fold) {
        assert es[i] == fs[i];
        EntriesAt(ms, i, g, fold, unicode);
        EntriesAt(ns, i, h, fold, unicode);
        FieldLinesTexts(g, ms[i], fold);
        FieldLinesTexts(h, ns[i], fold);
        EntryInjective(ms[i], FieldLines(g, ms[i], fold), ns[i], FieldLines(h, ns[i], fold), unicode);
      }
      assert ms == ns;
    }
    if ms == ns && Agree(ms, g, h, fold) {
      forall i | 0 <= i < |ms| ensures es[i] == fs[i] {
        EntriesAt(ms, i, g, fold, unicode);
        EntriesAt(ns, i, h, fold, unicode);
        assert ms[i] in ms;
      }
    }
  }

  lemma {:induction false} MoreText(lines: seq<Text>, unicode: nat -> bool)
    requires AreTexts(lines)
    ensures IsText(More(lines, unicode))
  {
    if lines != [] {
      QuoteText(lines[0], unicode);
      MoreText(lines[1..], unicode);
    }
  }

  lemma EntryText(name: Text, lines: Option<seq<Text>>, unicode: nat -> bool)
    requires IsText(name) && AreLines(lines)
    ensures IsText(Entry(name, lines, unicode))
  {
    assert IsText(Encoded(lines, unicode)) by {
      if lines.Some? && lines.value != [] {
        QuoteText(lines.value[0], unicode);
        MoreText(lines.value[1..], unicode);
      }
    }
  }

  lemma EntriesTexts(names: seq<Text>, h: Header, fold: nat -> nat, unicode: nat -> bool)
    requires IsHeader(h) && AreTexts(names)
    ensures AreTexts(Entries(names, h, fold, unicode))
  {
    var es := Entries(names, h, fold, unicode);
    forall i | 0 <= i < |es| ensures IsText(es[i]) {
      EntriesAt(names, i, h, fold, unicode);
      FieldLinesTexts(h, names[i], fold);
      EntryText(names[i], FieldLines(h, names[i], fold), unicode);
    }
  }

  lemma VariedIsProper(k: Key, header: Text, h: Header, fold: nat -> nat, unicode: nat -> bool)
    requires Proper(k) && IsText(header) && IsHeader(h)
    ensures Proper(Varied(k, header, h, fold, unicode))
  {
    VaryNamesSymbols(header);
    EntriesTexts(VaryNames(header), h, fold, unicode);
  }

  /** Section 4.1 of RFC 7234: two requests select the same entry exactly when they agree on the
      method, the URL, the listed field names and the lines of every listed field. */
  lemma RequestsShareAnEntry(
    k: Key, v: Text, g: Header, l: Key, w: Text, h: Header, fold: nat -> nat, unicode: nat -> bool)
    requires Proper(k) && Proper(l) && k.vary == [] && l.vary == []
    requires IsText(v) && IsText(w) && IsHeader(g) && IsHeader(h)
    ensures KeyText(Varied(k, v, g, fold, unicode), unicode) == KeyText(Varied(l, w, h, fold, unicode), unicode) <==>
            k == l && VaryNames(v) == VaryNames(w) && Agree(VaryNames(v), g, h, fold)
  {
    VariedIsProper(k, v, g, fold, unicode);
    VariedIsProper(l, w, h, fold, unicode);
    KeyTextInjective(Varied(k, v, g, fold, unicode), Varied(l, w, h, fold, unicode), unicode);
    VaryNamesSymbols(v);
    VaryNamesSymbols(w);
    EntriesAgree(VaryNames(v), g, VaryNames(w), h, fold, unicode);
    assert Varied(k, v, g, fold, unicode).vary == Entries(VaryNames(v), g, fold, unicode);
    assert Varied(l, w, h, fold, unicode).vary == Entries(VaryNames(w), h, fold, unicode);
  }

  /** A key that varies never shares its entry with one that does not. */
  lemma VariedIsNeverBase(k: Key, v: Text, g: Header, l: Key, fold: nat -> nat, unicode: nat -> bool)
    requires Proper(k) && Proper(l) && l.vary == [] && IsText(v) && IsHeader(g) && VaryNames(v) != []
    ensures KeyText(Varied(k, v, g, fold, unicode), unicode) != KeyText(l, unicode)
  {
    VariedIsProper(k, v, g, fold, unicode);
    KeyTextInjective(Varied(k, v, g, fold, unicode), l, unicode);
    assert |Varied(k, v, g, fold, unicode).vary| > 0;
  }

  /** With the header written out: requests for one target that select by a list of names share an
      entry exactly when they agree on every field of that list, whatever else they send. */
  lemma ListedFieldsDecide(
    k: Key, names: seq<Text>, pad: Text, g: Header, h: Header, fold: nat -> nat, unicode: nat -> bool)
    requires Proper(k) && k.vary == [] && IsHeader(g) && IsHeader(h)
    requires names != [] && AreTexts(names) && (forall n :: n in names ==> Listable(n))
    requires IsText(pad) && forall c :: c in pad ==> Space(c)
    ensures var v := Join(Padded(names, pad), COMMA);
            KeyText(Varied(k, v, g, fold, unicode), unicode) == KeyText(Varied(k, v, h, fold, unicode), unicode) <==>
              forall n :: n in names ==> FieldLines(g, n, fold) == FieldLines(h, n, fold)
  {
    var v := Join(Padded(names, pad), COMMA);
    VaryListParses(names, pad);
    forall i | 0 <= i < |names| ensures IsText(Padded(names, pad)[i]) { assert names[i] in names; }
    JoinText(Padded(names, pad));
    RequestsShareAnEntry(k, v, g, k, v, h, fold, unicode);
  }

  lemma {:induction false} JoinText(parts: seq<Text>)
    requires AreTexts(parts)
    ensures IsText(Join(parts, COMMA))
  {
    if |parts| > 1 {
      assert IsText(parts[0]);
      JoinText(parts[1..]);
    } else if |parts| == 1 {
      assert parts[0] in parts;
    }
  }
}
