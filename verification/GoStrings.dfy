/**
 The parts of Go's strings and sort packages the encodings rely on, over the texts of GoQuote.
 Simple case folding is a parameter, as Unicode's tables are not part of this model.
 */
module GoStrings {
  import opened GoQuote

  // ------------------------------------------------------------------- ordering

  /** The strict order sort.Strings sorts by. */
  predicate Below(a: Text, b: Text) {
    b != [] && (a == [] || a[0] < b[0] || (a[0] == b[0] && Below(a[1..], b[1..])))
  }

  lemma {:induction false} BelowOrders(a: Text, b: Text)
    ensures a == b || Below(a, b) || Below(b, a)
    ensures !(Below(a, b) && Below(b, a))
    ensures Below(a, b) ==> a != b
  {
    if a != [] && b != [] {
      assert a == [a[0]] + a[1..] && b == [b[0]] + b[1..];
      BelowOrders(a[1..], b[1..]);
    }
  }

  lemma {:induction false} BelowTransitive(a: Text, b: Text, c: Text)
    requires Below(a, b) && Below(b, c)
    ensures Below(a, c)
  {
    if a != [] && a[0] == b[0] && b[0] == c[0] { BelowTransitive(a[1..], b[1..], c[1..]); }
  }

  predicate Ascending(s: seq<Text>) {
    forall i, j :: 0 <= i < j < |s| ==> Below(s[i], s[j])
  }

  /** A set has one ascending list. */
  lemma {:induction false} AscendingUnique(s: seq<Text>, t: seq<Text>)
    requires Ascending(s) && Ascending(t) && (forall x :: x in s <==> x in t)
    ensures s == t
  {
    assert s != [] ==> s[0] in t;
    assert t != [] ==> t[0] in s;
    if s != [] {
      BelowOrders(s[0], t[0]);
      assert s[0] == t[0];
      forall x ensures x in s[1..] <==> x in t[1..] {
        if x in s[1..] { BelowOrders(s[0], x); assert x in t; }
        if x in t[1..] { BelowOrders(t[0], x); assert x in s; }
      }
      AscendingUnique(s[1..], t[1..]);
      assert s == [s[0]] + s[1..] && t == [t[0]] + t[1..];
    }
  }

  function Insert(x: Text, s: seq<Text>): (r: seq<Text>)
    ensures forall y :: y in r <==> y == x || y in s
  {
    if s == [] || Below(x, s[0]) then [x] + s
    else assert s == [s[0]] + s[1..]; [s[0]] + Insert(x, s[1..])
  }

  lemma {:induction false} InsertAscends(x: Text, s: seq<Text>)
    requires Ascending(s) && x !in s
    ensures Ascending(Insert(x, s))
  {
    if s == [] {
    } else if Below(x, s[0]) {
      forall j | 0 < j <= |s| ensures Below(x, ([x] + s)[j]) {
        if 1 < j { BelowTransitive(x, s[0], s[j - 1]); }
      }
    } else {
      BelowOrders(x, s[0]);
      InsertAscends(x, s[1..]);
      var r := Insert(x, s[1..]);
      forall j | 0 <= j < |r| ensures Below(s[0], r[j]) {
        assert r[j] in r;
        assert r[j] == x || r[j] in s[1..];
      }
    }
  }

  /** The elements in ascending order, each once. */
  ghost function Sorted(names: set<Text>): (r: seq<Text>)
    ensures Ascending(r) && forall x :: x in r <==> x in names
  {
    if names == {} then []
    else
      var x :| x in names;
      InsertAscends(x, Sorted(names - {x}));
      Insert(x, Sorted(names - {x}))
  }

  lemma SortedUnique(names: set<Text>, s: seq<Text>)
    requires Ascending(s) && forall x :: x in s <==> x in names
    ensures s == Sorted(names)
  {
    AscendingUnique(s, Sorted(names));
  }

  lemma SortedNone(names: set<Text>)
    ensures Sorted(names) == [] <==> names == {}
  {
    if names == {} {
      assert forall x :: x !in Sorted(names);
    } else {
      var x :| x in names;
      assert x in Sorted(names);
    }
  }

  lemma AscendingHead(s: seq<Text>)
    requires s != [] && Ascending(s)
    ensures s[0] !in s[1..] && Ascending(s[1..])
  {
    BelowOrders(s[0], s[0]);
  }

  /** Collecting the keys of a map in any order and sorting them. */
  method SortNames(names: set<Text>) returns (r: seq<Text>)
    ensures r == Sorted(names)
  {
    r := [];
    var left := names;
    while left != {}
      invariant left <= names && Ascending(r)
      invariant forall x :: x in r <==> x in names - left
      decreases left
    {
      var x :| x in left;
      InsertAscends(x, r);
      r := Insert(x, r);
      left := left - {x};
    }
    SortedUnique(names, r);
  }

  // -------------------------------------------------------- folding and trimming

  /** strings.EqualFold: equal after simple case folding, rune by rune. */
  predicate EqualFold(a: Text, b: Text, fold: nat -> nat) {
    |a| == |b| && forall i :: 0 <= i < |a| ==> fold(a[i]) == fold(b[i])
  }

  /** unicode.IsSpace. */
  predicate Space(c: nat) {
    9 <= c <= 13 || c == 32 || c == 0x85 || c == 0xa0 || c == 0x1680 || 0x2000 <= c <= 0x200a
    || c == 0x2028 || c == 0x2029 || c == 0x202f || c == 0x205f || c == 0x3000
  }

  lemma AsciiSpaces(c: nat)
    requires c < 0x80
    ensures Space(c) <==> c in {9, 10, 11, 12, 13, 32}
    ensures Blank(c) ==> Space(c)
  {
  }

  /** A space or a tab. */
  predicate Blank(c: nat) {
    c == 32 || c == 9
  }

  function TrimLeft(s: Text, cut: nat -> bool): (r: Text)
    ensures r == [] || !cut(r[0])
  {
    if s != [] && cut(s[0]) then TrimLeft(s[1..], cut) else s
  }

  function TrimRight(s: Text, cut: nat -> bool): (r: Text)
    ensures r == [] || !cut(r[|r| - 1])
    ensures r <= s
  {
    if s != [] && cut(s[|s| - 1]) then TrimRight(s[..|s| - 1], cut) else s
  }

  /** strings.TrimFunc. */
  function Trim(s: Text, cut: nat -> bool): Text {
    TrimRight(TrimLeft(s, cut), cut)
  }

  lemma {:induction false} TrimLeftSymbols(s: Text, cut: nat -> bool)
    ensures forall c :: c in TrimLeft(s, cut) ==> c in s
  {
    if s != [] && cut(s[0]) { TrimLeftSymbols(s[1..], cut); }
  }

  lemma TrimSymbols(s: Text, cut: nat -> bool)
    ensures forall c :: c in Trim(s, cut) ==> c in s
  {
    TrimLeftSymbols(s, cut);
  }

  /** strings.Split by one symbol. */
  function Split(s: Text, sep: nat): (r: seq<Text>)
    ensures r != []
  {
    if s == [] then [[]]
    else
      var rest := Split(s[1..], sep);
      if s[0] == sep then [[]] + rest else [[s[0]] + rest[0]] + rest[1..]
  }

  lemma {:induction false} SplitParts(s: Text, sep: nat)
    ensures forall p, c :: p in Split(s, sep) && c in p ==> c != sep && c in s
  {
    if s != [] {
      SplitParts(s[1..], sep);
      var rest := Split(s[1..], sep);
      forall p, c | p in Split(s, sep) && c in p ensures c != sep && c in s {
        if s[0] != sep && p == [s[0]] + rest[0] {
          assert c == s[0] || c in rest[0];
          if c != s[0] { assert rest[0] in rest; }
        } else {
          assert p == [] || p in rest;
        }
      }
    }
  }

  /** strings.Join with one symbol. */
  function Join(parts: seq<Text>, sep: nat): Text {
    if parts == [] then [] else if |parts| == 1 then parts[0] else parts[0] + [sep] + Join(parts[1..], sep)
  }

  lemma {:induction false} SplitPrefix(a: Text, rest: Text, sep: nat)
    requires sep !in a
    ensures Split(a + rest, sep) == [a + Split(rest, sep)[0]] + Split(rest, sep)[1..]
  {
    var r := Split(rest, sep);
    if a == [] {
      assert a + rest == rest && a + r[0] == r[0] && [r[0]] + r[1..] == r;
    } else {
      assert (a + rest)[1..] == a[1..] + rest;
      SplitPrefix(a[1..], rest, sep);
      assert [a[0]] + (a[1..] + r[0]) == a + r[0];
    }
  }

  /** Splitting gives back what was joined. */
  lemma {:induction false} SplitJoin(parts: seq<Text>, sep: nat)
    requires parts != [] && forall p :: p in parts ==> sep !in p
    ensures Split(Join(parts, sep), sep) == parts
  {
    if |parts| == 1 {
      SplitPrefix(parts[0], [], sep);
      assert parts[0] + [] == parts[0] && [parts[0]] == parts;
    } else {
      SplitJoin(parts[1..], sep);
      var rest := [sep] + Join(parts[1..], sep);
      SplitPrefix(parts[0], rest, sep);
      assert rest[1..] == Join(parts[1..], sep);
      assert Join(parts, sep) == parts[0] + rest;
      assert parts[0] + [] == parts[0] && [parts[0]] + parts[1..] == parts;
    }
  }

  /** Trimming takes off exactly the symbols around a text that neither begins nor ends with one. */
  lemma TrimPadded(before: Text, s: Text, after: Text, cut: nat -> bool)
    requires (forall c :: c in before ==> cut(c)) && (forall c :: c in after ==> cut(c))
    requires s != [] && !cut(s[0]) && !cut(s[|s| - 1])
    ensures Trim(before + s + after, cut) == s
  {
    assert before + s + after == before + (s + after);
    TrimLeftPadded(before, s + after, cut);
    TrimRightPadded(s, after, cut);
  }

  lemma {:induction false} TrimLeftPadded(before: Text, s: Text, cut: nat -> bool)
    requires (forall c :: c in before ==> cut(c)) && s != [] && !cut(s[0])
    ensures TrimLeft(before + s, cut) == s
  {
    if before == [] {
      assert before + s == s;
    } else {
      assert (before + s)[1..] == before[1..] + s;
      TrimLeftPadded(before[1..], s, cut);
    }
  }

  lemma {:induction false} TrimRightPadded(s: Text, after: Text, cut: nat -> bool)
    requires (forall c :: c in after ==> cut(c)) && s != [] && !cut(s[|s| - 1])
    ensures TrimRight(s + after, cut) == s
  {
    if after == [] {
      assert s + after == s;
    } else {
      assert (s + after)[..|s + after| - 1] == s + after[..|after| - 1];
      assert (s + after)[|s + after| - 1] == after[|after| - 1];
      TrimRightPadded(s, after[..|after| - 1], cut);
    }
  }

  /** The text before the first symbol that satisfies `stop`. */
  function Before(s: Text, stop: nat -> bool): (r: Text)
    ensures |r| <= |s|
  {
    if s == [] || stop(s[0]) then [] else [s[0]] + Before(s[1..], stop)
  }

  lemma {:induction false} BeforeNoStop(s: Text, stop: nat -> bool)
    ensures forall c :: c in Before(s, stop) ==> !stop(c)
  {
    if s != [] && !stop(s[0]) { BeforeNoStop(s[1..], stop); }
  }

  lemma {:induction false} BeforeStop(a: Text, rest: Text, stop: nat -> bool)
    requires (forall i :: 0 <= i < |a| ==> !stop(a[i])) && (rest == [] || stop(rest[0]))
    ensures Before(a + rest, stop) == a
  {
    if a == [] {
      assert a + rest == rest;
    } else {
      assert (a + rest)[1..] == a[1..] + rest;
      BeforeStop(a[1..], rest, stop);
    }
  }

  // ------------------------------------------------------------------ field names

  function LowerAscii(c: nat): nat {
    if 65 <= c <= 90 then c + 32 else c
  }

  function UpperAscii(c: nat): nat {
    if 97 <= c <= 122 then c - 32 else c
  }

  /** A token symbol, section 3.2.6 of RFC 7230. */
  predicate TokenSymbol(c: nat) {
    || 48 <= c <= 57 || 65 <= c <= 90 || 97 <= c <= 122
    || c in {33, 35, 36, 37, 38, 39, 42, 43, 45, 46, 94, 95, 96, 124, 126}
  }

  /** Any visible ASCII symbol that is no delimiter, section 3.2.6 of RFC 7230. */
  lemma TokenSymbolsExactly(c: nat)
    ensures TokenSymbol(c) <==>
            0x21 <= c <= 0x7e && c !in {34, 40, 41, 44, 47, 58, 59, 60, 61, 62, 63, 64, 91, 92, 93, 123, 125}
  {
  }

  predicate Token(s: Text) {
    forall c :: c in s ==> TokenSymbol(c)
  }

  function TitleCase(s: Text, upper: bool): (r: Text)
    ensures |r| == |s|
  {
    if s == [] then [] else [if upper then UpperAscii(s[0]) else LowerAscii(s[0])] + TitleCase(s[1..], s[0] == 45)
  }

  /** http.CanonicalHeaderKey: names that are no tokens stay as they are. */
  function Canonical(s: Text): Text {
    if Token(s) then TitleCase(s, true) else s
  }

  lemma {:induction false} TitleCaseAt(s: Text, upper: bool, i: nat)
    requires i < |s|
    ensures TitleCase(s, upper)[i] ==
            if (if i == 0 then upper else s[i - 1] == 45) then UpperAscii(s[i]) else LowerAscii(s[i])
  {
    if i > 0 { TitleCaseAt(s[1..], s[0] == 45, i - 1); }
  }

  /** The symbol is no letter of the wrong case at its place. */
  predicate RightCase(s: Text, i: nat)
    requires i < |s|
  {
    if i == 0 || s[i - 1] == 45 then !(97 <= s[i] <= 122) else !(65 <= s[i] <= 90)
  }

  /** A token is in canonical form exactly when its first letter and each one after a hyphen are upper
      case and all others lower case. */
  lemma CanonicalExactly(s: Text)
    requires Token(s)
    ensures Canonical(s) == s <==> forall i :: 0 <= i < |s| ==> RightCase(s, i)
  {
    var t := TitleCase(s, true);
    forall i | 0 <= i < |s| ensures t[i] == s[i] <==> RightCase(s, i) {
      TitleCaseAt(s, true, i);
    }
    if forall i :: 0 <= i < |s| ==> RightCase(s, i) {
      assert forall i :: 0 <= i < |s| ==> t[i] == s[i];
      assert t == s;
    } else {
      var i :| 0 <= i < |s| && !RightCase(s, i);
      assert t[i] != s[i];
    }
  }

  lemma {:induction false} TitleCaseSame(a: Text, b: Text, upper: bool)
    ensures TitleCase(a, upper) == TitleCase(b, upper) <==> SameLetters(a, b)
  {
    if a != [] && b != [] {
      TitleCaseSame(a[1..], b[1..], a[0] == 45);
      var x, y := TitleCase(a[1..], a[0] == 45), TitleCase(b[1..], b[0] == 45);
      assert TitleCase(a, upper)[1..] == x && TitleCase(b, upper)[1..] == y;
      assert a == [a[0]] + a[1..] && b == [b[0]] + b[1..];
      SameLettersCons(a, b);
    }
  }

  /** Equal up to the case of ASCII letters. */
  predicate SameLetters(a: Text, b: Text) {
    |a| == |b| && forall i :: 0 <= i < |a| ==> LowerAscii(a[i]) == LowerAscii(b[i])
  }

  lemma SameLettersCons(a: Text, b: Text)
    requires a != [] && b != []
    ensures SameLetters(a, b) <==> LowerAscii(a[0]) == LowerAscii(b[0]) && SameLetters(a[1..], b[1..])
  {
    if LowerAscii(a[0]) == LowerAscii(b[0]) && SameLetters(a[1..], b[1..]) {
      forall i | 0 <= i < |a| ensures LowerAscii(a[i]) == LowerAscii(b[i]) {
        if i > 0 { assert a[i] == a[1..][i - 1] && b[i] == b[1..][i - 1]; }
      }
    }
  }

  /** Two tokens have one canonical form exactly when they differ only in case. */
  lemma CanonicalFoldsCase(a: Text, b: Text)
    requires Token(a) && Token(b)
    ensures Canonical(a) == Canonical(b) <==> SameLetters(a, b)
  {
    TitleCaseSame(a, b, true);
  }
}
