/**
 Warning values kept by a successful validation (validator.go): the field is a comma-separated
 list whose quoted texts may hold commas, 1xx values go, and repeated values must not pile up
 however often the same 304 arrives.  Nothing here asks for well-formed values: quotes may be
 unbalanced and a field may end within an escape.
 */
module Warnings {
  import opened Wrappers
  import GoQuote
  import opened GoStrings

  /** Bytes. */
  type Text = GoQuote.Text

  const COMMA := 44
  const SPACE := 32

  // ------------------------------------------------------------------- the splitter

  datatype Mode = Outside | Quoted | Escaped

  function Next(m: Mode, c: nat): Mode {
    match m
    case Escaped => Quoted
    case Quoted => if c == GoQuote.BACKSLASH then Escaped else if c == GoQuote.QUOTE then Outside else Quoted
    case Outside => if c == GoQuote.QUOTE then Quoted else Outside
  }

  /** The pieces between the commas outside quotes, read from mode `m`. */
  function PiecesFrom(s: Text, m: Mode): (r: seq<Text>)
    ensures r != []
  {
    if s == [] then [[]]
    else if m == Outside && s[0] == COMMA then [[]] + PiecesFrom(s[1..], Outside)
    else
      var rest := PiecesFrom(s[1..], Next(m, s[0]));
      [[s[0]] + rest[0]] + rest[1..]
  }

  function Pieces(s: Text): seq<Text> {
    PiecesFrom(s, Outside)
  }

  /** `rest` with `a` in front of its first piece. */
  function Prefixed(a: Text, rest: seq<Text>): seq<Text>
    requires rest != []
  {
    [a + rest[0]] + rest[1..]
  }

  lemma PrefixedNothing(a: Text, rest: seq<Text>)
    ensures rest != [] ==> Prefixed([], rest) == rest
    ensures Prefixed(a, [[]] + rest) == [a] + rest
  {
    if rest != [] { assert [] + rest[0] == rest[0]; }
    assert a + [] == a;
  }

  /** What the loop will return: what it has cut, the piece it is in, and the rest. */
  ghost function Pending(values: seq<Text>, field: Text, start: nat, i: nat, m: Mode): seq<Text>
    requires start <= i <= |field|
  {
    values + Prefixed(field[start..i], PiecesFrom(field[i..], m))
  }

  lemma PendingCut(values: seq<Text>, field: Text, start: nat, i: nat)
    requires start <= i < |field| && field[i] == COMMA
    ensures Pending(values, field, start, i, Outside) ==
            Pending(values + [field[start..i]], field, i + 1, i + 1, Outside)
  {
    var rest := PiecesFrom(field[i + 1..], Outside);
    assert field[i..][1..] == field[i + 1..] && field[i + 1..i + 1] == [];
    PrefixedNothing(field[start..i], rest);
  }

  lemma PendingOn(values: seq<Text>, field: Text, start: nat, i: nat, m: Mode)
    requires start <= i < |field| && !(m == Outside && field[i] == COMMA)
    ensures Pending(values, field, start, i, m) == Pending(values, field, start, i + 1, Next(m, field[i]))
  {
    var rest := PiecesFrom(field[i + 1..], Next(m, field[i]));
    assert field[i..][1..] == field[i + 1..];
    assert field[start..i + 1] == field[start..i] + [field[i]];
    assert field[start..i] + ([field[i]] + rest[0]) == field[start..i + 1] + rest[0];
  }

  lemma PendingEnds(values: seq<Text>, field: Text, start: nat, m: Mode)
    requires start <= |field|
    ensures Pending(values, field, start, |field|, m) == values + [field[start..]]
    ensures Pending([], field, 0, 0, Outside) == Pieces(field)
  {
    PrefixedNothing(field[start..], []);
    assert PiecesFrom(field[|field|..], m) == [[]] + [] && field[start..|field|] == field[start..];
    assert field[..0] == [] && field[0..] == field;
    PrefixedNothing([], Pieces(field));
  }

  function ModeOf(quoted: bool, escaped: bool): Mode {
    if escaped then Escaped else if quoted then Quoted else Outside
  }

  method SplitWarningValues(field: Text) returns (values: seq<Text>)
    ensures values == Pieces(field)
  {
    values := [];
    var start, quoted, escaped := 0, false, false;
    PendingEnds([], field, 0, Outside);
    for i := 0 to |field|
      invariant 0 <= start <= i && (escaped ==> quoted)
      invariant Pending(values, field, start, i, ModeOf(quoted, escaped)) == Pieces(field)
    {
      if field[i] == COMMA && !quoted {
        PendingCut(values, field, start, i);
      } else {
        PendingOn(values, field, start, i, ModeOf(quoted, escaped));
      }
      if escaped {
        escaped := false;
      } else if quoted && field[i] == GoQuote.BACKSLASH {
        escaped := true;
      } else if field[i] == GoQuote.QUOTE {
        quoted := !quoted;
      } else if field[i] == COMMA && !quoted {
        values := values + [field[start..i]];
        start := i + 1;
      }
    }
    PendingEnds(values, field, start, ModeOf(quoted, escaped));
    values := values + [field[start..]];
  }

  // --------------------------------------------------------------------- the filter

  function Trimmed(p: Text): Text {
    Trim(p, Blank)
  }

  predicate Digit(c: nat) {
    48 <= c <= 57
  }

  predicate Transient(v: Text) {
    |v| >= 4 && v[0] == 49 && Digit(v[1]) && Digit(v[2]) && Blank(v[3])
  }

  /** The value begins with a code of three digits and a blank. */
  predicate Coded(v: Text) {
    |v| >= 4 && (forall i :: 0 <= i < 3 ==> 48 <= v[i] < 58) && (v[3] == 32 || v[3] == 9)
  }

  function Code(v: Text): int
    requires Coded(v)
  {
    100 * (v[0] - 48) + 10 * (v[1] - 48) + (v[2] - 48)
  }

  /** A value is transient exactly when it has a code and that is 1xx. */
  lemma TransientIsOneHundreds(v: Text)
    ensures Transient(v) <==> Coded(v) && 100 <= Code(v) < 200
  {
  }

  predicate Kept(v: Text) {
    v != [] && !Transient(v)
  }

  function KeptOf(pieces: seq<Text>): seq<Text> {
    if pieces == [] then []
    else (if Kept(Trimmed(pieces[0])) then [Trimmed(pieces[0])] else []) + KeptOf(pieces[1..])
  }

  /** The persistent warnings of one field line. */
  function FieldValues(field: Text): seq<Text> {
    KeptOf(Pieces(field))
  }

  /** The persistent warnings of all lines, in order. */
  function Values(fields: seq<Text>): seq<Text> {
    if fields == [] then [] else FieldValues(fields[0]) + Values(fields[1..])
  }

  function SetOf(vs: seq<Text>): set<Text> {
    set v | v in vs
  }

  /** First occurrences of what is not in `seen`. */
  function Unseen(vs: seq<Text>, seen: set<Text>): seq<Text> {
    if vs == [] then []
    else if vs[0] in seen then Unseen(vs[1..], seen)
    else [vs[0]] + Unseen(vs[1..], seen + {vs[0]})
  }

  /** strings.Join(vs, ", ") */
  function Joined(vs: seq<Text>): Text {
    if vs == [] then [] else if |vs| == 1 then vs[0] else vs[0] + ([COMMA] + ([SPACE] + Joined(vs[1..])))
  }

  function FilteredFrom(fields: seq<Text>, seen: set<Text>): seq<Text> {
    if fields == [] then []
    else
      var r := Unseen(FieldValues(fields[0]), seen);
      (if r != [] then [Joined(r)] else []) + FilteredFrom(fields[1..], seen + SetOf(FieldValues(fields[0])))
  }

  function Filtered(fields: seq<Text>): seq<Text> {
    FilteredFrom(fields, {})
  }

  lemma {:induction false} UnseenSet(vs: seq<Text>, seen: set<Text>)
    ensures SetOf(Unseen(vs, seen)) == SetOf(vs) - seen
  {
    if vs != [] {
      UnseenSet(vs[1..], if vs[0] in seen then seen else seen + {vs[0]});
      assert SetOf(vs) == {vs[0]} + SetOf(vs[1..]);
      if vs[0] !in seen {
        var rest := Unseen(vs[1..], seen + {vs[0]});
        assert SetOf([vs[0]] + rest) == {vs[0]} + SetOf(rest);
      }
    }
  }

  lemma Consider(pieces: seq<Text>, i: nat, seen: set<Text>)
    requires i < |pieces|
    ensures var v, now, later := Trimmed(pieces[i]), KeptOf(pieces[i..]), KeptOf(pieces[i + 1..]);
            && (!Kept(v) ==> now == later)
            && (Kept(v) ==> SetOf(now) == {v} + SetOf(later))
            && (Kept(v) ==>
                  Unseen(now, seen) == if v in seen then Unseen(later, seen) else [v] + Unseen(later, seen + {v}))
  {
    assert pieces[i..][1..] == pieces[i + 1..];
    var v, now, later := Trimmed(pieces[i]), KeptOf(pieces[i..]), KeptOf(pieces[i + 1..]);
    assert [] + later == later;
    if Kept(v) {
      assert now == [v] + later;
      assert now[1..] == later;
    }
  }

  lemma Shift(retained: seq<Text>, v: Text, later: seq<Text>)
    ensures retained + ([v] + later) == (retained + [v]) + later
  {
  }

  method FilterField(field: Text, known: set<Text>) returns (retained: seq<Text>, seen: set<Text>)
    ensures retained == Unseen(FieldValues(field), known)
    ensures seen == known + SetOf(FieldValues(field))
  {
    var pieces := SplitWarningValues(field);
    retained, seen := [], known;
    ghost var all := FieldValues(field);
    for i := 0 to |pieces|
      invariant retained + Unseen(KeptOf(pieces[i..]), seen) == Unseen(all, known)
      invariant seen + SetOf(KeptOf(pieces[i..])) == known + SetOf(all)
    {
      Consider(pieces, i, seen);
      var value := Trimmed(pieces[i]);
      if value == [] || Transient(value) {
        continue;
      }
      if value in seen {
        continue;
      }
      Shift(retained, value, Unseen(KeptOf(pieces[i + 1..]), seen + {value}));
      seen := seen + {value};
      retained := retained + [value];
    }
  }

  lemma FilterNext(fields: seq<Text>, i: nat, seen: set<Text>, result: seq<Text>)
    requires i < |fields|
    ensures var r := Unseen(FieldValues(fields[i]), seen);
            result + FilteredFrom(fields[i..], seen) ==
            (if r != [] then result + [Joined(r)] else result)
            + FilteredFrom(fields[i + 1..], seen + SetOf(FieldValues(fields[i])))
  {
    assert fields[i..][1..] == fields[i + 1..];
  }

  method ValidatedWarningValues(fields: seq<Text>) returns (result: seq<Text>)
    ensures result == Filtered(fields)
  {
    result := [];
    var seen: set<Text> := {};
    for i := 0 to |fields|
      invariant result + FilteredFrom(fields[i..], seen) == Filtered(fields)
    {
      FilterNext(fields, i, seen, result);
      var retained;
      retained, seen := FilterField(fields[i], seen);
      if |retained| > 0 {
        result := result + [Joined(retained)];
      }
    }
  }

  // ------------------------------------------------------------- where a field is cut

  /** A symbol of a quoted string, or a backslash and the symbol it escapes. */
  datatype Item = Char(c: nat) | Pair(c: nat)

  /** Part of a warning value: text without quotes and commas, or a quoted string. */
  datatype Segment = Plain(text: Text) | String(items: seq<Item>)

  function ItemsText(items: seq<Item>): Text {
    if items == [] then []
    else (match items[0] case Char(c) => [c] case Pair(c) => [GoQuote.BACKSLASH, c]) + ItemsText(items[1..])
  }

  predicate ItemsOk(items: seq<Item>) {
    forall i :: 0 <= i < |items| && items[i].Char? ==> items[i].c != GoQuote.QUOTE && items[i].c != GoQuote.BACKSLASH
  }

  predicate SegmentOk(s: Segment) {
    match s
    case Plain(t) => forall c :: c in t ==> c != GoQuote.QUOTE && c != COMMA
    case String(items) => ItemsOk(items)
  }

  function SegmentText(s: Segment): Text {
    match s
    case Plain(t) => t
    case String(items) => [GoQuote.QUOTE] + ItemsText(items) + [GoQuote.QUOTE]
  }

  function ValueText(v: seq<Segment>): Text {
    if v == [] then [] else SegmentText(v[0]) + ValueText(v[1..])
  }

  lemma {:induction false} ItemsInside(items: seq<Item>)
    requires ItemsOk(items)
    ensures Solid(ItemsText(items), Quoted) && Reached(Quoted, ItemsText(items)) == Quoted
  {
    if items != [] {
      ItemsInside(items[1..]);
      var first := match items[0] case Char(c) => [c] case Pair(c) => [GoQuote.BACKSLASH, c];
      if items[0].Pair? {
        assert first[1..] == [items[0].c] && Next(Quoted, first[0]) == Escaped;
        assert Solid([items[0].c], Escaped) && Reached(Escaped, [items[0].c]) == Quoted;
      }
      assert Solid(first, Quoted) && Reached(Quoted, first) == Quoted;
      SolidAppend(first, ItemsText(items[1..]), Quoted);
    }
  }

  lemma {:induction false} PlainStaysOutside(t: Text)
    requires forall c :: c in t ==> c != GoQuote.QUOTE && c != COMMA
    ensures Solid(t, Outside) && Closed(t)
  {
    if t != [] {
      assert t[0] in t && forall c :: c in t[1..] ==> c in t;
      PlainStaysOutside(t[1..]);
    }
  }

  lemma SegmentCloses(s: Segment)
    requires SegmentOk(s)
    ensures Solid(SegmentText(s), Outside) && Closed(SegmentText(s))
  {
    match s
    case Plain(t) => PlainStaysOutside(t);
    case String(items) =>
      var q := [GoQuote.QUOTE];
      ItemsInside(items);
      assert Solid(q, Outside) && Reached(Outside, q) == Quoted && Solid(q, Quoted) && Reached(Quoted, q) == Outside;
      SolidAppend(q, ItemsText(items), Outside);
      SolidAppend(q + ItemsText(items), q, Outside);
  }

  lemma {:induction false} ValueCloses(v: seq<Segment>)
    requires forall s :: s in v ==> SegmentOk(s)
    ensures Solid(ValueText(v), Outside) && Closed(ValueText(v))
  {
    if v != [] {
      assert v[0] in v;
      SegmentCloses(v[0]);
      ValueCloses(v[1..]);
      SolidAppend(SegmentText(v[0]), ValueText(v[1..]), Outside);
    }
  }

  lemma {:induction false} PiecesJoined(texts: seq<Text>)
    requires texts != [] && forall i :: 0 <= i < |texts| ==> Solid(texts[i], Outside)
    requires forall i :: 0 <= i < |texts| - 1 ==> Closed(texts[i])
    ensures Pieces(Join(texts, COMMA)) == texts
  {
    var t := texts[0];
    if |texts| == 1 {
      PiecesAppend(t, [], Outside);
      assert t + [] == t && texts == [t];
      PrefixedNothing(t, []);
    } else {
      var rest := Join(texts[1..], COMMA);
      PiecesJoined(texts[1..]);
      PiecesAppend(t, [COMMA] + rest, Outside);
      assert ([COMMA] + rest)[1..] == rest && t + ([COMMA] + rest) == Join(texts, COMMA);
      PrefixedNothing(t, Pieces(rest));
      assert texts == [t] + texts[1..];
    }
  }

  /** The last value may end within a quoted string. */
  function Unclosed(last: bool, open: Option<seq<Item>>): Text {
    if last && open.Some? then [GoQuote.QUOTE] + ItemsText(open.value) else []
  }

  lemma UnclosedIsSolid(v: seq<Segment>, last: bool, open: Option<seq<Item>>)
    requires (forall s :: s in v ==> SegmentOk(s)) && (open.Some? ==> ItemsOk(open.value))
    ensures Solid(ValueText(v) + Unclosed(last, open), Outside)
    ensures !last ==> Closed(ValueText(v) + Unclosed(last, open))
  {
    ValueCloses(v);
    if last && open.Some? {
      var q := [GoQuote.QUOTE];
      ItemsInside(open.value);
      assert Solid(q, Outside) && Reached(Outside, q) == Quoted;
      SolidAppend(q, ItemsText(open.value), Outside);
      SolidAppend(ValueText(v), Unclosed(last, open), Outside);
    } else {
      assert ValueText(v) + [] == ValueText(v);
    }
  }

  /** A list of values is cut into these values: at the commas between them, and at none inside their
      quoted strings, whatever is escaped there, nor in one that is never closed. */
  lemma ListIsCut(values: seq<seq<Segment>>, open: Option<seq<Item>>, texts: seq<Text>)
    requires values != [] && (forall v, s :: v in values && s in v ==> SegmentOk(s))
    requires (open.Some? ==> ItemsOk(open.value)) && |texts| == |values|
    requires forall i :: 0 <= i < |values| ==> texts[i] == ValueText(values[i]) + Unclosed(i == |values| - 1, open)
    ensures Pieces(Join(texts, COMMA)) == texts
  {
    forall i | 0 <= i < |values|
      ensures Solid(texts[i], Outside) && (i < |values| - 1 ==> Closed(texts[i]))
    {
      assert values[i] in values;
      UnclosedIsSolid(values[i], i == |values| - 1, open);
    }
    PiecesJoined(texts);
  }

  /** Whatever the field says, its pieces and the commas between them are all of it. */
  lemma {:induction false} PiecesRejoin(s: Text, m: Mode)
    ensures Join(PiecesFrom(s, m), COMMA) == s
  {
    if s != [] {
      if m == Outside && s[0] == COMMA {
        PiecesRejoin(s[1..], Outside);
        var rest := PiecesFrom(s[1..], Outside);
        assert ([[]] + rest)[1..] == rest;
        assert [] + [COMMA] + s[1..] == s;
      } else {
        var rest := PiecesFrom(s[1..], Next(m, s[0]));
        PiecesRejoin(s[1..], Next(m, s[0]));
        JoinHead(s[0], rest);
      }
    }
  }

  lemma Grouped(c: nat, a: Text, b: Text)
    ensures [c] + a + [COMMA] + b == [c] + (a + [COMMA] + b)
  {
  }

  lemma JoinHead(c: nat, rest: seq<Text>)
    requires rest != []
    ensures Join([[c] + rest[0]] + rest[1..], COMMA) == [c] + Join(rest, COMMA)
  {
    var r := [[c] + rest[0]] + rest[1..];
    assert r[1..] == rest[1..];
    if |rest| > 1 { Grouped(c, rest[0], Join(rest[1..], COMMA)); }
  }

  // ---------------------------------------------------------- pieces stay in one piece

  function Reached(m: Mode, s: Text): Mode
    decreases s
  {
    if s == [] then m else Reached(Next(m, s[0]), s[1..])
  }

  /** No comma outside quotes. */
  predicate Solid(s: Text, m: Mode) {
    s == [] || (!(m == Outside && s[0] == COMMA) && Solid(s[1..], Next(m, s[0])))
  }

  lemma {:induction false} SolidAppend(a: Text, b: Text, m: Mode)
    ensures Solid(a + b, m) <==> Solid(a, m) && Solid(b, Reached(m, a))
    ensures Reached(m, a + b) == Reached(Reached(m, a), b)
  {
    if a == [] {
      assert a + b == b;
    } else {
      assert (a + b)[1..] == a[1..] + b;
      SolidAppend(a[1..], b, Next(m, a[0]));
    }
  }

  /** Cutting after a solid text. */
  lemma {:induction false} PiecesAppend(a: Text, b: Text, m: Mode)
    requires Solid(a, m)
    ensures PiecesFrom(a + b, m) == Prefixed(a, PiecesFrom(b, Reached(m, a)))
  {
    if a == [] {
      assert a + b == b;
      PrefixedNothing([], PiecesFrom(b, m));
    } else {
      assert (a + b)[1..] == a[1..] + b;
      var rest := PiecesFrom(b, Reached(m, a));
      PiecesAppend(a[1..], b, Next(m, a[0]));
      assert [a[0]] + (a[1..] + rest[0]) == a + rest[0];
    }
  }

  /** A value as the filter keeps it: in one piece, trimmed, and not dropped if met again. */
  predicate Settled(v: Text) {
    Solid(v, Outside) && Trimmed(v) == v && Kept(v)
  }

  /** Its quotes are balanced, so a comma after it cuts. */
  predicate Closed(v: Text) {
    Reached(Outside, v) == Outside
  }

  /** All pieces are solid and all but the last closed. */
  predicate Cuts(pieces: seq<Text>, m: Mode) {
    pieces != [] ==>
      Solid(pieces[0], m) && (|pieces| > 1 ==> Reached(m, pieces[0]) == Outside) && Cuts(pieces[1..], Outside)
  }

  lemma {:induction false} PiecesCut(s: Text, m: Mode)
    ensures Cuts(PiecesFrom(s, m), m)
  {
    if s != [] {
      if m == Outside && s[0] == COMMA {
        PiecesCut(s[1..], Outside);
      } else {
        var rest := PiecesFrom(s[1..], Next(m, s[0]));
        PiecesCut(s[1..], Next(m, s[0]));
        assert ([s[0]] + rest[0])[1..] == rest[0];
      }
    }
  }

  lemma {:induction false} TrimLeftSolid(p: Text)
    requires Solid(p, Outside)
    ensures Solid(TrimLeft(p, Blank), Outside)
    ensures Reached(Outside, TrimLeft(p, Blank)) == Reached(Outside, p)
  {
    if p != [] && Blank(p[0]) { TrimLeftSolid(p[1..]); }
  }

  lemma {:induction false} TrimRightSolid(p: Text)
    requires Solid(p, Outside)
    ensures Solid(TrimRight(p, Blank), Outside)
    ensures Closed(p) ==> Closed(TrimRight(p, Blank))
  {
    if p != [] && Blank(p[|p| - 1]) {
      var a, b := p[..|p| - 1], [p[|p| - 1]];
      assert p == a + b;
      SolidAppend(a, b, Outside);
      assert Reached(Reached(Outside, a), b) == Next(Reached(Outside, a), b[0]);
      TrimRightSolid(a);
    }
  }

  lemma TrimSettles(p: Text)
    requires Solid(p, Outside)
    ensures Solid(Trimmed(p), Outside) && Trimmed(Trimmed(p)) == Trimmed(p)
    ensures Closed(p) ==> Closed(Trimmed(p))
  {
    TrimLeftSolid(p);
    TrimRightSolid(TrimLeft(p, Blank));
  }

  /** Values that can stand in one field: all settled, all but the last closed. */
  predicate Chain(vs: seq<Text>) {
    vs == [] || (Settled(vs[0]) && (|vs| > 1 ==> Closed(vs[0])) && Chain(vs[1..]))
  }

  lemma ChainCons(v: Text, vs: seq<Text>)
    requires Settled(v) && (vs != [] ==> Closed(v)) && Chain(vs)
    ensures Chain([v] + vs)
  {
    assert ([v] + vs)[1..] == vs;
  }

  lemma {:induction false} KeptChain(pieces: seq<Text>)
    requires Cuts(pieces, Outside)
    ensures Chain(KeptOf(pieces))
  {
    if pieces != [] {
      KeptChain(pieces[1..]);
      TrimSettles(pieces[0]);
      var rest := KeptOf(pieces[1..]);
      assert [] + rest == rest;
      if Kept(Trimmed(pieces[0])) { ChainCons(Trimmed(pieces[0]), rest); }
    }
  }

  lemma {:induction false} UnseenChain(vs: seq<Text>, seen: set<Text>)
    requires Chain(vs)
    ensures Chain(Unseen(vs, seen))
  {
    if vs != [] {
      if vs[0] in seen {
        UnseenChain(vs[1..], seen);
      } else {
        UnseenChain(vs[1..], seen + {vs[0]});
        ChainCons(vs[0], Unseen(vs[1..], seen + {vs[0]}));
      }
    }
  }

  lemma RetainedChain(field: Text, seen: set<Text>)
    ensures Chain(Unseen(FieldValues(field), seen))
  {
    PiecesCut(field, Outside);
    KeptChain(Pieces(field));
    UnseenChain(FieldValues(field), seen);
  }

  /** A leading space changes no value. */
  lemma SpaceFirst(s: Text)
    ensures FieldValues([SPACE] + s) == FieldValues(s)
  {
    var ps := Pieces(s);
    assert ([SPACE] + s)[1..] == s;
    assert Pieces([SPACE] + s) == [[SPACE] + ps[0]] + ps[1..];
    assert ([SPACE] + ps[0])[1..] == ps[0];
    assert Trimmed([SPACE] + ps[0]) == Trimmed(ps[0]);
  }

  /** Splitting what was joined gives the values back. */
  lemma {:induction false} JoinedValues(vs: seq<Text>)
    requires Chain(vs) && vs != []
    ensures FieldValues(Joined(vs)) == vs
  {
    var v := vs[0];
    if |vs| == 1 {
      PiecesAppend(v, [], Outside);
      assert v + [] == v;
      PrefixedNothing(v, []);
      assert Pieces(v) == [v];
      assert KeptOf([v]) == [v] + KeptOf([]);
    } else {
      var rest := [SPACE] + Joined(vs[1..]);
      JoinedValues(vs[1..]);
      SpaceFirst(Joined(vs[1..]));
      PiecesAppend(v, [COMMA] + rest, Outside);
      assert ([COMMA] + rest)[1..] == rest;
      PrefixedNothing(v, Pieces(rest));
      assert Pieces(Joined(vs)) == [v] + Pieces(rest);
      assert ([v] + Pieces(rest))[1..] == Pieces(rest);
      assert KeptOf([v] + Pieces(rest)) == [v] + KeptOf(Pieces(rest));
    }
  }

  function Persistent(vs: seq<Text>): seq<Text> {
    if vs == [] then []
    else (if Coded(vs[0]) && 100 <= Code(vs[0]) < 200 then [] else [vs[0]]) + Persistent(vs[1..])
  }

  /** Neither end of the text is blank. */
  predicate Tight(v: Text) {
    v != [] && !Blank(v[0]) && !Blank(v[|v| - 1])
  }

  lemma {:induction false} KeptOfPieces(pieces: seq<Text>, vs: seq<Text>)
    requires |pieces| == |vs| && forall i :: 0 <= i < |vs| ==> vs[i] != [] && Trimmed(pieces[i]) == vs[i]
    ensures KeptOf(pieces) == Persistent(vs)
  {
    if vs != [] {
      TransientIsOneHundreds(vs[0]);
      KeptOfPieces(pieces[1..], vs[1..]);
    }
  }

  lemma {:induction false} BlankIsSolid(pad: Text)
    requires forall c :: c in pad ==> Blank(c)
    ensures Solid(pad, Outside) && Closed(pad)
  {
    if pad != [] {
      assert pad[0] in pad;
      BlankIsSolid(pad[1..]);
    }
  }

  /** Of a field that lists values with blanks around the commas, exactly those without a 1xx code are
      kept, in order and unchanged. */
  lemma FieldKeepsPersistent(values: seq<seq<Segment>>, pad: Text)
    requires values != [] && (forall v, s :: v in values && s in v ==> SegmentOk(s))
    requires (forall v :: v in values ==> Tight(ValueText(v))) && forall c :: c in pad ==> Blank(c)
    ensures var texts := seq(|values|, i requires 0 <= i < |values| => ValueText(values[i]));
            var parts := seq(|values|, i requires 0 <= i < |values| => pad + ValueText(values[i]) + pad);
            FieldValues(Join(parts, COMMA)) == Persistent(texts)
  {
    var texts := seq(|values|, i requires 0 <= i < |values| => ValueText(values[i]));
    var parts := seq(|values|, i requires 0 <= i < |values| => pad + ValueText(values[i]) + pad);
    forall i | 0 <= i < |values|
      ensures Solid(parts[i], Outside) && Closed(parts[i]) && Trimmed(parts[i]) == texts[i] && texts[i] != []
    {
      assert values[i] in values;
      ValueCloses(values[i]);
      BlankIsSolid(pad);
      SolidAppend(pad, texts[i], Outside);
      SolidAppend(pad + texts[i], pad, Outside);
      TrimPadded(pad, texts[i], pad, Blank);
    }
    PiecesJoined(parts);
    KeptOfPieces(parts, texts);
  }

  // ---------------------------------------------------------------------- the results

  predicate Distinct(vs: seq<Text>) {
    forall i, j :: 0 <= i < j < |vs| ==> vs[i] != vs[j]
  }

  lemma {:induction false} UnseenDistinct(vs: seq<Text>, seen: set<Text>)
    ensures Distinct(Unseen(vs, seen))
  {
    if vs != [] {
      UnseenDistinct(vs[1..], if vs[0] in seen then seen else seen + {vs[0]});
      if vs[0] !in seen {
        var rest := Unseen(vs[1..], seen + {vs[0]});
        UnseenSet(vs[1..], seen + {vs[0]});
        assert vs[0] !in SetOf(rest);
      }
    }
  }

  lemma {:induction false} UnseenSame(vs: seq<Text>, seen: set<Text>)
    requires Distinct(vs) && SetOf(vs) !! seen
    ensures Unseen(vs, seen) == vs
  {
    if vs != [] {
      assert vs[0] in SetOf(vs) && vs == [vs[0]] + vs[1..];
      UnseenSame(vs[1..], seen + {vs[0]});
    }
  }

  lemma {:induction false} UnseenNone(vs: seq<Text>, seen: set<Text>)
    requires SetOf(vs) <= seen
    ensures Unseen(vs, seen) == []
  {
    if vs != [] {
      assert vs[0] in SetOf(vs);
      UnseenNone(vs[1..], seen);
    }
  }

  lemma {:induction false} UnseenAppend(a: seq<Text>, b: seq<Text>, seen: set<Text>)
    ensures Unseen(a + b, seen) == Unseen(a, seen) + Unseen(b, seen + SetOf(a))
  {
    if a == [] {
      assert a + b == b && seen + SetOf(a) == seen;
    } else {
      assert (a + b)[1..] == a[1..] + b;
      var next := if a[0] in seen then seen else seen + {a[0]};
      UnseenAppend(a[1..], b, next);
      assert next + SetOf(a[1..]) == seen + SetOf(a);
    }
  }

  /** Filtering again, knowing less than the first time, changes nothing. */
  lemma {:induction false} FilteredStays(fields: seq<Text>, seen: set<Text>, known: set<Text>)
    requires known <= seen
    ensures FilteredFrom(FilteredFrom(fields, seen), known) == FilteredFrom(fields, seen)
  {
    if fields != [] {
      var vs := FieldValues(fields[0]);
      var r := Unseen(vs, seen);
      var later := FilteredFrom(fields[1..], seen + SetOf(vs));
      UnseenSet(vs, seen);
      if r == [] {
        assert [] + later == later;
        FilteredStays(fields[1..], seen + SetOf(vs), known);
      } else {
        RetainedChain(fields[0], seen);
        JoinedValues(r);
        UnseenDistinct(vs, seen);
        UnseenSame(r, known);
        FilteredStays(fields[1..], seen + SetOf(vs), known + SetOf(r));
        assert ([Joined(r)] + later)[1..] == later;
      }
    }
  }

  lemma FilterIdempotent(fields: seq<Text>)
    ensures Filtered(Filtered(fields)) == Filtered(fields)
  {
    FilteredStays(fields, {}, {});
  }

  lemma {:induction false} FilteredValuesFrom(fields: seq<Text>, seen: set<Text>)
    ensures Values(FilteredFrom(fields, seen)) == Unseen(Values(fields), seen)
  {
    if fields != [] {
      var vs := FieldValues(fields[0]);
      var r := Unseen(vs, seen);
      var later := FilteredFrom(fields[1..], seen + SetOf(vs));
      FilteredValuesFrom(fields[1..], seen + SetOf(vs));
      UnseenAppend(vs, Values(fields[1..]), seen);
      if r == [] {
        assert [] + later == later && [] + Values(later) == Values(later);
      } else {
        RetainedChain(fields[0], seen);
        JoinedValues(r);
        assert ([Joined(r)] + later)[1..] == later;
      }
    }
  }

  /** The stored warnings afterwards are the persistent ones received, text for text and in order,
      each once. */
  lemma FilteredValues(fields: seq<Text>)
    ensures Values(Filtered(fields)) == Unseen(Values(fields), {})
    ensures Distinct(Values(Filtered(fields))) && SetOf(Values(Filtered(fields))) == SetOf(Values(fields))
  {
    FilteredValuesFrom(fields, {});
    UnseenDistinct(Values(fields), {});
    UnseenSet(Values(fields), {});
  }

  lemma SeenAfter(a: seq<Text>, seen: set<Text>)
    requires a != []
    ensures seen + SetOf(FieldValues(a[0])) + SetOf(Values(a[1..])) == seen + SetOf(Values(a))
  {
  }

  lemma Associate(x: seq<Text>, y: seq<Text>, z: seq<Text>)
    ensures x + (y + z) == (x + y) + z
  {
  }

  lemma {:induction false} FilteredAppend(a: seq<Text>, b: seq<Text>, seen: set<Text>)
    ensures FilteredFrom(a + b, seen) == FilteredFrom(a, seen) + FilteredFrom(b, seen + SetOf(Values(a)))
  {
    if a == [] {
      assert a + b == b && seen + SetOf(Values(a)) == seen;
    } else {
      var vs := FieldValues(a[0]);
      assert (a + b)[1..] == a[1..] + b;
      FilteredAppend(a[1..], b, seen + SetOf(vs));
      SeenAfter(a, seen);
      var r := Unseen(vs, seen);
      var own := if r != [] then [Joined(r)] else [];
      Associate(own, FilteredFrom(a[1..], seen + SetOf(vs)), FilteredFrom(b, seen + SetOf(Values(a))));
    }
  }

  lemma {:induction false} NothingNew(fields: seq<Text>, seen: set<Text>)
    requires SetOf(Values(fields)) <= seen
    ensures FilteredFrom(fields, seen) == []
  {
    if fields != [] {
      var vs := FieldValues(fields[0]);
      assert SetOf(Values(fields)) == SetOf(vs) + SetOf(Values(fields[1..]));
      UnseenNone(vs, seen);
      NothingNew(fields[1..], seen + SetOf(vs));
    }
  }

  /** The Warning field after a validation. */
  function Merged(stored: seq<Text>, received: seq<Text>): seq<Text> {
    Filtered(stored + received)
  }

  /** The position of the first occurrence. */
  function FirstAt(vs: seq<Text>, v: Text): (i: nat)
    requires v in vs
    ensures i < |vs| && vs[i] == v && forall j :: 0 <= j < i ==> vs[j] != v
  {
    if vs[0] == v then 0 else 1 + FirstAt(vs[1..], v)
  }

  lemma {:induction false} UnseenInOrder(vs: seq<Text>, seen: set<Text>)
    ensures var r := Unseen(vs, seen);
            && (forall v :: v in r ==> v in vs)
            && forall i, j :: 0 <= i < j < |r| ==> FirstAt(vs, r[i]) < FirstAt(vs, r[j])
  {
    if vs != [] {
      var later := if vs[0] in seen then seen else seen + {vs[0]};
      var rest := Unseen(vs[1..], later);
      UnseenInOrder(vs[1..], later);
      UnseenSet(vs[1..], later);
      forall v | v in rest ensures v in vs[1..] && v != vs[0] && FirstAt(vs, v) == 1 + FirstAt(vs[1..], v) {
        assert v in SetOf(rest);
      }
    }
  }

  /** A validation keeps the stored warnings and adds those it brings: afterwards the values are the
      persistent ones of both, each at its first occurrence. */
  lemma MergedValues(stored: seq<Text>, received: seq<Text>)
    ensures var all, r := Values(stored) + Values(received), Values(Merged(stored, received));
            && Distinct(r) && (forall v :: v in r <==> v in all)
            && forall i, j :: 0 <= i < j < |r| ==> FirstAt(all, r[i]) < FirstAt(all, r[j])
  {
    var all, r := Values(stored) + Values(received), Values(Merged(stored, received));
    FilteredValues(stored + received);
    ValuesAppend(stored, received);
    UnseenInOrder(all, {});
    assert forall v :: v in r <==> v in SetOf(r);
    assert forall v :: v in all <==> v in SetOf(all);
  }

  /** What validations that all bring the same warnings do to the stored field. */
  function Merging(received: seq<Text>): seq<Text> -> seq<Text> {
    stored => Merged(stored, received)
  }

  function Iterate<T>(f: T -> T, x: T, n: nat): T {
    if n == 0 then x else f(Iterate(f, x, n - 1))
  }

  lemma {:induction false} IterateFixed<T>(f: T -> T, x: T, n: nat)
    requires f(x) == x
    ensures Iterate(f, x, n) == x
  {
    if n > 0 { IterateFixed(f, x, n - 1); }
  }

  lemma {:induction false} ValuesAppend(a: seq<Text>, b: seq<Text>)
    ensures Values(a + b) == Values(a) + Values(b)
  {
    if a == [] {
      assert a + b == b;
    } else {
      assert (a + b)[1..] == a[1..] + b;
      ValuesAppend(a[1..], b);
    }
  }

  /** Warnings whose values are all stored already leave the stored field as it is. */
  lemma KnownWarningsChangeNothing(fields: seq<Text>, received: seq<Text>)
    requires SetOf(Values(received)) <= SetOf(Values(fields))
    ensures Merged(Filtered(fields), received) == Filtered(fields)
  {
    var stored := Filtered(fields);
    FilterIdempotent(fields);
    FilteredValues(fields);
    FilteredAppend(stored, received, {});
    NothingNew(received, {} + SetOf(Values(stored)));
  }

  lemma ReceivedIsStored(stored: seq<Text>, received: seq<Text>)
    ensures SetOf(Values(received)) <= SetOf(Values(stored + received))
  {
    ValuesAppend(stored, received);
  }

  lemma MergedTwice(stored: seq<Text>, received: seq<Text>)
    ensures Merged(Merged(stored, received), received) == Merged(stored, received)
  {
    ReceivedIsStored(stored, received);
    KnownWarningsChangeNothing(stored + received, received);
  }

  lemma RepeatedValidationChangesNothing(stored: seq<Text>, received: seq<Text>, n: nat)
    ensures var once := Merged(stored, received); Iterate(Merging(received), once, n) == once
  {
    MergedTwice(stored, received);
    IterateFixed(Merging(received), Merged(stored, received), n);
  }
}
