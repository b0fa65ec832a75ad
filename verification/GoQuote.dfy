/**
 Go strings and strconv.Quote, used by the key encoding (key.go) and by the %q verb of the
 Cache-Control printer (cachecontrol.go).

 A Go string is the sequence of what ranging over it yields: its runes, and for every byte that
 is not valid UTF-8 the symbol RAW + byte.  That reading is one to one.  Which runes beyond ASCII
 Unicode calls printable is a parameter.
 */
module GoQuote {
  type Text = seq<nat>

  const RAW := 0x110000
  const QUOTE := 34
  const BACKSLASH := 92

  /** A rune, or RAW plus a byte from 0x80. */
  predicate Symbol(c: nat) {
    c < RAW || RAW + 0x80 <= c < RAW + 0x100
  }

  ghost predicate IsText(s: Text) {
    forall c :: c in s ==> Symbol(c)
  }

  predicate Printable(c: nat, unicode: nat -> bool) {
    if c < 0x80 then 0x20 <= c < 0x7f else c < RAW && unicode(c)
  }

  function HexDigit(n: nat): nat
    requires n < 16
  {
    if n < 10 then 48 + n else 87 + n
  }

  function Power(w: nat): nat {
    if w == 0 then 1 else 16 * Power(w - 1)
  }

  /** Exactly `w` lower-case hex digits. */
  function Hex(n: nat, w: nat): (r: Text)
    ensures |r| == w
  {
    if w == 0 then [] else Hex(n / 16, w - 1) + [HexDigit(n % 16)]
  }

  lemma {:induction false} HexInjective(m: nat, n: nat, w: nat)
    requires m < Power(w) && n < Power(w) && Hex(m, w) == Hex(n, w)
    ensures m == n
  {
    if w != 0 {
      var a, b := Hex(m / 16, w - 1), Hex(n / 16, w - 1);
      assert (a + [HexDigit(m % 16)])[..w - 1] == a && (b + [HexDigit(n % 16)])[..w - 1] == b;
      assert (a + [HexDigit(m % 16)])[w - 1] == (b + [HexDigit(n % 16)])[w - 1];
      assert m / 16 < Power(w - 1) && n / 16 < Power(w - 1);
      HexInjective(m / 16, n / 16, w - 1);
    }
  }

  /** The letter of a two-symbol control escape, or 0. */
  function Letter(c: nat): nat {
    if c == 7 then 97 else if c == 8 then 98 else if c == 12 then 102 else if c == 10 then 110
    else if c == 13 then 114 else if c == 9 then 116 else if c == 11 then 118 else 0
  }

  /** strconv.appendEscapedRune. */
  function Escape(c: nat, unicode: nat -> bool): (r: Text)
    ensures r != []
  {
    if c == QUOTE || c == BACKSLASH then [BACKSLASH, c]
    else if Printable(c, unicode) then [c]
    else if Letter(c) != 0 then [BACKSLASH, Letter(c)]
    else if c < 0x20 || c == 0x7f then [BACKSLASH, 120] + Hex(c, 2)
    else if RAW <= c then [BACKSLASH, 120] + Hex(c - RAW, 2)
    else if c < 0x10000 then [BACKSLASH, 117] + Hex(c, 4)
    else [BACKSLASH, 85] + Hex(c, 8)
  }

  function Escaped(s: Text, unicode: nat -> bool): Text {
    if s == [] then [] else Escape(s[0], unicode) + Escaped(s[1..], unicode)
  }

  function Quote(s: Text, unicode: nat -> bool): Text {
    [QUOTE] + Escaped(s, unicode) + [QUOTE]
  }

  // ---------------------------------------------------------------- injectivity

  /** The kind of an escape: its first symbol, and the second one after a backslash. */
  lemma EscapeHead(c: nat, unicode: nat -> bool)
    ensures Escape(c, unicode)[0] != QUOTE
    ensures Escape(c, unicode)[0] != BACKSLASH ==> Escape(c, unicode) == [c]
    ensures Escape(c, unicode)[0] == BACKSLASH ==> 2 <= |Escape(c, unicode)|
  {
  }

  lemma {:induction false} HexSymbols(n: nat, w: nat)
    ensures forall i :: 0 <= i < w ==> 48 <= Hex(n, w)[i] <= 57 || 97 <= Hex(n, w)[i] <= 102
  {
    if w != 0 { HexSymbols(n / 16, w - 1); }
  }

  /** Past its first symbol an escape holds letters, digits, a quote or a backslash. */
  lemma EscapeSymbols(c: nat, unicode: nat -> bool)
    ensures var e := Escape(c, unicode);
            forall i :: 0 < i < |e| ==> 48 <= e[i] <= 57 || 65 <= e[i] <= 122 || e[i] == QUOTE
  {
    HexSymbols(c, 2);
    HexSymbols(c, 4);
    HexSymbols(c, 8);
    if RAW <= c { HexSymbols(c - RAW, 2); }
  }

  /** Its length follows from its first two symbols. */
  function CodeLength(kind: nat): nat {
    if kind == 120 then 4 else if kind == 117 then 6 else if kind == 85 then 10 else 2
  }

  lemma EscapeLength(c: nat, unicode: nat -> bool)
    requires Escape(c, unicode)[0] == BACKSLASH
    ensures |Escape(c, unicode)| == CodeLength(Escape(c, unicode)[1])
  {
  }

  lemma EscapeDigits(c: nat, d: nat, unicode: nat -> bool)
    requires Symbol(c) && Symbol(d) && Escape(c, unicode) == Escape(d, unicode)
    requires Escape(c, unicode)[0] == BACKSLASH
    ensures c == d
  {
    var e, f := Escape(c, unicode), Escape(d, unicode);
    assert Power(2) == 256 by { assert Power(1) == 16; }
    assert Power(4) == 0x10000 by { assert Power(3) == 16 * Power(2); }
    assert Power(8) == 0x100000000 by {
      assert Power(7) == 16 * Power(6) && Power(6) == 16 * Power(5) && Power(5) == 16 * Power(4);
    }
    if 2 < |e| {
      assert e[2..] == f[2..];
      var m, n := if RAW <= c then c - RAW else c, if RAW <= d then d - RAW else d;
      assert e[2..] == Hex(m, |e| - 2) && f[2..] == Hex(n, |e| - 2);
      HexInjective(m, n, |e| - 2);
    }
  }

  /** Escapes form a prefix code. */
  lemma EscapePrefixFree(c: nat, d: nat, x: Text, y: Text, unicode: nat -> bool)
    requires Symbol(c) && Symbol(d) && Escape(c, unicode) + x == Escape(d, unicode) + y
    ensures c == d && x == y
  {
    var e, f := Escape(c, unicode), Escape(d, unicode);
    assert (e + x)[0] == e[0] && (f + y)[0] == f[0];
    EscapeHead(c, unicode);
    EscapeHead(d, unicode);
    if e[0] == BACKSLASH {
      assert (e + x)[1] == e[1] && (f + y)[1] == f[1];
      EscapeLength(c, unicode);
      EscapeLength(d, unicode);
    }
    assert |e| == |f|;
    assert (e + x)[..|e|] == e && (f + y)[..|f|] == f;
    assert (e + x)[|e|..] == x && (f + y)[|f|..] == y;
    if e[0] == BACKSLASH { EscapeDigits(c, d, unicode); }
  }

  /** What follows an opening quote: the escaped text, the closing quote and the rest. */
  function Tail(a: Text, x: Text, unicode: nat -> bool): Text {
    Escaped(a, unicode) + [QUOTE] + x
  }

  lemma TailCons(a: Text, x: Text, unicode: nat -> bool)
    requires a != []
    ensures Tail(a, x, unicode) == Escape(a[0], unicode) + Tail(a[1..], x, unicode)
    ensures Tail(a, x, unicode)[0] != QUOTE
  {
    var e, r := Escape(a[0], unicode), Escaped(a[1..], unicode);
    assert Escaped(a, unicode) == e + r;
    assert (e + r) + [QUOTE] + x == e + (r + [QUOTE] + x);
    EscapeHead(a[0], unicode);
  }

  lemma TailNil(x: Text, unicode: nat -> bool)
    ensures Tail([], x, unicode) == [QUOTE] + x && Tail([], x, unicode)[0] == QUOTE && Tail([], x, unicode)[1..] == x
  {
  }

  lemma {:induction false} TailPrefixFree(a: Text, b: Text, x: Text, y: Text, unicode: nat -> bool)
    requires IsText(a) && IsText(b) && Tail(a, x, unicode) == Tail(b, y, unicode)
    ensures a == b && x == y
  {
    TailNil(x, unicode);
    TailNil(y, unicode);
    if a != [] { TailCons(a, x, unicode); }
    if b != [] { TailCons(b, y, unicode); }
    if a != [] && b != [] {
      EscapePrefixFree(a[0], b[0], Tail(a[1..], x, unicode), Tail(b[1..], y, unicode), unicode);
      TailPrefixFree(a[1..], b[1..], x, y, unicode);
      assert a == [a[0]] + a[1..] && b == [b[0]] + b[1..];
    }
  }

  lemma Enclosed(e: Text, x: Text)
    ensures ([QUOTE] + e + [QUOTE]) + x == [QUOTE] + (e + [QUOTE] + x)
  {
  }

  lemma QuoteTail(a: Text, x: Text, unicode: nat -> bool)
    ensures Quote(a, unicode) + x == [QUOTE] + Tail(a, x, unicode)
  {
    Enclosed(Escaped(a, unicode), x);
  }

  /** A quoted string says where it ends and what it quotes. */
  lemma QuotePrefixFree(a: Text, b: Text, x: Text, y: Text, unicode: nat -> bool)
    requires IsText(a) && IsText(b) && Quote(a, unicode) + x == Quote(b, unicode) + y
    ensures a == b && x == y
  {
    QuoteTail(a, x, unicode);
    QuoteTail(b, y, unicode);
    assert ([QUOTE] + Tail(a, x, unicode))[1..] == Tail(a, x, unicode);
    assert ([QUOTE] + Tail(b, y, unicode))[1..] == Tail(b, y, unicode);
    TailPrefixFree(a, b, x, y, unicode);
  }

  /** Escapes bring no quote that the text does not hold. */
  lemma {:induction false} EscapedNoQuote(s: Text, unicode: nat -> bool)
    requires QUOTE !in s
    ensures QUOTE !in Escaped(s, unicode)
  {
    if s != [] {
      EscapedNoQuote(s[1..], unicode);
      assert s[0] in s;
      EscapeNoQuote(s[0], unicode);
    }
  }

  lemma EscapeNoQuote(c: nat, unicode: nat -> bool)
    requires c != QUOTE
    ensures QUOTE !in Escape(c, unicode)
  {
    HexSymbols(c, 2);
    HexSymbols(c, 4);
    HexSymbols(c, 8);
    if RAW <= c { HexSymbols(c - RAW, 2); }
  }

  lemma {:induction false} QuoteText(s: Text, unicode: nat -> bool)
    requires IsText(s)
    ensures IsText(Escaped(s, unicode)) && IsText(Quote(s, unicode))
  {
    if s != [] {
      var e := Escape(s[0], unicode);
      QuoteText(s[1..], unicode);
      EscapeHead(s[0], unicode);
      EscapeSymbols(s[0], unicode);
      assert forall c :: c in Escaped(s, unicode) ==> c in e || c in Escaped(s[1..], unicode);
    }
  }

  // ------------------------------------------------------ what quoting leaves alone

  /** Quoting changes none of these symbols. */
  predicate Plain(s: Text, unicode: nat -> bool) {
    forall i :: 0 <= i < |s| ==> Printable(s[i], unicode) && s[i] != QUOTE && s[i] != BACKSLASH
  }

  lemma {:induction false} EscapedLength(s: Text, unicode: nat -> bool)
    ensures |s| <= |Escaped(s, unicode)|
    ensures Plain(s, unicode) ==> Escaped(s, unicode) == s
    ensures !Plain(s, unicode) ==> |s| < |Escaped(s, unicode)|
  {
    if s != [] {
      EscapedLength(s[1..], unicode);
      assert s == [s[0]] + s[1..];
      if Plain(s[1..], unicode) && !Plain(s, unicode) {
        assert !(Printable(s[0], unicode) && s[0] != QUOTE && s[0] != BACKSLASH) by {
          if Printable(s[0], unicode) && s[0] != QUOTE && s[0] != BACKSLASH {
            forall i | 0 <= i < |s| ensures Printable(s[i], unicode) && s[i] != QUOTE && s[i] != BACKSLASH {
              if i != 0 { assert s[i] == s[1..][i - 1]; }
            }
          }
        }
      }
    }
  }

  // ------------------------------------------------------------------ reading it back

  function DigitValue(d: nat): nat {
    if 48 <= d <= 57 then d - 48 else if 97 <= d <= 102 then d - 87 else 0
  }

  function HexValue(s: Text): nat {
    if s == [] then 0 else 16 * HexValue(s[..|s| - 1]) + DigitValue(s[|s| - 1])
  }

  lemma {:induction false} HexRead(n: nat, w: nat)
    requires n < Power(w)
    ensures HexValue(Hex(n, w)) == n
  {
    if w != 0 {
      var a := Hex(n / 16, w - 1);
      assert (a + [HexDigit(n % 16)])[..w - 1] == a;
      assert n / 16 < Power(w - 1);
      HexRead(n / 16, w - 1);
    }
  }

  /** The control a letter stands for after a backslash, or the letter itself. */
  function Control(kind: nat): nat {
    match kind
    case 97 => 7
    case 98 => 8
    case 102 => 12
    case 110 => 10
    case 114 => 13
    case 116 => 9
    case 118 => 11
    case _ => kind
  }

  /** strconv.UnquoteChar: the symbol at the start of a quoted text, and the length it takes up. */
  function ReadSymbol(s: Text): (r: (nat, nat))
    requires s != []
    ensures r.1 > 0
  {
    if s[0] != BACKSLASH || |s| == 1 then (s[0], 1)
    else
      var n := CodeLength(s[1]);
      if n == 2 || |s| < n then (Control(s[1]), 2)
      else
        var v := HexValue(s[2..n]);
        (if s[1] == 120 && 0x80 <= v then RAW + v else v, n)
  }

  /** strconv.Unquote, between the quotes. */
  function Unescaped(s: Text): Text
    decreases |s|
  {
    if s == [] then []
    else
      var (c, n) := ReadSymbol(s);
      [c] + if n <= |s| then Unescaped(s[n..]) else []
  }

  lemma SymbolRead(c: nat, rest: Text, unicode: nat -> bool)
    requires Symbol(c)
    ensures ReadSymbol(Escape(c, unicode) + rest) == (c, |Escape(c, unicode)|)
  {
    var e := Escape(c, unicode);
    var s := e + rest;
    EscapeHead(c, unicode);
    assert s[0] == e[0];
    if e[0] == BACKSLASH {
      EscapeLength(c, unicode);
      assert s[1] == e[1];
      if 2 < |e| {
        assert s[2..|e|] == e[2..];
        assert Power(2) == 256 by { assert Power(1) == 16; }
        assert Power(4) == 0x10000 by { assert Power(3) == 16 * Power(2); }
        assert Power(8) == 0x100000000 by {
          assert Power(7) == 16 * Power(6) && Power(6) == 16 * Power(5) && Power(5) == 16 * Power(4);
        }
        var m := if RAW <= c then c - RAW else c;
        assert e[2..] == Hex(m, |e| - 2);
        HexRead(m, |e| - 2);
      }
    }
  }

  lemma UnescapedFirst(c: nat, rest: Text, unicode: nat -> bool)
    requires Symbol(c)
    ensures Unescaped(Escape(c, unicode) + rest) == [c] + Unescaped(rest)
  {
    var e := Escape(c, unicode);
    SymbolRead(c, rest, unicode);
    assert (e + rest)[|e|..] == rest;
  }

  /** Unquoting inverts quoting, for every string. */
  lemma {:induction false} UnquoteQuote(s: Text, unicode: nat -> bool)
    requires IsText(s)
    ensures Unescaped(Escaped(s, unicode)) == s
  {
    if s != [] {
      assert s[0] in s && s == [s[0]] + s[1..];
      UnquoteQuote(s[1..], unicode);
      UnescapedFirst(s[0], Escaped(s[1..], unicode), unicode);
    }
  }
}
