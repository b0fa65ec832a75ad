/**
 The header record of a stored entry (cache.go): a line with the store time, the status line, the
 header fields and an empty line.  The record is the entry's commit marker, so a reader has to tell
 a complete one from one that is still being written.

 Time formatting, status texts, the integrity line and the bytes net/textproto accepts in a value
 are parameters.
 */
module HeaderRecord {
  import opened Wrappers
  import opened GoStrings
  import GoQuote

  /** Bytes. */
  type Text = GoQuote.Text

  type Header = map<Text, seq<Text>>

  const CR := 13
  const LF := 10
  const SPACE := 32
  const COLON := 58
  const CRLF: Text := [13, 10]
  const TERMINATOR: Text := [13, 10, 13, 10]

  /** "HTTPCACHE/1 " */
  const STORED_AT: Text := [72, 84, 84, 80, 67, 65, 67, 72, 69, 47, 49, 32]
  /** "HTTPCACHE/2 " */
  const SEALED: Text := [72, 84, 84, 80, 67, 65, 67, 72, 69, 47, 50, 32]
  /** "HTTP/1.1 " */
  const PROTOCOL: Text := [72, 84, 84, 80, 47, 49, 46, 49, 32]

  /** `format` and `parse` are RFC3339Nano in UTC, for the times of which `date` holds; `sealedAt`
      reads an integrity line's store time, `accepts` says which bytes may stand in a field value. */
  datatype Codec = Codec(
    date: int -> bool, format: int -> Text, parse: Text -> Option<int>, sealedAt: Text -> Option<int>,
    statusText: int -> Text, accepts: nat -> bool)

  /** A line's worth of text. */
  predicate OneLine(s: Text) {
    forall c :: c in s ==> c != CR && c != LF
  }

  ghost predicate Sound(codec: Codec) {
    && (forall t :: codec.date(t) ==> codec.parse(codec.format(t)) == Some(t) && OneLine(codec.format(t)))
    && (forall n :: OneLine(codec.statusText(n)))
  }

  // ---------------------------------------------------------------------- decimals

  function Digits(n: nat): (r: Text)
    ensures r != []
  {
    if n < 10 then [48 + n] else Digits(n / 10) + [48 + n % 10]
  }

  function Itoa(n: int): Text {
    if n < 0 then [45] + Digits(-n) else Digits(n)
  }

  predicate Digit(c: nat) {
    48 <= c <= 57
  }

  function Number(s: Text): Option<nat> {
    if s == [] || !Digit(s[|s| - 1]) then None
    else if |s| == 1 then Some(s[0] - 48)
    else
      var high := Number(s[..|s| - 1]);
      if high.None? then None else Some(10 * high.value + (s[|s| - 1] - 48))
  }

  predicate Int64(n: int) {
    -0x8000_0000_0000_0000 <= n <= 0x7fff_ffff_ffff_ffff
  }

  /** strconv.Atoi */
  function Atoi(s: Text): Option<int> {
    var signed := s != [] && (s[0] == 45 || s[0] == 43);
    var n := Number(if signed then s[1..] else s);
    if n.None? then None
    else
      var v: int := if signed && s[0] == 45 then 0 - n.value else n.value;
      if Int64(v) then Some(v) else None
  }

  lemma {:induction false} DigitsRoundTrip(n: nat)
    ensures Number(Digits(n)) == Some(n) && forall c :: c in Digits(n) ==> Digit(c)
  {
    if n >= 10 {
      DigitsRoundTrip(n / 10);
      var d := Digits(n / 10) + [48 + n % 10];
      assert d[..|d| - 1] == Digits(n / 10);
    }
  }

  /** Decimals read back, with or without a plus sign, exactly when they fit int64. */
  lemma ItoaRoundTrip(n: int)
    ensures Atoi(Itoa(n)) == if Int64(n) then Some(n) else None
    ensures 0 <= n ==> Atoi([43] + Itoa(n)) == Atoi(Itoa(n))
    ensures forall c :: c in Itoa(n) ==> Digit(c) || c == 45
  {
    DigitsRoundTrip(if n < 0 then -n else n);
    if n < 0 {
      assert Itoa(n)[1..] == Digits(-n);
    } else {
      assert Itoa(n)[0] in Digits(n);
      assert ([43] + Itoa(n))[1..] == Itoa(n);
    }
  }

  /** Nothing but decimal digits is a number. */
  lemma {:induction false} NumberExactly(s: Text)
    ensures Number(s).Some? <==> s != [] && forall i :: 0 <= i < |s| ==> 48 <= s[i] <= 57
  {
    if |s| > 1 { NumberExactly(s[..|s| - 1]); }
  }

  // ------------------------------------------------------------------------- lines

  function Record(lines: seq<Text>): Text {
    if lines == [] then CRLF else lines[0] + (CRLF + Record(lines[1..]))
  }

  predicate IsLf(c: nat) {
    c == LF
  }

  /** textproto.Reader.ReadLine */
  function FirstLine(s: Text): Text {
    var b := Before(s, IsLf);
    if b != [] && b[|b| - 1] == CR then b[..|b| - 1] else b
  }

  function AfterLine(s: Text): (r: Text)
    ensures s != [] ==> |r| < |s|
  {
    var n := |Before(s, IsLf)|;
    if n < |s| then s[n + 1..] else []
  }

  function Lines(s: Text): seq<Text>
    decreases |s|
  {
    if s == [] then [] else [FirstLine(s)] + Lines(AfterLine(s))
  }

  lemma LineRead(line: Text, rest: Text)
    requires OneLine(line)
    ensures FirstLine(line + (CRLF + rest)) == line && AfterLine(line + (CRLF + rest)) == rest
  {
    var s, b := line + (CRLF + rest), line + [CR];
    assert s == b + ([LF] + rest);
    assert forall i :: 0 <= i < |line| ==> line[i] in line;
    BeforeStop(b, [LF] + rest, IsLf);
    assert b[..|b| - 1] == line;
    assert s[|b| + 1..] == rest;
  }

  lemma {:induction false} RecordRead(lines: seq<Text>)
    requires forall l :: l in lines ==> OneLine(l)
    ensures Lines(Record(lines)) == lines + [[]]
  {
    if lines == [] {
      LineRead([], []);
      assert [] + (CRLF + []) == CRLF;
      assert Lines(CRLF) == [[]] + Lines([]);
    } else {
      LineRead(lines[0], Record(lines[1..]));
      RecordRead(lines[1..]);
    }
  }

  predicate EndsRecord(s: Text) {
    |s| >= 4 && s[|s| - 4..] == TERMINATOR
  }

  lemma {:induction false} RecordEnds(lines: seq<Text>)
    requires lines != []
    ensures EndsRecord(Record(lines))
  {
    var r := Record(lines[1..]);
    if |lines| == 1 {
      assert lines[0] + (CRLF + CRLF) == lines[0] + TERMINATOR;
    } else {
      RecordEnds(lines[1..]);
      var s := lines[0] + (CRLF + r);
      assert s[|s| - 4..] == r[|r| - 4..];
    }
  }

  predicate BreaksAt(s: Text, i: nat) {
    i + 4 <= |s| && s[i] == CR && s[i + 1] == LF && s[i + 2] == CR && s[i + 3] == LF
  }

  lemma BreakPlace(l: Text, r: Text, i: nat)
    requires OneLine(l) && BreaksAt(l + (CRLF + r), i)
    ensures (i == |l| && r != [] && r[0] == CR) || (i >= |l| + 2 && BreaksAt(r, i - (|l| + 2)))
  {
    var s := l + (CRLF + r);
    assert forall k :: 0 <= k < |l| ==> s[k] == l[k] && l[k] in l;
    assert s[|l| + 1] == LF;
    assert forall k :: 0 <= k < |r| ==> s[|l| + 2 + k] == r[k];
    if i >= |l| + 2 {
      var j := i - (|l| + 2);
      assert s[|l| + 2 + j] == r[j] && s[|l| + 2 + (j + 1)] == r[j + 1];
      assert s[|l| + 2 + (j + 2)] == r[j + 2] && s[|l| + 2 + (j + 3)] == r[j + 3];
    }
  }

  lemma RecordStarts(lines: seq<Text>)
    requires lines != [] && lines[0] != [] && OneLine(lines[0])
    ensures Record(lines)[0] != CR
  {
    assert lines[0][0] in lines[0];
  }

  /** An empty line comes only at the very end. */
  lemma {:induction false} OnlyBreakIsLast(lines: seq<Text>, i: nat)
    requires (forall l :: l in lines ==> OneLine(l) && l != []) && BreaksAt(Record(lines), i)
    ensures i + 4 == |Record(lines)|
    decreases |lines|
  {
    if lines != [] {
      var l, rest := lines[0], lines[1..];
      BreakPlace(l, Record(rest), i);
      if rest != [] { assert rest[0] == lines[1] && lines[1] in lines; RecordStarts(rest); }
      if i != |l| { OnlyBreakIsLast(rest, i - (|l| + 2)); }
    }
  }

  /** A record cut short anywhere does not end like a record. */
  lemma TruncationShows(lines: seq<Text>, n: nat)
    requires (forall l :: l in lines ==> OneLine(l) && l != []) && n < |Record(lines)|
    ensures !EndsRecord(Record(lines)[..n])
  {
    var s := Record(lines);
    if EndsRecord(s[..n]) {
      var t := s[..n][n - 4..];
      assert t[0] == s[n - 4] && t[1] == s[n - 3] && t[2] == s[n - 2] && t[3] == s[n - 1];
      OnlyBreakIsLast(lines, n - 4);
    }
  }

  // --------------------------------------------------------------- writing a record

  datatype Field = Field(name: Text, value: Text)

  function Flat(v: Text): (r: Text)
    ensures |r| == |v| && forall i :: 0 <= i < |v| ==> r[i] == if v[i] == CR || v[i] == LF then SPACE else v[i]
  {
    if v == [] then [] else [if v[0] == CR || v[0] == LF then SPACE else v[0]] + Flat(v[1..])
  }

  /** A value as http.Header.Write writes it: newlines become spaces, blanks around it go. */
  function WrittenValue(v: Text): Text {
    Trim(Flat(v), Blank)
  }

  /** http.Header.Write skips names that are no tokens. */
  predicate Writable(name: Text) {
    name != [] && Token(name)
  }

  function ValueFields(name: Text, values: seq<Text>): seq<Field> {
    if values == [] || !Writable(name) then []
    else [Field(name, WrittenValue(values[0]))] + ValueFields(name, values[1..])
  }

  function FieldsUnder(h: Header, names: seq<Text>): seq<Field>
    requires forall n :: n in names ==> n in h
  {
    if names == [] then [] else ValueFields(names[0], h[names[0]]) + FieldsUnder(h, names[1..])
  }

  ghost function WrittenFields(h: Header): seq<Field> {
    FieldsUnder(h, Sorted(h.Keys))
  }

  function FieldLine(f: Field): Text {
    f.name + ([COLON] + ([SPACE] + f.value))
  }

  function FieldLines(fs: seq<Field>): seq<Text> {
    if fs == [] then [] else [FieldLine(fs[0])] + FieldLines(fs[1..])
  }

  function StatusLine(code: int, codec: Codec): Text {
    PROTOCOL + (Itoa(code) + ([SPACE] + codec.statusText(code)))
  }

  ghost function StoredLines(code: int, h: Header, at: int, codec: Codec): seq<Text> {
    [STORED_AT + codec.format(at), StatusLine(code, codec)] + FieldLines(WrittenFields(h))
  }

  /** serializeStoredHeader */
  ghost function Serialized(code: int, h: Header, at: int, codec: Codec): Text {
    Record(StoredLines(code, h, at, codec))
  }

  // --------------------------------------------------------------- reading a record

  datatype Entry = Entry(status: int, storedAt: Option<int>, header: Header)

  datatype Outcome = Miss | Malformed | Hit(entry: Entry)

  predicate IsSpace(c: nat) {
    c == SPACE
  }

  predicate IsColon(c: nat) {
    c == COLON
  }

  /** The second word of the status line. */
  function StatusOf(line: Text): Option<int> {
    var a := Before(line, IsSpace);
    if |a| == |line| then None else Atoi(Before(line[|a| + 1..], IsSpace))
  }

  /** Joins continuation lines, and trims. */
  function Unfolded(lines: seq<Text>): (r: seq<Text>)
    ensures lines != [] ==> r != []
  {
    if lines == [] then []
    else
      var rest := Unfolded(lines[1..]);
      if |lines| > 1 && lines[1] != [] && Blank(lines[1][0])
      then [Trim(lines[0], Blank) + ([SPACE] + rest[0])] + rest[1..]
      else [Trim(lines[0], Blank)] + rest
  }

  /** A line that begins with a blank continues the line before it. */
  lemma FoldedLines(a: Text, b: Text)
    requires b != []
    ensures Unfolded([a, b]) ==
            if b[0] == 32 || b[0] == 9 then [Trim(a, Blank) + ([SPACE] + Trim(b, Blank))]
            else [Trim(a, Blank), Trim(b, Blank)]
  {
    assert [a, b][1..] == [b] && [b][1..] == [];
    assert Unfolded([b]) == [Trim(b, Blank)] + [];
  }

  /** One field of ReadMIMEHeader; an empty name is skipped by the caller. */
  function FieldOf(line: Text, codec: Codec): Option<Field> {
    var name := Before(line, IsColon);
    if |name| == |line| || !Token(name) then None
    else
      var value := line[|name| + 1..];
      if exists c :: c in value && !codec.accepts(c) then None
      else Some(Field(Canonical(name), TrimLeft(value, Blank)))
  }

  function FieldsOf(lines: seq<Text>, codec: Codec): Option<seq<Field>> {
    if lines == [] then Some([])
    else
      var f, rest := FieldOf(lines[0], codec), FieldsOf(lines[1..], codec);
      if f.None? || rest.None? then None
      else Some((if f.value.name == [] then [] else [f.value]) + rest.value)
  }

  function Collected(fs: seq<Field>): Header {
    if fs == [] then map[]
    else
      var f, m := fs[|fs| - 1], Collected(fs[..|fs| - 1]);
      m[f.name := (if f.name in m then m[f.name] else []) + [f.value]]
  }

  /** The lines before the first empty one. */
  function UpToEmpty(lines: seq<Text>): Option<seq<Text>> {
    if lines == [] then None
    else if lines[0] == [] then Some([])
    else
      var rest := UpToEmpty(lines[1..]);
      if rest.None? then None else Some([lines[0]] + rest.value)
  }

  /** textproto.Reader.ReadMIMEHeader */
  function MimeHeader(lines: seq<Text>, codec: Codec): Option<Header> {
    var body := UpToEmpty(lines);
    if body.None? || (body.value != [] && Blank(body.value[0][0])) then None
    else
      var fs := FieldsOf(Unfolded(body.value), codec);
      if fs.None? then None else Some(Collected(fs.value))
  }

  /** readStoredHeaders, after its lines are cut. */
  function ReadStored(lines: seq<Text>, codec: Codec): Option<Entry> {
    if lines == [] then None
    else if STORED_AT <= lines[0] then
      var t := codec.parse(lines[0][|STORED_AT|..]);
      if t.None? then None else ReadSealed(lines[1..], t, codec)
    else ReadSealed(lines, None, codec)
  }

  function ReadSealed(lines: seq<Text>, at: Option<int>, codec: Codec): Option<Entry> {
    if lines == [] then None
    else if SEALED <= lines[0] then
      var t := codec.sealedAt(lines[0]);
      if t.None? then None else ReadResponse(lines[1..], t, codec)
    else ReadResponse(lines, at, codec)
  }

  function ReadResponse(lines: seq<Text>, at: Option<int>, codec: Codec): Option<Entry> {
    if lines == [] then None
    else
      var code, h := StatusOf(lines[0]), MimeHeader(lines[1..], codec);
      if code.None? || h.None? then None else Some(Entry(code.value, at, h.value))
  }

  /** A record without its terminator is an entry that is not committed yet. */
  function ReadRecord(raw: Text, codec: Codec): Outcome {
    if !EndsRecord(raw) then Miss
    else
      var e := ReadStored(Lines(raw), codec);
      if e.None? then Malformed else Hit(e.value)
  }

  // ----------------------------------------------------------------- the round trip

  lemma StatusRead(code: int, codec: Codec)
    requires Int64(code)
    ensures StatusOf(StatusLine(code, codec)) == Some(code)
  {
    ItoaRoundTrip(code);
    var p: Text := PROTOCOL[..8];
    var tail := Itoa(code) + ([SPACE] + codec.statusText(code));
    assert StatusLine(code, codec) == p + ([SPACE] + tail);
    BeforeStop(p, [SPACE] + tail, IsSpace);
    assert (p + ([SPACE] + tail))[|p| + 1..] == tail;
    assert forall i :: 0 <= i < |Itoa(code)| ==> Itoa(code)[i] in Itoa(code);
    BeforeStop(Itoa(code), [SPACE] + codec.statusText(code), IsSpace);
  }

  /** A value that writing and trimming leave alone. */
  predicate Settled(v: Text) {
    OneLine(v) && (v == [] || (!Blank(v[0]) && !Blank(v[|v| - 1])))
  }

  lemma TrimSettled(s: Text)
    requires OneLine(s)
    ensures Settled(Trim(s, Blank))
  {
    TrimSymbols(s, Blank);
  }

  lemma WrittenSettled(v: Text)
    ensures Settled(WrittenValue(v))
    ensures Settled(v) ==> WrittenValue(v) == v
  {
    assert OneLine(Flat(v)) by { assert forall i :: 0 <= i < |v| ==> Flat(v)[i] != CR && Flat(v)[i] != LF; }
    TrimSettled(Flat(v));
    if Settled(v) {
      assert forall i :: 0 <= i < |v| ==> v[i] in v;
      assert Flat(v) == v;
    }
  }

  ghost predicate Good(f: Field) {
    Writable(f.name) && Settled(f.value)
  }

  predicate Accepted(v: Text, codec: Codec) {
    forall c :: c in v ==> codec.accepts(c)
  }

  lemma LineTrimmed(f: Field)
    requires Good(f)
    ensures Trim(FieldLine(f), Blank) == f.name + ([COLON] + (if f.value == [] then [] else [SPACE] + f.value))
  {
    var s := FieldLine(f);
    assert f.name[0] in f.name && s[0] == f.name[0] && !Blank(s[0]);
    assert TrimLeft(s, Blank) == s;
    if f.value == [] {
      var t := f.name + [COLON];
      assert s == t + [SPACE] && s[..|s| - 1] == t && t[|t| - 1] == COLON;
      assert [COLON] + [] == [COLON];
      assert TrimRight(s, Blank) == TrimRight(t, Blank) == t;
    } else {
      assert s[|s| - 1] == f.value[|f.value| - 1];
    }
  }

  /** The value's part of a trimmed line. */
  function ValuePart(v: Text): Text {
    if v == [] then [] else [SPACE] + v
  }

  lemma ValuePartRead(v: Text, codec: Codec)
    requires Settled(v) && codec.accepts(SPACE)
    ensures TrimLeft(ValuePart(v), Blank) == v
    ensures Accepted(ValuePart(v), codec) <==> Accepted(v, codec)
  {
    if v != [] {
      assert ValuePart(v)[1..] == v;
      assert TrimLeft(v, Blank) == v;
      assert forall c :: c in ValuePart(v) <==> c in v || c == SPACE;
    }
  }

  lemma FieldCut(name: Text, value: Text)
    requires Writable(name)
    ensures var line := name + ([COLON] + value);
            Before(line, IsColon) == name && |name| < |line| && line[|name| + 1..] == value
  {
    assert forall i :: 0 <= i < |name| ==> name[i] in name;
    BeforeStop(name, [COLON] + value, IsColon);
  }

  lemma FieldRead(f: Field, codec: Codec)
    requires Good(f) && codec.accepts(SPACE)
    ensures FieldOf(Trim(FieldLine(f), Blank), codec) ==
            if Accepted(f.value, codec) then Some(Field(Canonical(f.name), f.value)) else None
  {
    LineTrimmed(f);
    FieldCut(f.name, ValuePart(f.value));
    ValuePartRead(f.value, codec);
  }

  lemma FieldLineShape(f: Field)
    requires Good(f)
    ensures OneLine(FieldLine(f)) && FieldLine(f) != [] && !Blank(FieldLine(f)[0])
  {
    assert f.name[0] in f.name;
  }

  /** What the reader makes of the written names. */
  function Canonicals(fs: seq<Field>): seq<Field> {
    if fs == [] then [] else [Field(Canonical(fs[0].name), fs[0].value)] + Canonicals(fs[1..])
  }

  predicate AllAccepted(fs: seq<Field>, codec: Codec) {
    forall f :: f in fs ==> Accepted(f.value, codec)
  }

  lemma CanonicalNotEmpty(name: Text)
    requires Writable(name)
    ensures Canonical(name) != []
  {
  }

  lemma {:induction false} FieldsRead(fs: seq<Field>, codec: Codec)
    requires (forall f :: f in fs ==> Good(f)) && codec.accepts(SPACE)
    ensures FieldsOf(Unfolded(FieldLines(fs)), codec) == if AllAccepted(fs, codec) then Some(Canonicals(fs)) else None
  {
    if fs != [] {
      assert fs[0] in fs && fs == [fs[0]] + fs[1..];
      FieldsRead(fs[1..], codec);
      UnfoldOne(fs);
      FieldRead(fs[0], codec);
      CanonicalNotEmpty(fs[0].name);
      assert AllAccepted(fs, codec) <==> Accepted(fs[0].value, codec) && AllAccepted(fs[1..], codec);
    }
  }

  /** No field line looks like a continuation. */
  lemma UnfoldOne(fs: seq<Field>)
    requires fs != [] && forall f :: f in fs ==> Good(f)
    ensures Unfolded(FieldLines(fs)) == [Trim(FieldLine(fs[0]), Blank)] + Unfolded(FieldLines(fs[1..]))
  {
    var ls := FieldLines(fs);
    assert ls[1..] == FieldLines(fs[1..]);
    if |fs| > 1 {
      assert fs[1] in fs;
      FieldLineShape(fs[1]);
      assert ls[1] == FieldLine(fs[1]);
    }
  }

  lemma {:induction false} FieldLinesShape(fs: seq<Field>)
    requires forall f :: f in fs ==> Good(f)
    ensures forall l :: l in FieldLines(fs) ==> OneLine(l) && l != [] && !Blank(l[0])
  {
    if fs != [] {
      assert fs[0] in fs;
      FieldLineShape(fs[0]);
      FieldLinesShape(fs[1..]);
    }
  }

  lemma {:induction false} ValueFieldsGood(name: Text, values: seq<Text>)
    ensures forall f :: f in ValueFields(name, values) ==> Good(f)
  {
    if values != [] && Writable(name) {
      WrittenSettled(values[0]);
      ValueFieldsGood(name, values[1..]);
    }
  }

  lemma {:induction false} FieldsUnderGood(h: Header, names: seq<Text>)
    requires forall n :: n in names ==> n in h
    ensures forall f :: f in FieldsUnder(h, names) ==> Good(f)
  {
    if names != [] {
      ValueFieldsGood(names[0], h[names[0]]);
      FieldsUnderGood(h, names[1..]);
    }
  }

  lemma {:induction false} UpToEmptyAll(lines: seq<Text>)
    requires forall l :: l in lines ==> l != []
    ensures UpToEmpty(lines + [[]]) == Some(lines)
  {
    if lines != [] {
      assert lines[0] in lines && lines == [lines[0]] + lines[1..];
      assert (lines + [[]])[1..] == lines[1..] + [[]];
      forall l | l in lines[1..] ensures l != [] { assert l in lines; }
      UpToEmptyAll(lines[1..]);
    }
  }

  lemma MimeRead(fs: seq<Field>, codec: Codec)
    requires (forall f :: f in fs ==> Good(f)) && codec.accepts(SPACE)
    ensures MimeHeader(FieldLines(fs) + [[]], codec) ==
            if AllAccepted(fs, codec) then Some(Collected(Canonicals(fs))) else None
  {
    FieldLinesShape(fs);
    UpToEmptyAll(FieldLines(fs));
    FieldsRead(fs, codec);
    if fs != [] { assert FieldLines(fs)[0] in FieldLines(fs); }
  }

  lemma OneLineJoin(a: Text, b: Text)
    requires OneLine(a) && OneLine(b)
    ensures OneLine(a + b)
  {
  }

  lemma StatusLineShape(code: int, codec: Codec)
    requires Int64(code) && Sound(codec)
    ensures OneLine(StatusLine(code, codec)) && StatusLine(code, codec) != []
  {
    ItoaRoundTrip(code);
    OneLineJoin([SPACE], codec.statusText(code));
    OneLineJoin(Itoa(code), [SPACE] + codec.statusText(code));
    OneLineJoin(PROTOCOL, Itoa(code) + ([SPACE] + codec.statusText(code)));
  }

  lemma StoredLinesShape(code: int, h: Header, at: int, codec: Codec)
    requires Int64(code) && Sound(codec) && codec.date(at)
    ensures forall l :: l in StoredLines(code, h, at, codec) ==> OneLine(l) && l != []
  {
    FieldsUnderGood(h, Sorted(h.Keys));
    FieldLinesShape(WrittenFields(h));
    StatusLineShape(code, codec);
    OneLineJoin(STORED_AT, codec.format(at));
  }

  /** A record cut short anywhere is a miss. */
  lemma TruncatedIsMiss(code: int, h: Header, at: int, codec: Codec, n: nat)
    requires Int64(code) && Sound(codec) && codec.date(at) && n < |Serialized(code, h, at, codec)|
    ensures ReadRecord(Serialized(code, h, at, codec)[..n], codec) == Miss
  {
    StoredLinesShape(code, h, at, codec);
    TruncationShows(StoredLines(code, h, at, codec), n);
  }

  /** What a header holds after a round trip. */
  ghost function ReadBack(h: Header): Header {
    Collected(Canonicals(WrittenFields(h)))
  }

  lemma StoredAtRead(at: int, rest: seq<Text>, codec: Codec)
    requires Sound(codec) && codec.date(at)
    ensures ReadStored([STORED_AT + codec.format(at)] + rest, codec) == ReadSealed(rest, Some(at), codec)
  {
    assert (STORED_AT + codec.format(at))[|STORED_AT|..] == codec.format(at);
    assert ([STORED_AT + codec.format(at)] + rest)[1..] == rest;
  }

  lemma ResponseRead(code: int, at: Option<int>, rest: seq<Text>, codec: Codec)
    requires Int64(code)
    ensures ReadResponse([StatusLine(code, codec)] + rest, at, codec) ==
            var h := MimeHeader(rest, codec); if h.None? then None else Some(Entry(code, at, h.value))
  {
    StatusRead(code, codec);
    assert ([StatusLine(code, codec)] + rest)[1..] == rest;
  }

  lemma StatusIsNotSealed(code: int, at: Option<int>, rest: seq<Text>, codec: Codec)
    ensures ReadSealed([StatusLine(code, codec)] + rest, at, codec) ==
            ReadResponse([StatusLine(code, codec)] + rest, at, codec)
  {
    assert StatusLine(code, codec)[4] == 47 && SEALED[4] != 47;
  }

  lemma Headed(a: Text, b: Text, lines: seq<Text>)
    ensures [a, b] + lines + [[]] == [a] + ([b] + (lines + [[]]))
  {
  }

  /** A complete record gives back the status, the store time and the fields, unless a value holds
      a byte the reader refuses. */
  lemma CompleteIsRead(code: int, h: Header, at: int, codec: Codec)
    requires Int64(code) && Sound(codec) && codec.date(at) && codec.accepts(SPACE)
    ensures ReadRecord(Serialized(code, h, at, codec), codec) ==
            if AllAccepted(WrittenFields(h), codec) then Hit(Entry(code, Some(at), ReadBack(h))) else Malformed
  {
    var lines, fs := StoredLines(code, h, at, codec), WrittenFields(h);
    StoredLinesShape(code, h, at, codec);
    RecordEnds(lines);
    RecordRead(lines);
    var rest := FieldLines(fs) + [[]];
    Headed(STORED_AT + codec.format(at), StatusLine(code, codec), FieldLines(fs));
    StoredAtRead(at, [StatusLine(code, codec)] + rest, codec);
    StatusIsNotSealed(code, Some(at), rest, codec);
    ResponseRead(code, Some(at), rest, codec);
    FieldsUnderGood(h, Sorted(h.Keys));
    MimeRead(fs, codec);
  }

  lemma LegacyShape(code: int, h: Header, codec: Codec)
    requires Int64(code) && Sound(codec)
    ensures forall l :: l in [StatusLine(code, codec)] + FieldLines(WrittenFields(h)) ==> OneLine(l) && l != []
  {
    FieldsUnderGood(h, Sorted(h.Keys));
    FieldLinesShape(WrittenFields(h));
    StatusLineShape(code, codec);
  }

  lemma UnstampedRead(code: int, rest: seq<Text>, codec: Codec)
    ensures ReadStored([StatusLine(code, codec)] + rest, codec) ==
            ReadResponse([StatusLine(code, codec)] + rest, None, codec)
  {
    assert StatusLine(code, codec)[4] == 47 && STORED_AT[4] != 47;
    StatusIsNotSealed(code, None, rest, codec);
  }

  lemma FieldsAfterStatus(code: int, h: Header, codec: Codec)
    requires Int64(code) && codec.accepts(SPACE)
    ensures ReadResponse([StatusLine(code, codec)] + (FieldLines(WrittenFields(h)) + [[]]), None, codec) ==
            if AllAccepted(WrittenFields(h), codec) then Some(Entry(code, None, ReadBack(h))) else None
  {
    FieldsUnderGood(h, Sorted(h.Keys));
    MimeRead(WrittenFields(h), codec);
    ResponseRead(code, None, FieldLines(WrittenFields(h)) + [[]], codec);
  }

  /** A record from before store times were written is read without one. */
  lemma LegacyIsRead(code: int, h: Header, codec: Codec)
    requires Int64(code) && Sound(codec) && codec.accepts(SPACE)
    ensures ReadRecord(Record([StatusLine(code, codec)] + FieldLines(WrittenFields(h))), codec) ==
            if AllAccepted(WrittenFields(h), codec) then Hit(Entry(code, None, ReadBack(h))) else Malformed
  {
    var lines, rest := [StatusLine(code, codec)] + FieldLines(WrittenFields(h)), FieldLines(WrittenFields(h)) + [[]];
    LegacyShape(code, h, codec);
    RecordEnds(lines);
    RecordRead(lines);
    assert lines + [[]] == [StatusLine(code, codec)] + rest;
    UnstampedRead(code, rest, codec);
    FieldsAfterStatus(code, h, codec);
  }

  /** A store time that cannot be read makes the record malformed, whatever follows. */
  lemma BadStoreTimeIsMalformed(when: Text, lines: seq<Text>, codec: Codec)
    requires OneLine(when) && codec.parse(when).None? && lines != []
    requires forall l :: l in lines ==> OneLine(l) && l != []
    ensures ReadRecord(Record([STORED_AT + when] + lines), codec) == Malformed
  {
    var all := [STORED_AT + when] + lines;
    OneLineJoin(STORED_AT, when);
    RecordEnds(all);
    RecordRead(all);
    assert (all + [[]])[0] == STORED_AT + when && (STORED_AT + when)[|STORED_AT|..] == when;
  }

  // ------------------------------------------------------- which fields come back

  function ValuesOf(fs: seq<Field>, n: Text): seq<Text> {
    if fs == [] then []
    else
      var f := fs[|fs| - 1];
      ValuesOf(fs[..|fs| - 1], n) + if f.name == n then [f.value] else []
  }

  lemma {:induction false} CollectedAt(fs: seq<Field>, n: Text)
    ensures n in Collected(fs) <==> ValuesOf(fs, n) != []
    ensures n in Collected(fs) ==> Collected(fs)[n] == ValuesOf(fs, n)
  {
    if fs != [] { CollectedAt(fs[..|fs| - 1], n); }
  }

  lemma {:induction false} ValuesOfAppend(a: seq<Field>, b: seq<Field>, n: Text)
    ensures ValuesOf(a + b, n) == ValuesOf(a, n) + ValuesOf(b, n)
  {
    if b == [] {
      assert a + b == a;
    } else {
      assert (a + b)[..|a + b| - 1] == a + b[..|b| - 1];
      ValuesOfAppend(a, b[..|b| - 1], n);
    }
  }

  lemma {:induction false} CanonicalsAppend(a: seq<Field>, b: seq<Field>)
    ensures Canonicals(a + b) == Canonicals(a) + Canonicals(b)
  {
    if a == [] {
      assert a + b == b;
    } else {
      assert (a + b)[1..] == a[1..] + b;
      CanonicalsAppend(a[1..], b);
    }
  }

  function WrittenValues(values: seq<Text>): (r: seq<Text>)
    ensures |r| == |values|
  {
    if values == [] then [] else [WrittenValue(values[0])] + WrittenValues(values[1..])
  }

  /** What is written under the spellings of `n`. */
  function LinesFor(h: Header, names: seq<Text>, n: Text): seq<Text>
    requires forall k :: k in names ==> k in h
  {
    if names == [] then []
    else
      var own := if Writable(names[0]) && Canonical(names[0]) == n then WrittenValues(h[names[0]]) else [];
      own + LinesFor(h, names[1..], n)
  }

  lemma ValuesOfCons(f: Field, fs: seq<Field>, n: Text)
    ensures ValuesOf([f] + fs, n) == (if f.name == n then [f.value] else []) + ValuesOf(fs, n)
  {
    ValuesOfAppend([f], fs, n);
    var one := [f];
    assert one[..0] == [];
  }

  lemma {:induction false} ValueFieldsRead(k: Text, values: seq<Text>, n: Text)
    ensures ValuesOf(Canonicals(ValueFields(k, values)), n) ==
            if Writable(k) && Canonical(k) == n then WrittenValues(values) else []
  {
    if values != [] && Writable(k) {
      ValueFieldsRead(k, values[1..], n);
      var f, rest := Field(k, WrittenValue(values[0])), ValueFields(k, values[1..]);
      assert ValueFields(k, values)[1..] == rest;
      ValuesOfCons(Field(Canonical(k), f.value), Canonicals(rest), n);
    }
  }

  lemma {:induction false} FieldsUnderRead(h: Header, names: seq<Text>, n: Text)
    requires forall k :: k in names ==> k in h
    ensures ValuesOf(Canonicals(FieldsUnder(h, names)), n) == LinesFor(h, names, n)
  {
    if names != [] {
      var a, b := ValueFields(names[0], h[names[0]]), FieldsUnder(h, names[1..]);
      FieldsUnderRead(h, names[1..], n);
      ValueFieldsRead(names[0], h[names[0]], n);
      CanonicalsAppend(a, b);
      ValuesOfAppend(Canonicals(a), Canonicals(b), n);
    }
  }

  /** For any header: a name comes back with the lines of all its spellings, in order. */
  lemma ReadBackAt(h: Header, n: Text)
    ensures var lines := LinesFor(h, Sorted(h.Keys), n);
            (n in ReadBack(h) <==> lines != []) && (n in ReadBack(h) ==> ReadBack(h)[n] == lines)
  {
    CollectedAt(Canonicals(WrittenFields(h)), n);
    FieldsUnderRead(h, Sorted(h.Keys), n);
  }

  /** Every name is a token in canonical form, with at least one line, and every line is trimmed
      and free of newlines. */
  ghost predicate CanonicalHeader(h: Header) {
    forall k :: k in h ==> Writable(k) && Canonical(k) == k && h[k] != [] && forall v :: v in h[k] ==> Settled(v)
  }

  lemma {:induction false} SettledValues(values: seq<Text>)
    requires forall v :: v in values ==> Settled(v)
    ensures WrittenValues(values) == values
  {
    if values != [] {
      WrittenSettled(values[0]);
      SettledValues(values[1..]);
      assert values == [values[0]] + values[1..];
    }
  }

  lemma {:induction false} CanonicalLines(h: Header, names: seq<Text>, n: Text)
    requires CanonicalHeader(h) && Ascending(names) && forall k :: k in names ==> k in h
    ensures LinesFor(h, names, n) == if n in names then h[n] else []
  {
    if names != [] {
      var k, rest := names[0], names[1..];
      assert k in names && names == [k] + rest;
      CanonicalLines(h, rest, n);
      SettledValues(h[k]);
      if k in rest { BelowOrders(k, k); }
    }
  }

  lemma CanonicalComesBack(h: Header)
    requires CanonicalHeader(h)
    ensures ReadBack(h) == h
  {
    forall n ensures n in ReadBack(h) <==> n in h {
      ReadBackAt(h, n);
      CanonicalLines(h, Sorted(h.Keys), n);
    }
    forall n | n in h ensures ReadBack(h)[n] == h[n] {
      ReadBackAt(h, n);
      CanonicalLines(h, Sorted(h.Keys), n);
    }
  }

  /** Writing and reading a canonical header is the identity. */
  lemma RecordRoundTrip(code: int, h: Header, at: int, codec: Codec)
    requires Int64(code) && Sound(codec) && codec.date(at) && codec.accepts(SPACE) && CanonicalHeader(h)
    requires AllAccepted(WrittenFields(h), codec)
    ensures ReadRecord(Serialized(code, h, at, codec), codec) == Hit(Entry(code, Some(at), h))
  {
    CompleteIsRead(code, h, at, codec);
    CanonicalComesBack(h);
  }
}
