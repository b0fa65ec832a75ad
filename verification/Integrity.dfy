/**
 Integrity records (integrity.go): a header record that names the key, the size and the SHA-256 of
 the body it was written with, and checks itself.

 SHA-256, base64 and JSON are parameters.  No function on all byte strings is both injective and
 of fixed length, so the results ask for no collision only between the texts they speak of.
 */
module Integrity {
  import opened Wrappers
  import opened GoStrings
  import opened HeaderRecord

  /** The zero time.Time. */
  const ZERO := 0

  datatype Meta = Meta(storedAt: int, size: int, body: Text, header: Text, key: Text)

  /** `digest` tells digest texts, `date` the times RFC 3339 can write. */
  datatype Kit = Kit(
    sha: Text -> Text, digest: Text -> bool, date: int -> bool,
    json: Meta -> Text, unjson: Text -> Option<Meta>, b64: Text -> Text, unb64: Text -> Option<Text>)

  /** What the encoder is given: digests, an int64 size and a time that can be written. */
  predicate Encodable(m: Meta, kit: Kit) {
    && Int64(m.size) && kit.date(m.storedAt)
    && kit.digest(m.body) && kit.digest(m.key) && (m.header == [] || kit.digest(m.header))
  }

  /** Digests look like digests; JSON and base64 can be read back and stay on one line, and JSON
      decodes into the int64 and the time of the record. */
  ghost predicate Reliable(kit: Kit) {
    && (forall x :: kit.digest(kit.sha(x)))
    && (forall m :: Encodable(m, kit) ==> kit.unjson(kit.json(m)) == Some(m) && OneLine(kit.json(m)))
    && (forall t :: kit.unjson(t).Some? ==> Int64(kit.unjson(t).value.size) && kit.date(kit.unjson(t).value.storedAt))
    && (forall x :: kit.unb64(kit.b64(x)) == Some(x) && OneLine(kit.b64(x)))
  }

  predicate NoCollision(kit: Kit, x: Text, y: Text) {
    kit.sha(x) == kit.sha(y) ==> x == y
  }

  // ------------------------------------------------------------------- the source

  /** What recordDigest hashes. */
  function DigestInput(m: Meta, record: Text, kit: Kit): Text {
    kit.json(m.(header := [])) + ([LF] + record)
  }

  function RecordDigest(m: Meta, record: Text, kit: Kit): Text {
    kit.sha(DigestInput(m, record, kit))
  }

  function Signed(m: Meta, record: Text, kit: Kit): Meta {
    m.(header := RecordDigest(m, record, kit))
  }

  function SealLine(m: Meta, kit: Kit): Text {
    SEALED + kit.b64(kit.json(m))
  }

  /** serializeIntegrityHeader, with the HTTP part already written. */
  function Seal(m: Meta, record: Text, kit: Kit): Text {
    SealLine(Signed(m, record, kit), kit) + (CRLF + record)
  }

  /** The lines of the HTTP part. */
  ghost function HttpLines(code: int, h: Header, codec: Codec): seq<Text> {
    [StatusLine(code, codec)] + FieldLines(WrittenFields(h))
  }

  ghost function HttpRecord(code: int, h: Header, codec: Codec): Text {
    Record(HttpLines(code, h, codec))
  }

  /** The metadata a store writes for a key and a body. */
  function MetaFor(key: Text, body: Text, at: int, kit: Kit): Meta {
    Meta(at, |body|, kit.sha(body), [], kit.sha(key))
  }

  /** bytes.Index(s, "\r\n"), or the length. */
  function IndexBreak(s: Text): (i: nat)
    ensures i <= |s|
  {
    if |s| < 2 then |s| else if s[0] == CR && s[1] == LF then 0 else 1 + IndexBreak(s[1..])
  }

  datatype Decoded = Unsealed | Corrupt | Accepted(meta: Meta)

  function Unpack(text: Text, kit: Kit): Option<Meta> {
    var t := kit.unb64(text);
    if t.None? then None else kit.unjson(t.value)
  }

  predicate WellFormed(m: Meta, kit: Kit) {
    m.storedAt != ZERO && m.size >= 0 && kit.digest(m.body) && kit.digest(m.header) && kit.digest(m.key)
  }

  /** decodeIntegrityRecord */
  function Decode(raw: Text, key: Text, required: bool, checkKey: bool, kit: Kit): Decoded {
    if !(SEALED <= raw) then (if required then Corrupt else Unsealed)
    else
      var rest := raw[|SEALED|..];
      var cut := IndexBreak(rest);
      if cut + 2 > |rest| then Corrupt
      else
        var m := Unpack(rest[..cut], kit);
        if m.None? || !WellFormed(m.value, kit) then Corrupt
        else if checkKey && m.value.key != kit.sha(key) then Corrupt
        else if m.value.header != RecordDigest(m.value, rest[cut + 2..], kit) then Corrupt
        else Accepted(m.value)
  }

  /** verifyStoredBody */
  predicate BodyMatches(m: Meta, body: Text, kit: Kit) {
    |body| == m.size && kit.sha(body) == m.body
  }

  datatype Retrieval = NotFound | Failed | Served(entry: Entry, body: Text)

  /** Retrieve in integrity mode: the two files found under the key's hash, at this moment. */
  function Retrieve(raw: Text, body: Text, key: Text, kit: Kit, codec: Codec): Retrieval {
    if !EndsRecord(raw) then NotFound
    else
      var d := Decode(raw, key, true, true, kit);
      var e := ReadStored(Lines(raw), codec);
      if d.Accepted? && e.Some? && BodyMatches(d.meta, body, kit) then Served(e.value, body) else Failed
  }

  /** What is accepted matches its body and its key, whoever wrote the files. */
  lemma ServedMatches(raw: Text, body: Text, key: Text, kit: Kit, codec: Codec)
    requires Retrieve(raw, body, key, kit, codec).Served?
    ensures Decode(raw, key, true, true, kit).Accepted?
    ensures var m := Decode(raw, key, true, true, kit).meta;
            && |body| == m.size && kit.sha(body) == m.body && kit.sha(key) == m.key
            && m.storedAt != ZERO && kit.digest(m.body) && kit.digest(m.header) && kit.digest(m.key)
  {
  }

  // ------------------------------------------------------------- sealed and decoded

  lemma {:induction false} BreakFound(x: Text, rest: Text)
    requires OneLine(x)
    ensures IndexBreak(x + (CRLF + rest)) == |x|
  {
    var s := x + (CRLF + rest);
    if x == [] {
      assert s[0] == CR && s[1] == LF;
    } else {
      assert x[0] in x && s[0] == x[0];
      assert s[1..] == x[1..] + (CRLF + rest);
      assert forall c :: c in x[1..] ==> c in x;
      BreakFound(x[1..], rest);
    }
  }

  lemma SealParts(m: Meta, record: Text, kit: Kit)
    requires Reliable(kit) && Encodable(m, kit)
    ensures SEALED <= Seal(m, record, kit)
    ensures var rest := Seal(m, record, kit)[|SEALED|..];
            var cut := IndexBreak(rest);
            && cut + 2 <= |rest| && rest[cut + 2..] == record
            && Unpack(rest[..cut], kit) == Some(Signed(m, record, kit))
  {
    var line := kit.b64(kit.json(Signed(m, record, kit)));
    var raw := Seal(m, record, kit);
    assert raw == SEALED + (line + (CRLF + record));
    assert raw[|SEALED|..] == line + (CRLF + record);
    BreakFound(line, record);
    assert (line + (CRLF + record))[..|line|] == line;
    assert (line + (CRLF + record))[|line| + 2..] == record;
  }

  lemma SealDecodes(m: Meta, record: Text, key: Text, required: bool, checkKey: bool, kit: Kit)
    requires Reliable(kit) && Encodable(m, kit)
    ensures Decode(Seal(m, record, kit), key, required, checkKey, kit) ==
            if m.storedAt == ZERO || m.size < 0 || (checkKey && m.key != kit.sha(key)) then Corrupt
            else Accepted(Signed(m, record, kit))
  {
    SealParts(m, record, kit);
    assert Signed(m, record, kit).(header := []) == m.(header := []);
  }

  /** A record without an integrity line is corrupt exactly when one is required. */
  lemma UnsealedExactly(raw: Text, key: Text, required: bool, checkKey: bool, kit: Kit)
    ensures Decode(raw, key, required, checkKey, kit) == Unsealed <==> !required && !(SEALED <= raw)
    ensures Decode(raw, key, required, checkKey, kit).Accepted? ==> SEALED <= raw
  {
  }

  /** Freshening a decoded header writes what a store of the same body at that time would have. */
  lemma FreshenReseals(key: Text, body: Text, at: int, record: Text, later: int, newRecord: Text, kit: Kit)
    requires Reliable(kit) && at != ZERO && kit.date(at) && Int64(|body|)
    ensures Decode(Seal(MetaFor(key, body, at, kit), record, kit), key, true, true, kit).Accepted?
    ensures var m := Decode(Seal(MetaFor(key, body, at, kit), record, kit), key, true, true, kit).meta;
            Seal(m.(storedAt := later), newRecord, kit) == Seal(MetaFor(key, body, later, kit), newRecord, kit)
  {
    var w := MetaFor(key, body, at, kit);
    SealDecodes(w, record, key, true, true, kit);
    var m := Signed(w, record, kit);
    assert m.(storedAt := later).(header := []) == MetaFor(key, body, later, kit).(header := []);
  }

  lemma LfSplits(a: Text, x: Text, b: Text, y: Text)
    requires OneLine(a) && OneLine(b) && a + ([LF] + x) == b + ([LF] + y)
    ensures a == b && x == y
  {
    assert forall i :: 0 <= i < |a| ==> a[i] in a;
    assert forall i :: 0 <= i < |b| ==> b[i] in b;
    BeforeStop(a, [LF] + x, IsLf);
    BeforeStop(b, [LF] + y, IsLf);
    assert (a + ([LF] + x))[|a| + 1..] == x && (b + ([LF] + y))[|b| + 1..] == y;
  }

  /** The bytes after the integrity line. */
  function RecordPart(raw: Text): Text
    requires SEALED <= raw && IndexBreak(raw[|SEALED|..]) + 2 <= |raw| - |SEALED|
  {
    raw[|SEALED|..][IndexBreak(raw[|SEALED|..]) + 2..]
  }

  lemma AcceptedIsSealed(raw: Text, key: Text, kit: Kit)
    requires Decode(raw, key, true, true, kit).Accepted?
    ensures SEALED <= raw && IndexBreak(raw[|SEALED|..]) + 2 <= |raw| - |SEALED|
    ensures var m := Decode(raw, key, true, true, kit).meta; m.header == RecordDigest(m, RecordPart(raw), kit)
  {
  }

  /** Metadata or record changed under an unchanged record digest is never accepted. */
  lemma DamageIsDetected(m: Meta, record: Text, raw: Text, key: Text, kit: Kit)
    requires Reliable(kit) && Encodable(m, kit) && Decode(raw, key, true, true, kit).Accepted?
    requires Decode(raw, key, true, true, kit).meta.header == RecordDigest(m, record, kit)
    requires SEALED <= raw && IndexBreak(raw[|SEALED|..]) + 2 <= |raw| - |SEALED|
    requires var d := Decode(raw, key, true, true, kit).meta;
             NoCollision(kit, DigestInput(m, record, kit), DigestInput(d, RecordPart(raw), kit))
    ensures Decode(raw, key, true, true, kit).meta == Signed(m, record, kit) && RecordPart(raw) == record
  {
    AcceptedIsSealed(raw, key, kit);
    var d := Decode(raw, key, true, true, kit).meta;
    LfSplits(kit.json(m.(header := [])), record, kit.json(d.(header := [])), RecordPart(raw));
    assert kit.unjson(kit.json(m.(header := []))) == Some(m.(header := []));
    assert kit.unjson(kit.json(d.(header := []))) == Some(d.(header := []));
    assert d == d.(header := []).(header := d.header);
  }

  // ------------------------------------------------------------------ what is served

  /** parseIntegrityPreamble agrees with the decoder on the store time. */
  ghost predicate Reads(codec: Codec, kit: Kit) {
    forall m :: Encodable(m, kit) ==> codec.sealedAt(SealLine(m, kit)) == Some(m.storedAt)
  }

  lemma SealIsRecord(m: Meta, code: int, h: Header, kit: Kit, codec: Codec)
    ensures Seal(m, HttpRecord(code, h, codec), kit) ==
            Record([SealLine(Signed(m, HttpRecord(code, h, codec), kit), kit)] + HttpLines(code, h, codec))
  {
    var lines := HttpLines(code, h, codec);
    var line := SealLine(Signed(m, HttpRecord(code, h, codec), kit), kit);
    assert ([line] + lines)[1..] == lines;
  }

  lemma HttpRead(code: int, h: Header, at: int, codec: Codec)
    requires Int64(code) && codec.accepts(SPACE)
    ensures ReadResponse(HttpLines(code, h, codec) + [[]], Some(at), codec) ==
            if AllAccepted(WrittenFields(h), codec) then Some(Entry(code, Some(at), ReadBack(h))) else None
  {
    var fs := WrittenFields(h);
    var rest := FieldLines(fs) + [[]];
    assert HttpLines(code, h, codec) + [[]] == [StatusLine(code, codec)] + rest;
    ResponseRead(code, Some(at), rest, codec);
    FieldsUnderGood(h, Sorted(h.Keys));
    MimeRead(fs, codec);
  }

  lemma SealRead(line: Text, at: int, code: int, h: Header, codec: Codec)
    requires Int64(code) && Sound(codec) && codec.accepts(SPACE) && OneLine(line) && SEALED <= line
    requires codec.sealedAt(line) == Some(at)
    ensures var raw := Record([line] + HttpLines(code, h, codec));
            && EndsRecord(raw)
            && ReadStored(Lines(raw), codec) ==
               if AllAccepted(WrittenFields(h), codec) then Some(Entry(code, Some(at), ReadBack(h))) else None
  {
    var tail := HttpLines(code, h, codec);
    HttpLinesShape(code, h, codec);
    RecordEnds([line] + tail);
    RecordRead([line] + tail);
    assert [line] + tail + [[]] == [line] + (tail + [[]]);
    SealLineRead(line, at, tail + [[]], codec);
    HttpRead(code, h, at, codec);
  }

  lemma SealLineRead(line: Text, at: int, rest: seq<Text>, codec: Codec)
    requires SEALED <= line && codec.sealedAt(line) == Some(at)
    ensures ReadStored([line] + rest, codec) == ReadResponse(rest, Some(at), codec)
  {
    assert line[10] == SEALED[10] && STORED_AT[10] != SEALED[10];
    assert !(STORED_AT <= line);
    assert ([line] + rest)[1..] == rest;
  }

  lemma HttpLinesShape(code: int, h: Header, codec: Codec)
    requires Int64(code) && Sound(codec)
    ensures forall l :: l in HttpLines(code, h, codec) ==> OneLine(l) && l != []
  {
    FieldsUnderGood(h, Sorted(h.Keys));
    FieldLinesShape(WrittenFields(h));
    StatusLineShape(code, codec);
  }

  lemma SealLineShape(m: Meta, kit: Kit)
    requires Reliable(kit)
    ensures OneLine(SealLine(m, kit)) && SEALED <= SealLine(m, kit) && SealLine(m, kit) != []
  {
    var b := kit.b64(kit.json(m));
    OneLineJoin(SEALED, b);
  }

  /** A header written for `key` and `body`, found together with any body under any key, is served
      exactly when the key and the body are those it was written for: pairs mixed by a crash between
      two renames, or found under a colliding file name, are misses. */
  lemma ServedExactly(
    key: Text, body: Text, at: int, code: int, h: Header, asked: Text, found: Text, kit: Kit, codec: Codec)
    requires Reliable(kit) && Sound(codec) && Reads(codec, kit) && codec.accepts(SPACE)
    requires Int64(code) && at != ZERO && kit.date(at) && Int64(|body|)
    requires AllAccepted(WrittenFields(h), codec)
    requires NoCollision(kit, key, asked) && NoCollision(kit, body, found)
    ensures var raw := Seal(MetaFor(key, body, at, kit), HttpRecord(code, h, codec), kit);
            Retrieve(raw, found, asked, kit, codec) ==
            if asked == key && found == body then Served(Entry(code, Some(at), ReadBack(h)), body) else Failed
  {
    var m, record := MetaFor(key, body, at, kit), HttpRecord(code, h, codec);
    var line := SealLine(Signed(m, record, kit), kit);
    SealDecodes(m, record, asked, true, true, kit);
    SealIsRecord(m, code, h, kit, codec);
    SealLineShape(Signed(m, record, kit), kit);
    SealRead(line, at, code, h, codec);
  }

  /** A sealed record cut short anywhere is a miss as well. */
  lemma TruncatedSealIsMiss(
    key: Text, body: Text, at: int, code: int, h: Header, asked: Text, found: Text, n: nat, kit: Kit, codec: Codec)
    requires Reliable(kit) && Sound(codec) && Int64(code)
    requires n < |Seal(MetaFor(key, body, at, kit), HttpRecord(code, h, codec), kit)|
    ensures var raw := Seal(MetaFor(key, body, at, kit), HttpRecord(code, h, codec), kit);
            Retrieve(raw[..n], found, asked, kit, codec) == NotFound
  {
    var m, record := MetaFor(key, body, at, kit), HttpRecord(code, h, codec);
    SealIsRecord(m, code, h, kit, codec);
    SealLineShape(Signed(m, record, kit), kit);
    HttpLinesShape(code, h, codec);
    TruncationShows([SealLine(Signed(m, record, kit), kit)] + HttpLines(code, h, codec), n);
  }

  // ---------------------------------------------------------- discarding corruption

  /** The files of a cache, by hashed key. */
  class Files {
    var headers: map<string, Text>
    var bodies: map<string, Text>

    /** The caller saw `observed` fail; the files may have been replaced since. */
    method DiscardCorrupt(
      hashed: string, fingerprint: Text, ghost observed: Text, kit: Kit, readable: bool, keepsBody: bool,
      keepsHeader: bool) returns (removed: bool)
      requires fingerprint == kit.sha(observed)
      requires hashed in headers ==> NoCollision(kit, observed, headers[hashed])
      modifies this
      ensures removed <==> readable && hashed in old(headers) && old(headers)[hashed] == observed
      ensures bodies == if removed && !keepsBody then old(bodies) - {hashed} else old(bodies)
      ensures headers == if removed && !keepsHeader then old(headers) - {hashed} else old(headers)
    {
      if hashed !in headers || !readable || kit.sha(headers[hashed]) != fingerprint {
        return false;
      }
      if !keepsBody {
        bodies := bodies - {hashed};
      }
      if !keepsHeader {
        headers := headers - {hashed};
      }
      removed := true;
    }
  }
}
