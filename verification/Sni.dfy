/**
 Server name extraction from a TLS ClientHello (src/egress_broker.py), against an encoder of the messages of
 section 3 of RFC 6066 and sections 4.1.2 and 5.1 of RFC 8446.
 */
module Sni {
  import opened Wrappers

  type Byte = b: int | 0 <= b < 256

  type Bytes = seq<Byte>

  const HANDSHAKE_RECORD: Byte := 0x16
  const CLIENT_HELLO: Byte := 1
  const SERVER_NAME := 0
  const HOST_NAME: Byte := 0
  const PEEK_CAP := 16384

  datatype PeekError = NotHandshake | OverCap | Incomplete | Truncated | NotClientHello

  function U16(b: Bytes, at: nat): (n: nat)
    requires at + 2 <= |b|
    ensures n < 65536
  {
    (b[at] as int) * 256 + b[at + 1] as int
  }

  /** Python's slice from a valid start: cut short at the end. */
  function Cut(b: Bytes, start: nat, count: nat): Bytes
    requires start <= |b|
  {
    if start + count <= |b| then b[start..start + count] else b[start..]
  }

  // ------------------------------------------------------------------ the parser

  /** The length of the first record, or None while bytes are missing. */
  function TlsRecordLength(buffer: Bytes): (r: Result<Option<nat>, PeekError>)
    ensures r.Ok? && r.value.Some? ==> 5 <= r.value.value <= |buffer|
  {
    if |buffer| < 5 then Ok(None)
    else if buffer[0] != HANDSHAKE_RECORD then Err(NotHandshake)
    else
      var total := 5 + U16(buffer, 3);
      if total > PEEK_CAP then Err(OverCap) else if |buffer| < total then Ok(None) else Ok(Some(total))
  }

  /** The extensions from a position on, added to those found before; a later one replaces an earlier. */
  function ExtensionsFrom(data: Bytes, pos: nat, end: nat, found: map<int, Bytes>): map<int, Bytes>
    decreases |data| - pos
  {
    if pos + 4 > end || pos + 4 > |data| then found
    else
      var kind, length := U16(data, pos), U16(data, pos + 2);
      ExtensionsFrom(data, pos + 4 + length, end, found[kind := Cut(data, pos + 4, length)])
  }

  function Extensions(data: Bytes, offset: nat): map<int, Bytes> {
    if offset + 2 > |data| then map[] else ExtensionsFrom(data, offset + 2, offset + 2 + U16(data, offset), map[])
  }

  method ParseExtensions(data: Bytes, offset: nat) returns (found: map<int, Bytes>)
    ensures found == Extensions(data, offset)
  {
    found := map[];
    if offset + 2 > |data| { return; }
    var pos := offset + 2;
    var end := pos + U16(data, offset);
    while pos + 4 <= end && pos + 4 <= |data|
      invariant ExtensionsFrom(data, pos, end, found) == Extensions(data, offset)
      decreases |data| - pos
    {
      var kind, length := U16(data, pos), U16(data, pos + 2);
      pos := pos + 4;
      found := found[kind := Cut(data, pos, length)];
      pos := pos + length;
    }
  }

  predicate Ascii(name: Bytes) {
    forall b :: b in name ==> b < 128
  }

  /** The first host name from a position on, when it is ASCII. */
  function HostNameFrom(payload: Bytes, pos: nat, end: nat): Option<Bytes>
    requires end <= |payload|
    decreases end - pos
  {
    if pos + 3 > end then None
    else
      var length := U16(payload, pos + 1);
      var name := Cut(payload, pos + 3, length);
      if payload[pos] != HOST_NAME then HostNameFrom(payload, pos + 3 + length, end)
      else if Ascii(name) then Some(name)
      else None
  }

  function ListEnd(payload: Bytes): (end: nat)
    requires |payload| >= 2
    ensures end <= |payload|
  {
    if 2 + U16(payload, 0) < |payload| then 2 + U16(payload, 0) else |payload|
  }

  function HostName(payload: Bytes): Option<Bytes> {
    if |payload| < 2 then None else HostNameFrom(payload, 2, ListEnd(payload))
  }

  method SniFromExtension(payload: Bytes) returns (r: Option<Bytes>)
    ensures r == HostName(payload)
  {
    if |payload| < 2 { return None; }
    var pos, end := 2, ListEnd(payload);
    while pos + 3 <= end
      invariant HostNameFrom(payload, pos, end) == HostName(payload)
      decreases end - pos
    {
      var nameType := payload[pos];
      var length := U16(payload, pos + 1);
      pos := pos + 3;
      var name := Cut(payload, pos, length);
      pos := pos + length;
      if nameType == HOST_NAME {
        if Ascii(name) { return Some(name); }
        return None;
      }
    }
    return None;
  }

  /** Where the extensions of a record start, past the header, version, random and three length-prefixed fields. */
  function ExtensionsAt(record: Bytes): Result<nat, PeekError> {
    if |record| < 9 then Err(Truncated)
    else if record[5] != CLIENT_HELLO then Err(NotClientHello)
    else if 44 > |record| then Err(Truncated)
    else
      var afterSession := 44 + record[43] as int;
      if afterSession + 2 > |record| then Err(Truncated)
      else
        var afterCiphers := afterSession + 2 + U16(record, afterSession);
        if afterCiphers + 1 > |record| then Err(Truncated)
        else Ok(afterCiphers + 1 + record[afterCiphers] as int)
  }

  function RecordName(record: Bytes): Result<Option<Bytes>, PeekError> {
    match ExtensionsAt(record)
    case Err(e) => Err(e)
    case Ok(at) =>
      var found := Extensions(record, at);
      if SERVER_NAME !in found || found[SERVER_NAME] == [] then Ok(None) else Ok(HostName(found[SERVER_NAME]))
  }

  function Sni(buffer: Bytes): Result<Option<Bytes>, PeekError> {
    match TlsRecordLength(buffer)
    case Err(e) => Err(e)
    case Ok(None) => Err(Incomplete)
    case Ok(Some(total)) => RecordName(buffer[..total])
  }

  /** The length a record header announces, with its own five bytes. */
  function Announced(buffer: Bytes): nat
    requires |buffer| >= 5
  {
    5 + 256 * (buffer[3] as int) + buffer[4] as int
  }

  predicate WholeRecord(buffer: Bytes) {
    |buffer| >= 5 && buffer[0] == 22 && Announced(buffer) <= 16384 && Announced(buffer) <= |buffer|
  }

  /** Total: every byte string gives a name, no name, or an error, and every read is in range. */
  method ExtractSni(buffer: Bytes) returns (r: Result<Option<Bytes>, PeekError>)
    ensures r == Sni(buffer)
    ensures |buffer| < 5 ==> r == Err(Incomplete)
    ensures |buffer| >= 5 && buffer[0] != 22 ==> r == Err(NotHandshake)
    ensures |buffer| >= 5 && buffer[0] == 22 && Announced(buffer) > 16384 ==> r == Err(OverCap)
    ensures |buffer| >= 5 && buffer[0] == 22 && |buffer| < Announced(buffer) <= 16384 ==> r == Err(Incomplete)
    ensures WholeRecord(buffer) && Announced(buffer) < 9 ==> r == Err(Truncated)
    ensures WholeRecord(buffer) && Announced(buffer) >= 9 && buffer[5] != 1 ==> r == Err(NotClientHello)
  {
    var length := TlsRecordLength(buffer);
    if length.Err? { return Err(length.error); }
    if length.value.None? { return Err(Incomplete); }
    var record := buffer[..length.value.value];
    if |record| < 5 + 4 { return Err(Truncated); }
    if record[5] != CLIENT_HELLO { return Err(NotClientHello); }
    var pos := 5 + 4;
    if pos + 2 + 32 + 1 > |record| { return Err(Truncated); }
    pos := pos + 2 + 32;
    pos := pos + 1 + record[pos];
    if pos + 2 > |record| { return Err(Truncated); }
    pos := pos + 2 + U16(record, pos);
    if pos + 1 > |record| { return Err(Truncated); }
    pos := pos + 1 + record[pos];
    var found := ParseExtensions(record, pos);
    if SERVER_NAME !in found || found[SERVER_NAME] == [] { return Ok(None); }
    var name := SniFromExtension(found[SERVER_NAME]);
    return Ok(name);
  }

  /** Once the first record is there, or is refused, what follows it changes nothing. */
  lemma LaterBytesChangeNothing(buffer: Bytes, later: Bytes)
    requires TlsRecordLength(buffer) != Ok(None)
    ensures Sni(buffer + later) == Sni(buffer)
  {
    assert forall i :: 0 <= i < 5 ==> (buffer + later)[i] == buffer[i];
    assert TlsRecordLength(buffer + later) == TlsRecordLength(buffer);
    if TlsRecordLength(buffer).Ok? {
      var total := TlsRecordLength(buffer).value.value;
      assert (buffer + later)[..total] == buffer[..total];
    }
  }

  // ------------------------------------------------------------------ the encoder

  function Word(n: nat): Bytes
    requires n < 65536
  {
    [n / 256, n % 256]
  }

  /** A field with its length in two bytes before it. */
  function Prefixed(b: Bytes): Bytes
    requires |b| < 65536
  {
    Word(|b|) + b
  }

  /** A field with its length in one byte before it. */
  function Short(field: Bytes): Bytes
    requires |field| < 256
  {
    [|field|] + field
  }

  datatype Extension = Extension(kind: nat, data: Bytes)

  datatype ServerName = ServerName(nameType: Byte, name: Bytes)

  datatype Hello = Hello(recordVersion: Bytes, version: Bytes, random: Bytes, session: Bytes,
                         ciphers: Bytes, compression: Bytes, extensions: seq<Extension>)

  ghost predicate ExtensionOk(e: Extension) {
    e.kind < 65536 && |e.data| < 65536
  }

  function EncodeExtension(e: Extension): Bytes
    requires ExtensionOk(e)
  {
    Word(e.kind) + Prefixed(e.data)
  }

  function EncodeExtensions(es: seq<Extension>): Bytes
    requires forall e :: e in es ==> ExtensionOk(e)
  {
    if es == [] then [] else EncodeExtension(es[0]) + EncodeExtensions(es[1..])
  }

  function EncodeName(n: ServerName): Bytes
    requires |n.name| < 65536
  {
    [n.nameType] + Prefixed(n.name)
  }

  function EncodeNames(ns: seq<ServerName>): Bytes
    requires forall n :: n in ns ==> |n.name| < 65536
  {
    if ns == [] then [] else EncodeName(ns[0]) + EncodeNames(ns[1..])
  }

  /** Field sizes as the wire format bounds them. */
  ghost predicate FieldsOk(h: Hello) {
    && |h.recordVersion| == 2 && |h.version| == 2 && |h.random| == 32
    && |h.session| < 256 && |h.ciphers| < 65536 && |h.compression| < 256
    && (forall e :: e in h.extensions ==> ExtensionOk(e)) && |EncodeExtensions(h.extensions)| < 65536
  }

  function Tail(h: Hello): Bytes
    requires FieldsOk(h)
  {
    Short(h.session) + Prefixed(h.ciphers) + Short(h.compression) + Prefixed(EncodeExtensions(h.extensions))
  }

  function Body(h: Hello): Bytes
    requires FieldsOk(h)
  {
    h.version + h.random + Tail(h)
  }

  /** A handshake message in one record that fits the peek cap, with no two extensions of one kind. */
  ghost predicate HelloOk(h: Hello) {
    && FieldsOk(h) && 9 + |Body(h)| <= PEEK_CAP
    && forall i, j :: 0 <= i < j < |h.extensions| ==> h.extensions[i].kind != h.extensions[j].kind
  }

  /** All before the session id: record header, handshake header, version and random. */
  function Head(h: Hello): Bytes
    requires HelloOk(h)
  {
    var n := |Body(h)|;
    [HANDSHAKE_RECORD] + h.recordVersion + Word(4 + n) + [CLIENT_HELLO, 0, n / 256, n % 256] + h.version + h.random
  }

  function Record(h: Hello): Bytes
    requires HelloOk(h)
  {
    Head(h) + Tail(h)
  }

  // ------------------------------------------------------------------ reading back

  lemma U16OfWord(before: Bytes, n: nat, rest: Bytes)
    requires n < 65536
    ensures U16(before + Word(n) + rest, |before|) == n
  {
    var b := before + Word(n) + rest;
    assert b[|before|] == n / 256 && b[|before| + 1] == n % 256;
  }

  lemma CutOfField(before: Bytes, field: Bytes, rest: Bytes)
    ensures Cut(before + field + rest, |before|, |field|) == field
  {
    assert (before + field + rest)[|before|..|before| + |field|] == field;
  }

  /** The name a server name list carries: that of its first host name entry, when it is ASCII. */
  function FirstHostName(ns: seq<ServerName>): Option<Bytes> {
    if ns == [] then None
    else if ns[0].nameType != HOST_NAME then FirstHostName(ns[1..])
    else if Ascii(ns[0].name) then Some(ns[0].name)
    else None
  }

  lemma OneName(before: Bytes, n: ServerName, rest: Bytes)
    requires |n.name| < 65536
    ensures var payload := before + EncodeName(n) + rest;
      && payload[|before|] == n.nameType && U16(payload, |before| + 1) == |n.name|
         && Cut(payload, |before| + 3, |n.name|) == n.name
  {
    var payload, head := before + EncodeName(n) + rest, before + [n.nameType];
    assert payload == head + Word(|n.name|) + (n.name + rest);
    U16OfWord(head, |n.name|, n.name + rest);
    assert payload == (head + Word(|n.name|)) + n.name + rest;
    CutOfField(head + Word(|n.name|), n.name, rest);
  }

  lemma OneNameRead(payload: Bytes, before: Bytes, n: ServerName, rest: Bytes)
    requires |n.name| < 65536 && payload == before + EncodeName(n) + rest
    ensures HostNameFrom(payload, |before|, |payload|) ==
              if n.nameType != HOST_NAME then HostNameFrom(payload, |before + EncodeName(n)|, |payload|)
              else if Ascii(n.name) then Some(n.name)
              else None
  {
    OneName(before, n, rest);
  }

  lemma {:induction false} NamesReadBack(payload: Bytes, before: Bytes, ns: seq<ServerName>)
    requires (forall n :: n in ns ==> |n.name| < 65536) && payload == before + EncodeNames(ns)
    ensures HostNameFrom(payload, |before|, |payload|) == FirstHostName(ns)
    decreases |ns|
  {
    if ns != [] {
      var rest, next := EncodeNames(ns[1..]), before + EncodeName(ns[0]);
      assert payload == next + rest;
      OneNameRead(payload, before, ns[0], rest);
      NamesReadBack(payload, next, ns[1..]);
    }
  }

  lemma ListReadsBack(ns: seq<ServerName>)
    requires (forall n :: n in ns ==> |n.name| < 65536) && |EncodeNames(ns)| < 65536
    ensures HostName(Prefixed(EncodeNames(ns))) == FirstHostName(ns)
  {
    var names := EncodeNames(ns);
    assert Prefixed(names) == [] + Word(|names|) + names;
    U16OfWord([], |names|, names);
    NamesReadBack(Prefixed(names), Word(|names|), ns);
  }

  function Collected(es: seq<Extension>, found: map<int, Bytes>): map<int, Bytes> {
    if es == [] then found else Collected(es[1..], found[es[0].kind := es[0].data])
  }

  lemma OneExtension(before: Bytes, e: Extension, rest: Bytes)
    requires ExtensionOk(e)
    ensures var data := before + EncodeExtension(e) + rest;
      && U16(data, |before|) == e.kind && U16(data, |before| + 2) == |e.data|
         && Cut(data, |before| + 4, |e.data|) == e.data
  {
    var data, head := before + EncodeExtension(e) + rest, before + Word(e.kind);
    assert data == before + Word(e.kind) + (Prefixed(e.data) + rest);
    U16OfWord(before, e.kind, Prefixed(e.data) + rest);
    assert data == head + Word(|e.data|) + (e.data + rest);
    U16OfWord(head, |e.data|, e.data + rest);
    assert data == (head + Word(|e.data|)) + e.data + rest;
    CutOfField(head + Word(|e.data|), e.data, rest);
  }

  lemma OneExtensionRead(data: Bytes, before: Bytes, e: Extension, rest: Bytes, found: map<int, Bytes>)
    requires ExtensionOk(e) && data == before + EncodeExtension(e) + rest
    ensures ExtensionsFrom(data, |before|, |data|, found)
      == ExtensionsFrom(data, |before + EncodeExtension(e)|, |data|, found[e.kind := e.data])
  {
    OneExtension(before, e, rest);
  }

  lemma {:induction false} ExtensionsReadBack(data: Bytes, before: Bytes, es: seq<Extension>, found: map<int, Bytes>)
    requires (forall e :: e in es ==> ExtensionOk(e)) && data == before + EncodeExtensions(es)
    ensures ExtensionsFrom(data, |before|, |data|, found) == Collected(es, found)
    decreases |es|
  {
    if es != [] {
      var rest, next := EncodeExtensions(es[1..]), before + EncodeExtension(es[0]);
      assert data == next + rest;
      OneExtensionRead(data, before, es[0], rest, found);
      ExtensionsReadBack(data, next, es[1..], found[es[0].kind := es[0].data]);
    }
  }

  lemma {:induction false} CollectedKeeps(es: seq<Extension>, found: map<int, Bytes>, kind: int)
    requires forall e :: e in es ==> e.kind != kind
    ensures kind in Collected(es, found) <==> kind in found
    ensures kind in found ==> Collected(es, found)[kind] == found[kind]
  {
    if es != [] {
      assert es[0] in es;
      CollectedKeeps(es[1..], found[es[0].kind := es[0].data], kind);
    }
  }

  lemma {:induction false} CollectedHas(es: seq<Extension>, found: map<int, Bytes>, i: nat)
    requires i < |es| && forall j, k :: 0 <= j < k < |es| ==> es[j].kind != es[k].kind
    ensures es[i].kind in Collected(es, found) && Collected(es, found)[es[i].kind] == es[i].data
  {
    var more := found[es[0].kind := es[0].data];
    if i == 0 {
      CollectedKeeps(es[1..], more, es[0].kind);
    } else {
      CollectedHas(es[1..], more, i - 1);
    }
  }

  lemma PastLongField(before: Bytes, field: Bytes, rest: Bytes)
    requires |field| < 65536
    ensures U16(before + Prefixed(field) + rest, |before|) == |field|
  {
    assert before + Prefixed(field) + rest == before + Word(|field|) + (field + rest);
    U16OfWord(before, |field|, field + rest);
  }

  /** Four fields one after the other, and what follows. */
  lemma ExtensionsAfter(head: Bytes, session: Bytes, ciphers: Bytes, compression: Bytes, rest: Bytes)
    requires |head| == 43 && head[5] == CLIENT_HELLO && |session| < 256 && |ciphers| < 65536 && |compression| < 256
    ensures var before := head + Short(session) + Prefixed(ciphers) + Short(compression);
      ExtensionsAt(before + rest) == Ok(|before|)
  {
    var p1 := head + Short(session);
    var p2 := p1 + Prefixed(ciphers);
    var r := p2 + Short(compression) + rest;
    assert r == head + (Short(session) + Prefixed(ciphers) + Short(compression) + rest);
    assert r[5] == CLIENT_HELLO && r[43] == |session|;
    assert r == p1 + Prefixed(ciphers) + (Short(compression) + rest);
    PastLongField(p1, ciphers, Short(compression) + rest);
    assert r[|p2|] == |compression|;
  }

  /** All before the extensions. */
  function Before(h: Hello): Bytes
    requires HelloOk(h)
  {
    Head(h) + Short(h.session) + Prefixed(h.ciphers) + Short(h.compression)
  }

  /** The extensions a record was encoded with are those the parser finds. */
  lemma RecordReadsBack(h: Hello)
    requires HelloOk(h)
    ensures Record(h) == Before(h) + Prefixed(EncodeExtensions(h.extensions))
    ensures ExtensionsAt(Record(h)) == Ok(|Before(h)|)
    ensures Extensions(Record(h), |Before(h)|) == Collected(h.extensions, map[])
  {
    var before, field := Before(h), Prefixed(EncodeExtensions(h.extensions));
    ExtensionsAfter(Head(h), h.session, h.ciphers, h.compression, field);
    assert Record(h) == before + field;
    FieldReadsBack(Record(h), before, h.extensions);
  }

  lemma FieldReadsBack(record: Bytes, before: Bytes, es: seq<Extension>)
    requires (forall e :: e in es ==> ExtensionOk(e)) && |EncodeExtensions(es)| < 65536
    requires record == before + Prefixed(EncodeExtensions(es))
    ensures Extensions(record, |before|) == Collected(es, map[])
  {
    var field := EncodeExtensions(es);
    assert record == before + Word(|field|) + field;
    U16OfWord(before, |field|, field);
    ExtensionsReadBack(record, before + Word(|field|), es, map[]);
  }

  lemma RecordLength(h: Hello, later: Bytes)
    requires HelloOk(h)
    ensures TlsRecordLength(Record(h) + later) == Ok(Some(|Record(h)|))
    ensures (Record(h) + later)[..|Record(h)|] == Record(h)
  {
    var n := |Body(h)|;
    var buffer, start := Record(h) + later, [HANDSHAKE_RECORD] + h.recordVersion;
    assert |Record(h)| == 9 + n;
    var rest := [CLIENT_HELLO, 0, n / 256, n % 256] + h.version + h.random + Tail(h) + later;
    assert buffer == start + Word(4 + n) + rest;
    U16OfWord(start, 4 + n, rest);
  }

  /** For every well-formed ClientHello, whatever follows it, extraction gives what its server name extension
      carries: the name of its first host name entry, if that is ASCII. */
  lemma ExtractionFindsTheName(h: Hello, later: Bytes, i: nat, ns: seq<ServerName>)
    requires HelloOk(h) && i < |h.extensions| && h.extensions[i].kind == SERVER_NAME
    requires (forall n :: n in ns ==> |n.name| < 65536) && |EncodeNames(ns)| < 65536
    requires h.extensions[i].data == Prefixed(EncodeNames(ns))
    ensures Sni(Record(h) + later) == Ok(FirstHostName(ns))
  {
    RecordLength(h, later);
    RecordReadsBack(h);
    CollectedHas(h.extensions, map[], i);
    ListReadsBack(ns);
  }

  /** In particular the one ASCII host name a client sends comes back byte for byte. */
  lemma TheHostNameComesBack(h: Hello, later: Bytes, i: nat, name: Bytes)
    requires HelloOk(h) && i < |h.extensions| && Ascii(name) && |name| < 65533
    requires h.extensions[i] == Extension(SERVER_NAME, Prefixed(EncodeName(ServerName(HOST_NAME, name))))
    ensures Sni(Record(h) + later) == Ok(Some(name))
  {
    var ns := [ServerName(HOST_NAME, name)];
    assert EncodeNames(ns) == EncodeName(ns[0]) + EncodeNames([]) by { assert ns[1..] == []; }
    ExtractionFindsTheName(h, later, i, ns);
  }

  /** Without a server name extension there is no name. */
  lemma NoServerNameNoName(h: Hello, later: Bytes)
    requires HelloOk(h) && forall e :: e in h.extensions ==> e.kind != SERVER_NAME
    ensures Sni(Record(h) + later) == Ok(None)
  {
    RecordLength(h, later);
    RecordReadsBack(h);
    CollectedKeeps(h.extensions, map[], SERVER_NAME);
  }
}
