/** PostgreSQL message framing (src/honeypots/postgresql_honeypot.py), and the reading of
    data rows that section 55.7 of the PostgreSQL 15 documentation prescribes. */
module PostgresFraming {
  import opened Text

  type Byte = b: int | 0 <= b < 256

  type Bytes = seq<Byte>

  // ---------------------------------------------------------------- big-endian words

  function Be16(n: nat): Bytes
    requires n < 0x1_0000
  {
    [n / 0x100, n % 0x100]
  }

  function Be32(n: nat): (r: Bytes)
    requires n < 0x1_0000_0000
    ensures |r| == 4 && n == r[0] as int * 0x100_0000 + r[1] as int * 0x1_0000 + r[2] as int * 0x100 + r[3] as int
  {
    Be16(n / 0x1_0000) + Be16(n % 0x1_0000)
  }

  function Word16(s: Bytes): (n: nat)
    requires |s| >= 2
    ensures n < 0x1_0000
  {
    s[0] as int * 0x100 + s[1] as int
  }

  function Word32(s: Bytes): (n: nat)
    requires |s| >= 4
    ensures n < 0x1_0000_0000
  {
    Word16(s) * 0x1_0000 + Word16(s[2..])
  }

  lemma WordsRoundTrip(n: nat, rest: Bytes)
    ensures n < 0x1_0000 ==> Word16(Be16(n) + rest) == n
    ensures n < 0x1_0000_0000 ==> Word32(Be32(n) + rest) == n
  {
    if n < 0x1_0000_0000 {
      var high, low := n / 0x1_0000, n % 0x1_0000;
      assert (Be32(n) + rest)[2..] == Be16(low) + rest;
    }
  }

  // ------------------------------------------------------------------------- sending

  datatype Message = Message(kind: Byte, body: Bytes)

  /** `None` when the length does not fit its field: packing raises and nothing is sent. */
  function Frame(m: Message): Option<Bytes> {
    if |m.body| + 4 < 0x1_0000_0000 then Some([m.kind] + Be32(|m.body| + 4) + m.body) else None
  }

  /** The client's end of a connection: what it still has to deliver and what it received. */
  class Client {
    var incoming: Bytes
    var outgoing: Bytes

    constructor (incoming: Bytes)
      ensures this.incoming == incoming && outgoing == []
    {
      this.incoming := incoming;
      outgoing := [];
    }

    /** At least one byte and at most `most`, or none at the end of the stream. */
    method Recv(most: nat) returns (chunk: Bytes)
      requires most > 0
      modifies this`incoming
      ensures old(incoming) == chunk + incoming
      ensures |chunk| <= most && (chunk == [] <==> old(incoming) == [])
    {
      if incoming == [] { return []; }
      var k: nat :| 1 <= k <= most && k <= |incoming|;
      chunk := incoming[..k];
      incoming := incoming[k..];
    }

    /** A read that delivers all it is asked for unless the stream ends first. */
    method RecvWhole(most: nat) returns (chunk: Bytes)
      modifies this`incoming
      ensures old(incoming) == chunk + incoming
      ensures |chunk| == if most < |old(incoming)| then most else |old(incoming)|
    {
      var k := if most < |incoming| then most else |incoming|;
      chunk := incoming[..k];
      incoming := incoming[k..];
    }

    method SendMessage(m: Message) returns (ok: bool)
      modifies this`outgoing
      ensures ok <==> Frame(m).Some?
      ensures outgoing == old(outgoing) + if ok then Frame(m).value else []
    {
      if |m.body| + 4 >= 0x1_0000_0000 { return false; }
      outgoing := outgoing + ([m.kind] + Be32(|m.body| + 4) + m.body);
      ok := true;
    }
  }

  // ------------------------------------------------------------------------- reading

  const SSL_REQUEST: Bytes := [0, 0, 0, 8, 4, 210, 22, 47]
  const GSSENC_REQUEST: Bytes := [0, 0, 0, 8, 4, 210, 22, 48]

  datatype Reading = Gone | Got(message: Message)

  /** What the reader returns for the two requests: the texts `SSL_REQUEST` and
      `GSSENC_REQUEST` under the types `S` and `G`. */
  const SSL_MARK := Message(83, [83, 83, 76, 95, 82, 69, 81, 85, 69, 83, 84])
  const GSSENC_MARK := Message(71, [71, 83, 83, 69, 78, 67, 95, 82, 69, 81, 85, 69, 83, 84])

  function Least(a: nat, b: nat): nat { if a < b then a else b }

  /** How long a body the header `s` announces; a length below four announces none. */
  function Announced(s: Bytes): nat
    requires |s| >= 4
  {
    if Word32(s) < 4 then 0 else Word32(s) - 4
  }

  /** What one read makes of a stream, and what it leaves; a stream that ends early yields a
      shortened body. */
  function Read(s: Bytes): (Reading, Bytes) {
    if s == [] then (Gone, [])
    else if s[0] == 0 then
      if |s| < 8 then (Gone, [])
      else if s[..8] == SSL_REQUEST then (Got(SSL_MARK), s[8..])
      else if s[..8] == GSSENC_REQUEST then (Got(GSSENC_MARK), s[8..])
      else (Gone, s[8..])
    else if |s| < 5 then (Gone, [])
    else
      var n := Least(Announced(s[1..]), |s| - 5);
      (Got(Message(s[0], s[5..5 + n])), s[5 + n..])
  }

  /** An SSL or a GSSAPI request, which is refused with the single byte `N`. */
  predicate AsksForEncryption(s: Bytes) {
    |s| >= 8 && (s[..8] == [0, 0, 0, 8, 4, 210, 22, 47] || s[..8] == [0, 0, 0, 8, 4, 210, 22, 48])
  }

  /** What the reader makes of each kind of beginning. */
  lemma Beginnings(s: Bytes, kind: Byte, rest: Bytes)
    ensures Read([0, 0, 0, 8, 4, 210, 22, 47] + rest)
      == (Got(Message(83, [83, 83, 76, 95, 82, 69, 81, 85, 69, 83, 84])), rest)
    ensures Read([0, 0, 0, 8, 4, 210, 22, 48] + rest)
      == (Got(Message(71, [71, 83, 83, 69, 78, 67, 95, 82, 69, 81, 85, 69, 83, 84])), rest)
    ensures s != [] && s[0] == 0 && !AsksForEncryption(s) ==> Read(s) == (Gone, if |s| < 8 then [] else s[8..])
    ensures |s| < 4 && kind != 0 ==> Read([kind] + s) == (Gone, [])
    ensures |s| >= 4 && kind != 0 ==>
      var length := s[0] as int * 0x100_0000 + s[1] as int * 0x1_0000 + s[2] as int * 0x100 + s[3] as int;
      Read([kind] + s) ==
        if length < 4 then (Got(Message(kind, [])), s[4..])
        else if length <= |s| then (Got(Message(kind, s[4..length])), s[length..])
        else (Got(Message(kind, s[4..])), [])
  {
    var ssl, gss := [0, 0, 0, 8, 4, 210, 22, 47] + rest, [0, 0, 0, 8, 4, 210, 22, 48] + rest;
    assert ssl[..8] == SSL_REQUEST && ssl[8..] == rest && gss[..8] == GSSENC_REQUEST && gss[8..] == rest;
    assert SSL_REQUEST[7] != GSSENC_REQUEST[7];
    if kind != 0 { HeaderBegins(s, kind); }
    if |s| >= 4 { BigEndian(s); }
  }

  lemma BigEndian(s: Bytes)
    requires |s| >= 4
    ensures Word32(s) == s[0] as int * 0x100_0000 + s[1] as int * 0x1_0000 + s[2] as int * 0x100 + s[3] as int
  {
    assert s[2..][0] == s[2] && s[2..][1] == s[3];
    assert Word16(s[2..]) == s[2] as int * 0x100 + s[3] as int && Word16(s) == s[0] as int * 0x100 + s[1] as int;
  }

  lemma HeaderBegins(s: Bytes, kind: Byte)
    requires kind != 0
    ensures |s| < 4 ==> Read([kind] + s) == (Gone, [])
    ensures |s| >= 4 ==>
      Read([kind] + s) ==
        if Word32(s) < 4 then (Got(Message(kind, [])), s[4..])
        else if Word32(s) <= |s| then (Got(Message(kind, s[4..Word32(s)])), s[Word32(s)..])
        else (Got(Message(kind, s[4..])), [])
  {
    hide Word32;
    var t := [kind] + s;
    assert t[1..] == s;
    if |s| >= 4 {
      var n := Least(Announced(s), |s| - 4);
      assert t[5..5 + n] == s[4..4 + n] && t[5 + n..] == s[4 + n..];
      assert s[4..|s|] == s[4..] && s[4..4] == [] && s[|s|..] == [];
    }
  }

  /** Reading gives the same message and leaves the same rest however the body is cut into
      chunks. */
  method ReadMessage(client: Client) returns (r: Reading)
    modifies client
    ensures (r, client.incoming) == Read(old(client.incoming))
    ensures client.outgoing == old(client.outgoing) + if AsksForEncryption(old(client.incoming)) then [78] else []
  {
    ghost var s := client.incoming;
    var kind := client.RecvWhole(1);
    if kind == [] { return Gone; }
    if kind == [0] {
      var more := client.RecvWhole(7);
      if |more| != 7 { return Gone; }
      var full := kind + more;
      assert full == s[..8] && client.incoming == s[8..];
      if full == SSL_REQUEST {
        client.outgoing := client.outgoing + [78];
        return Got(SSL_MARK);
      } else if full == GSSENC_REQUEST {
        client.outgoing := client.outgoing + [78];
        return Got(GSSENC_MARK);
      }
      return Gone;
    }
    var header := client.RecvWhole(4);
    if |header| != 4 { return Gone; }
    assert s == kind + header + client.incoming;
    assert s[1..5] == header && Word32(s[1..]) == Word32(header);
    var body := ReadBody(client, Word32(header) - 4);
    var n := |body|;
    assert s[5..] == body + client.incoming;
    assert s[5..5 + n] == s[5..][..n] == body && s[5 + n..] == s[5..][n..] == client.incoming;
    r := Got(Message(kind[0], body));
  }

  /** The receive loop: as much of the announced body as the stream holds. */
  method ReadBody(client: Client, length: int) returns (body: Bytes)
    modifies client`incoming
    ensures old(client.incoming) == body + client.incoming
    ensures |body| == Least(if length < 0 then 0 else length, |old(client.incoming)|)
  {
    body := [];
    while |body| < length
      invariant body + client.incoming == old(client.incoming)
      invariant |body| <= if length < 0 then 0 else length
      decreases length - |body|
    {
      var chunk := client.Recv(if 4096 < length - |body| then 4096 else length - |body|);
      if chunk == [] { break; }
      body := body + chunk;
    }
  }

  lemma ReadFrame(m: Message, rest: Bytes)
    requires m.kind != 0 && Frame(m).Some?
    ensures Read(Frame(m).value + rest) == (Got(m), rest)
  {
    var n := |m.body| + 4;
    var s := Frame(m).value + rest;
    assert s[1..] == Be32(n) + (m.body + rest);
    WordsRoundTrip(n, m.body + rest);
    assert s[5..5 + |m.body|] == m.body && s[5 + |m.body|..] == rest;
  }

  predicate Sendable(ms: seq<Message>) {
    forall i :: 0 <= i < |ms| ==> Frame(ms[i]).Some?
  }

  function Stream(ms: seq<Message>): Bytes
    requires Sendable(ms)
  {
    if ms == [] then [] else Frame(ms[0]).value + Stream(ms[1..])
  }

  /** The messages read until the stream is used up or a read fails. */
  function ReadAll(s: Bytes): seq<Message>
    decreases |s|
  {
    var (r, rest) := Read(s);
    if r.Got? then [r.message] + ReadAll(rest) else []
  }

  /** No reading has type zero. */
  lemma ReadsNoZero(s: Bytes)
    ensures Read(s).0.Got? ==> Read(s).0.message.kind != 0
    ensures ReadAll(s) != [] ==> ReadAll(s)[0].kind != 0
  {
  }

  predicate NoZero(ms: seq<Message>) {
    forall i :: 0 <= i < |ms| ==> ms[i].kind != 0
  }

  lemma NoZeroCons(ms: seq<Message>)
    requires ms != []
    ensures NoZero(ms) <==> ms[0].kind != 0 && NoZero(ms[1..])
  {
    if ms[0].kind != 0 && NoZero(ms[1..]) {
      assert forall i :: 0 < i < |ms| ==> ms[i] == ms[1..][i - 1];
    }
  }

  lemma ConsIsTail(head: Message, tail: seq<Message>, ms: seq<Message>)
    requires ms != [] && head == ms[0]
    ensures [head] + tail == ms <==> tail == ms[1..]
  {
    assert ms == [ms[0]] + ms[1..] && ([head] + tail)[1..] == tail;
  }

  /** Reading back any concatenation of sent messages gives exactly those messages if and
      only if none has type zero. */
  lemma {:induction false} StreamRoundTripIff(ms: seq<Message>)
    requires Sendable(ms)
    ensures ReadAll(Stream(ms)) == ms <==> NoZero(ms)
  {
    hide NoZero, Read, Frame;
    if ms == [] {
      NothingStreamed();
    } else {
      NoZeroCons(ms);
      ReadsNoZero(Stream(ms));
      hide ReadAll, Stream;
      StreamRoundTripIff(ms[1..]);
      if ms[0].kind != 0 {
        OneMoreRead(ms);
        ConsIsTail(ms[0], ReadAll(Stream(ms[1..])), ms);
      }
    }
  }

  lemma NothingStreamed()
    ensures ReadAll(Stream([])) == [] && NoZero([])
  {
  }

  lemma OneMoreRead(ms: seq<Message>)
    requires ms != [] && Sendable(ms) && ms[0].kind != 0
    ensures ReadAll(Stream(ms)) == [ms[0]] + ReadAll(Stream(ms[1..]))
  {
    ReadFrame(ms[0], Stream(ms[1..]));
  }

  /** A client's message can read like an SSL request. */
  lemma SslRequestIsAmbiguous()
    ensures Read(SSL_REQUEST).0 == Read(Frame(SSL_MARK).value).0 && SSL_REQUEST != Frame(SSL_MARK).value
  {
    assert SSL_REQUEST[..8] == SSL_REQUEST;
    ReadFrame(SSL_MARK, []);
    assert Frame(SSL_MARK).value + [] == Frame(SSL_MARK).value;
  }

  // ----------------------------------------------------------------------- data rows

  type Value = Option<Bytes>

  function EncodeValue(v: Value): Bytes
    requires v.Some? ==> |v.value| < 0x1_0000_0000
  {
    if v.None? then [255, 255, 255, 255] else Be32(|v.value|) + v.value
  }

  predicate Fits(vs: seq<Value>) {
    forall i :: 0 <= i < |vs| && vs[i].Some? ==> |vs[i].value| < 0x1_0000_0000
  }

  function EncodeValues(vs: seq<Value>): Bytes
    requires Fits(vs)
  {
    if vs == [] then [] else EncodeValue(vs[0]) + EncodeValues(vs[1..])
  }

  /** `None` when the count or a length does not fit its field. */
  function EncodeRow(vs: seq<Value>): Option<Bytes> {
    if |vs| < 0x1_0000 && Fits(vs) then Some(Be16(|vs|) + EncodeValues(vs)) else None
  }

  method BuildDataRow(vs: seq<Value>) returns (body: Option<Bytes>)
    ensures body == EncodeRow(vs)
  {
    if |vs| >= 0x1_0000 { return None; }
    var grown := Be16(|vs|);
    NothingEncoded();
    for i := 0 to |vs|
      invariant Fits(vs[..i]) && grown == Be16(|vs|) + EncodeValues(vs[..i])
    {
      hide EncodeValues, EncodeRow, Be16, Be32, Fits;
      var v := vs[i];
      if v.Some? && |v.value| >= 0x1_0000_0000 {
        TooLong(vs, i);
        return None;
      }
      var added := if v.None? then [255, 255, 255, 255] else Be32(|v.value|) + v.value;
      EncodeOneMore(vs[..i], v);
      assert vs[..i + 1] == vs[..i] + [v];
      Associate(Be16(|vs|), EncodeValues(vs[..i]), added);
      grown := grown + added;
    }
    assert vs[..|vs|] == vs;
    body := Some(grown);
  }

  lemma Associate(a: Bytes, b: Bytes, c: Bytes)
    ensures a + (b + c) == (a + b) + c
  {
  }

  lemma NothingEncoded()
    ensures Fits([]) && EncodeValues([]) == []
  {
  }

  lemma TooLong(vs: seq<Value>, i: nat)
    requires i < |vs| && vs[i].Some? && |vs[i].value| >= 0x1_0000_0000
    ensures EncodeRow(vs).None?
  {
  }

  lemma {:induction false} EncodeOneMore(vs: seq<Value>, v: Value)
    requires Fits(vs) && (v.Some? ==> |v.value| < 0x1_0000_0000)
    ensures Fits(vs + [v]) && EncodeValues(vs + [v]) == EncodeValues(vs) + EncodeValue(v)
  {
    hide EncodeValue;
    if vs == [] {
      assert vs + [v] == [v] && [v][1..] == [];
      assert EncodeValues([v]) == EncodeValue(v) + [];
    } else {
      assert (vs + [v])[1..] == vs[1..] + [v];
      EncodeOneMore(vs[1..], v);
    }
  }

  /** `n` values, each a signed 32-bit length, minus one for NULL, and that many bytes. */
  function DecodeValues(s: Bytes, n: nat): Option<seq<Value>> {
    if n == 0 then (if s == [] then Some([]) else None)
    else if |s| < 4 then None
    else
      var length := Word32(s);
      if length == 0xFFFF_FFFF then
        var rest := DecodeValues(s[4..], n - 1);
        if rest.None? then None else Some([None] + rest.value)
      else if length >= 0x8000_0000 || |s| < 4 + length then None
      else
        var rest := DecodeValues(s[4 + length..], n - 1);
        if rest.None? then None else Some([Some(s[4..4 + length])] + rest.value)
  }

  /** A signed 16-bit count, and the values. */
  function DecodeRow(s: Bytes): Option<seq<Value>> {
    if |s| < 2 || Word16(s) >= 0x8000 then None else DecodeValues(s[2..], Word16(s))
  }

  predicate Signed(vs: seq<Value>) {
    forall i :: 0 <= i < |vs| && vs[i].Some? ==> |vs[i].value| < 0x8000_0000
  }

  lemma {:induction false} ValuesDecodeIff(vs: seq<Value>)
    requires Fits(vs)
    ensures DecodeValues(EncodeValues(vs), |vs|) == Some(vs) <==> Signed(vs)
  {
    hide Fits, DecodeValues, EncodeValue, EncodeValues, Signed;
    if vs == [] {
      NothingDecoded();
    } else {
      var v, rest := vs[0], vs[1..];
      FitsCons(vs);
      ValuesDecodeIff(rest);
      FirstValue(v, EncodeValues(rest), rest);
      SignedCons(v, rest);
      assert vs == [v] + rest && |vs| == |rest| + 1;
    }
  }

  lemma NothingDecoded()
    ensures Fits([]) && Signed([]) && DecodeValues(EncodeValues([]), 0) == Some([])
  {
  }

  lemma FitsCons(vs: seq<Value>)
    requires vs != [] && Fits(vs)
    ensures Fits(vs[1..]) && (vs[0].Some? ==> |vs[0].value| < 0x1_0000_0000)
    ensures EncodeValues(vs) == EncodeValue(vs[0]) + EncodeValues(vs[1..])
  {
  }

  lemma SignedCons(v: Value, rest: seq<Value>)
    ensures Signed([v] + rest) <==> Signed([v]) && Signed(rest)
  {
    assert ([v] + rest)[0] == v && [v][0] == v;
    assert forall i :: 0 <= i < |rest| ==> rest[i] == ([v] + rest)[i + 1];
  }

  lemma FirstValue(v: Value, tail: Bytes, rest: seq<Value>)
    requires v.Some? ==> |v.value| < 0x1_0000_0000
    ensures DecodeValues(EncodeValue(v) + tail, |rest| + 1) == Some([v] + rest)
      <==> Signed([v]) && DecodeValues(tail, |rest|) == Some(rest)
  {
    assert Signed([v]) <==> v.None? || |v.value| < 0x8000_0000 by { assert [v][0] == v; }
    if v.None? || |v.value| < 0x8000_0000 {
      var others := DecodeValues(tail, |rest|);
      FirstDecoded(v, tail, |rest|);
      if others.Some? { ConsIsInjective(v, others.value, rest); }
    } else {
      LongIsMisread(v, tail, rest);
    }
  }

  lemma FirstDecoded(v: Value, tail: Bytes, n: nat)
    requires v.Some? ==> |v.value| < 0x8000_0000
    ensures var others := DecodeValues(tail, n);
      DecodeValues(EncodeValue(v) + tail, n + 1) == if others.None? then None else Some([v] + others.value)
  {
    var s := EncodeValue(v) + tail;
    if v.None? {
      assert s[4..] == tail && Word32(s) == 0xFFFF_FFFF;
    } else {
      var length := |v.value|;
      assert s == Be32(length) + (v.value + tail);
      WordsRoundTrip(length, v.value + tail);
      assert s[4 + length..] == tail && s[4..4 + length] == v.value;
    }
  }

  /** A length with its top bit set is malformed, or reads as NULL. */
  lemma LongIsMisread(v: Value, tail: Bytes, rest: seq<Value>)
    requires v.Some? && 0x8000_0000 <= |v.value| < 0x1_0000_0000
    ensures DecodeValues(EncodeValue(v) + tail, |rest| + 1) != Some([v] + rest)
  {
    var s := EncodeValue(v) + tail;
    assert s == Be32(|v.value|) + (v.value + tail);
    WordsRoundTrip(|v.value|, v.value + tail);
    var others := DecodeValues(s[4..], |rest|);
    if others.Some? { assert ([None] + others.value)[0] != ([v] + rest)[0]; }
  }

  lemma ConsIsInjective(v: Value, a: seq<Value>, b: seq<Value>)
    ensures [v] + a == [v] + b <==> a == b
  {
    assert ([v] + a)[1..] == a && ([v] + b)[1..] == b;
  }

  /** A row that could be sent decodes to the same values and NULLs exactly when its count
      and its lengths fit the signed fields of the protocol. */
  lemma RowDecodesIff(vs: seq<Value>)
    requires EncodeRow(vs).Some?
    ensures DecodeRow(EncodeRow(vs).value) == Some(vs) <==> |vs| < 0x8000 && Signed(vs)
  {
    var body := EncodeRow(vs).value;
    WordsRoundTrip(|vs|, EncodeValues(vs));
    assert body[2..] == EncodeValues(vs);
    ValuesDecodeIff(vs);
  }

  /** A row of 32768 NULLs is sent but not read back: its count turns negative. */
  lemma ManyNullsAreMisread(vs: seq<Value>)
    requires |vs| == 0x8000 && forall i :: 0 <= i < |vs| ==> vs[i].None?
    ensures EncodeRow(vs).Some? && DecodeRow(EncodeRow(vs).value) != Some(vs)
  {
    RowDecodesIff(vs);
  }
}
