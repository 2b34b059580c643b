/** First-packet sniffing (internal/agent/egress/sniff.go): the SNI of a TLS
    ClientHello and the Host of an HTTP request, read off the stream so that what
    was read can be replayed. */
module Sniff {
  import opened Base
  import opened HostNames

  type byte = i: int | 0 <= i < 256

  type bytes = seq<byte>

  const MAX_HTTP_HEADER := 8 * 1024
  const MAX_CLIENT_HELLO := 16 * 1024

  function U16(b: bytes, i: nat): nat
    requires i + 1 < |b|
  {
    b[i] as int * 256 + b[i+1] as int
  }

  function Text(b: bytes): string {
    seq(|b|, i requires 0 <= i < |b| => b[i] as char)
  }

  // ---- the grammar of section 4.1.2 of RFC 8446 and section 3 of RFC 6066 ----

  function Enc16(n: nat): bytes
    requires n < 65536
  {
    [n / 256, n % 256]
  }

  function Vec8(d: bytes): bytes
    requires |d| < 256
  {
    [|d|] + d
  }

  function Vec16(d: bytes): bytes
    requires |d| < 65536
  {
    Enc16(|d|) + d
  }

  datatype Extension = Extension(kind: nat, data: bytes) {
    predicate Valid() {
      kind < 65536 && |data| < 65536
    }
  }

  datatype Name = Name(kind: byte, data: bytes) {
    predicate Valid() {
      |data| < 65536
    }
  }

  /** A ClientHello; the extension block may be missing altogether. */
  datatype Hello = Hello(version: bytes, random: bytes, session: bytes, ciphers: bytes, compression: bytes,
                         extensions: Option<seq<Extension>>)

  function EncodeExtensions(xs: seq<Extension>): bytes
    requires forall i :: 0 <= i < |xs| ==> xs[i].Valid()
  {
    if xs == [] then [] else assert xs[0].Valid(); Enc16(xs[0].kind) + Vec16(xs[0].data) + EncodeExtensions(xs[1..])
  }

  function EncodeNames(ns: seq<Name>): bytes
    requires forall i :: 0 <= i < |ns| ==> ns[i].Valid()
  {
    if ns == [] then [] else assert ns[0].Valid(); [ns[0].kind] + Vec16(ns[0].data) + EncodeNames(ns[1..])
  }

  predicate WellFormed(h: Hello) {
    && |h.version| == 2 && |h.random| == 32
    && |h.session| < 256 && |h.ciphers| < 65536 && |h.compression| < 256
    && (h.extensions.Some? ==>
          && (forall i :: 0 <= i < |h.extensions.value| ==> h.extensions.value[i].Valid())
          && |EncodeExtensions(h.extensions.value)| < 65536)
  }

  function EncodeBody(h: Hello): bytes
    requires WellFormed(h)
  {
    h.version + h.random + Vec8(h.session) + Vec16(h.ciphers) + Vec8(h.compression)
    + if h.extensions.Some? then Vec16(EncodeExtensions(h.extensions.value)) else []
  }

  /** The handshake message: type, 24-bit length, body. */
  function EncodeHandshake(h: Hello): bytes
    requires WellFormed(h) && |EncodeBody(h)| < 0x100_0000
  {
    var n := |EncodeBody(h)|;
    [1, n / 65536, (n / 256) % 256, n % 256] + EncodeBody(h)
  }

  /** The data of the first server_name extension. */
  function FirstServerName(xs: seq<Extension>): Option<bytes> {
    if xs == [] then None else if xs[0].kind == 0 then Some(xs[0].data) else FirstServerName(xs[1..])
  }

  /** The first non-empty name of type host_name. */
  function FirstHostName(ns: seq<Name>): Option<bytes> {
    if ns == [] then None
    else if ns[0].kind == 0 && ns[0].data != [] then Some(ns[0].data)
    else FirstHostName(ns[1..])
  }

  // ---- what the parser computes, on the bytes not yet consumed ----

  function TakeVec8(s: bytes): Option<(bytes, bytes)> {
    if |s| < 1 || 1 + s[0] > |s| then None else Some((s[1..1 + s[0]], s[1 + s[0]..]))
  }

  function TakeVec16(s: bytes): Option<(bytes, bytes)> {
    if |s| < 2 || 2 + U16(s, 0) > |s| then None else Some((s[2..2 + U16(s, 0)], s[2 + U16(s, 0)..]))
  }

  function ScanNames(list: bytes): Option<bytes>
    decreases |list|
  {
    if |list| < 3 || 3 + U16(list, 1) > |list| then None
    else
      var host := list[3..3 + U16(list, 1)];
      if list[0] == 0 && host != [] then Some(host) else ScanNames(list[3 + U16(list, 1)..])
  }

  function ServerName(ext: bytes): Option<bytes> {
    if |ext| < 5 || U16(ext, 0) + 2 > |ext| then None else ScanNames(ext[2..2 + U16(ext, 0)])
  }

  function ScanExtensions(x: bytes): Option<bytes>
    decreases |x|
  {
    if |x| < 4 || 4 + U16(x, 2) > |x| then None
    else if U16(x, 0) == 0 then ServerName(x[4..4 + U16(x, 2)])
    else ScanExtensions(x[4 + U16(x, 2)..])
  }

  function ParseBody(body: bytes): Option<bytes> {
    if |body| < 36 then None
    else
      var sid := TakeVec8(body[34..]);
      if sid.None? then None
      else
        var cs := TakeVec16(sid.value.1);
        if cs.None? then None
        else
          var comp := TakeVec8(cs.value.1);
          if comp.None? then None
          else
            var exts := TakeVec16(comp.value.1);
            if exts.None? then None else ScanExtensions(exts.value.0)
  }

  function ParseHello(p: bytes): Option<bytes> {
    if |p| < 4 || p[0] != 1 then None
    else
      var n := p[1] as int * 65536 + p[2] as int * 256 + p[3] as int;
      if n + 4 > |p| then None else ParseBody(p[4..4 + n])
  }

  // ---- parsing inverts encoding ----

  lemma TakeVec8Inverts(d: bytes, rest: bytes)
    requires |d| < 256
    ensures TakeVec8(Vec8(d) + rest) == Some((d, rest))
  {
    var s := Vec8(d) + rest;
    assert s[1..1 + |d|] == d && s[1 + |d|..] == rest;
  }

  lemma Enc16Inverts(n: nat, rest: bytes)
    requires n < 65536
    ensures U16(Enc16(n) + rest, 0) == n
  {
  }

  lemma TakeVec16Inverts(d: bytes, rest: bytes)
    requires |d| < 65536
    ensures TakeVec16(Vec16(d) + rest) == Some((d, rest))
  {
    var s := Vec16(d) + rest;
    assert s == Enc16(|d|) + (d + rest);
    Enc16Inverts(|d|, d + rest);
    assert s[2..2 + |d|] == d && s[2 + |d|..] == rest;
  }

  lemma {:induction false} ScanNamesInverts(ns: seq<Name>)
    requires forall i :: 0 <= i < |ns| ==> ns[i].Valid()
    ensures ScanNames(EncodeNames(ns)) == FirstHostName(ns)
  {
    if ns != [] {
      var list, d, rest := EncodeNames(ns), ns[0].data, EncodeNames(ns[1..]);
      assert list == [ns[0].kind] + (Enc16(|d|) + (d + rest));
      Enc16Inverts(|d|, d + rest);
      assert U16(list, 1) == U16(Enc16(|d|) + (d + rest), 0);
      assert list[3..3 + |d|] == d && list[3 + |d|..] == rest;
      ScanNamesInverts(ns[1..]);
    }
  }

  /** On the extension as encoded, the parser finds the first non-empty host_name. */
  lemma ServerNameInverts(ns: seq<Name>)
    requires (forall i :: 0 <= i < |ns| ==> ns[i].Valid()) && |EncodeNames(ns)| < 65536
    ensures ServerName(Vec16(EncodeNames(ns))) == FirstHostName(ns)
  {
    var list := EncodeNames(ns);
    var ext := Vec16(list);
    Enc16Inverts(|list|, list);
    assert ext[2..2 + |list|] == list;
    ScanNamesInverts(ns);
  }

  function OnFirst(xs: seq<Extension>): Option<bytes> {
    var x := FirstServerName(xs);
    if x.None? then None else ServerName(x.value)
  }

  lemma {:induction false} ScanExtensionsInverts(xs: seq<Extension>)
    requires forall i :: 0 <= i < |xs| ==> xs[i].Valid()
    ensures ScanExtensions(EncodeExtensions(xs)) == OnFirst(xs)
  {
    if xs != [] {
      var s, k, d, rest := EncodeExtensions(xs), xs[0].kind, xs[0].data, EncodeExtensions(xs[1..]);
      assert s == Enc16(k) + (Enc16(|d|) + (d + rest));
      Enc16Inverts(k, Enc16(|d|) + (d + rest));
      Enc16Inverts(|d|, d + rest);
      assert U16(s, 2) == U16(Enc16(|d|) + (d + rest), 0);
      assert s[4..4 + |d|] == d && s[4 + |d|..] == rest;
      ScanExtensionsInverts(xs[1..]);
    }
  }

  lemma BodyLayout(head: bytes, a: bytes, b: bytes, c: bytes, d: bytes)
    requires |head| == 34
    ensures (head + a + b + c + d)[34..] == a + (b + (c + d))
  {
  }

  lemma ParseBodyInverts(h: Hello)
    requires WellFormed(h)
    ensures ParseBody(EncodeBody(h)) == if h.extensions.None? then None else OnFirst(h.extensions.value)
  {
    var exts := if h.extensions.Some? then Vec16(EncodeExtensions(h.extensions.value)) else [];
    var body := EncodeBody(h);
    var r3 := Vec8(h.compression) + exts;
    var r2 := Vec16(h.ciphers) + r3;
    var r1 := Vec8(h.session) + r2;
    BodyLayout(h.version + h.random, Vec8(h.session), Vec16(h.ciphers), Vec8(h.compression), exts);
    TakeVec8Inverts(h.session, r2);
    TakeVec16Inverts(h.ciphers, r3);
    TakeVec8Inverts(h.compression, exts);
    if h.extensions.Some? {
      var x := EncodeExtensions(h.extensions.value);
      assert Vec16(x) + [] == exts;
      TakeVec16Inverts(x, []);
      ScanExtensionsInverts(h.extensions.value);
    }
  }

  /** For every well-formed ClientHello in one record, whatever its session id,
      cipher suites, compression methods and extensions, and whatever follows it,
      the parser answers from the first server_name extension. */
  lemma ParseInvertsEncode(h: Hello, trailing: bytes)
    requires WellFormed(h) && |EncodeBody(h)| < 0x100_0000
    ensures ParseHello(EncodeHandshake(h) + trailing) == if h.extensions.None? then None else OnFirst(h.extensions.value)
  {
    HeaderInverts(EncodeBody(h), trailing);
    ParseBodyInverts(h);
  }

  lemma HeaderInverts(body: bytes, trailing: bytes)
    requires |body| < 0x100_0000
    ensures var n := |body|; ParseHello([1, n / 65536, (n / 256) % 256, n % 256] + body + trailing) == ParseBody(body)
  {
    var n := |body|;
    var p := [1, n / 65536, (n / 256) % 256, n % 256] + body + trailing;
    assert p[1] as int * 65536 + p[2] as int * 256 + p[3] as int == n;
    assert p[4..4 + n] == body;
  }

  /** In particular: with a name list in that extension, the answer is its first
      non-empty host_name. */
  lemma SniIsFirstHostName(h: Hello, ns: seq<Name>, trailing: bytes)
    requires WellFormed(h) && |EncodeBody(h)| < 0x100_0000 && h.extensions.Some?
    requires (forall i :: 0 <= i < |ns| ==> ns[i].Valid()) && |EncodeNames(ns)| < 65534
    requires FirstServerName(h.extensions.value) == Some(Vec16(EncodeNames(ns)))
    ensures ParseHello(EncodeHandshake(h) + trailing) == FirstHostName(ns)
  {
    ParseInvertsEncode(h, trailing);
    ServerNameInverts(ns);
  }

  // ---- the parser as written: offsets into one buffer ----

  lemma SliceOfSlice(s: bytes, a: nat, b: nat, i: nat, j: nat)
    requires a <= b <= |s| && i <= j <= b - a
    ensures s[a..b][i..j] == s[a + i..a + j]
  {
    assert forall k :: 0 <= k < j - i ==> s[a..b][i..j][k] == s[a..b][i + k] == s[a + i + k] == s[a + i..a + j][k];
  }

  /** One round of the name loop, by offset. */
  lemma ScanNamesAt(list: bytes, i: nat, end: nat)
    requires i + 3 <= end <= |list|
    ensures var n := U16(list, i + 1);
      ScanNames(list[i..end]) ==
        if i + 3 + n > end then None
        else if list[i] == 0 && list[i + 3..i + 3 + n] != [] then Some(list[i + 3..i + 3 + n])
        else ScanNames(list[i + 3 + n..end])
  {
    var n, here := U16(list, i + 1), list[i..end];
    assert here[1] == list[i + 1] && here[2] == list[i + 2];
    if i + 3 + n <= end {
      SliceOfSlice(list, i, end, 3, 3 + n);
      SliceOfSlice(list, i, end, 3 + n, end - i);
      assert here[3 + n..] == here[3 + n..end - i];
    }
  }

  /** One round of the extension loop, by offset. */
  lemma ScanExtensionsAt(body: bytes, off: nat, end: nat)
    requires off + 4 <= end <= |body|
    ensures var size := U16(body, off + 2);
      ScanExtensions(body[off..end]) ==
        if off + 4 + size > end then None
        else if U16(body, off) == 0 then ServerName(body[off + 4..off + 4 + size])
        else ScanExtensions(body[off + 4 + size..end])
  {
    var size, here := U16(body, off + 2), body[off..end];
    assert here[2] == body[off + 2] && here[3] == body[off + 3];
    if off + 4 + size <= end {
      SliceOfSlice(body, off, end, 4, 4 + size);
      SliceOfSlice(body, off, end, 4 + size, end - off);
      assert here[4 + size..] == here[4 + size..end - off];
    }
  }

  method ParseServerNameExt(ext: bytes) returns (r: Option<bytes>)
    ensures r == ServerName(ext)
  {
    if |ext| < 5 {
      return None;
    }
    var listLen := U16(ext, 0);
    if listLen + 2 > |ext| {
      return None;
    }
    r := ScanNameList(ext, 2, 2 + listLen);
  }

  method ScanNameList(ext: bytes, start: nat, end: nat) returns (r: Option<bytes>)
    requires start <= end <= |ext|
    ensures r == ScanNames(ext[start..end])
  {
    ghost var goal := ScanNames(ext[start..end]);
    var i := start;
    while i + 3 <= end
      invariant start <= i <= end && goal == ScanNames(ext[i..end])
      decreases end - i
    {
      var kind, n := ext[i], U16(ext, i + 1);
      ScanNamesAt(ext, i, end);
      i := i + 3;
      if i + n > end {
        return None;
      }
      if kind == 0 && ext[i..i + n] != [] {
        return Some(ext[i..i + n]);
      }
      i := i + n;
    }
    r := None;
  }

  method ParseClientHelloSni(payload: bytes) returns (r: Option<bytes>)
    ensures r == ParseHello(payload)
  {
    if |payload| < 4 || payload[0] != 1 {
      return None;
    }
    var hsLen := payload[1] as int * 65536 + payload[2] as int * 256 + payload[3] as int;
    if hsLen + 4 > |payload| {
      return None;
    }
    r := ParseBodySni(payload[4..4 + hsLen]);
  }

  method ParseBodySni(body: bytes) returns (r: Option<bytes>)
    ensures r == ParseBody(body)
  {
    if |body| < 36 {
      return None;
    }
    var off := 34;
    var sidLen := body[off];
    off := off + 1;
    if off + sidLen > |body| {
      return None;
    }
    off := off + sidLen;
    assert TakeVec8(body[34..]).value.1 == body[off..];
    if off + 2 > |body| {
      return None;
    }
    var csLen := U16(body, off);
    assert U16(body[off..], 0) == csLen;
    ghost var o2 := off;
    off := off + 2 + csLen;
    if off + 1 > |body| {
      return None;
    }
    assert TakeVec16(body[o2..]).value.1 == body[off..];
    var compLen := body[off];
    ghost var o3 := off;
    off := off + 1 + compLen;
    if off + 2 > |body| {
      return None;
    }
    assert TakeVec8(body[o3..]).value.1 == body[off..];
    var extLen := U16(body, off);
    assert U16(body[off..], 0) == extLen;
    ghost var o4 := off;
    off := off + 2;
    var end := off + extLen;
    if end > |body| {
      return None;
    }
    ghost var x := body[off..end];
    assert TakeVec16(body[o4..]).value.0 == x;
    assert ParseBody(body) == ScanExtensions(x);
    r := ScanFrom(body, off, end);
  }

  method ScanFrom(body: bytes, start: nat, end: nat) returns (r: Option<bytes>)
    requires start <= end <= |body|
    ensures r == ScanExtensions(body[start..end])
  {
    ghost var goal := ScanExtensions(body[start..end]);
    var off := start;
    while off + 4 <= end
      invariant start <= off <= end && goal == ScanExtensions(body[off..end])
    {
      var kind, size := U16(body, off), U16(body, off + 2);
      ScanExtensionsAt(body, off, end);
      off := off + 4;
      if off + size > end {
        return None;
      }
      if kind == 0 {
        r := ParseServerNameExt(body[off..off + size]);
        return;
      }
      off := off + size;
    }
    r := None;
  }

  // ---- reading from the connection ----

  datatype ReadStatus = Line | BufferFull | AtEnd

  /** A buffered reader over a connection: the stream, how much of it has been
      read, the size of the buffer, and whether the stream ends in an error rather
      than an end of file. */
  class Reader {
    const data: bytes
    const window: nat
    const broken: bool
    var pos: nat

    predicate Valid()
      reads this
    {
      pos <= |data| && window > 0
    }

    constructor (data: bytes, window: nat, broken: bool)
      requires window > 0
      ensures Valid() && pos == 0 && this.data == data && this.window == window && this.broken == broken
    {
      this.data, this.window, this.broken, pos := data, window, broken, 0;
    }

    method ReadFull(n: nat) returns (b: Option<bytes>)
      requires Valid()
      modifies this
      ensures Valid() && (b.Some? <==> old(pos) + n <= |data|)
      ensures b.Some? ==> b.value == data[old(pos)..old(pos) + n] && pos == old(pos) + n
    {
      if pos + n <= |data| {
        b := Some(data[pos..pos + n]);
        pos := pos + n;
      } else {
        b := None;
        pos := |data|;
      }
    }

    /** ReadSlice: up to the next newline, or a full buffer, or the rest. */
    method ReadSlice() returns (chunk: bytes, status: ReadStatus)
      requires Valid()
      modifies this
      ensures Valid() && old(pos) <= pos <= LineEnd(data, old(pos)) && chunk == data[old(pos)..pos]
      ensures status.BufferFull? ==> old(pos) < pos && LineEnd(data, pos) == LineEnd(data, old(pos))
      ensures !status.BufferFull? ==> pos == LineEnd(data, old(pos))
      ensures if status.Line? then old(pos) < pos && data[pos - 1] == 10 else old(pos) < pos ==> data[pos - 1] != 10
    {
      var start := pos;
      while pos < |data| && pos - start < window && data[pos] != 10
        invariant start <= pos <= |data| && LineEnd(data, pos) == LineEnd(data, start)
        invariant start < pos ==> data[pos - 1] != 10
      {
        pos := pos + 1;
      }
      if pos < |data| && pos - start < window {
        pos := pos + 1;
        status := Line;
      } else {
        status := if pos < |data| then BufferFull else AtEnd;
      }
      chunk := data[start..pos];
    }
  }

  /** Where the line that starts at `i` ends: after its newline, or at the end. */
  function LineEnd(d: bytes, i: nat): (e: nat)
    requires i <= |d|
    ensures i <= e <= |d| && (i < |d| ==> i < e)
    decreases |d| - i
  {
    if i == |d| then i else if d[i] == 10 then i + 1 else LineEnd(d, i + 1)
  }

  predicate EndsLine(l: bytes) {
    l != [] && l[|l|-1] == 10
  }

  function Strip(l: bytes): bytes {
    var s := if EndsLine(l) then l[..|l|-1] else l;
    if s != [] && s[|s|-1] == 13 then s[..|s|-1] else s
  }

  /** The text of the line that starts at `i`. */
  function LineAt(d: bytes, i: nat): bytes
    requires i <= |d|
  {
    Strip(d[i..LineEnd(d, i)])
  }

  /** The line at `i` can be read: within the limit, complete or at a clean end of
      file, and not at the end of an empty stream. */
  predicate Readable(d: bytes, i: nat, broken: bool)
    requires i <= |d|
  {
    && LineEnd(d, i) <= MAX_HTTP_HEADER
    && (EndsLine(d[i..LineEnd(d, i)]) || !broken)
    && LineEnd(d, i) > 0
  }

  /** `buf` collects what has been read off the stream so far. */
  method ReadCrlfLine(r: Reader, buf: bytes) returns (line: Option<bytes>, buf': bytes)
    requires r.Valid() && buf == r.data[..r.pos] && |buf| <= MAX_HTTP_HEADER
    modifies r
    ensures r.Valid() && buf' == r.data[..r.pos]
    ensures line.Some? <==> Readable(r.data, old(r.pos), r.broken)
    ensures line.Some? ==> line.value == LineAt(r.data, old(r.pos)) && r.pos == LineEnd(r.data, old(r.pos))
  {
    ghost var start := r.pos;
    var text: bytes, status := [], BufferFull;
    buf' := buf;
    while status.BufferFull?
      invariant r.Valid() && start <= r.pos && text == r.data[start..r.pos] && buf' == r.data[..r.pos]
      invariant r.pos <= LineEnd(r.data, start) && r.pos <= MAX_HTTP_HEADER
      invariant status.BufferFull? ==> LineEnd(r.data, r.pos) == LineEnd(r.data, start)
      invariant !status.BufferFull? ==> r.pos == LineEnd(r.data, start)
      invariant if status.Line? then start < r.pos && r.data[r.pos - 1] == 10 else start < r.pos ==> r.data[r.pos - 1] != 10
      decreases status.BufferFull?, |r.data| - r.pos
    {
      var chunk;
      ghost var mid := r.pos;
      chunk, status := r.ReadSlice();
      Joined(r.data, start, mid, r.pos);
      Joined(r.data, 0, mid, r.pos);
      buf', text := buf' + chunk, text + chunk;
      if |buf'| > MAX_HTTP_HEADER {
        return None, buf';
      }
    }
    assert text == r.data[start..LineEnd(r.data, start)];
    assert EndsLine(text) <==> status.Line?;
    if status.AtEnd? && (r.broken || (Strip(text) == [] && buf' == [])) {
      return None, buf';
    }
    line := Some(Strip(text));
  }

  lemma Joined(d: bytes, a: nat, b: nat, c: nat)
    requires a <= b <= c <= |d|
    ensures d[a..b] + d[b..c] == d[a..c] && d[..b] == d[0..b] && d[..c] == d[0..c]
  {
  }

  datatype Peek = Broken | NoHost(prefix: bytes) | Found(host: string, prefix: bytes)

  /** What PeekTLSSNI answers for a stream. */
  function TlsPeek(d: bytes): Peek {
    if |d| < 5 then Broken
    else if d[0] != 22 || U16(d, 3) > MAX_CLIENT_HELLO then NoHost(d[..5])
    else if |d| < 5 + U16(d, 3) then Broken
    else
      var n := 5 + U16(d, 3);
      var sni := ParseHello(d[5..n]);
      if sni.None? || sni.value == [] then NoHost(d[..n]) else Found(NormalizeHost(Text(sni.value)), d[..n])
  }

  /** Whenever a result comes back, the prefix followed by what is still unread
      is the original stream. */
  method PeekTlsSni(r: Reader) returns (p: Peek)
    requires r.Valid() && r.pos == 0
    modifies r
    ensures r.Valid() && p == TlsPeek(r.data)
    ensures !p.Broken? ==> p.prefix + r.data[r.pos..] == r.data
  {
    var hdr := r.ReadFull(5);
    if hdr.None? {
      return Broken;
    }
    if hdr.value[0] != 22 {
      return NoHost(hdr.value);
    }
    var recLen := U16(hdr.value, 3);
    assert recLen == U16(r.data, 3);
    if recLen > MAX_CLIENT_HELLO {
      return NoHost(hdr.value);
    }
    var payload := r.ReadFull(recLen);
    if payload.None? {
      return Broken;
    }
    var sni := ParseClientHelloSni(payload.value);
    var prefix := hdr.value + payload.value;
    assert prefix == r.data[..r.pos];
    if sni.None? || sni.value == [] {
      return NoHost(prefix);
    }
    p := Found(NormalizeHost(Text(sni.value)), prefix);
  }

  /** On a stream that starts with a handshake record holding a well-formed
      ClientHello, the peek answers the normal form of its first host_name. */
  lemma TlsPeekFindsSni(h: Hello, ns: seq<Name>, version: bytes, rest: bytes)
    requires WellFormed(h) && h.extensions.Some? && |version| == 2
    requires |EncodeBody(h)| + 4 <= MAX_CLIENT_HELLO
    requires (forall i :: 0 <= i < |ns| ==> ns[i].Valid()) && |EncodeNames(ns)| < 65534
    requires FirstServerName(h.extensions.value) == Some(Vec16(EncodeNames(ns))) && FirstHostName(ns).Some?
    ensures var d := [22] + version + Vec16(EncodeHandshake(h)) + rest;
      TlsPeek(d) == Found(NormalizeHost(Text(FirstHostName(ns).value)), d[..5 + |EncodeHandshake(h)|])
  {
    var msg := EncodeHandshake(h);
    var d := [22] + version + Vec16(msg) + rest;
    var n := 5 + |msg|;
    assert d == [22] + version + (Enc16(|msg|) + (msg + rest));
    Enc16Inverts(|msg|, msg + rest);
    assert U16(d, 3) == |msg|;
    assert d[5..n] == msg + [];
    SniIsFirstHostName(h, ns, []);
    FirstHostNameIsNonEmpty(ns);
  }

  lemma {:induction false} FirstHostNameIsNonEmpty(ns: seq<Name>)
    requires FirstHostName(ns).Some?
    ensures FirstHostName(ns).value != []
  {
    if !(ns[0].kind == 0 && ns[0].data != []) {
      FirstHostNameIsNonEmpty(ns[1..]);
    }
  }

  // ---- the HTTP request head ----

  const METHODS: set<string> := {"GET", "POST", "PUT", "HEAD", "PATCH", "DELETE", "OPTIONS", "CONNECT", "TRACE"}

  function FirstField(s: string): string {
    if s == [] || IsSpace(s[0]) then [] else [s[0]] + FirstField(s[1..])
  }

  function SkipField(s: string): string {
    if s == [] || IsSpace(s[0]) then s else SkipField(s[1..])
  }

  /** Position just after the first "://", or 0. */
  function AfterScheme(s: string): (i: nat)
    ensures i <= |s|
  {
    if |s| < 3 then 0
    else if s[..3] == "://" then 3
    else var i := AfterScheme(s[1..]); if i == 0 then 0 else i + 1
  }

  function UntilAny(s: string, stop: set<char>): string {
    if s == [] || s[0] in stop then [] else [s[0]] + UntilAny(s[1..], stop)
  }

  /** The host of an absolute-form target, or the empty string. */
  function UriHost(target: string): string {
    if !("http" <= target) then ""
    else
      var host := TrimDot(UntilAny(target[AfterScheme(target)..], {'/', '?', '#'}));
      if host == "" then "" else NormalizeHost(host)
  }

  /** The host that the request line names: that of its second field. */
  function TargetHost(requestLine: string): string {
    UriHost(FirstField(TrimLeft(SkipField(requestLine))))
  }

  function HeaderHost(line: string, host: string): string {
    var i := IndexOf(line, ':');
    if 0 < i < |line| && Lower(Trim(line[..i])) == "host" then NormalizeHost(line[i + 1..]) else host
  }

  /** The host after the header lines from `i` on, the last Host header winning,
      and where the head ends; None when a line cannot be read. */
  function Headers(d: bytes, i: nat, host: string, broken: bool): (h: Option<(string, nat)>)
    requires i <= |d|
    ensures h.Some? ==> i <= h.value.1 <= |d|
    decreases |d| - i
  {
    if !Readable(d, i, broken) then None
    else
      var line, end := Trim(Text(LineAt(d, i))), LineEnd(d, i);
      if line == "" || end == i then Some((host, end)) else Headers(d, end, HeaderHost(line, host), broken)
  }

  function HeadAnswer(d: bytes, h: Option<(string, nat)>): Peek
    requires h.Some? ==> h.value.1 <= |d|
  {
    if h.None? then Broken
    else if h.value.0 == "" then NoHost(d[..h.value.1])
    else Found(h.value.0, d[..h.value.1])
  }

  /** What PeekHTTPHost answers for a stream. */
  function HttpPeek(d: bytes, broken: bool, methods: set<string>): Peek {
    if !Readable(d, 0, broken) then Broken
    else
      var requestLine := Trim(Text(LineAt(d, 0)));
      var i := IndexOf(requestLine, ' ');
      if i == |requestLine| || requestLine[..i] !in methods then NoHost(d[..LineEnd(d, 0)])
      else HeadAnswer(d, Headers(d, LineEnd(d, 0), TargetHost(requestLine), broken))
  }

  method ReadHeaders(r: Reader, buf: bytes, host: string) returns (h: Option<string>, buf': bytes)
    requires r.Valid() && 0 < r.pos <= MAX_HTTP_HEADER && buf == r.data[..r.pos]
    modifies r
    ensures r.Valid() && buf' == r.data[..r.pos]
    ensures Headers(r.data, old(r.pos), host, r.broken) == if h.None? then None else Some((h.value, r.pos))
  {
    ghost var goal := Headers(r.data, r.pos, host, r.broken);
    buf' := buf;
    var current := host;
    while true
      invariant r.Valid() && 0 < r.pos <= MAX_HTTP_HEADER && buf' == r.data[..r.pos]
      invariant goal == Headers(r.data, r.pos, current, r.broken)
      decreases |r.data| - r.pos
    {
      var line;
      line, buf' := ReadCrlfLine(r, buf');
      if line.None? {
        return None, buf';
      }
      var trimmed := Trim(Text(line.value));
      if trimmed == "" {
        return Some(current), buf';
      }
      current := HeaderHost(trimmed, current);
    }
  }

  /** Whenever a result comes back, the prefix followed by what is still unread
      is the original stream. */
  method PeekHttpHost(r: Reader, methods: set<string>) returns (p: Peek)
    requires r.Valid() && r.pos == 0
    modifies r
    ensures r.Valid() && p == HttpPeek(r.data, r.broken, methods)
    ensures !p.Broken? ==> p.prefix + r.data[r.pos..] == r.data
  {
    var line, buf := ReadCrlfLine(r, []);
    if line.None? {
      return Broken;
    }
    var requestLine := Trim(Text(line.value));
    var i := IndexOf(requestLine, ' ');
    if i == |requestLine| || requestLine[..i] !in methods {
      return NoHost(buf);
    }
    var h;
    h, buf := ReadHeaders(r, buf, TargetHost(requestLine));
    if h.None? {
      return Broken;
    }
    p := if h.value == "" then NoHost(buf) else Found(h.value, buf);
  }

  method PeekHttpRequest(r: Reader) returns (p: Peek)
    requires r.Valid() && r.pos == 0
    modifies r
    ensures r.Valid() && p == HttpPeek(r.data, r.broken, METHODS)
    ensures !p.Broken? ==> p.prefix + r.data[r.pos..] == r.data
  {
    p := PeekHttpHost(r, METHODS);
  }
}
