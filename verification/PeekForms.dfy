/** What the peeks take off a stream, and well-formed HTTP request heads (section 3 of RFC 9112)
    against the one that reads their host (internal/agent/egress/sniff.go). */
module PeekForms {
  import opened Base
  import opened HostNames
  import opened HostForms
  import opened Sniff

  // ---- encoding ----

  predicate Plain(s: string) {
    forall i :: 0 <= i < |s| ==> s[i] as int < 256 && s[i] != '\n'
  }

  function Bytes(s: string): bytes
    requires Plain(s)
  {
    seq(|s|, i requires 0 <= i < |s| => s[i] as int)
  }

  function EncodeLine(s: string): (r: bytes)
    requires Plain(s)
    ensures |r| == |s| + 2
  {
    Bytes(s) + [13, 10]
  }

  /** A header field: a name without colon or white space at its ends, and a value after a
      space. */
  datatype Header = Header(name: string, value: string) {
    predicate Valid() {
      Solid(name) && Solid(value) && Plain(Text()) && forall i :: 0 <= i < |name| ==> name[i] != ':'
    }

    function Text(): string {
      name + ": " + value
    }
  }

  /** The header fields of a request, up to the empty line. */
  datatype Fields = Empty | More(first: Header, rest: Fields) {
    predicate Valid() {
      More? ==> first.Valid() && rest.Valid()
    }
  }

  function EncodeHeaders(hs: Fields): bytes
    requires hs.Valid()
  {
    if hs.Empty? then EncodeLine("") else EncodeLine(hs.first.Text()) + EncodeHeaders(hs.rest)
  }

  /** The value of the last field called host, in any case, or else `host`. */
  function LastHost(hs: Fields, host: string): string {
    if hs.Empty? then host
    else LastHost(hs.rest, if Lower(hs.first.name) == "host" then NormalizeHost(hs.first.value) else host)
  }

  // ---- one line ----

  lemma {:induction false} LineEndsAt(d: bytes, i: nat, e: nat)
    requires i <= e < |d| && d[e] == 10 && forall k :: i <= k < e ==> d[k] != 10
    ensures LineEnd(d, i) == e + 1
    decreases e - i
  {
    if i < e {
      LineEndsAt(d, i + 1, e);
    }
  }

  lemma LineIsFound(d: bytes, i: nat, s: string)
    requires Plain(s) && i + |s| + 2 <= |d| && d[i..i + |s| + 2] == EncodeLine(s)
    ensures LineEnd(d, i) == i + |s| + 2
  {
    var e := i + |s| + 2;
    assert d[e - 1] == d[i..e][|s| + 1];
    forall k | i <= k < e - 1 ensures d[k] != 10 {
      assert d[k] == d[i..e][k - i];
    }
    LineEndsAt(d, i, e - 1);
  }

  lemma LineIsStripped(s: string)
    requires Plain(s)
    ensures Strip(EncodeLine(s)) == Bytes(s) && EndsLine(EncodeLine(s)) && Text(Bytes(s)) == s
  {
    var line := EncodeLine(s);
    assert line[|line| - 1] == 10 && line[..|line| - 1] == Bytes(s) + [13];
    assert (Bytes(s) + [13])[..|s|] == Bytes(s);
  }

  lemma LineReads(d: bytes, i: nat, s: string)
    requires Plain(s) && i + |s| + 2 <= |d| && d[i..i + |s| + 2] == EncodeLine(s)
    ensures LineEnd(d, i) == i + |s| + 2 && Text(LineAt(d, i)) == s && EndsLine(d[i..LineEnd(d, i)])
  {
    LineIsFound(d, i, s);
    LineIsStripped(s);
  }

  lemma SolidTrims(s: string)
    requires Solid(s)
    ensures Trim(s) == s
  {
    TrimExactly("", s, "");
    assert "" + s + "" == s;
  }

  lemma FieldSplits(h: Header)
    requires h.Valid()
    ensures var s := h.Text();
      Solid(s) && IndexOf(s, ':') == |h.name| && s[..|h.name|] == h.name && s[|h.name| + 1..] == " " + h.value
  {
    var s := h.Text();
    assert s[0] == h.name[0] && s[|s| - 1] == h.value[|h.value| - 1];
    assert s[|h.name|] == ':' && forall k :: 0 <= k < |h.name| ==> s[k] == h.name[k];
  }

  lemma SpaceIsTrimmed(value: string)
    requires Solid(value)
    ensures NormalizeHost(" " + value) == NormalizeHost(value)
  {
    TrimExactly(" ", value, "");
    SolidTrims(value);
    assert " " + value + "" == " " + value;
  }

  lemma FieldReads(h: Header, host: string)
    requires h.Valid()
    ensures Trim(h.Text()) == h.Text() && h.Text() != ""
    ensures HeaderHost(h.Text(), host) == if Lower(h.name) == "host" then NormalizeHost(h.value) else host
  {
    FieldSplits(h);
    SolidTrims(h.Text());
    SolidTrims(h.name);
    SpaceIsTrimmed(h.value);
  }

  // ---- the head ----

  lemma SliceSplits(d: bytes, i: nat, a: bytes, b: bytes)
    requires i + |a| + |b| <= |d| && d[i..i + |a| + |b|] == a + b
    ensures d[i..i + |a|] == a && d[i + |a|..i + |a| + |b|] == b
  {
    assert (a + b)[..|a|] == a && (a + b)[|a|..] == b;
  }

  /** The line at i is s, in white space or not at all. */
  ghost predicate HasLine(d: bytes, i: nat, s: string, e: nat) {
    i < e <= |d| && LineEnd(d, i) == e && Trim(Text(LineAt(d, i))) == s && EndsLine(d[i..e])
  }

  lemma FindsLine(d: bytes, i: nat, s: string)
    requires Plain(s) && Trim(s) == s && i + |s| + 2 <= |d| && d[i..i + |s| + 2] == EncodeLine(s)
    ensures HasLine(d, i, s, i + |s| + 2)
  {
    LineReads(d, i, s);
  }

  lemma HeadersStep(d: bytes, i: nat, s: string, e: nat, host: string, broken: bool)
    requires HasLine(d, i, s, e) && e <= MAX_HTTP_HEADER
    ensures Headers(d, i, host, broken) == if s == "" then Some((host, e)) else Headers(d, e, HeaderHost(s, host), broken)
  {
  }

  /** The encoded fields stand at position i. */
  ghost predicate HasHeaders(d: bytes, i: nat, hs: Fields) {
    hs.Valid() && i + |EncodeHeaders(hs)| <= |d| && d[i..i + |EncodeHeaders(hs)|] == EncodeHeaders(hs)
  }

  lemma FirstHeader(d: bytes, i: nat, hs: Fields)
    requires hs.More? && HasHeaders(d, i, hs)
    ensures var s := hs.first.Text(); var e := i + |s| + 2;
      && HasLine(d, i, s, e) && HasHeaders(d, e, hs.rest) && e + |EncodeHeaders(hs.rest)| == i + |EncodeHeaders(hs)|
  {
    var s, more := hs.first.Text(), EncodeHeaders(hs.rest);
    FieldReads(hs.first, "");
    SliceSplits(d, i, EncodeLine(s), more);
    FindsLine(d, i, s);
  }

  lemma NoHeaders(d: bytes, i: nat, host: string, broken: bool)
    requires HasHeaders(d, i, Empty) && i + 2 <= MAX_HTTP_HEADER
    ensures Headers(d, i, host, broken) == Some((host, i + 2))
  {
    FindsLine(d, i, "");
    HeadersStep(d, i, "", i + 2, host, broken);
  }

  lemma HeadersMore(d: bytes, i: nat, hs: Fields, host: string, broken: bool) returns (next: string, e: nat)
    requires hs.More? && HasHeaders(d, i, hs) && i + |EncodeHeaders(hs)| <= MAX_HTTP_HEADER
    ensures HasHeaders(d, e, hs.rest) && e + |EncodeHeaders(hs.rest)| == i + |EncodeHeaders(hs)|
    ensures Headers(d, i, host, broken) == Headers(d, e, next, broken)
    ensures LastHost(hs.rest, next) == LastHost(hs, host)
  {
    var s := hs.first.Text();
    e := i + |s| + 2;
    FirstHeader(d, i, hs);
    FieldReads(hs.first, host);
    HeadersStep(d, i, s, e, host, broken);
    next := HeaderHost(s, host);
  }

  /** The header loop over well-formed fields from position i on: the last host wins, and the head
      ends after the empty line, whatever follows. */
  lemma {:induction false} HeadersRead(d: bytes, i: nat, hs: Fields, host: string, broken: bool, last: string, end: nat)
    requires HasHeaders(d, i, hs) && i + |EncodeHeaders(hs)| == end <= MAX_HTTP_HEADER && LastHost(hs, host) == last
    ensures Headers(d, i, host, broken) == Some((last, end))
    decreases hs
  {
    match hs
    case Empty => NoHeaders(d, i, host, broken);
    case More(_, rest) =>
      var next, e := HeadersMore(d, i, hs, host, broken);
      HeadersRead(d, e, rest, next, broken, last, end);
  }

  predicate Word(s: string) {
    Solid(s) && Plain(s) && forall i :: 0 <= i < |s| ==> s[i] as int !in {9, 10, 11, 12, 13, 32}
  }

  lemma {:induction false} FirstFieldReads(s: string, rest: string)
    requires (forall i :: 0 <= i < |s| ==> !IsSpace(s[i])) && (rest == "" || IsSpace(rest[0]))
    ensures FirstField(s + rest) == s && SkipField(s + rest) == rest
  {
    if s == "" {
      assert s + rest == rest;
    } else {
      assert (s + rest)[1..] == s[1..] + rest;
      FirstFieldReads(s[1..], rest);
    }
  }

  lemma RequestLineSplits(verb: string, rest: string)
    requires Word(verb)
    ensures var s := verb + " " + rest; IndexOf(s, ' ') == |verb| && s[..|verb|] == verb
  {
    var s := verb + " " + rest;
    assert s[|verb|] == ' ' && forall k :: 0 <= k < |verb| ==> s[k] == verb[k];
  }

  lemma SecondFieldReads(verb: string, target: string, tail: string)
    requires Word(verb) && Word(target) && tail != "" && IsSpace(tail[0])
    ensures FirstField(TrimLeft(SkipField(verb + " " + (target + tail)))) == target
  {
    assert verb + " " + (target + tail) == verb + (" " + (target + tail));
    FirstFieldReads(verb, " " + (target + tail));
    TrimsLeft(" ", target + tail);
    FirstFieldReads(target, tail);
  }

  /** Method, target and version with one space between them. */
  function RequestLine(verb: string, target: string, version: string): string {
    verb + " " + (target + (" " + version))
  }

  lemma RequestLineIsPlain(verb: string, target: string, version: string)
    requires Word(verb) && Word(target) && Word(version)
    ensures var s := RequestLine(verb, target, version); Plain(s) && Solid(s)
  {
    var s, rest := RequestLine(verb, target, version), target + (" " + version);
    assert Plain(rest);
    assert s[0] == verb[0] && s[|s| - 1] == version[|version| - 1];
  }

  lemma RequestLineReads(verb: string, target: string, version: string)
    requires Word(verb) && Word(target) && Word(version)
    ensures var s := RequestLine(verb, target, version);
      && Plain(s) && Trim(s) == s && IndexOf(s, ' ') == |verb| && s[..|verb|] == verb
      && TargetHost(s) == UriHost(target)
  {
    RequestLineIsPlain(verb, target, version);
    SolidTrims(RequestLine(verb, target, version));
    RequestLineSplits(verb, target + (" " + version));
    SecondFieldReads(verb, target, " " + version);
  }

  /** On every stream that starts with a well-formed request head of one of the known methods
      within the limit, the peek answers the last host field, or else the host of an absolute
      target, and takes exactly the head. */
  lemma HttpPeekFindsHost(verb: string, target: string, version: string, hs: Fields, rest: bytes, broken: bool)
    requires verb in METHODS && Word(verb) && Word(target) && Word(version) && hs.Valid()
    requires |verb| + |target| + |version| + 4 + |EncodeHeaders(hs)| <= MAX_HTTP_HEADER
    ensures Plain(RequestLine(verb, target, version))
    ensures var head := EncodeLine(RequestLine(verb, target, version)) + EncodeHeaders(hs);
      var host := LastHost(hs, UriHost(target));
      HttpPeek(head + rest, broken, METHODS) == if host == "" then NoHost(head) else Found(host, head)
  {
    var s := RequestLine(verb, target, version);
    RequestLineReads(verb, target, version);
    var head := EncodeLine(s) + EncodeHeaders(hs);
    HeadIsRead(head + rest, s, hs, broken);
    assert (head + rest)[..|head|] == head;
  }

  lemma HeadIsRead(d: bytes, s: string, hs: Fields, broken: bool)
    requires Plain(s) && Trim(s) == s && hs.Valid() && IndexOf(s, ' ') < |s| && s[..IndexOf(s, ' ')] in METHODS
    requires |EncodeLine(s) + EncodeHeaders(hs)| <= MAX_HTTP_HEADER && EncodeLine(s) + EncodeHeaders(hs) <= d
    ensures var n := |EncodeLine(s) + EncodeHeaders(hs)|; var host := LastHost(hs, TargetHost(s));
      HttpPeek(d, broken, METHODS) == if host == "" then NoHost(d[..n]) else Found(host, d[..n])
  {
    var e, n := |s| + 2, |EncodeLine(s) + EncodeHeaders(hs)|;
    var host := TargetHost(s);
    assert d[0..n] == EncodeLine(s) + EncodeHeaders(hs);
    SliceSplits(d, 0, EncodeLine(s), EncodeHeaders(hs));
    FindsLine(d, 0, s);
    HeadersRead(d, e, hs, host, broken, LastHost(hs, host), n);
    PeekIs(d, broken, s, e, LastHost(hs, host), n);
  }

  lemma PeekIs(d: bytes, broken: bool, s: string, e: nat, host: string, n: nat)
    requires HasLine(d, 0, s, e) && e <= MAX_HTTP_HEADER
    requires IndexOf(s, ' ') < |s| && s[..IndexOf(s, ' ')] in METHODS
    requires Headers(d, e, TargetHost(s), broken) == Some((host, n))
    ensures n <= |d| && HttpPeek(d, broken, METHODS) == if host == "" then NoHost(d[..n]) else Found(host, d[..n])
  {
  }

  /** A place within the limit that ends a line if the connection failed. */
  predicate Stops(d: bytes, e: nat, broken: bool) {
    0 < e <= |d| && e <= 8192 && (broken ==> d[e - 1] == 10)
  }

  lemma ReadableStops(d: bytes, i: nat, broken: bool)
    requires i <= |d| && Readable(d, i, broken)
    ensures Stops(d, LineEnd(d, i), broken)
  {
    var e := LineEnd(d, i);
    if broken {
      assert d[i..e][|d[i..e]| - 1] == d[e - 1];
    }
  }

  lemma {:induction false} HeadersBound(d: bytes, i: nat, host: string, broken: bool)
    requires i <= |d| && Headers(d, i, host, broken).Some?
    ensures Stops(d, Headers(d, i, host, broken).value.1, broken)
    decreases |d| - i
  {
    var line, e := Trim(Text(LineAt(d, i))), LineEnd(d, i);
    ReadableStops(d, i, broken);
    if line != "" && e != i {
      HeadersBound(d, e, HeaderHost(line, host), broken);
    }
  }

  /** On any stream what the peek takes is at most 8 KiB, and ends a line if the connection
      failed. */
  lemma HttpPeekBound(d: bytes, broken: bool) returns (e: nat)
    requires !HttpPeek(d, broken, METHODS).Broken?
    ensures Stops(d, e, broken) && HttpPeek(d, broken, METHODS).prefix == d[..e]
  {
    var s := Trim(Text(LineAt(d, 0)));
    var i := IndexOf(s, ' ');
    e := LineEnd(d, 0);
    ReadableStops(d, 0, broken);
    if i < |s| && s[..i] in METHODS {
      HeadersBound(d, e, TargetHost(s), broken);
      e := Headers(d, e, TargetHost(s), broken).value.1;
    }
  }

  // ---- TLS ----

  /** The peek takes the record header, and the record if it is a handshake of at most 16 KiB; it
      gives up exactly when the stream ends before that. */
  lemma TlsPeekExactly(d: bytes)
    ensures var p := TlsPeek(d);
      if |d| < 5 then p.Broken?
      else
        var n := d[3] as int * 256 + d[4] as int;
        if d[0] != 22 || n > 16384 then p == NoHost(d[..5])
        else if |d| < 5 + n then p.Broken?
        else !p.Broken? && p.prefix == d[..5 + n]
  {
  }

  // ---- absolute targets ----

  lemma {:induction false} UntilReads(s: string, rest: string, stop: set<char>)
    requires (forall i :: 0 <= i < |s| ==> s[i] !in stop) && (rest == "" || rest[0] in stop)
    ensures UntilAny(s + rest, stop) == s
  {
    if s == "" {
      assert s + rest == rest;
    } else {
      assert (s + rest)[1..] == s[1..] + rest;
      UntilReads(s[1..], rest, stop);
    }
  }

  lemma {:induction false} AfterSchemeReads(scheme: string, rest: string)
    requires forall i :: 0 <= i < |scheme| ==> scheme[i] != ':'
    ensures AfterScheme(scheme + "://" + rest) == |scheme| + 3
  {
    var s := scheme + "://" + rest;
    if scheme == "" {
      assert s[..3] == "://";
    } else {
      assert s[0] == scheme[0] && s[..3][0] == scheme[0];
      assert s[1..] == scheme[1..] + "://" + rest;
      AfterSchemeReads(scheme[1..], rest);
    }
  }

  /** An absolute target names its authority, up to the path, query or fragment; an origin-form
      target names nothing. */
  lemma AbsoluteTarget(scheme: string, authority: string, path: string)
    requires scheme == "http" || scheme == "https"
    requires forall i :: 0 <= i < |authority| ==> authority[i] !in {'/', '?', '#'}
    requires path == "" || path[0] in {'/', '?', '#'}
    ensures var host := TrimDot(authority);
      UriHost(scheme + "://" + (authority + path)) == if host == "" then "" else NormalizeHost(host)
  {
    var target := scheme + "://" + (authority + path);
    AfterSchemeReads(scheme, authority + path);
    assert target[|scheme| + 3..] == authority + path;
    UntilReads(authority, path, {'/', '?', '#'});
  }

  lemma OriginTarget(target: string)
    requires target != "" && target[0] == '/'
    ensures UriHost(target) == ""
  {
  }
}
