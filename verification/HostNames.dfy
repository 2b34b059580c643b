/** Host and domain text (internal/agent/egress/policy.go): the normal form of a
    declared domain, and the normal form of a Host header or SNI. */
module HostNames {
  import opened Base

  predicate IsSpace(c: char) {
    c == ' ' || c == '\t' || c == '\n' || c == '\r' || c as int == 11 || c as int == 12
  }

  function LowerChar(c: char): char {
    if 'A' <= c <= 'Z' then (c as int + 32) as char else c
  }

  function Lower(s: string): (r: string)
    ensures |r| == |s|
  {
    seq(|s|, i requires 0 <= i < |s| => LowerChar(s[i]))
  }

  function TrimLeft(s: string): string {
    if s != [] && IsSpace(s[0]) then TrimLeft(s[1..]) else s
  }

  function TrimRight(s: string): string {
    if s != [] && IsSpace(s[|s|-1]) then TrimRight(s[..|s|-1]) else s
  }

  function Trim(s: string): string {
    TrimRight(TrimLeft(s))
  }

  function TrimDot(s: string): string {
    if s != [] && s[|s|-1] == '.' then s[..|s|-1] else s
  }

  /** Position of the first `c`, or the length. */
  function IndexOf(s: string, c: char): (i: nat)
    ensures i <= |s| && (forall j :: 0 <= j < i ==> s[j] != c) && (i < |s| ==> s[i] == c)
  {
    if s == [] || s[0] == c then 0 else 1 + IndexOf(s[1..], c)
  }

  predicate LabelChar(c: char) {
    ('a' <= c <= 'z') || ('0' <= c <= '9') || c == '-'
  }

  predicate ValidLabel(l: string) {
    && 0 < |l| <= 63
    && (forall i :: 0 <= i < |l| ==> LabelChar(l[i]))
    && l[0] != '-' && l[|l|-1] != '-'
  }

  predicate ValidLabels(d: string) {
    var i := IndexOf(d, '.');
    ValidLabel(d[..i]) && (i < |d| ==> ValidLabels(d[i+1..]))
  }

  predicate ValidDomain(d: string) {
    |d| <= 253 && ValidLabels(d)
  }

  const FORBIDDEN: set<char> := {'/', '?', '#', ':', '@'}

  /** normalizeDomain.  Its branch for dotted IPv4 literals returns the text
      unchanged, as the hostname branch does, and colons never get that far. */
  function NormalizeDomain(raw: string): Option<string> {
    var d := TrimDot(Trim(Lower(raw)));
    if d == "" || exists c :: c in d && c in FORBIDDEN then None
    else if "*." <= d then
      (if '*' !in d[2..] && ValidDomain(d[2..]) then Some(d) else None)
    else if '*' in d || !ValidDomain(d) then None
    else Some(d)
  }

  lemma {:induction false} ValidLabelsAreClean(d: string)
    requires ValidLabels(d)
    ensures d != "" && (forall i :: 0 <= i < |d| ==> LabelChar(d[i]) || d[i] == '.')
    ensures d[0] != '.' && d[|d|-1] != '.'
  {
    var i := IndexOf(d, '.');
    if i < |d| {
      ValidLabelsAreClean(d[i+1..]);
      assert d == d[..i] + ['.'] + d[i+1..];
    }
  }

  /** A text whose ends are no spaces, with no final dot and no capitals, is
      already in normal form. */
  lemma CleanIsNormal(d: string)
    requires d != "" && !IsSpace(d[0]) && !IsSpace(d[|d|-1]) && d[|d|-1] != '.'
    requires forall i :: 0 <= i < |d| ==> !('A' <= d[i] <= 'Z')
    ensures TrimDot(Trim(Lower(d))) == d
  {
    assert Lower(d) == d;
  }

  /** Normalising a domain twice changes nothing. */
  lemma NormalizeDomainIdempotent(raw: string)
    requires NormalizeDomain(raw).Some?
    ensures NormalizeDomain(NormalizeDomain(raw).value) == NormalizeDomain(raw)
  {
    var d := NormalizeDomain(raw).value;
    var core := if "*." <= d then d[2..] else d;
    ValidLabelsAreClean(core);
    assert d[|d|-1] == core[|core|-1];
    assert forall i :: 0 <= i < |d| ==> LabelChar(d[i]) || d[i] == '.' || d[i] == '*' by {
      forall i | 0 <= i < |d| ensures LabelChar(d[i]) || d[i] == '.' || d[i] == '*' {
        if "*." <= d && i >= 2 { assert d[i] == core[i-2]; }
      }
    }
    CleanIsNormal(d);
  }

  function LastIndexOf(s: string, c: char): (i: int)
    ensures -1 <= i < |s| && (i >= 0 ==> s[i] == c)
  {
    if s == [] then -1 else if s[|s|-1] == c then |s| - 1 else LastIndexOf(s[..|s|-1], c)
  }

  function Count(s: string, c: char): nat {
    if s == [] then 0 else Count(s[1..], c) + if s[0] == c then 1 else 0
  }

  /** NormalizeHost: strip brackets and port, one final dot, lower case. */
  function NormalizeHost(raw: string): string {
    var h := Trim(raw);
    var close := IndexOf(h, ']');
    if "[" <= h && 0 < close < |h| && h[close+1..] != "" && h[close+1] != ':' then Lower(h[1..close])
    else
      var host := if "[" <= h && 0 < close < |h| then h[1..close] else h;
      var colon := LastIndexOf(host, ':');
      Lower(TrimDot(if colon > 0 && Count(host, ':') == 1 then host[..colon] else host))
  }
}
