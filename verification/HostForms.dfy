/** What the normal forms of hosts and domains come to: case, surrounding white space, a final
    dot and a port do not matter, and the valid domains are spelled out
    (internal/agent/egress/policy.go). */
module HostForms {
  import opened Base
  import opened HostNames

  // ---- letters and white space ----

  /** Lower case takes A to Z to a to z and leaves the rest. */
  lemma LowerExactly(s: string, i: nat)
    requires i < |s|
    ensures Lower(s)[i] == if 'A' <= s[i] <= 'Z' then ('a' as int + (s[i] as int - 'A' as int)) as char else s[i]
  {
  }

  /** Only ASCII white space. */
  predicate Blank(s: string) {
    forall i :: 0 <= i < |s| ==> s[i] as int in {9, 10, 11, 12, 13, 32}
  }

  predicate Solid(s: string) {
    s != [] && s[0] as int !in {9, 10, 11, 12, 13, 32} && s[|s| - 1] as int !in {9, 10, 11, 12, 13, 32}
  }

  lemma {:induction false} TrimsLeft(pre: string, s: string)
    requires Blank(pre) && s != [] && !IsSpace(s[0])
    ensures TrimLeft(pre + s) == s
  {
    if pre == [] {
      assert pre + s == s;
    } else {
      assert (pre + s)[1..] == pre[1..] + s;
      TrimsLeft(pre[1..], s);
    }
  }

  lemma {:induction false} TrimsRight(s: string, post: string)
    requires Blank(post) && s != [] && !IsSpace(s[|s| - 1])
    ensures TrimRight(s + post) == s
  {
    if post == [] {
      assert s + post == s;
    } else {
      var n := |post| - 1;
      assert (s + post)[..|s + post| - 1] == s + post[..n];
      TrimsRight(s, post[..n]);
    }
  }

  /** White space around a text that has none at its ends is cut off, and nothing else. */
  lemma TrimExactly(pre: string, s: string, post: string)
    requires Blank(pre) && Blank(post) && Solid(s)
    ensures Trim(pre + s + post) == s
  {
    assert pre + s + post == pre + (s + post);
    TrimsLeft(pre, s + post);
    TrimsRight(s, post);
  }

  // ---- valid domains ----

  /** d[i..j] is a maximal stretch without dots. */
  ghost predicate IsLabel(d: string, i: nat, j: nat) {
    && i <= j <= |d| && (i == 0 || d[i - 1] == '.') && (j == |d| || d[j] == '.')
    && forall k :: i <= k < j ==> d[k] != '.'
  }

  /** Every label has 1 to 63 of a to z, 0 to 9 and the hyphen, which is not at its ends. */
  ghost predicate LabelsOk(d: string) {
    && CharsOk(d)
    && (forall i: nat, j: nat :: IsLabel(d, i, j) ==> 1 <= j - i <= 63 && d[i] != '-' && d[j - 1] != '-')
  }

  lemma ShiftsLabel(d: string, n: nat, i: nat, j: nat)
    requires n < |d| && d[n] == '.'
    ensures IsLabel(d[n + 1..], i, j) <==> IsLabel(d, n + 1 + i, n + 1 + j)
  {
    var rest := d[n + 1..];
    assert forall k :: 0 <= k < |rest| ==> rest[k] == d[n + 1 + k];
    if IsLabel(rest, i, j) {
      forall k | n + 1 + i <= k < n + 1 + j ensures d[k] != '.' {
        assert rest[k - n - 1] == d[k];
      }
    }
  }

  ghost predicate CharsOk(d: string) {
    forall k :: 0 <= k < |d| && d[k] != '.' ==> 'a' <= d[k] <= 'z' || '0' <= d[k] <= '9' || d[k] == '-'
  }

  lemma OneLabel(d: string)
    requires forall k :: 0 <= k < |d| ==> d[k] != '.'
    ensures ValidLabel(d) <==> LabelsOk(d)
  {
    assert IsLabel(d, 0, |d|);
    forall i: nat, j: nat | IsLabel(d, i, j) ensures i == 0 && j == |d| {
      if i > 0 { assert false; }
    }
  }

  lemma LabelsSplit(d: string, n: nat)
    requires n < |d| && d[n] == '.' && forall k :: 0 <= k < n ==> d[k] != '.'
    requires LabelsOk(d)
    ensures LabelsOk(d[..n]) && LabelsOk(d[n + 1..])
  {
    var first, rest := d[..n], d[n + 1..];
    assert IsLabel(d, 0, n);
    forall i: nat, j: nat | IsLabel(first, i, j) ensures i == 0 && j == n {
      if i > 0 { assert false; }
    }
    assert forall k :: 0 <= k < |rest| ==> rest[k] == d[n + 1 + k];
    forall i: nat, j: nat | IsLabel(rest, i, j) ensures 1 <= j - i <= 63 && rest[i] != '-' && rest[j - 1] != '-' {
      ShiftsLabel(d, n, i, j);
    }
  }

  lemma LabelsJoin(d: string, n: nat)
    requires n < |d| && d[n] == '.' && forall k :: 0 <= k < n ==> d[k] != '.'
    requires LabelsOk(d[..n]) && LabelsOk(d[n + 1..])
    ensures LabelsOk(d)
  {
    var first, rest := d[..n], d[n + 1..];
    assert IsLabel(first, 0, n);
    forall k | 0 <= k < |d| && d[k] != '.' ensures 'a' <= d[k] <= 'z' || '0' <= d[k] <= '9' || d[k] == '-' {
      if k < n { assert first[k] == d[k]; } else { assert rest[k - n - 1] == d[k]; }
    }
    forall i: nat, j: nat | IsLabel(d, i, j) ensures 1 <= j - i <= 63 && d[i] != '-' && d[j - 1] != '-' {
      if i <= n {
        if i > 0 { assert false; }
        assert j == n;
        assert first[0] == d[0] && first[n - 1] == d[n - 1];
      } else {
        ShiftsLabel(d, n, i - n - 1, j - n - 1);
        assert rest[i - n - 1] == d[i] && rest[j - n - 2] == d[j - 1];
      }
    }
  }

  lemma {:induction false} LabelsExactly(d: string)
    ensures ValidLabels(d) <==> LabelsOk(d)
  {
    var n := IndexOf(d, '.');
    OneLabel(d[..n]);
    if n == |d| {
      assert d[..n] == d;
    } else {
      LabelsExactly(d[n + 1..]);
      if LabelsOk(d) { LabelsSplit(d, n); }
      if ValidLabels(d) { LabelsJoin(d, n); }
    }
  }

  lemma FirstAndLast(t: string, d: string)
    requires Lower(t) == d && ValidDomain(d)
    ensures Solid(t) && t[|t| - 1] != '.' && forall i :: 0 <= i < |t| ==> t[i] !in FORBIDDEN && t[i] != '*' && t[i] != '['
  {
    ValidLabelsAreClean(d);
    forall i | 0 <= i < |t| ensures t[i] !in FORBIDDEN && t[i] != '*' && t[i] != '[' && t[i] as int !in {9, 10, 11, 12, 13, 32} {
      assert d[i] == LowerChar(t[i]);
    }
    assert d[|d| - 1] == LowerChar(t[|t| - 1]);
  }

  /** A declared domain is read the same in any case, with white space around it and with a
      final dot. */
  lemma DomainForms(t: string, dot: string, d: string, pre: string, post: string)
    requires Lower(t) == d && ValidDomain(d) && Blank(pre) && Blank(post) && (dot == "" || dot == ".")
    ensures NormalizeDomain(pre + (t + dot) + post) == Some(d)
  {
    FirstAndLast(t, d);
    ValidLabelsAreClean(d);
    assert Lower(t + dot) == d + dot;
    DomainRead(t + dot, d + dot, pre, post);
    assert TrimDot(d + dot) == d;
    assert forall i :: 0 <= i < |d| ==> d[i] !in FORBIDDEN && d[i] != '*';
    assert !("*." <= d);
  }

  /** And so is a wildcard. */
  lemma WildcardForms(t: string, d: string, pre: string, post: string)
    requires Lower(t) == d && ValidDomain(d) && Blank(pre) && Blank(post)
    ensures NormalizeDomain(pre + ("*." + t) + post) == Some("*." + d)
  {
    FirstAndLast(t, d);
    assert Lower("*." + t) == "*." + d;
    DomainRead("*." + t, "*." + d, pre, post);
    WildcardRead(pre + ("*." + t) + post, d);
  }

  lemma WildcardRead(raw: string, d: string)
    requires Trim(Lower(raw)) == "*." + d && ValidDomain(d)
    ensures NormalizeDomain(raw) == Some("*." + d)
  {
    var w := "*." + d;
    ValidLabelsAreClean(d);
    assert w[2..] == d && w[|w| - 1] == d[|d| - 1];
    assert TrimDot(w) == w;
    forall i | 0 <= i < |w| ensures w[i] !in FORBIDDEN {
      if i >= 2 { assert w[i] == d[i - 2]; }
    }
    assert '*' !in d;
  }

  lemma DomainRead(s: string, l: string, pre: string, post: string)
    requires Lower(s) == l && Solid(s) && Blank(pre) && Blank(post)
    ensures Trim(Lower(pre + s + post)) == l
  {
    assert Lower(pre + s + post) == Lower(pre) + l + Lower(post);
    forall i | 0 <= i < |pre| ensures Lower(pre)[i] == pre[i] { LowerExactly(pre, i); }
    forall i | 0 <= i < |post| ensures Lower(post)[i] == post[i] { LowerExactly(post, i); }
    LowerExactly(s, 0);
    LowerExactly(s, |s| - 1);
    TrimExactly(Lower(pre), l, Lower(post));
  }

  // ---- hosts ----

  lemma {:induction false} LastAt(s: string, c: char, i: nat)
    requires i < |s| && s[i] == c && forall j :: i < j < |s| ==> s[j] != c
    ensures LastIndexOf(s, c) == i
  {
    if i < |s| - 1 {
      LastAt(s[..|s| - 1], c, i);
    }
  }

  lemma {:induction false} NoneLeft(s: string, c: char)
    requires forall j :: 0 <= j < |s| ==> s[j] != c
    ensures LastIndexOf(s, c) == -1 && Count(s, c) == 0
  {
    if s != [] {
      NoneLeft(s[..|s| - 1], c);
      NoneLeft(s[1..], c);
    }
  }

  lemma {:induction false} CountJoins(a: string, b: string, c: char)
    ensures Count(a + b, c) == Count(a, c) + Count(b, c)
  {
    if a == [] {
      assert a + b == b;
    } else {
      CountJoins(a[1..], b, c);
      assert (a + b)[1..] == a[1..] + b;
    }
  }

  predicate Digits(s: string) {
    forall i :: 0 <= i < |s| ==> '0' <= s[i] <= '9'
  }

  /** A Host header or server name is read the same in any case, with white space around it, a
      final dot, and a port. */
  lemma HostFormsAgree(t: string, d: string, port: string, pre: string, post: string)
    requires Lower(t) == d && ValidDomain(d) && Blank(pre) && Blank(post) && Digits(port) && port != ""
    ensures NormalizeHost(pre + t + post) == d
    ensures NormalizeHost(pre + (t + ".") + post) == d
    ensures NormalizeHost(pre + (t + ":" + port) + post) == d
    ensures NormalizeHost(pre + (t + "." + ":" + port) + post) == d
  {
    FirstAndLast(t, d);
    NormalizesName(t, t, "", pre, post);
    NormalizesName(t + ".", t, "", pre, post);
    NormalizesName(t, t, port, pre, post);
    NormalizesName(t + ".", t, port, pre, post);
  }

  lemma PlainHost(raw: string, h: string)
    requires Trim(raw) == h && h != "" && h[0] != '['
    ensures var colon := LastIndexOf(h, ':');
      NormalizeHost(raw) == Lower(TrimDot(if colon > 0 && Count(h, ':') == 1 then h[..colon] else h))
  {
    assert !("[" <= h);
  }

  /** `name` is `t` with or without a final dot. */
  lemma NormalizesName(name: string, t: string, port: string, pre: string, post: string)
    requires Solid(t) && (name == t || name == t + ".") && Blank(pre) && Blank(post) && Digits(port)
    requires forall i :: 0 <= i < |t| ==> t[i] !in FORBIDDEN && t[i] != '['
    requires t[|t| - 1] != '.'
    ensures NormalizeHost(pre + (if port == "" then name else name + ":" + port) + post) == Lower(t)
  {
    var h := if port == "" then name else name + ":" + port;
    assert h[0] == t[0];
    TrimExactly(pre, h, post);
    PlainHost(pre + h + post, h);
    NoneLeft(name, ':');
    if port != "" {
      OneColon(name, port);
    }
    assert TrimDot(name) == t;
  }

  lemma OneColon(name: string, port: string)
    requires name != "" && Digits(port) && forall i :: 0 <= i < |name| ==> name[i] != ':'
    ensures var h := name + ":" + port; LastIndexOf(h, ':') == |name| && Count(h, ':') == 1 && h[..|name|] == name
  {
    NoneLeft(name, ':');
    NoneLeft(port, ':');
    LastAt(name + ":" + port, ':', |name|);
    CountJoins(name + ":", port, ':');
    CountJoins(name, ":", ':');
  }

  lemma BracketCut(raw: string, h: string, close: nat)
    requires Trim(raw) == h && "[" <= h && 0 < close < |h| && IndexOf(h, ']') == close
    requires h[close + 1..] == "" || h[close + 1] == ':'
    requires Count(h[1..close], ':') != 1
    ensures NormalizeHost(raw) == Lower(TrimDot(h[1..close]))
  {
  }

  lemma BracketParts(x: string, tail: string)
    requires forall i :: 0 <= i < |x| ==> x[i] != ']'
    ensures var h := "[" + x + "]" + tail; var close := |x| + 1;
      && "[" <= h && close < |h| && IndexOf(h, ']') == close && h[1..close] == x && h[close + 1..] == tail
  {
    var h, close := "[" + x + "]" + tail, |x| + 1;
    assert h[close] == ']';
    forall k | 0 <= k < close ensures h[k] != ']' {
      if k > 0 { assert h[k] == x[k - 1]; }
    }
  }

  /** The text in brackets, with a port or without, is the host when it has no single colon, as
      IPv6 addresses. */
  lemma BracketsAgree(x: string, tail: string)
    requires x != "" && Count(x, ':') != 1 && forall i :: 0 <= i < |x| ==> x[i] != ']'
    requires tail == "" || (tail[0] == ':' && Digits(tail[1..]))
    ensures NormalizeHost("[" + x + "]" + tail) == Lower(TrimDot(x))
  {
    var h := "[" + x + "]" + tail;
    if |tail| > 1 {
      assert tail[|tail| - 1] == tail[1..][|tail| - 2];
    }
    assert h[0] == '[' && h[|h| - 1] == if tail == "" then ']' else tail[|tail| - 1];
    TrimExactly("", h, "");
    assert "" + h + "" == h;
    BracketParts(x, tail);
    assert tail != "" ==> h[|x| + 2..][0] == ':';
    BracketCut(h, h, |x| + 1);
  }
}
