/** Numbers as they appear inside strings. */
module Text {
  function DigitChar(d: nat): (c: char)
    requires d < 10
    ensures '0' <= c <= '9'
  {
    '0' + d as char
  }

  /** The decimal form of `n`. */
  function Decimal(n: nat): (s: string)
    ensures s != "" && forall c :: c in s ==> '0' <= c <= '9'
  {
    if n < 10 then [DigitChar(n)] else Decimal(n / 10) + [DigitChar(n % 10)]
  }

  lemma {:induction false} DecimalInjective(m: nat, n: nat)
    requires Decimal(m) == Decimal(n)
    ensures m == n
  {
    var s, t := Decimal(m), Decimal(n);
    assert s[|s| - 1] == t[|t| - 1] && s[..|s| - 1] == t[..|t| - 1];
    if m >= 10 && n >= 10 {
      assert s[..|s| - 1] == Decimal(m / 10) && t[..|t| - 1] == Decimal(n / 10);
      DecimalInjective(m / 10, n / 10);
    }
  }

  /** A text can be split at its last colon in one way only. */
  lemma SplitAtLastColon(p1: string, t1: string, p2: string, t2: string)
    requires ':' !in t1 && ':' !in t2 && p1 + ":" + t1 == p2 + ":" + t2
    ensures p1 == p2 && t1 == t2
  {
    var s := p1 + ":" + t1;
    var n1, n2 := |p1| + 1, |p2| + 1;
    assert s[n1 - 1] == ':' && s[n2 - 1] == ':';
    assert s[n1..] == t1 && s[n2..] == t2;
    assert forall i :: n1 <= i < |s| ==> s[i] == t1[i - n1] && s[i] in t1;
    assert forall i :: n2 <= i < |s| ==> s[i] == t2[i - n2] && s[i] in t2;
    assert s[..|p1|] == p1 && s[..|p2|] == p2;
  }

  predicate Blank(c: char) { c == ' ' || c == '\t' || c == '\n' || c == '\r' }

  predicate AllBlank(s: string) { forall c :: c in s ==> Blank(c) }

  function TrimStart(s: string): string {
    if s != "" && Blank(s[0]) then TrimStart(s[1..]) else s
  }

  function TrimEnd(s: string): string
    decreases |s|
  {
    if s != "" && Blank(s[|s| - 1]) then TrimEnd(s[..|s| - 1]) else s
  }

  function Trim(s: string): string { TrimEnd(TrimStart(s)) }

  /** Nothing but blanks stands around `t`, and it has none at its ends. */
  ghost predicate IsTrimmed(s: string, t: string) {
    && t != "" && !Blank(t[0]) && !Blank(t[|t| - 1])
    && exists before, after :: AllBlank(before) && AllBlank(after) && s == before + t + after
  }

  lemma {:induction false} TrimStartIs(s: string) returns (before: string)
    ensures AllBlank(before) && s == before + TrimStart(s) && (TrimStart(s) != "" ==> !Blank(TrimStart(s)[0]))
  {
    before := "";
    if s != "" && Blank(s[0]) {
      var rest := TrimStartIs(s[1..]);
      before := [s[0]] + rest;
      assert s == [s[0]] + s[1..];
    }
  }

  lemma {:induction false} TrimEndIs(s: string) returns (after: string)
    ensures AllBlank(after) && s == TrimEnd(s) + after && (TrimEnd(s) != "" ==> !Blank(TrimEnd(s)[|TrimEnd(s)| - 1]))
    decreases |s|
  {
    after := "";
    if s != "" && Blank(s[|s| - 1]) {
      var n := |s| - 1;
      var rest := TrimEndIs(s[..n]);
      after := rest + [s[n]];
      assert s == s[..n] + [s[n]];
    }
  }

  lemma TrimUnique(b1: string, t: string, a1: string, b2: string, u: string, a2: string)
    requires t != "" && !Blank(t[0]) && !Blank(t[|t| - 1]) && u != "" && !Blank(u[0]) && !Blank(u[|u| - 1])
    requires AllBlank(b1) && AllBlank(a1) && AllBlank(b2) && AllBlank(a2)
    requires b1 + t + a1 == b2 + u + a2
    ensures t == u
  {
    var s := b1 + t + a1;
    var n1, n2 := |b1|, |b2|;
    var m1, m2 := n1 + |t|, n2 + |u|;
    assert s[n1] == t[0] && s[n2] == u[0] && s[m1 - 1] == t[|t| - 1] && s[m2 - 1] == u[|u| - 1];
    assert forall k :: 0 <= k < n1 ==> s[k] == b1[k] && s[k] in b1;
    assert forall k :: 0 <= k < n2 ==> s[k] == b2[k] && s[k] in b2;
    assert forall k :: m1 <= k < |s| ==> s[k] == a1[k - m1] && s[k] in a1;
    assert forall k :: m2 <= k < |s| ==> s[k] == a2[k - m2] && s[k] in a2;
    assert n1 == n2 && m1 == m2;
    assert s[n1..m1] == t && s[n2..m2] == u;
  }

  /** Trimming leaves what stands between the blanks, and nothing where there is nothing else. */
  lemma TrimExactly(s: string, t: string)
    ensures Trim(s) == "" <==> AllBlank(s)
    ensures t != "" ==> (Trim(s) == t <==> IsTrimmed(s, t))
  {
    var before := TrimStartIs(s);
    var after := TrimEndIs(TrimStart(s));
    var u := Trim(s);
    assert s == before + u + after;
    assert u != "" ==> u[0] == TrimStart(s)[0] && u[0] in s;
    if u != "" { assert IsTrimmed(s, u); }
    if b, a :| t != "" && !Blank(t[0]) && !Blank(t[|t| - 1]) && AllBlank(b) && AllBlank(a) && s == b + t + a {
      assert s[|b|] == t[0] && t[0] in s;
      TrimUnique(before, u, after, b, t, a);
    }
  }
}
