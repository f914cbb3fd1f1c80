/** The string helpers of the Go standard library that the models rely on. */
module Text {

  predicate IsSpace(c: char) {
    c in {' ', '\t', '\n', '\r', 11 as char, 12 as char}
  }

  function TrimLeft(s: string): (r: string)
    ensures |r| <= |s| && r == s[|s| - |r|..]
    ensures r != "" ==> !IsSpace(r[0])
  {
    if s != "" && IsSpace(s[0]) then TrimLeft(s[1..]) else s
  }

  function TrimRight(s: string): (r: string)
    ensures |r| <= |s| && r == s[..|r|]
    ensures r != "" ==> !IsSpace(r[|r| - 1])
  {
    if s != "" && IsSpace(s[|s| - 1]) then TrimRight(s[..|s| - 1]) else s
  }

  /** strings.TrimSpace */
  function Trim(s: string): string {
    TrimRight(TrimLeft(s))
  }

  predicate Blank(s: string) {
    Trim(s) == ""
  }

  lemma {:induction false} TrimLeftSkips(s: string, i: nat)
    requires i < |s| - |TrimLeft(s)|
    ensures IsSpace(s[i])
  {
    hide IsSpace;
    if i > 0 {
      TrimLeftSkips(s[1..], i - 1);
    }
  }

  lemma {:induction false} TrimRightSkips(s: string, i: nat)
    requires |TrimRight(s)| <= i < |s|
    ensures IsSpace(s[i])
  {
    hide IsSpace;
    if i < |s| - 1 {
      TrimRightSkips(s[..|s| - 1], i);
    }
  }

  /** `inner` is what is left of `s` without the white space at both ends: one stretch of
      it that begins and ends with other characters, or nothing of white space alone. */
  ghost predicate Trims(s: string, inner: string) {
    exists a, b :: 0 <= a <= b <= |s| && inner == s[a..b] && Bare(s, a, b)
  }

  ghost predicate Bare(s: string, a: nat, b: nat)
    requires a <= b <= |s|
  {
    && (forall i :: 0 <= i < a || b <= i < |s| ==> IsSpace(s[i]))
    && (a < b ==> !IsSpace(s[a]) && !IsSpace(s[b - 1]))
  }

  lemma TrimIs(s: string)
    ensures Trims(s, Trim(s))
  {
    hide TrimLeft, TrimRight, IsSpace;
    var a, n := |s| - |TrimLeft(s)|, |TrimRight(TrimLeft(s))|;
    forall i | 0 <= i < a ensures IsSpace(s[i]) {
      TrimLeftSkips(s, i);
    }
    forall i | n <= i < |s| - a ensures IsSpace(s[a..][i]) {
      TrimRightSkips(s[a..], i);
    }
    assert forall i :: a <= i < |s| ==> s[i] == s[a..][i - a];
    assert s[a..][..n] == s[a..a + n];
    assert Bare(s, a, a + n);
  }

  /** Nothing else is. */
  lemma TrimIff(s: string, inner: string)
    ensures inner == Trim(s) <==> Trims(s, inner)
  {
    hide Trim, IsSpace;
    TrimIs(s);
    if Trims(s, inner) {
      var a, b :| 0 <= a <= b <= |s| && inner == s[a..b] && Bare(s, a, b);
      var c, d :| 0 <= c <= d <= |s| && Trim(s) == s[c..d] && Bare(s, c, d);
      BareIsUnique(s, a, b, c, d);
    }
  }

  lemma BareIsUnique(s: string, a: nat, b: nat, c: nat, d: nat)
    requires a <= b <= |s| && c <= d <= |s| && Bare(s, a, b) && Bare(s, c, d)
    ensures s[a..b] == s[c..d]
  {
  }

  lemma TrimTwice(s: string)
    ensures Trim(Trim(s)) == Trim(s)
  {
    hide Trim, IsSpace;
    TrimIs(s);
    var inner := Trim(s);
    assert inner == inner[0..|inner|] && Bare(inner, 0, |inner|);
    TrimIff(inner, inner);
  }

  lemma BlankIff(s: string)
    ensures Blank(s) <==> forall i :: 0 <= i < |s| ==> IsSpace(s[i])
  {
    hide Trim, IsSpace;
    TrimIs(s);
  }

  /** strings.Join with an empty separator. */
  function Join(parts: seq<string>): string {
    if parts == [] then "" else Join(parts[..|parts| - 1]) + parts[|parts| - 1]
  }
}
