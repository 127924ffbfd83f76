/** String operations of JavaScript that the services use. */
module Texts {
  /** White space and line terminators of sections 12.2 and 12.3 of ECMA-262. */
  predicate IsSpace(c: char) {
    var code := c as int;
    || 9 <= code <= 13 || code == 32 || code == 160 || code == 0x1680 || 0x2000 <= code <= 0x200A
    || code == 0x2028 || code == 0x2029 || code == 0x202F || code == 0x205F || code == 0x3000 || code == 0xFEFF
  }

  function TrimStart(s: string): (r: string)
    ensures r != "" ==> !IsSpace(r[0])
    ensures |r| <= |s| && (r == s || (s != "" && IsSpace(s[0])))
  {
    if s != "" && IsSpace(s[0]) then TrimStart(s[1..]) else s
  }

  function TrimEnd(s: string): (r: string)
    ensures r <= s
    ensures r != "" ==> !IsSpace(r[|r| - 1])
    ensures r == s || (s != "" && IsSpace(s[|s| - 1]))
  {
    if s != "" && IsSpace(s[|s| - 1]) then TrimEnd(s[..|s| - 1]) else s
  }

  function Trim(s: string): string {
    TrimEnd(TrimStart(s))
  }

  /** Trimming leaves exactly the texts that neither start nor end with white space. */
  lemma TrimIsIdentity(s: string)
    ensures Trim(s) == s <==> s == "" || (!IsSpace(s[0]) && !IsSpace(s[|s| - 1]))
  {
    var t := TrimStart(s);
    var u := TrimEnd(t);
    assert u != "" ==> u[0] == t[0];
    assert s != "" && IsSpace(s[0]) ==> |t| < |s|;
    assert t != "" && IsSpace(t[|t| - 1]) ==> u != t;
  }

  lemma TrimIsTrimmed(s: string)
    ensures Trim(Trim(s)) == Trim(s)
  {
    var t := TrimStart(s);
    var u := TrimEnd(t);
    assert u != "" ==> u[0] == t[0];
    TrimIsIdentity(u);
  }

  // ---- what is left ----

  /** r is s without the white space at its two ends, and with nothing else gone. */
  ghost predicate IsCore(s: string, r: string) {
    exists i: nat, j: nat {:trigger s[i..j]} :: i <= j <= |s| && r == s[i..j] && Framed(s, i, j)
  }

  /** Outside i..j there is white space only, and what is inside neither starts nor ends with white space. */
  ghost predicate Framed(s: string, i: nat, j: nat)
    requires i <= j <= |s|
  {
    && (forall k :: 0 <= k < i ==> IsSpace(s[k]))
    && (forall k :: j <= k < |s| ==> IsSpace(s[k]))
    && (i < j ==> !IsSpace(s[i]) && !IsSpace(s[j - 1]))
  }

  lemma {:induction false} TrimStartCuts(s: string) returns (i: nat)
    ensures i <= |s| && TrimStart(s) == s[i..] && forall k :: 0 <= k < i ==> IsSpace(s[k])
  {
    i := 0;
    if s != "" && IsSpace(s[0]) {
      var j := TrimStartCuts(s[1..]);
      i := j + 1;
      assert forall k :: 0 < k < i ==> s[k] == s[1..][k - 1];
    }
  }

  lemma {:induction false} TrimEndCuts(s: string) returns (j: nat)
    ensures j <= |s| && TrimEnd(s) == s[..j] && forall k :: j <= k < |s| ==> IsSpace(s[k])
  {
    j := |s|;
    if s != "" && IsSpace(s[|s| - 1]) {
      var front := s[..|s| - 1];
      j := TrimEndCuts(front);
      assert forall k :: 0 <= k < |front| ==> s[k] == front[k];
    }
  }

  /** Trimming takes away the white space at both ends, all of it, and nothing else. */
  lemma TrimLeavesCore(s: string)
    ensures IsCore(s, Trim(s))
  {
    var i := TrimStartCuts(s);
    var t := TrimStart(s);
    var n := TrimEndCuts(t);
    var j := i + n;
    assert forall k :: j <= k < |s| ==> s[k] == t[k - i];
    assert s[i..j] == t[..n] == Trim(s);
    TrimmedEnds(s);
    var r := Trim(s);
    assert i < j ==> s[i] == r[0] && s[j - 1] == r[|r| - 1];
  }

  lemma TrimmedEnds(s: string)
    ensures var r := Trim(s); r != "" ==> !IsSpace(r[0]) && !IsSpace(r[|r| - 1])
  {
    var t := TrimStart(s);
    assert Trim(s) != "" ==> Trim(s)[0] == t[0];
  }

  /** The white space, character by character. */
  lemma SpaceCharacters(c: char)
    ensures IsSpace(c) <==>
      || c in "\t\n\r \U{000B}\U{000C}\U{00A0}\U{1680}\U{2028}\U{2029}\U{202F}\U{205F}\U{3000}\U{FEFF}"
      || '\U{2000}' <= c <= '\U{200A}'
  {
  }
}
