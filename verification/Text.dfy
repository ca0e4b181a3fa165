/** String.prototype.trim, on the white space of plain texts. */
module Text {

  predicate Blank(c: char) {
    c == ' ' || c == '\t' || c == '\n' || c == '\r'
  }

  function TrimStart(s: string): string {
    if s != [] && Blank(s[0]) then TrimStart(s[1..]) else s
  }

  function TrimEnd(s: string): string {
    if s != [] && Blank(s[|s| - 1]) then TrimEnd(s[..|s| - 1]) else s
  }

  function Trim(s: string): string {
    TrimEnd(TrimStart(s))
  }

  lemma {:induction false} StartDropsBlanks(s: string)
    ensures |TrimStart(s)| <= |s|
    ensures
      var n := |s| - |TrimStart(s)|;
      && TrimStart(s) == s[n..] && (forall i | 0 <= i < n :: Blank(s[i])) && (n < |s| ==> !Blank(s[n]))
  {
    hide Blank;
    if s != [] && Blank(s[0]) {
      var tail := s[1..];
      StartDropsBlanks(tail);
      var n := |tail| - |TrimStart(tail)|;
      assert tail[n..] == s[n + 1..];
      assert forall i | 0 < i <= n :: s[i] == tail[i - 1];
    }
  }

  lemma {:induction false} EndDropsBlanks(s: string)
    ensures |TrimEnd(s)| <= |s|
    ensures
      var n := |TrimEnd(s)|;
      && TrimEnd(s) == s[..n] && (forall i | n <= i < |s| :: Blank(s[i])) && (n > 0 ==> !Blank(s[n - 1]))
  {
    hide Blank;
    if s != [] && Blank(s[|s| - 1]) {
      var head := s[..|s| - 1];
      EndDropsBlanks(head);
      var n := |TrimEnd(head)|;
      assert head[..n] == s[..n];
    }
  }

  /** Trimming drops white space at both ends, all of it there, and nothing else. */
  lemma TrimDropsOuterBlanks(s: string) returns (a: nat, b: nat)
    ensures a <= b <= |s| && Trim(s) == s[a..b]
    ensures forall i | 0 <= i < a || b <= i < |s| :: s[i] in {' ', '\t', '\n', '\r'}
    ensures a < b ==> s[a] !in {' ', '\t', '\n', '\r'} && s[b - 1] !in {' ', '\t', '\n', '\r'}
  {
    hide TrimStart, TrimEnd;
    StartDropsBlanks(s);
    var rest := TrimStart(s);
    EndDropsBlanks(rest);
    a := |s| - |rest|;
    b := a + |TrimEnd(rest)|;
    assert rest[..b - a] == s[a..b];
    assert forall i | a <= i < |s| :: s[i] == rest[i - a];
  }
}
