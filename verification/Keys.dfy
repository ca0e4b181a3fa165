/**
 Primary keys and their order, and the ordered listing of a finite set of keys that an
 `ORDER BY` over the primary key produces.
 */
module Keys {
  import opened Common

  /** `gate` is the text component of the gate table's key; identity tables leave it empty. */
  datatype Key = Key(id: int, gate: string)

  /** Lexicographic order on texts, as JavaScript's `<` compares strings. */
  predicate TextLess(a: string, b: string) {
    b != [] && (a == [] || a[0] < b[0] || (a[0] == b[0] && TextLess(a[1..], b[1..])))
  }

  lemma {:induction false} TextLessIsStrictOrder(a: string, b: string, c: string)
    ensures !TextLess(a, a)
    ensures TextLess(a, b) && TextLess(b, c) ==> TextLess(a, c)
    ensures TextLess(a, b) || a == b || TextLess(b, a)
    decreases |a| + |b| + |c|
  {
    if a != [] {
      TextLessIsStrictOrder(a[1..], if b == [] then [] else b[1..], if c == [] then [] else c[1..]);
      if b != [] && a[0] == b[0] && a[1..] == b[1..] {
        assert a == [a[0]] + a[1..] == b;
      }
    }
  }

  /** Where two texts first differ, `a` has the smaller character or has ended. */
  ghost predicate Precedes(a: string, b: string) {
    exists k :: 0 <= k <= |a| && k < |b| && a[..k] == b[..k] && (k == |a| || a[k] < b[k])
  }

  /** The first position at which two texts differ decides their order; a proper prefix comes first. */
  lemma {:induction false} FirstDifferenceDecides(a: string, b: string, k: nat)
    requires k <= |a| && k <= |b| && a[..k] == b[..k]
    ensures k < |a| && k < |b| && a[k] != b[k] ==> (TextLess(a, b) <==> a[k] < b[k])
    ensures k == |a| ==> (TextLess(a, b) <==> |a| < |b|)
    ensures k == |b| ==> !TextLess(a, b)
    decreases k
  {
    if k > 0 {
      assert a[0] == a[..k][0] == b[..k][0] == b[0];
      assert a[1..][..k - 1] == a[..k][1..] && b[1..][..k - 1] == b[..k][1..];
      FirstDifferenceDecides(a[1..], b[1..], k - 1);
    }
  }

  lemma {:induction false} CommonPrefix(a: string, b: string) returns (k: nat)
    ensures k <= |a| && k <= |b| && a[..k] == b[..k] && (k < |a| && k < |b| ==> a[k] != b[k])
  {
    if a == [] || b == [] || a[0] != b[0] {
      k := 0;
    } else {
      k := CommonPrefix(a[1..], b[1..]);
      k := k + 1;
      assert a[..k] == [a[0]] + a[1..][..k - 1] && b[..k] == [b[0]] + b[1..][..k - 1];
    }
  }

  lemma TextLessMeansPrecedes(a: string, b: string)
    ensures TextLess(a, b) <==> Precedes(a, b)
  {
    hide TextLess;
    var k := CommonPrefix(a, b);
    FirstDifferenceDecides(a, b, k);
    if Precedes(a, b) {
      var j :| 0 <= j <= |a| && j < |b| && a[..j] == b[..j] && (j == |a| || a[j] < b[j]);
      FirstDifferenceDecides(a, b, j);
    }
  }

  /** comparePrimaryKeys by components: ids numerically, then gates by their first difference. */
  lemma CompareByComponents(a: Key, b: Key)
    ensures Compare(a, b) < 0 <==> a.id < b.id || (a.id == b.id && Precedes(a.gate, b.gate))
    ensures Compare(a, b) > 0 <==> b.id < a.id || (a.id == b.id && Precedes(b.gate, a.gate))
    ensures Compare(a, b) == 0 <==> a == b
  {
    TextLessMeansPrecedes(a.gate, b.gate);
    TextLessMeansPrecedes(b.gate, a.gate);
  }

  predicate Less(a: Key, b: Key) {
    a.id < b.id || (a.id == b.id && TextLess(a.gate, b.gate))
  }

  /** comparePrimaryKeys: the first component that differs decides. */
  function Compare(a: Key, b: Key): (sign: int)
    ensures sign < 0 <==> Less(a, b)
    ensures sign > 0 <==> Less(b, a)
    ensures sign == 0 <==> a == b
  {
    LessIsStrictOrder(a, b, a);
    LessIsStrictOrder(b, a, b);
    if a.id < b.id then -1
    else if a.id > b.id then 1
    else if TextLess(a.gate, b.gate) then -1
    else if TextLess(b.gate, a.gate) then 1
    else 0
  }

  lemma LessIsStrictOrder(a: Key, b: Key, c: Key)
    ensures !Less(a, a)
    ensures Less(a, b) && Less(b, c) ==> Less(a, c)
    ensures Less(a, b) || a == b || Less(b, a)
    ensures !(Less(a, b) && Less(b, a))
  {
    TextLessIsStrictOrder(a.gate, b.gate, c.gate);
    TextLessIsStrictOrder(a.gate, b.gate, a.gate);
  }

  /** Strictly increasing: what a scan checks as PRIMARY_KEY_ORDER_INVALID. */
  ghost predicate Increasing(ks: seq<Key>) {
    forall i, j :: 0 <= i < j < |ks| ==> Less(ks[i], ks[j])
  }

  predicate IsMin(m: Key, s: set<Key>) {
    m in s && forall k | k in s :: k != m ==> Less(m, k)
  }

  lemma {:induction false} MinExists(s: set<Key>)
    requires s != {}
    ensures exists m :: IsMin(m, s)
    decreases |s|
  {
    var m :| m in s;
    var rest := s - {m};
    assert forall k | k in s :: k == m || k in rest;
    if rest == {} {
      assert IsMin(m, s);
    } else {
      MinExists(rest);
      var n :| IsMin(n, rest);
      LessIsStrictOrder(m, n, m);
      var least := if Less(n, m) then n else m;
      forall k | k in s && k != least ensures Less(least, k) {
        LessIsStrictOrder(m, n, k);
        LessIsStrictOrder(n, m, k);
      }
      assert IsMin(least, s);
    }
  }

  function Min(s: set<Key>): (m: Key)
    requires s != {}
    ensures IsMin(m, s)
  {
    MinExists(s);
    assert forall m, n | IsMin(m, s) && IsMin(n, s) :: m == n by {
      forall m, n | IsMin(m, s) && IsMin(n, s) ensures m == n {
        LessIsStrictOrder(m, n, m);
      }
    }
    var m :| IsMin(m, s);
    m
  }

  /** The keys of `s` in increasing order. */
  function Ordered(s: set<Key>): (ks: seq<Key>)
    ensures Elements(ks) == s
    ensures Increasing(ks)
    decreases |s|
  {
    if s == {} then []
    else
      var m := Min(s);
      var rest := Ordered(s - {m});
      PrependLeast(s, m, rest);
      [m] + rest
  }

  lemma PrependLeast(s: set<Key>, m: Key, rest: seq<Key>)
    requires IsMin(m, s) && Elements(rest) == s - {m} && Increasing(rest)
    ensures Elements([m] + rest) == s && Increasing([m] + rest)
  {
    var ks := [m] + rest;
    assert forall k :: k in ks <==> k == m || k in rest;
    assert forall k :: k in rest <==> k in Elements(rest);
    forall i, j | 0 <= i < j < |ks| ensures Less(ks[i], ks[j]) {
      assert ks[j] == rest[j - 1] && rest[j - 1] in Elements(rest);
    }
  }

  /** A set of keys has one increasing listing. */
  lemma {:induction false} IncreasingIsUnique(a: seq<Key>, b: seq<Key>)
    requires Increasing(a) && Increasing(b) && Elements(a) == Elements(b)
    ensures a == b
  {
    NoElements(a);
    NoElements(b);
    if a != [] {
      assert a[0] in Elements(b) && b != [];
      assert b[0] in Elements(a);
      FirstIsLeast(a, b[0]);
      FirstIsLeast(b, a[0]);
      LessIsStrictOrder(a[0], b[0], a[0]);
      TailElements(a);
      TailElements(b);
      IncreasingIsUnique(a[1..], b[1..]);
      assert a == [a[0]] + a[1..] && b == [b[0]] + b[1..];
    }
  }

  lemma NoElements(ks: seq<Key>)
    ensures Elements(ks) == {} <==> ks == []
  {
    if ks != [] {
      assert ks[0] in Elements(ks);
    }
  }

  lemma FirstIsLeast(ks: seq<Key>, k: Key)
    requires Increasing(ks) && k in ks
    ensures k == ks[0] || Less(ks[0], k)
  {
  }

  lemma TailElements(ks: seq<Key>)
    requires Increasing(ks) && ks != []
    ensures Elements(ks[1..]) == Elements(ks) - {ks[0]}
  {
    assert forall k :: k in ks <==> k == ks[0] || k in ks[1..];
    LessIsStrictOrder(ks[0], ks[0], ks[0]);
  }

  /** Behind the n-th key of an increasing list are exactly the greater keys. */
  lemma BehindIsGreater(ks: seq<Key>, n: nat, k: Key)
    requires Increasing(ks) && 0 < n <= |ks|
    ensures k in ks[n..] <==> k in ks && Less(ks[n - 1], k)
  {
    if k in ks[n..] {
      var j :| 0 <= j < |ks| - n && ks[n..][j] == k;
      assert ks[n + j] == k;
    }
    if k in ks && Less(ks[n - 1], k) {
      var i :| 0 <= i < |ks| && ks[i] == k;
      LessIsStrictOrder(ks[n - 1], k, ks[n - 1]);
      assert i >= n;
      assert ks[n..][i - n] == k;
    }
  }

  /** The keys of `s` after the n-th are the keys greater than the n-th. */
  lemma OrderedAfter(s: set<Key>, n: nat, after: set<Key>)
    requires 0 < n <= |Ordered(s)|
    requires forall k :: k in after <==> k in s && Less(Ordered(s)[n - 1], k)
    ensures Ordered(after) == Ordered(s)[n..]
  {
    hide Ordered;
    var ks := Ordered(s);
    forall k ensures k in after <==> k in Elements(ks[n..]) {
      BehindIsGreater(ks, n, k);
      assert k in s <==> k in Elements(ks);
    }
    assert Elements(ks[n..]) == after;
    IncreasingIsUnique(Ordered(after), ks[n..]);
  }
}
