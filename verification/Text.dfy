/** String functions the program takes from Go's standard library: strings.ToLower on ASCII,
    strings.Index and strings.Contains, fmt's %d, and the byte order sort.Strings sorts by. */
module Text {

  datatype Option<+T> = None | Some(value: T)

  // ---------------------------------------------------------------- lower case

  function LowerChar(c: char): char {
    if 'A' <= c <= 'Z' then (c as int + 32) as char else c
  }

  function ToLower(s: string): (r: string)
    ensures |r| == |s|
    ensures forall i :: 0 <= i < |s| ==> r[i] == LowerChar(s[i])
  {
    seq(|s|, i requires 0 <= i < |s| => LowerChar(s[i]))
  }

  lemma LowerConcat(a: string, b: string)
    ensures ToLower(a + b) == ToLower(a) + ToLower(b)
  {
  }

  lemma LowerIdempotent(s: string)
    ensures ToLower(ToLower(s)) == ToLower(s)
  {
  }

  /** Lower-casing neither makes nor removes a character that is not a letter. */
  lemma LowerKeepsAbsent(s: string, c: char)
    requires !('A' <= c <= 'Z') && !('a' <= c <= 'z')
    ensures c in s <==> c in ToLower(s)
  {
    if c in s {
      var i :| 0 <= i < |s| && s[i] == c;
      assert ToLower(s)[i] == c;
    }
  }

  /** Two texts agree in lower case exactly when they differ only in the case of ASCII letters; and no capital is
      left. */
  lemma LowerFolds(a: string, b: string)
    ensures ToLower(a) == ToLower(b) <==>
            && |a| == |b|
            && forall i :: 0 <= i < |a| ==>
                 || a[i] == b[i]
                 || ('A' <= a[i] <= 'Z' && b[i] as int == a[i] as int + 32)
                 || ('A' <= b[i] <= 'Z' && a[i] as int == b[i] as int + 32)
    ensures forall i :: 0 <= i < |a| ==> !('A' <= ToLower(a)[i] <= 'Z')
  {
    if ToLower(a) == ToLower(b) {
      assert |a| == |ToLower(a)| == |b|;
      forall i | 0 <= i < |a|
        ensures || a[i] == b[i]
                || ('A' <= a[i] <= 'Z' && b[i] as int == a[i] as int + 32)
                || ('A' <= b[i] <= 'Z' && a[i] as int == b[i] as int + 32)
      {
        assert ToLower(a)[i] == ToLower(b)[i];
      }
    }
  }

  // ---------------------------------------------------------------- searching

  /** strings.Index for one character: the first position of c, or -1. */
  function IndexOf(s: string, c: char): (i: int)
    ensures -1 <= i < |s|
    ensures i < 0 <==> c !in s
    ensures 0 <= i ==> s[i] == c && c !in s[..i]
  {
    if s == [] then -1
    else if s[0] == c then 0
    else
      var j := IndexOf(s[1..], c);
      if j < 0 then -1
      else
        assert s[..j + 1] == [s[0]] + s[1..][..j];
        j + 1
  }

  /** The first occurrence is the one position with nothing equal before it. */
  lemma IndexOfIs(s: string, c: char, i: nat)
    requires i < |s| && s[i] == c && c !in s[..i]
    ensures IndexOf(s, c) == i
  {
    var j := IndexOf(s, c);
    assert forall k :: 0 <= k < i ==> s[..i][k] == s[k];
    assert forall k :: 0 <= k < j ==> s[..j][k] == s[k];
  }

  /** strings.Contains. */
  predicate Contains(s: string, sub: string) {
    HasPrefix(s, sub) || (s != [] && Contains(s[1..], sub))
  }

  /** sub stands at position i of s. */
  predicate StandsAt(s: string, sub: string, i: int) {
    0 <= i && i + |sub| <= |s| && s[i..i + |sub|] == sub
  }

  lemma {:induction false} ContainsIff(s: string, sub: string)
    ensures Contains(s, sub) <==> exists i :: StandsAt(s, sub, i)
  {
    if HasPrefix(s, sub) {
      assert StandsAt(s, sub, 0);
    } else if s != [] {
      ContainsIff(s[1..], sub);
      if i :| StandsAt(s[1..], sub, i) {
        assert s[1..][i..i + |sub|] == s[i + 1..i + 1 + |sub|];
        assert StandsAt(s, sub, i + 1);
      }
      if i :| StandsAt(s, sub, i) {
        assert i > 0 by { assert StandsAt(s, sub, 0) ==> HasPrefix(s, sub); }
        assert s[1..][i - 1..i - 1 + |sub|] == s[i..i + |sub|];
        assert StandsAt(s[1..], sub, i - 1);
      }
    } else {
      assert forall i :: !StandsAt(s, sub, i);
    }
  }

  predicate HasPrefix(s: string, p: string) {
    |p| <= |s| && s[..|p|] == p
  }

  /** Concatenation is associative, said with a name for every part. */
  lemma Joined<T>(a: seq<T>, b: seq<T>, c: seq<T>, ab: seq<T>, bc: seq<T>, abc: seq<T>)
    requires ab == a + b && bc == b + c && abc == ab + c
    ensures abc == a + bc
  {
  }

  lemma CancelPrefix(p: string, a: string, b: string)
    requires p + a == p + b
    ensures a == b
  {
    assert a == (p + a)[|p|..];
  }

  lemma CancelSuffix(a: string, b: string, q: string)
    requires a + q == b + q
    ensures a == b
  {
    assert |a| == |b|;
    assert a == (a + q)[..|a|];
  }

  /** Splitting at the first separator is unambiguous when the left part is free of it. */
  lemma SplitFirst(a: string, b: string, x: string, y: string, sep: char)
    requires sep !in a && sep !in b
    requires a + [sep] + x == b + [sep] + y
    ensures a == b && x == y
  {
    var s := a + [sep] + x;
    assert s[..|a|] == a && s[..|b|] == b;
    assert s[|a|] == sep && s[|b|] == sep;
    IndexOfIs(s, sep, |a|);
    IndexOfIs(s, sep, |b|);
    assert x == s[|a| + 1..];
  }

  /** Splitting at the last separator is unambiguous when the right part is free of it. */
  lemma SplitLast(a: string, b: string, x: string, y: string, sep: char)
    requires sep !in x && sep !in y
    requires a + [sep] + x == b + [sep] + y
    ensures a == b && x == y
  {
    var s := a + [sep] + x;
    assert s == b + [sep] + y;
    assert s[|a|] == sep && s[|b|] == sep;
    assert forall k :: |a| < k < |s| ==> s[k] == x[k - |a| - 1];
    assert forall k :: |b| < k < |s| ==> s[k] == y[k - |b| - 1];
    assert a == s[..|a|] && x == s[|a| + 1..];
  }

  // ---------------------------------------------------------------- decimal numbers

  function Digit(d: nat): char
    requires d < 10
  {
    ('0' as int + d) as char
  }

  /** fmt's %d for a number that is not negative. */
  function Decimal(n: nat): (s: string)
    ensures s != []
  {
    if n < 10 then [Digit(n)] else Decimal(n / 10) + [Digit(n % 10)]
  }

  /** fmt's %d. */
  function Itoa(n: int): string {
    if n < 0 then "-" + Decimal(-n) else Decimal(n)
  }

  function ReadDecimal(s: string): Option<nat> {
    if s == [] then None
    else
      var c := s[|s| - 1];
      if !('0' <= c <= '9') then None
      else
        var d := c as int - '0' as int;
        if |s| == 1 then Some(d)
        else
          match ReadDecimal(s[..|s| - 1])
          case None => None
          case Some(n) => Some(10 * n + d)
  }

  lemma {:induction false} DecimalIsDigits(n: nat)
    ensures forall c :: c in Decimal(n) ==> '0' <= c <= '9'
  {
    if n >= 10 { DecimalIsDigits(n / 10); }
  }

  lemma {:induction false} DecimalRoundTrip(n: nat)
    ensures ReadDecimal(Decimal(n)) == Some(n)
  {
    if n >= 10 {
      DecimalRoundTrip(n / 10);
      assert Decimal(n)[..|Decimal(n)| - 1] == Decimal(n / 10);
    }
  }

  // ---------------------------------------------------------------- byte order

  predicate Less(a: string, b: string) {
    b != [] && (a == [] || a[0] < b[0] || (a[0] == b[0] && Less(a[1..], b[1..])))
  }

  lemma LessTransitive(a: string, b: string, c: string)
    requires Less(a, b) && Less(b, c)
    ensures Less(a, c)
  {
  }

  lemma LessIrreflexive(a: string)
    ensures !Less(a, a)
  {
  }

  lemma {:induction false} LessTotal(a: string, b: string)
    ensures a == b || Less(a, b) || Less(b, a)
  {
    if a != [] && b != [] && a[0] == b[0] {
      LessTotal(a[1..], b[1..]);
      assert a == [a[0]] + a[1..] && b == [b[0]] + b[1..];
    }
  }

  /** The order is decided at the first position where two texts part: by the end of the one, or by the lesser
      character. */
  lemma {:induction false} LessIff(a: string, b: string)
    ensures Less(a, b) <==> exists i :: PartAt(a, b, i)
  {
    if a == [] || b == [] || a[0] != b[0] {
      if Less(a, b) {
        assert PartAt(a, b, 0);
      }
      PartsAtStart(a, b);
    } else {
      LessIff(a[1..], b[1..]);
      if i :| PartAt(a[1..], b[1..], i) {
        assert a[..i + 1] == [a[0]] + a[1..][..i] && b[..i + 1] == [b[0]] + b[1..][..i];
        assert PartAt(a, b, i + 1);
      }
      if i :| PartAt(a, b, i) {
        assert i > 0;
        assert a[1..][..i - 1] == a[..i][1..] && b[1..][..i - 1] == b[..i][1..];
        assert PartAt(a[1..], b[1..], i - 1);
      }
    }
  }

  lemma PartsAtStart(a: string, b: string)
    requires a == [] || b == [] || a[0] != b[0]
    ensures forall i :: PartAt(a, b, i) ==> i == 0
  {
    assert forall i :: 0 < i <= |a| && i <= |b| ==> a[..i][0] == a[0] && b[..i][0] == b[0];
  }

  predicate PartAt(a: string, b: string, i: int) {
    0 <= i <= |a| && i < |b| && a[..i] == b[..i] && (i == |a| || a[i] < b[i])
  }

  /** Strictly ascending, hence without repetition. */
  ghost predicate Ascending(ks: seq<string>) {
    forall i, j :: 0 <= i < j < |ks| ==> Less(ks[i], ks[j])
  }

  ghost predicate Enumerates(ks: seq<string>, s: set<string>) {
    && Ascending(ks)
    && (forall k :: k in ks <==> k in s)
  }

  /** A set has at most one ascending enumeration. */
  lemma {:induction false} EnumerationUnique(ks: seq<string>, ls: seq<string>, s: set<string>)
    requires Enumerates(ks, s) && Enumerates(ls, s)
    ensures ks == ls
    decreases |ks|
  {
    if ks == [] {
      assert forall i :: 0 <= i < |ls| ==> ls[i] in ls;
    } else {
      assert ks[0] in s && ks[0] in ls;
      var i :| 0 <= i < |ls| && ls[i] == ks[0];
      assert ls[0] in s && ls[0] in ks;
      var j :| 0 <= j < |ks| && ks[j] == ls[0];
      if i > 0 && j > 0 {
        LessTransitive(ks[0], ls[0], ks[0]);
        LessIrreflexive(ks[0]);
      }
      assert ks[0] == ls[0];
      EnumeratesTail(ks, s);
      EnumeratesTail(ls, s);
      EnumerationUnique(ks[1..], ls[1..], s - {ks[0]});
    }
  }

  lemma EnumeratesTail(ks: seq<string>, s: set<string>)
    requires Enumerates(ks, s) && ks != []
    ensures Enumerates(ks[1..], s - {ks[0]})
  {
    forall i | 1 <= i < |ks| ensures ks[i] != ks[0] {
      LessIrreflexive(ks[0]);
    }
    forall k ensures k in ks[1..] <==> k in s - {ks[0]} {
      if k in s && k != ks[0] {
        var i :| 0 <= i < |ks| && ks[i] == k;
        assert ks[1..][i - 1] == k;
      }
    }
  }

  /** Puts k in its place: the step of the sort. */
  function Insert(ks: seq<string>, k: string): seq<string> {
    if ks == [] then [k]
    else if Less(k, ks[0]) then [k] + ks
    else [ks[0]] + Insert(ks[1..], k)
  }

  lemma {:induction false} InsertEnumerates(ks: seq<string>, k: string, s: set<string>)
    requires Enumerates(ks, s) && k !in s
    ensures Enumerates(Insert(ks, k), s + {k})
    decreases |ks|
  {
    if ks == [] {
    } else if Less(k, ks[0]) {
      forall i | 0 <= i < |ks| ensures Less(k, ks[i]) {
        if i > 0 { LessTransitive(k, ks[0], ks[i]); }
      }
    } else {
      assert ks[0] in s;
      LessTotal(k, ks[0]);
      EnumeratesTail(ks, s);
      var t := Insert(ks[1..], k);
      InsertEnumerates(ks[1..], k, s - {ks[0]});
      forall i | 0 <= i < |t| ensures Less(ks[0], t[i]) {
        assert t[i] in s - {ks[0]} + {k};
        if t[i] != k {
          var j :| 0 <= j < |ks[1..]| && ks[1..][j] == t[i];
          assert ks[j + 1] == t[i];
        }
      }
      assert Insert(ks, k) == [ks[0]] + t;
      forall x ensures x in Insert(ks, k) <==> x in s + {k} {
        assert x in Insert(ks, k) <==> x == ks[0] || x in t;
      }
    }
  }

  /** The ascending enumeration of a finite set. */
  ghost function Sorted(s: set<string>): (ks: seq<string>)
    ensures forall k :: k in ks <==> k in s
  {
    if s == {} then []
    else
      var k :| k in s;
      InsertMembers(Sorted(s - {k}), k);
      Insert(Sorted(s - {k}), k)
  }

  lemma {:induction false} InsertMembers(ks: seq<string>, k: string)
    ensures forall x :: x in Insert(ks, k) <==> x in ks || x == k
  {
    if ks != [] && !Less(k, ks[0]) {
      InsertMembers(ks[1..], k);
      assert ks == [ks[0]] + ks[1..];
    }
  }

  lemma {:induction false} SortedEnumerates(s: set<string>)
    ensures Enumerates(Sorted(s), s)
  {
    if s != {} {
      var k :| k in s && Sorted(s) == Insert(Sorted(s - {k}), k);
      SortedEnumerates(s - {k});
      InsertEnumerates(Sorted(s - {k}), k, s - {k});
      assert s - {k} + {k} == s;
    }
  }

  // ---------------------------------------------------------------- picking positions

  ghost predicate Increasing(at: seq<nat>, bound: nat) {
    && (forall i, j :: 0 <= i < j < |at| ==> at[i] < at[j])
    && (forall i :: 0 <= i < |at| ==> at[i] < bound)
  }

  /** sub is whole at these positions. */
  ghost predicate Picks<T>(sub: seq<T>, whole: seq<T>, at: seq<nat>) {
    |at| == |sub| && Increasing(at, |whole|) && forall i :: 0 <= i < |at| ==> sub[i] == whole[at[i]]
  }

  lemma PicksSnoc<T>(sub: seq<T>, whole: seq<T>, at: seq<nat>, x: T)
    requires Picks(sub, whole, at)
    ensures Picks(sub, whole + [x], at)
    ensures Picks(sub + [x], whole + [x], at + [|whole|])
  {
  }
}
