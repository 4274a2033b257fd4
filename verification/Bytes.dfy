/** Byte strings, their order, and the bytes written for lengths and JSON values. */
module Bytes {
  import opened Records

  type Byte = c: char | c < 256 as char

  type Bytes = seq<Byte>

  // ---- Length framing ----

  /** The low k bytes of n, most significant first. */
  function BigEndian(n: nat, k: nat): (b: Bytes)
    ensures |b| == k
  {
    if k == 0 then [] else BigEndian(n / 256, k - 1) + [(n % 256) as char]
  }

  function Power256(k: nat): nat {
    if k == 0 then 1 else 256 * Power256(k - 1)
  }

  /** The number that bytes denote, most significant first. */
  function ValueOf(b: Bytes): nat {
    if b == [] then 0 else 256 * ValueOf(b[..|b| - 1]) + b[|b| - 1] as nat
  }

  lemma {:induction false} BigEndianReads(n: nat, k: nat)
    requires n < Power256(k)
    ensures ValueOf(BigEndian(n, k)) == n
    decreases k
  {
    if k > 0 {
      var b := BigEndian(n, k);
      assert b[..k - 1] == BigEndian(n / 256, k - 1);
      BigEndianReads(n / 256, k - 1);
    }
  }

  const U64: nat := 0x1_0000_0000_0000_0000

  lemma Power256Eight()
    ensures Power256(8) == U64
  {
    assert Power256(2) == 65536;
    assert Power256(4) == 65536 * 65536;
    assert Power256(6) == 65536 * 65536 * 65536;
  }

  function Framed(data: Bytes): Bytes {
    BigEndian(|data|, 8) + data
  }

  /** Reads a frame: eight bytes of length, and that many bytes. */
  function ReadFrame(s: Bytes): Option<(Bytes, Bytes)> {
    if |s| < 8 || |s| < 8 + ValueOf(s[..8]) then None
    else Some((s[8..8 + ValueOf(s[..8])], s[8 + ValueOf(s[..8])..]))
  }

  /** A frame is read back whole, whatever follows it. */
  lemma FrameReads(data: Bytes, rest: Bytes)
    requires |data| < U64
    ensures ReadFrame(Framed(data) + rest) == Some((data, rest))
  {
    Power256Eight();
    var s := Framed(data) + rest;
    assert s[..8] == BigEndian(|data|, 8) && s[8..] == data + rest;
    BigEndianReads(|data|, 8);
    assert s[8..8 + |data|] == data && s[8 + |data|..] == rest;
  }

  /** So a frame at the front of a byte string can be split off in one way only. */
  lemma FramedUnique(a: Bytes, x: Bytes, b: Bytes, y: Bytes)
    requires |a| < U64 && |b| < U64 && Framed(a) + x == Framed(b) + y
    ensures a == b && x == y
  {
    FrameReads(a, x);
    FrameReads(b, y);
  }

  // ---- Key order ----

  predicate Less(a: Bytes, b: Bytes) {
    b != [] && (a == [] || a[0] < b[0] || (a[0] == b[0] && Less(a[1..], b[1..])))
  }

  /** One is a proper beginning of the other, or the first byte in which they differ is smaller. */
  predicate FirstDifference(a: Bytes, b: Bytes, n: nat) {
    n <= |a| && n < |b| && a[..n] == b[..n] && (n == |a| || a[n] < b[n])
  }

  lemma SameHead(a: Bytes, b: Bytes, n: nat)
    requires n <= |a| && n <= |b| && a[..n] == b[..n]
    ensures n == 0 || a[0] == b[0]
  {
    if n > 0 {
      assert a[..n][0] == b[..n][0];
    }
  }

  lemma {:induction false} LessIff(a: Bytes, b: Bytes)
    ensures Less(a, b) <==> exists n: nat :: FirstDifference(a, b, n)
    decreases |a|
  {
    if a == [] || b == [] || a[0] != b[0] {
      if b != [] && (a == [] || a[0] < b[0]) {
        assert FirstDifference(a, b, 0);
      }
      if n: nat :| FirstDifference(a, b, n) {
        SameHead(a, b, n);
      }
    } else {
      LessIff(a[1..], b[1..]);
      if n: nat :| FirstDifference(a[1..], b[1..], n) {
        assert a[..n + 1] == [a[0]] + a[1..][..n] && b[..n + 1] == [b[0]] + b[1..][..n];
        assert FirstDifference(a, b, n + 1);
      }
      if n: nat :| FirstDifference(a, b, n) {
        assert n > 0;
        assert a[1..][..n - 1] == a[..n][1..] && b[1..][..n - 1] == b[..n][1..];
        assert FirstDifference(a[1..], b[1..], n - 1);
      }
    }
  }

  lemma {:induction false} LessTotal(a: Bytes, b: Bytes)
    ensures Less(a, b) || a == b || Less(b, a)
    ensures !(Less(a, b) && Less(b, a))
    decreases |a|
  {
    if a != [] && b != [] && a[0] == b[0] {
      LessTotal(a[1..], b[1..]);
      if a[1..] == b[1..] {
        assert a == [a[0]] + a[1..] && b == [b[0]] + b[1..];
      }
    }
  }

  lemma {:induction false} LessTrans(a: Bytes, b: Bytes, c: Bytes)
    requires Less(a, b) && Less(b, c)
    ensures Less(a, c)
    decreases |a|
  {
    if a != [] && a[0] == b[0] == c[0] {
      LessTrans(a[1..], b[1..], c[1..]);
    }
  }

  ghost predicate IsLeast(k: Bytes, s: set<Bytes>) {
    k in s && forall j :: j in s && j != k ==> Less(k, j)
  }

  lemma LeastExists(s: set<Bytes>) returns (k: Bytes)
    requires s != {}
    ensures IsLeast(k, s)
  {
    var x :| x in s;
    var rest := s - {x};
    k := x;
    if rest != {} {
      var m := LeastExists(rest);
      LessTotal(x, m);
      k := if Less(m, x) then m else x;
      forall j | j in rest && j != k
        ensures Less(k, j)
      {
        if k == x && j != m {
          LessTrans(x, m, j);
        }
      }
    }
    assert forall j :: j in s ==> j == x || j in rest;
  }

  lemma SomeLeast(s: set<Bytes>)
    requires s != {}
    ensures exists k :: IsLeast(k, s)
  {
    var k := LeastExists(s);
  }

  lemma LeastUnique(s: set<Bytes>, j: Bytes, k: Bytes)
    requires IsLeast(j, s) && IsLeast(k, s)
    ensures j == k
  {
    LessTotal(j, k);
  }

  /** The keys of an object in ascending order. */
  ghost function Sorted(s: set<Bytes>): (keys: seq<Bytes>)
    ensures |keys| == |s|
    ensures forall k :: k in keys <==> k in s
  {
    if s == {} then []
    else
      SomeLeast(s);
      var k :| IsLeast(k, s);
      [k] + Sorted(s - {k})
  }

  lemma SortedStep(s: set<Bytes>, k: Bytes)
    requires IsLeast(k, s)
    ensures Sorted(s) == [k] + Sorted(s - {k})
  {
    var j := Sorted(s)[0];
    assert IsLeast(j, s) && Sorted(s) == [j] + Sorted(s - {j});
    LeastUnique(s, j, k);
  }

  lemma {:induction false} SortedAscends(s: set<Bytes>, i: nat, j: nat)
    requires i < j < |Sorted(s)|
    ensures Less(Sorted(s)[i], Sorted(s)[j])
    decreases |s|
  {
    SomeLeast(s);
    var k :| IsLeast(k, s);
    SortedStep(s, k);
    var rest := Sorted(s - {k});
    assert Sorted(s)[j] == rest[j - 1];
    if i > 0 {
      assert Sorted(s)[i] == rest[i - 1];
      SortedAscends(s - {k}, i - 1, j - 1);
    } else {
      assert rest[j - 1] in rest;
    }
  }

  lemma Regroup<T>(a: seq<T>, b: seq<T>, c: seq<T>)
    ensures a + (b + c) == (a + b) + c
  {
  }

  method SortKeys(s: set<Bytes>) returns (keys: seq<Bytes>)
    ensures keys == Sorted(s)
  {
    keys := [];
    var todo := s;
    while todo != {}
      invariant keys + Sorted(todo) == Sorted(s)
      decreases |todo|
    {
      var k := FindLeast(todo);
      SortedStep(todo, k);
      Regroup(keys, [k], Sorted(todo - {k}));
      keys := keys + [k];
      todo := todo - {k};
    }
    assert keys + [] == keys;
  }

  method FindLeast(s: set<Bytes>) returns (k: Bytes)
    requires s != {}
    ensures IsLeast(k, s)
  {
    k :| k in s;
    var todo := s - {k};
    while todo != {}
      invariant k in s && todo <= s && forall j :: j in s && j !in todo && j != k ==> Less(k, j)
      decreases |todo|
    {
      var j :| j in todo;
      LessTotal(j, k);
      if Less(j, k) {
        forall i | i in s && i !in todo && i != k
          ensures Less(j, i)
        {
          LessTrans(j, k, i);
        }
        k := j;
      }
      todo := todo - {j};
    }
  }
}
