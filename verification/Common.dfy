/** Small shared vocabulary. */
module Common {

  datatype Option<+T> = None | Some(value: T)

  /** A 32-bit register or counter holds a natural number modulo 2^32. */
  function Wrap32(x: int): (r: nat)
    ensures r < 0x1_0000_0000
  {
    x % 0x1_0000_0000
  }

  function Min(a: nat, b: nat): (r: nat)
    ensures r <= a && r <= b && (r == a || r == b)
  {
    if a <= b then a else b
  }

  function Pow2(n: nat): (r: nat)
    ensures r > 0
  {
    if n == 0 then 1 else 2 * Pow2(n - 1)
  }

  /** `s` with the elements from `at` on replaced by those of `b`. */
  function Splice<T>(s: seq<T>, at: nat, b: seq<T>): (r: seq<T>)
    requires at + |b| <= |s|
    ensures |r| == |s|
    ensures forall i :: 0 <= i < |s| ==> r[i] == if at <= i < at + |b| then b[i - at] else s[i]
  {
    s[..at] + b + s[at + |b|..]
  }

  ghost predicate Distinct<T(!new)>(s: seq<T>) {
    forall i, j :: 0 <= i < j < |s| ==> s[i] != s[j]
  }

  ghost predicate Below(s: seq<nat>, n: nat) {
    forall i :: 0 <= i < |s| ==> s[i] < n
  }

  /** Distinct numbers below `n` are at most `n` many, and exactly `n` many only if none is missing. */
  lemma {:induction false} Pigeonhole(s: seq<nat>, n: nat)
    requires Distinct(s) && Below(s, n)
    ensures |s| <= n
    ensures |s| == n ==> forall d: nat :: d < n ==> d in s
    decreases n
  {
    if |s| == 0 {
    } else if s[0] == n - 1 || n - 1 in s {
      var k :| 0 <= k < |s| && s[k] == n - 1;
      var rest := s[..k] + s[k + 1..];
      assert Distinct(rest) && Below(rest, n - 1) by {
        forall i | 0 <= i < |rest| ensures rest[i] < n - 1 && rest[i] == s[if i < k then i else i + 1] {
          assert s[if i < k then i else i + 1] != s[k];
        }
      }
      Pigeonhole(rest, n - 1);
      forall d: nat | |s| == n && d < n ensures d in s {
        if d < n - 1 { assert d in rest; }
      }
    } else {
      assert Below(s, n - 1) by {
        forall i | 0 <= i < |s| ensures s[i] < n - 1 { assert s[i] != n - 1; }
      }
      Pigeonhole(s, n - 1);
    }
  }

  /** A sequence that mentions every number below `n` has at least `n` elements. */
  lemma {:induction false} Covering(s: seq<nat>, n: nat)
    requires forall d: nat :: d < n ==> d in s
    ensures n <= |s|
    decreases n
  {
    if n > 0 {
      assert n - 1 in s;
      var k :| 0 <= k < |s| && s[k] == n - 1;
      var rest := s[..k] + s[k + 1..];
      forall d: nat | d < n - 1 ensures d in rest {
        assert d in s;
        var i :| 0 <= i < |s| && s[i] == d;
        assert rest[if i < k then i else i - 1] == d;
      }
      Covering(rest, n - 1);
    }
  }

  /** Quotient and remainder are unique. */
  lemma DivUnique(x: int, b: int, q: int, r: int)
    requires b > 0 && x == q * b + r && 0 <= r < b
    ensures x % b == r
  {
    var q', r' := x / b, x % b;
    assert x == q' * b + r' && 0 <= r' < b;
    if q' > q {
      assert (q' - q) * b >= b by { MulGrows(q' - q, b); }
    } else if q' < q {
      assert (q - q') * b >= b by { MulGrows(q - q', b); }
    }
  }

  lemma MulGrows(k: int, b: int)
    requires k >= 1 && b > 0
    ensures k * b >= b
  {
  }
}
