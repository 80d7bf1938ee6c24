/**
  JavaScript built-ins that the admin console relies on, stated once and used
  by every screen: `Array.prototype.findIndex`/`indexOf`/`filter`/`splice`,
  `String.prototype.trim`/`startsWith`, the ToInt32 conversion behind `~`, and
  an Option type for `undefined`.
 */
module JsPrims {

  datatype Option<+T> = None | Some(value: T) {
    /** `x ?? d` */
    function GetOr(default: T): T {
      match this
      case Some(v) => v
      case None => default
    }
  }

  // ---------------------------------------------------------------------------
  // Arrays
  // ---------------------------------------------------------------------------

  /** `s.findIndex(p)`: the first index whose element satisfies `p`, or -1. */
  function FindIndex<T>(s: seq<T>, p: T -> bool): (r: int)
    ensures -1 <= r < |s|
    ensures r == -1 <==> forall i :: 0 <= i < |s| ==> !p(s[i])
    ensures r >= 0 ==> p(s[r]) && forall i :: 0 <= i < r ==> !p(s[i])
  {
    if |s| == 0 then -1
    else if p(s[0]) then 0
    else
      var k := FindIndex(s[1..], p);
      if k == -1 then -1 else k + 1
  }

  /** `s.indexOf(x)`: the first position of `x`, or -1. */
  function IndexOf<T(==)>(s: seq<T>, x: T): (r: int)
    ensures -1 <= r < |s|
    ensures r == -1 <==> x !in s
    ensures r >= 0 ==> s[r] == x && forall i :: 0 <= i < r ==> s[i] != x
  {
    FindIndex(s, y => y == x)
  }

  /** The first position of `x` is the one before which `x` does not occur. */
  lemma IndexOfAt<T>(s: seq<T>, i: nat, x: T)
    requires i < |s| && s[i] == x
    requires forall j :: 0 <= j < i ==> s[j] != x
    ensures IndexOf(s, x) == i
  {
  }

  /** An element first found in `b` is found in `a + b` after the whole of
      `a` when `a` does not hold it. */
  lemma IndexOfAfter<T>(a: seq<T>, b: seq<T>, x: T)
    requires x !in a && x in b
    ensures IndexOf(a + b, x) == |a| + IndexOf(b, x)
  {
    var k := IndexOf(b, x);
    var ab := a + b;
    forall j | 0 <= j < |a| + k ensures ab[j] != x {
      if j < |a| {
        assert ab[j] == a[j] && a[j] in a;
      } else {
        assert ab[j] == b[j - |a|];
      }
    }
    IndexOfAt(ab, |a| + k, x);
  }

  /** `s.filter(p)`: the elements satisfying `p`, in their original order. */
  function Filter<T(!new)>(s: seq<T>, p: T -> bool): (r: seq<T>)
    ensures |r| <= |s|
    ensures forall x :: x in r <==> x in s && p(x)
    ensures (forall i :: 0 <= i < |s| ==> p(s[i])) ==> r == s
  {
    if |s| == 0 then []
    else if p(s[0]) then [s[0]] + Filter(s[1..], p)
    else Filter(s[1..], p)
  }

  /** Filtering keeps relative order: it distributes over concatenation. */
  lemma {:induction false} FilterAppend<T(!new)>(a: seq<T>, b: seq<T>, p: T -> bool)
    ensures Filter(a + b, p) == Filter(a, p) + Filter(b, p)
  {
    if |a| > 0 {
      assert (a + b)[1..] == a[1..] + b;
      FilterAppend(a[1..], b, p);
    } else {
      assert a + b == b;
    }
  }

  /** Removing the element at `k` removes it from the filtered list when it
      passes the filter, and changes nothing there otherwise. */
  lemma FilterRemoveAt<T(!new)>(s: seq<T>, k: nat, p: T -> bool)
    requires k < |s|
    ensures p(s[k]) ==> |Filter(s[..k] + s[k + 1..], p)| == |Filter(s, p)| - 1
    ensures !p(s[k]) ==> Filter(s[..k] + s[k + 1..], p) == Filter(s, p)
  {
    var a, b := s[..k], s[k + 1..];
    assert s == a + ([s[k]] + b);
    FilterAppend(a, [s[k]] + b, p);
    FilterAppend(a, b, p);
    assert ([s[k]] + b)[1..] == b;
  }

  /** The element index `start` of `splice(start, 1)` resolves to, as in
      ECMAScript: a negative start counts from the end, clamped to 0. */
  function SpliceStart(len: nat, start: int): (k: nat)
    ensures k <= len
    ensures 0 <= start <= len ==> k == start
    ensures -(len as int) <= start < 0 ==> k == len + start
  {
    if start < 0 then (if len + start < 0 then 0 else len + start)
    else if start > len then len
    else start
  }

  /** The array left by `s.splice(start, 1)`. */
  function SpliceOne<T>(s: seq<T>, start: int): (r: seq<T>)
    ensures var k := SpliceStart(|s|, start);
      if k < |s| then |r| == |s| - 1 && r == s[..k] + s[k + 1..] else r == s
  {
    var k := SpliceStart(|s|, start);
    if k < |s| then s[..k] + s[k + 1..] else s
  }

  /** `s.splice(s.indexOf(x), 1)` drops the last element when `x` is absent. */
  lemma SpliceMinusOneDropsLast<T>(s: seq<T>)
    requires |s| > 0
    ensures SpliceOne(s, -1) == s[..|s| - 1]
  {
  }

  // ---------------------------------------------------------------------------
  // Strings
  // ---------------------------------------------------------------------------

  /** The characters `String.prototype.trim` removes: ECMAScript WhiteSpace
      and LineTerminator. */
  predicate IsWhitespace(c: char) {
    var n := c as int;
    n == 0x09 || n == 0x0A || n == 0x0B || n == 0x0C || n == 0x0D || n == 0x20
    || n == 0xA0 || n == 0x1680 || (0x2000 <= n <= 0x200A) || n == 0x2028
    || n == 0x2029 || n == 0x202F || n == 0x205F || n == 0x3000 || n == 0xFEFF
  }

  predicate AllWhitespace(s: string) {
    forall i :: 0 <= i < |s| ==> IsWhitespace(s[i])
  }

  /** How many whitespace characters `s` starts with. */
  function Lead(s: string): (n: nat)
    ensures n <= |s|
    ensures forall i :: 0 <= i < n ==> IsWhitespace(s[i])
    ensures n < |s| ==> !IsWhitespace(s[n])
  {
    if |s| > 0 && IsWhitespace(s[0]) then 1 + Lead(s[1..]) else 0
  }

  /** The length of `s` without its trailing whitespace. */
  function Keep(s: string): (n: nat)
    ensures n <= |s|
    ensures forall i :: n <= i < |s| ==> IsWhitespace(s[i])
    ensures n > 0 ==> !IsWhitespace(s[n - 1])
  {
    if |s| > 0 && IsWhitespace(s[|s| - 1]) then Keep(s[..|s| - 1]) else |s|
  }

  /** `s.trim()`: leading whitespace dropped, then trailing whitespace. */
  function Trim(s: string): string {
    var t := s[Lead(s)..];
    t[..Keep(t)]
  }

  /** The trim of `s` is the piece of `s` after its `Lead(s)` leading
      characters; everything cut away on either side is whitespace, and the
      piece neither starts nor ends with whitespace. */
  lemma TrimShape(s: string)
    ensures Lead(s) + |Trim(s)| <= |s|
    ensures Trim(s) == s[Lead(s)..Lead(s) + |Trim(s)|]
    ensures forall i :: 0 <= i < Lead(s) ==> IsWhitespace(s[i])
    ensures forall i :: Lead(s) + |Trim(s)| <= i < |s| ==> IsWhitespace(s[i])
    ensures Trim(s) == [] || (!IsWhitespace(Trim(s)[0]) && !IsWhitespace(Trim(s)[|Trim(s)| - 1]))
  {
    var l := Lead(s);
    var t := s[l..];
    var n := Keep(t);
    assert Trim(s) == t[..n];
    CutTrailing(s, l, t, n);
  }

  /** Cutting trailing whitespace off the suffix `t` of `s` that starts at
      `l` leaves the slice of `s` from `l`, followed in `s` by whitespace
      only. */
  lemma CutTrailing(s: string, l: nat, t: string, n: nat)
    requires l <= |s| && t == s[l..] && n <= |t|
    requires l < |s| ==> !IsWhitespace(s[l])
    requires forall i :: n <= i < |t| ==> IsWhitespace(t[i])
    requires n > 0 ==> !IsWhitespace(t[n - 1])
    ensures t[..n] == s[l..l + n]
    ensures forall i :: l + n <= i < |s| ==> IsWhitespace(s[i])
    ensures n == 0 || (!IsWhitespace(t[..n][0]) && !IsWhitespace(t[..n][n - 1]))
  {
    forall i | l + n <= i < |s| ensures IsWhitespace(s[i]) {
      assert s[i] == t[i - l];
    }
  }

  /** `s.trim().length == 0` exactly when `s` is all whitespace. */
  lemma TrimEmptyIff(s: string)
    ensures Trim(s) == [] <==> AllWhitespace(s)
  {
    TrimShape(s);
    if AllWhitespace(s) {
      assert Lead(s) == |s|;
    }
  }

  /** Trimming twice is trimming once. */
  lemma {:induction false} TrimIdempotent(s: string)
    ensures Trim(Trim(s)) == Trim(s)
  {
    TrimShape(s);
    TrimUnchanged(Trim(s));
  }

  /** A string with no whitespace at either end is its own trim. */
  lemma {:induction false} TrimUnchanged(s: string)
    requires s == [] || (!IsWhitespace(s[0]) && !IsWhitespace(s[|s| - 1]))
    ensures Trim(s) == s
  {
    assert Lead(s) == 0;
    assert s[0..] == s;
    assert Keep(s) == |s|;
  }

  /** `s.startsWith(prefix)`. */
  predicate StartsWith(s: string, prefix: string) {
    |prefix| <= |s| && s[..|prefix|] == prefix
  }

  // ---------------------------------------------------------------------------
  // Numbers
  // ---------------------------------------------------------------------------

  const TWO_32: int := 0x1_0000_0000
  const TWO_31: int := 0x8000_0000

  /** The ECMAScript ToInt32 conversion of an integral number. */
  function ToInt32(x: int): (r: int)
    ensures -TWO_31 <= r < TWO_31
    ensures (r - x) % TWO_32 == 0
  {
    var m := x % TWO_32;
    if m >= TWO_31 then m - TWO_32 else m
  }

  /** `-~x` on an integral number: negation of the bitwise complement. */
  function NegBitNot(x: int): (r: int)
    ensures -TWO_31 < r <= TWO_31
  {
    -(-ToInt32(x) - 1)
  }

  /** For any `findIndex` result over an array (length below 2^32), `-~index`
      is truthy exactly when the index is not -1. */
  lemma NegBitNotNonzero(x: int)
    requires -1 <= x < TWO_32 - 1
    ensures NegBitNot(x) != 0 <==> x != -1
  {
    if 0 <= x < TWO_31 {
      assert ToInt32(x) == x;
    } else if x >= TWO_31 {
      assert ToInt32(x) == x - TWO_32;
    } else {
      assert ToInt32(x) == -1;
    }
  }
}
