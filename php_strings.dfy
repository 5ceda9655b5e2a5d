/**
 * PHP byte strings and the two built-ins the value objects rely on:
 * `trim` with its default character list and `empty` on a string.
 */
module PhpStrings {

  /** PHP strings are byte strings; `strlen` counts bytes. */
  type Byte = b: int | 0 <= b < 256
  type Bytes = seq<Byte>

  const SPACE: Byte := 32
  const TAB: Byte := 9
  const LINE_FEED: Byte := 10
  const CARRIAGE_RETURN: Byte := 13
  const NUL: Byte := 0
  const VERTICAL_TAB: Byte := 11
  const DIGIT_ZERO: Byte := 48
  const LETTER_A: Byte := 65

  /** The bytes `trim` strips by default: " \t\n\r\0\x0B". */
  predicate IsTrimByte(b: Byte) {
    b == SPACE || b == TAB || b == LINE_FEED || b == CARRIAGE_RETURN || b == NUL || b == VERTICAL_TAB
  }

  predicate AllTrimBytes(s: Bytes) {
    forall i :: 0 <= i < |s| ==> IsTrimByte(s[i])
  }

  /** True when neither end of `s` is a trim byte. */
  predicate NoTrimEnds(s: Bytes) {
    s != [] ==> !IsTrimByte(s[0]) && !IsTrimByte(s[|s| - 1])
  }

  /** `ltrim`: drops the leading trim bytes. */
  function TrimLeft(s: Bytes): (r: Bytes)
    ensures |r| <= |s|
  {
    if s != [] && IsTrimByte(s[0]) then TrimLeft(s[1..]) else s
  }

  /** `rtrim`: drops the trailing trim bytes. */
  function TrimRight(s: Bytes): (r: Bytes)
    ensures |r| <= |s|
  {
    if s != [] && IsTrimByte(s[|s| - 1]) then TrimRight(s[..|s| - 1]) else s
  }

  /**
   * `ltrim` cuts `s` at `lo`: everything before is a trim byte, the byte at
   * `lo` (if any) is not, and what remains is `s[lo..]`.
   */
  lemma {:induction false} TrimLeftSplits(s: Bytes)
    ensures var lo := |s| - |TrimLeft(s)|;
      && TrimLeft(s) == s[lo..] && AllTrimBytes(s[..lo])
      && (lo < |s| ==> !IsTrimByte(s[lo]))
  {
    if s != [] && IsTrimByte(s[0]) {
      var t := s[1..];
      TrimLeftSplits(t);
      var lo := |s| - |TrimLeft(s)|;
      assert t[lo - 1..] == s[lo..];
      forall i | 0 <= i < lo
        ensures IsTrimByte(s[..lo][i])
      {
        if 0 < i {
          assert s[..lo][i] == t[..lo - 1][i - 1];
        }
      }
      if lo < |s| {
        assert s[lo] == t[lo - 1];
      }
    } else {
      assert s[0..] == s;
    }
  }

  /**
   * `rtrim` cuts `s` at `hi`: everything after is a trim byte, the byte
   * before `hi` (if any) is not, and what remains is `s[..hi]`.
   */
  lemma {:induction false} TrimRightSplits(s: Bytes)
    ensures var hi := |TrimRight(s)|;
      && TrimRight(s) == s[..hi] && AllTrimBytes(s[hi..])
      && (0 < hi ==> !IsTrimByte(s[hi - 1]))
  {
    if s != [] && IsTrimByte(s[|s| - 1]) {
      var t := s[..|s| - 1];
      TrimRightSplits(t);
      var hi := |TrimRight(s)|;
      assert t[..hi] == s[..hi];
      forall j | 0 <= j < |s| - hi
        ensures IsTrimByte(s[hi..][j])
      {
        if j < |s| - 1 - hi {
          assert s[hi..][j] == t[hi..][j];
        }
      }
      if 0 < hi {
        assert s[hi - 1] == t[hi - 1];
      }
    } else {
      assert s[..|s|] == s;
    }
  }

  /**
   * `trim` keeps the slice `s[lo..hi]`: trim bytes only before and after
   * it, and no trim byte at either of its ends.
   */
  lemma TrimSplits(s: Bytes)
    ensures var lo := |s| - |TrimLeft(s)|; var hi := lo + |TrimRight(TrimLeft(s))|;
      && hi <= |s| && TrimRight(TrimLeft(s)) == s[lo..hi]
      && AllTrimBytes(s[..lo]) && AllTrimBytes(s[hi..]) && NoTrimEnds(s[lo..hi])
  {
    var left := TrimLeft(s);
    var lo := |s| - |left|;
    TrimLeftSplits(s);
    TrimRightSplits(left);
    var hi := lo + |TrimRight(left)|;
    assert left[..hi - lo] == s[lo..hi];
    assert left[hi - lo..] == s[hi..];
    if lo < hi {
      assert s[lo..hi][0] == s[lo];
      assert s[lo..hi][hi - lo - 1] == left[hi - lo - 1];
    }
  }

  /** Trim bytes on either side of a middle part made of trim bytes make a string of trim bytes. */
  lemma AllTrimBytesJoin(a: Bytes, b: Bytes, c: Bytes)
    requires AllTrimBytes(a) && AllTrimBytes(b) && AllTrimBytes(c)
    ensures AllTrimBytes(a + b + c)
  {
    var s := a + b + c;
    forall i | 0 <= i < |s|
      ensures IsTrimByte(s[i])
    {
      if i < |a| {
        assert s[i] == a[i];
      } else if i < |a| + |b| {
        assert s[i] == b[i - |a|];
      } else {
        assert s[i] == c[i - |a| - |b|];
      }
    }
  }

  /** PHP `trim($s)` with the default character list. */
  function Trim(s: Bytes): (r: Bytes)
    ensures |r| <= |s|
    ensures NoTrimEnds(r)
    ensures r == [] <==> AllTrimBytes(s)
  {
    TrimSplits(s);
    TrimBlank(s);
    TrimRight(TrimLeft(s))
  }

  /** The right trim of the left trim is empty exactly for strings of trim bytes. */
  lemma TrimBlank(s: Bytes)
    ensures TrimRight(TrimLeft(s)) == [] <==> AllTrimBytes(s)
  {
    TrimSplits(s);
    var lo := |s| - |TrimLeft(s)|;
    var hi := lo + |TrimRight(TrimLeft(s))|;
    if lo == hi {
      assert s == s[..lo] + [] + s[hi..];
      AllTrimBytesJoin(s[..lo], [], s[hi..]);
    } else {
      assert s[lo..hi][0] == s[lo];
    }
  }

  /** PHP `empty()` on a string: true for "" and for "0", false otherwise. */
  predicate PhpEmpty(s: Bytes) {
    s == [] || s == [DIGIT_ZERO]
  }

  lemma {:induction false} TrimLeftAt(s: Bytes, lo: nat)
    requires lo <= |s| && AllTrimBytes(s[..lo])
    requires lo < |s| ==> !IsTrimByte(s[lo])
    ensures TrimLeft(s) == s[lo..]
  {
    if lo > 0 {
      assert IsTrimByte(s[..lo][0]);
      assert s[1..][..lo - 1] == s[1..lo];
      TrimLeftAt(s[1..], lo - 1);
      assert s[1..][lo - 1..] == s[lo..];
    }
  }

  lemma {:induction false} TrimRightAt(s: Bytes, hi: nat)
    requires hi <= |s| && AllTrimBytes(s[hi..])
    requires 0 < hi ==> !IsTrimByte(s[hi - 1])
    ensures TrimRight(s) == s[..hi]
  {
    if hi < |s| {
      assert IsTrimByte(s[hi..][|s| - 1 - hi]);
      var t := s[..|s| - 1];
      assert t[hi..] == s[hi..|s| - 1];
      TrimRightAt(t, hi);
      assert t[..hi] == s[..hi];
    }
  }

  /**
   * The independent description of `trim`: if `s[lo..hi]` is surrounded by
   * trim bytes only and has no trim byte at either end, it is `trim(s)`.
   */
  lemma TrimIsCore(s: Bytes, lo: nat, hi: nat)
    requires lo <= hi <= |s|
    requires AllTrimBytes(s[..lo]) && AllTrimBytes(s[hi..])
    requires NoTrimEnds(s[lo..hi])
    ensures Trim(s) == s[lo..hi]
  {
    if lo == hi {
      assert s == s[..lo] + [] + s[hi..];
      AllTrimBytesJoin(s[..lo], [], s[hi..]);
    } else {
      assert lo < |s| ==> !IsTrimByte(s[lo]) by {
        assert s[lo..hi][0] == s[lo];
      }
      TrimLeftAt(s, lo);
      TrimCoreRight(s, lo, hi);
    }
  }

  /** The right half of `TrimIsCore`: once the left trim is `s[lo..]`, the right trim stops at `hi`. */
  lemma TrimCoreRight(s: Bytes, lo: nat, hi: nat)
    requires lo < hi <= |s|
    requires AllTrimBytes(s[hi..]) && !IsTrimByte(s[hi - 1])
    ensures TrimRight(s[lo..]) == s[lo..hi]
  {
    var l := s[lo..];
    assert l[hi - lo..] == s[hi..];
    assert l[hi - lo - 1] == s[hi - 1];
    TrimRightAt(l, hi - lo);
    assert l[..hi - lo] == s[lo..hi];
  }

  /** Trimming twice is trimming once. */
  lemma TrimIdempotent(s: Bytes)
    ensures Trim(Trim(s)) == Trim(s)
  {
    TrimOfNoTrimEnds(Trim(s));
  }

  /** A string with no trim byte at either end is its own trim. */
  lemma TrimOfNoTrimEnds(s: Bytes)
    requires NoTrimEnds(s)
    ensures Trim(s) == s
  {
    assert s[..0] == [] && s[|s|..] == [];
    TrimIsCore(s, 0, |s|);
    assert s[0..|s|] == s;
  }
}
