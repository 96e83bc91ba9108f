/**
 * The Python built-ins the diagram code leans on, with Python's semantics:
 * indexing with negative indices, slicing with clipped bounds, `range`,
 * `Path.stem`, `str.upper` and the `in` test on strings.
 */
module PyOps {
  import opened Wrappers

  /** The exceptions the modelled code can raise. */
  datatype PyError = IndexError | TypeError | KeyError | ValueError | RuntimeError

  function Min(a: int, b: int): int { if a < b then a else b }

  function Max(a: int, b: int): int { if a < b then b else a }

  /**
   * `s[i]` on a list or a one-dimensional array: a negative index counts from
   * the end; an index outside [-|s|, |s|) raises IndexError (None here).
   * Inside that range the element read is the one at `i` modulo the length.
   */
  function PyIndex<T>(s: seq<T>, i: int): (r: Option<T>)
    ensures r.Some? <==> -|s| <= i < |s|
    ensures r.Some? ==> r.value == s[i % |s|]
  {
    if 0 <= i < |s| then Some(s[i])
    else if -|s| <= i < 0 then Some(s[|s| + i])
    else None
  }

  /** A slice bound resolved against a length `n`: negative counts from the end, then clipped to [0, n]. */
  function SliceBound(i: int, n: nat): (b: nat)
    ensures b <= n
    ensures 0 <= i ==> b == Min(i, n)
    ensures i < 0 ==> b == Max(0, i + n)
  {
    if i < 0 then (if i + n < 0 then 0 else i + n)
    else if i > n then n else i
  }

  /**
   * `s[lo:hi]` (step 1). For non-negative bounds it is the elements from `lo`
   * up to `min(hi, |s|)`, and empty when that range is empty.
   */
  function PySlice<T>(s: seq<T>, lo: int, hi: int): (r: seq<T>)
    ensures 0 <= lo && 0 <= hi ==> |r| == Max(0, Min(hi, |s|) - lo)
  {
    var a, b := SliceBound(lo, |s|), SliceBound(hi, |s|);
    if a < b then s[a..b] else []
  }

  /**
   * With a non-negative start, the slice is the run of `s` that begins at
   * `lo`, element by element.
   */
  lemma PySliceElements<T>(s: seq<T>, lo: int, hi: int)
    requires 0 <= lo
    ensures forall k :: 0 <= k < |PySlice(s, lo, hi)| ==> lo + k < |s| && PySlice(s, lo, hi)[k] == s[lo + k]
  {
    var a, b := SliceBound(lo, |s|), SliceBound(hi, |s|);
    assert a == Min(lo, |s|);
    if a < b {
      assert PySlice(s, lo, hi) == s[a..b];
    } else {
      assert PySlice(s, lo, hi) == [];
    }
  }

  /** `list(range(start, stop, step))` for a positive step. */
  function PyRange(start: int, stop: int, step: int): seq<int>
    requires step > 0
    decreases stop - start
  {
    if start < stop then [start] + PyRange(start + step, stop, step) else []
  }

  /** With bounds inside the sequence, a Python slice is the subsequence between them. */
  lemma PySliceInside<T>(s: seq<T>, lo: int, hi: int)
    requires 0 <= lo <= hi <= |s|
    ensures PySlice(s, lo, hi) == s[lo..hi]
  {
  }

  /**
   * Stepping through a range: element `k` is followed by another exactly when
   * one more step stays below `stop`, and the next element is one step on.
   */
  lemma {:induction false} RangeNext(start: int, stop: int, step: int, k: nat)
    requires step > 0 && k < |PyRange(start, stop, step)|
    ensures k + 1 < |PyRange(start, stop, step)| <==> PyRange(start, stop, step)[k] + step < stop
    ensures k + 1 < |PyRange(start, stop, step)| ==> PyRange(start, stop, step)[k + 1] == PyRange(start, stop, step)[k] + step
    decreases k
  {
    var r, t := PyRange(start, stop, step), PyRange(start + step, stop, step);
    assert r == [start] + t;
    if k > 0 {
      RangeNext(start + step, stop, step, k - 1);
      assert r[k] == t[k - 1];
    } else if start + step < stop {
      assert t == [start + step] + PyRange(start + 2 * step, stop, step);
    }
  }

  /** Every value of a range lies in [start, stop). */
  lemma {:induction false} RangeBounds(start: int, stop: int, step: int)
    requires step > 0
    ensures forall k :: 0 <= k < |PyRange(start, stop, step)| ==> start <= PyRange(start, stop, step)[k] < stop
    decreases stop - start
  {
    if start < stop {
      RangeBounds(start + step, stop, step);
    }
  }

  /** A range is strictly increasing. */
  lemma {:induction false} RangeIncreasing(start: int, stop: int, step: int)
    requires step > 0
    ensures forall i, j :: 0 <= i < j < |PyRange(start, stop, step)| ==>
      PyRange(start, stop, step)[i] < PyRange(start, stop, step)[j]
    decreases stop - start
  {
    if start < stop {
      var t := PyRange(start + step, stop, step);
      RangeIncreasing(start + step, stop, step);
      RangeBounds(start + step, stop, step);
      var r := PyRange(start, stop, step);
      assert r == [start] + t;
      forall i, j | 0 <= i < j < |r|
        ensures r[i] < r[j]
      {
        assert r[j] == t[j - 1] && start + step <= t[j - 1];
        if i > 0 {
          assert r[i] == t[i - 1] && t[i - 1] < t[j - 1];
        }
      }
    }
  }

  /**
   * The k-th value of a range is `start + k*step`, every value is below `stop`,
   * and the next one after the last would reach `stop`: so the range holds
   * exactly the values `start + k*step` below `stop`.
   */
  lemma {:induction false} RangeElements(start: int, stop: int, step: int)
    requires step > 0
    ensures var r := PyRange(start, stop, step);
      && (forall k :: 0 <= k < |r| ==> r[k] == start + k * step && r[k] < stop)
      && start + |r| * step >= stop
    decreases stop - start
  {
    var r := PyRange(start, stop, step);
    if start < stop {
      var t := PyRange(start + step, stop, step);
      RangeElements(start + step, stop, step);
      assert r == [start] + t;
      forall k | 0 <= k < |r|
        ensures r[k] == start + k * step && r[k] < stop
      {
        if k > 0 {
          assert r[k] == t[k - 1];
          MulSucc(k - 1, step);
        }
      }
      MulSucc(|t|, step);
    }
  }

  /** One more step: `(a + 1) * step` is `a * step` plus `step`. */
  lemma MulSucc(a: int, step: int)
    ensures (a + 1) * step == a * step + step
  {
  }

  /** A value is in `range(0, stop, step)` iff it is a non-negative multiple of `step` below `stop`. */
  lemma RangeMembers(stop: int, step: int, v: int)
    requires step > 0
    ensures v in PyRange(0, stop, step) <==> 0 <= v < stop && v % step == 0
  {
    if v in PyRange(0, stop, step) {
      RangeMemberIsMultiple(stop, step, v);
    }
    if 0 <= v < stop && v % step == 0 {
      MultipleIsRangeMember(stop, step, v);
    }
  }

  /** A value of `range(0, stop, step)` is a multiple of `step` in [0, stop). */
  lemma RangeMemberIsMultiple(stop: int, step: int, v: int)
    requires step > 0 && v in PyRange(0, stop, step)
    ensures 0 <= v < stop && v % step == 0
  {
    var r := PyRange(0, stop, step);
    RangeElements(0, stop, step);
    var k :| 0 <= k < |r| && r[k] == v;
    assert v == k * step;
    MultipleMod(k, step);
  }

  /** A multiple of `step` in [0, stop) is a value of `range(0, stop, step)`. */
  lemma MultipleIsRangeMember(stop: int, step: int, v: int)
    requires step > 0 && 0 <= v < stop && v % step == 0
    ensures v in PyRange(0, stop, step)
  {
    var r := PyRange(0, stop, step);
    RangeElements(0, stop, step);
    var k := v / step;
    assert v == k * step;
    assert 0 <= k by {
      if k < 0 {
        MulMono(k, -1, step);
      }
    }
    if k >= |r| {
      MulMono(|r|, k, step);
      assert false;
    }
    assert r[k] == v;
  }

  /** A multiple of `step` leaves no remainder. */
  lemma MultipleMod(k: int, step: int)
    requires step > 0
    ensures (k * step) % step == 0
  {
    var q, m := (k * step) / step, (k * step) % step;
    assert (k - q) * step == m;
    if k - q >= 1 {
      MulMono(1, k - q, step);
    } else if k - q <= -1 {
      MulMono(k - q, -1, step);
    }
  }

  /** Multiplying by a positive step keeps the order. */
  lemma MulMono(a: int, b: int, step: int)
    requires a <= b && step > 0
    ensures a * step <= b * step
  {
  }

  /** A range whose span is an exact multiple `m` of its step has `m` values. */
  lemma {:induction false} RangeCount(start: int, m: nat, step: int)
    requires step > 0
    ensures |PyRange(start, start + m * step, step)| == m
    decreases m
  {
    if m > 0 {
      assert start + m * step == (start + step) + (m - 1) * step;
      RangeCount(start + step, m - 1, step);
    }
  }

  /** `list(filter(keep, s))`: the elements of `s` that pass `keep`, in order. */
  function Filter<T>(s: seq<T>, keep: T -> bool): seq<T>
    decreases |s|
  {
    if s == [] then []
    else Filter(s[..|s| - 1], keep) + (if keep(s[|s| - 1]) then [s[|s| - 1]] else [])
  }

  /**
   * `next(filter(p, s))` as a position: the first element that passes `p`, or
   * None where `next` raises StopIteration.
   */
  function FirstIndex<T>(s: seq<T>, p: T -> bool): (r: Option<nat>)
    ensures r.None? <==> forall k :: 0 <= k < |s| ==> !p(s[k])
    ensures r.Some? ==> r.value < |s| && p(s[r.value]) && forall k :: 0 <= k < r.value ==> !p(s[k])
    decreases |s|
  {
    if s == [] then None
    else if p(s[0]) then Some(0)
    else match FirstIndex(s[1..], p)
      case None => None
      case Some(k) => Some(k + 1)
  }

  /** `k` is the first position of `s` whose element passes `p`. */
  predicate FirstAt<T>(s: seq<T>, p: T -> bool, k: int)
  {
    0 <= k < |s| && p(s[k]) && forall j :: 0 <= j < k ==> !p(s[j])
  }

  /** The positions of the elements of `s` that pass `keep`. */
  function FilterPositions<T>(s: seq<T>, keep: T -> bool): seq<nat>
    decreases |s|
  {
    if s == [] then []
    else FilterPositions(s[..|s| - 1], keep) + (if keep(s[|s| - 1]) then [|s| - 1] else [])
  }

  /** An element is kept iff it is an element of `s` that passes `keep`. */
  lemma {:induction false} FilterMembers<T>(s: seq<T>, keep: T -> bool)
    ensures forall x :: x in Filter(s, keep) <==> x in s && keep(x)
    decreases |s|
  {
    if s != [] {
      FilterMembers(s[..|s| - 1], keep);
      assert s == s[..|s| - 1] + [s[|s| - 1]];
    }
  }

  /** When no element passes `keep`, nothing is kept. */
  lemma {:induction false} FilterNone<T>(s: seq<T>, keep: T -> bool)
    requires forall k :: 0 <= k < |s| ==> !keep(s[k])
    ensures Filter(s, keep) == []
    decreases |s|
  {
    if s != [] {
      FilterNone(s[..|s| - 1], keep);
    }
  }

  /**
   * `filter` keeps order and multiplicity: the `k`-th kept element is the
   * element at the `k`-th kept position, the positions increase, each passes
   * `keep`, and every position whose element passes is among them.
   */
  lemma FilterOrder<T>(s: seq<T>, keep: T -> bool)
    ensures |FilterPositions(s, keep)| == |Filter(s, keep)|
    ensures forall k :: 0 <= k < |FilterPositions(s, keep)| ==>
      FilterPositions(s, keep)[k] < |s| && Filter(s, keep)[k] == s[FilterPositions(s, keep)[k]]
      && keep(s[FilterPositions(s, keep)[k]])
    ensures forall k1, k2 :: 0 <= k1 < k2 < |FilterPositions(s, keep)| ==>
      FilterPositions(s, keep)[k1] < FilterPositions(s, keep)[k2]
    ensures forall i :: 0 <= i < |s| && keep(s[i]) ==> i in FilterPositions(s, keep)
  {
    FilterPositionsAligned(s, keep);
    FilterPositionsIncreasing(s, keep);
    FilterPositionsCover(s, keep);
  }

  /** The `k`-th kept element is the element at the `k`-th kept position, which passes `keep`. */
  lemma {:induction false} FilterPositionsAligned<T>(s: seq<T>, keep: T -> bool)
    ensures |FilterPositions(s, keep)| == |Filter(s, keep)|
    ensures forall k :: 0 <= k < |FilterPositions(s, keep)| ==>
      FilterPositions(s, keep)[k] < |s| && Filter(s, keep)[k] == s[FilterPositions(s, keep)[k]]
      && keep(s[FilterPositions(s, keep)[k]])
    decreases |s|
  {
    if s != [] {
      var init := s[..|s| - 1];
      FilterPositionsAligned(init, keep);
      assert forall i :: 0 <= i < |init| ==> init[i] == s[i];
    }
  }

  /** The kept positions increase, each below `|s|`. */
  lemma {:induction false} FilterPositionsIncreasing<T>(s: seq<T>, keep: T -> bool)
    ensures forall k :: 0 <= k < |FilterPositions(s, keep)| ==> FilterPositions(s, keep)[k] < |s|
    ensures forall k1, k2 :: 0 <= k1 < k2 < |FilterPositions(s, keep)| ==>
      FilterPositions(s, keep)[k1] < FilterPositions(s, keep)[k2]
    decreases |s|
  {
    if s != [] {
      var init := s[..|s| - 1];
      FilterPositionsIncreasing(init, keep);
      var pos, posInit := FilterPositions(s, keep), FilterPositions(init, keep);
      assert pos == posInit + (if keep(s[|s| - 1]) then [|s| - 1] else []);
      assert forall k :: 0 <= k < |posInit| ==> pos[k] == posInit[k];
    }
  }

  /** Every position whose element passes `keep` is a kept position. */
  lemma {:induction false} FilterPositionsCover<T>(s: seq<T>, keep: T -> bool)
    ensures forall i :: 0 <= i < |s| && keep(s[i]) ==> i in FilterPositions(s, keep)
    decreases |s|
  {
    if s != [] {
      var init := s[..|s| - 1];
      FilterPositionsCover(init, keep);
      var pos, posInit := FilterPositions(s, keep), FilterPositions(init, keep);
      forall i | 0 <= i < |s| && keep(s[i])
        ensures i in pos
      {
        if i < |init| {
          assert keep(init[i]) && i in posInit;
        } else {
          assert pos == posInit + [i];
        }
      }
    }
  }

  /** The index of the last occurrence of `c` in `s` (`str.rfind`). */
  function LastIndexOf(s: string, c: char): (r: Option<nat>)
    ensures r.Some? ==> (r.value < |s| && s[r.value] == c
      && forall k :: r.value < k < |s| ==> s[k] != c)
    ensures r.None? ==> forall k :: 0 <= k < |s| ==> s[k] != c
  {
    if |s| == 0 then None
    else if s[|s| - 1] == c then Some(|s| - 1)
    else LastIndexOf(s[..|s| - 1], c)
  }

  /**
   * `Path(name).stem` for a file name: the name without its last suffix. A
   * suffix is the text from the last dot, when that dot is neither the first
   * nor the last character. The name is kept whole exactly when it has no
   * such suffix.
   */
  function Stem(name: string): (s: string)
    ensures s <= name
    ensures s != name ==> (0 < |s| < |name| - 1 && name[|s|] == '.'
      && forall k :: |s| < k < |name| ==> name[k] != '.')
    ensures forall i :: 0 < i < |name| - 1 && name[i] == '.' && (forall k :: i < k < |name| ==> name[k] != '.') ==>
      s == name[..i]
  {
    match LastIndexOf(name, '.')
    case Some(i) => if 0 < i < |name| - 1 then name[..i] else name
    case None => name
  }

  /** `Stem` drops only the last suffix of a doubly suffixed name. */
  lemma StemOfCompressedCsv()
    ensures Stem("d.csv.gz") == "d.csv"
    ensures Stem("d") == "d"
  {
    var name := "d.csv.gz";
    assert name[5] == '.' && name[6] != '.' && name[7] != '.';
    assert LastIndexOf(name, '.') == Some(5);
    assert name[..5] == "d.csv";
    assert LastIndexOf("d", '.') == None;
  }

  /** `c.upper()` for ASCII letters; other characters are left as they are. */
  function UpperChar(c: char): char
  {
    if 'a' <= c <= 'z' then (c as int - 'a' as int + 'A' as int) as char else c
  }

  /** `s.upper()`, restricted to ASCII case mapping. */
  function Upper(s: string): string
  {
    seq(|s|, k requires 0 <= k < |s| => UpperChar(s[k]))
  }

  /** `needle in hay` for strings: `needle` occurs as a contiguous substring. */
  function ContainsSubstring(hay: string, needle: string): (b: bool)
    ensures b <==> exists i :: 0 <= i && i + |needle| <= |hay| && needle <= hay[i..]
    decreases |hay|
  {
    if needle <= hay then assert hay[0..] == hay; true
    else if |hay| <= |needle| then false
    else
      var rest := ContainsSubstring(hay[1..], needle);
      assert rest ==> exists i :: 0 < i && i + |needle| <= |hay| && needle <= hay[i..] by {
        if rest {
          var i :| 0 <= i && i + |needle| <= |hay[1..]| && needle <= hay[1..][i..];
          assert hay[1..][i..] == hay[i + 1..];
        }
      }
      assert (exists i :: 0 < i && i + |needle| <= |hay| && needle <= hay[i..]) ==> rest by {
        if exists i :: 0 < i && i + |needle| <= |hay| && needle <= hay[i..] {
          var i :| 0 < i && i + |needle| <= |hay| && needle <= hay[i..];
          assert hay[1..][i - 1..] == hay[i..];
        }
      }
      rest
  }
}
