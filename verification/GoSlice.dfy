/** Go slices over shared, growable backing arrays. */
module GoSlice {

  /** A slice that starts at its array's first element; nil has capacity 0. */
  datatype Slice<T(!new)> = Slice(arr: array<T>, len: nat, cap: nat) {

    predicate Valid() {
      len <= cap <= arr.Length
    }

    ghost function Contents(): seq<T>
      requires Valid()
      reads arr
    {
      arr[..len]
    }

    /** Its capacity is the whole array, and is never kept for nothing. */
    predicate Tight() {
      Valid() && cap == arr.Length && (cap > 0 ==> len > 0)
    }

    /** An append of n elements writes into the backing array in place. */
    predicate Fits(n: nat) { len + n <= cap }
  }

  /** The built-in append: in place when the capacity allows, otherwise into a
      new array of any sufficient capacity. */
  method Append<T(0, !new)>(s: Slice<T>, xs: seq<T>) returns (r: Slice<T>)
    requires s.Valid()
    modifies if s.Fits(|xs|) && xs != [] then {s.arr} else {}
    ensures r.Valid() && r.Contents() == old(s.Contents()) + xs
    ensures if s.Fits(|xs|) then r.arr == s.arr && r.cap == s.cap else fresh(r.arr) && r.Tight()
    ensures s.Contents() == old(s.Contents())
  {
    var n := s.len + |xs|;
    if n <= s.cap {
      forall i | 0 <= i < |xs| {
        s.arr[s.len + i] := xs[i];
      }
      r := Slice(s.arr, n, s.cap);
    } else {
      var cap: nat :| n <= cap;
      var grown := new T[cap];
      forall i | 0 <= i < s.len {
        grown[i] := s.arr[i];
      }
      forall i | 0 <= i < |xs| {
        grown[s.len + i] := xs[i];
      }
      r := Slice(grown, n, cap);
    }
    assert r.arr[..n] == r.arr[..s.len] + r.arr[s.len..n];
  }

  /** slices.Clone, which is append(s[:0:0], s...). */
  method Clone<T(0, !new)>(s: Slice<T>) returns (r: Slice<T>)
    requires s.Valid()
    ensures r.Valid() && r.Contents() == s.Contents()
    ensures if s.len > 0 then fresh(r.arr) && r.Tight() else r.arr == s.arr && r.cap == 0
  {
    r := Append(Slice(s.arr, 0, 0), s.arr[..s.len]);
  }
}
