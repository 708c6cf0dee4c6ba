/** Go slices of rows: windows on a shared backing array. `append` writes into the array behind the
    window when there is room for it, whoever else looks at those elements. */
module Slices {
  datatype Slice<T> = Slice(data: array<T>, off: nat, len: nat) {

    predicate Valid() {
      off + len <= data.Length
    }

    /** The elements the slice shows. */
    function Contents(): (s: seq<T>)
      requires Valid()
      reads data
      ensures |s| == len
    {
      data[off..off + len]
    }

    /** `s[i:j]`. */
    function Sub(i: nat, j: nat): (s: Slice<T>)
      requires Valid() && i <= j <= len
      reads data
      ensures s.Valid() && s.Contents() == Contents()[i..j]
    {
      Slice(data, off + i, j - i)
    }
  }

  /** `append(dst, src...)`: in place if the capacity allows it, else into a new array. */
  method Append<T>(dst: Slice<T>, src: Slice<T>) returns (r: Slice<T>)
    requires dst.Valid() && src.Valid()
    modifies dst.data
    ensures r.Valid() && r.Contents() == old(dst.Contents()) + old(src.Contents())
    ensures r.data == dst.data || (fresh(r.data) && dst.data[..] == old(dst.data[..]))
    ensures dst.off + dst.len + src.len <= dst.data.Length ==> r == Slice(dst.data, dst.off, dst.len + src.len)
    ensures dst.off + dst.len + src.len <= dst.data.Length ==>
              dst.data[..] == old(dst.data[..dst.off + dst.len]) + old(src.Contents())
                              + old(dst.data[dst.off + dst.len + src.len..])
  {
    ghost var shown, added := dst.Contents(), src.Contents();
    var elements := src.data[src.off..src.off + src.len];
    if dst.off + dst.len + src.len <= dst.data.Length {
      forall k | 0 <= k < src.len {
        dst.data[dst.off + dst.len + k] := elements[k];
      }
      r := Slice(dst.data, dst.off, dst.len + src.len);
    } else {
      var all := dst.data[dst.off..dst.off + dst.len] + elements;
      var data := new T[|all|](i requires 0 <= i < |all| => all[i]);
      assert data[..] == all;
      r := Slice(data, 0, |all|);
    }
  }

  /** Appending what already follows in the array leaves the array as it is. */
  lemma AppendingWhatFollows<T>(before: seq<T>, after: seq<T>, end: nat, added: seq<T>)
    requires end + |added| <= |before| && added == before[end..end + |added|]
    requires after == before[..end] + added + before[end + |added|..]
    ensures after == before
  {
  }
}
