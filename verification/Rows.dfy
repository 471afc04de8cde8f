/**
 A Go slice over its backing array: append writes past the end or moves to a
 larger array, compaction overwrites the same array from the front.
 */
module RowSlices {
  import opened Seqs

  class Rows<T(0, !new)> {
    var data: array<T>
    var len: nat

    ghost predicate Valid()
      reads this
    {
      len <= data.Length
    }

    ghost function Contents(): seq<T>
      reads this, data
      requires Valid()
    {
      data[..len]
    }

    constructor ()
      ensures Valid() && fresh(data) && Contents() == []
    {
      data := new T[0];
      len := 0;
    }

    method Append(x: T)
      requires Valid()
      modifies this, data
      ensures Valid() && (data == old(data) || fresh(data))
      ensures Contents() == old(Contents()) + [x]
    {
      if len == data.Length {
        var bigger := new T[2 * len + 1];
        for i := 0 to len
          modifies bigger
          invariant bigger[..i] == data[..i]
        {
          bigger[i] := data[i];
        }
        data := bigger;
      }
      data[len] := x;
      len := len + 1;
    }

    /** One `append` of row i to the compacted front. */
    method KeepRow(i: nat, out: nat) returns (next: nat)
      requires out <= i < data.Length
      modifies data
      ensures next == out + 1
      ensures data[..next] == old(data[..out]) + [old(data[i])]
      ensures forall j :: i < j < data.Length ==> data[j] == old(data[j])
    {
      data[out] := data[i];
      next := out + 1;
    }

    /** Keeps the rows satisfying `keep`, writing into the same backing array. */
    method Compact(keep: T -> bool)
      requires Valid()
      modifies this, data
      ensures Valid() && data == old(data)
      ensures Contents() == Filter(old(Contents()), keep)
    {
      ghost var rows := Contents();
      var out := 0;
      for i := 0 to len
        modifies data
        invariant 0 <= out <= i
        invariant data[..out] == Filter(rows[..i], keep)
        invariant forall j :: i <= j < len ==> data[j] == rows[j]
      {
        FilterStep(rows, keep, i);
        assert data[i] == rows[i];
        if keep(data[i]) {
          out := KeepRow(i, out);
        }
      }
      assert rows[..len] == rows;
      len := out;
    }

    /** A copy in a new array: no later write to this slice can reach it. */
    method Snapshot() returns (copy: array<T>)
      requires Valid()
      ensures fresh(copy) && copy[..] == Contents()
    {
      copy := new T[len];
      for i := 0 to len
        invariant copy[..i] == data[..i]
      {
        copy[i] := data[i];
      }
      assert copy[..] == copy[..len];
    }
  }
}
