/** Concatenation of parts, and filtering. */
module Sequences {

  function Flatten<T>(parts: seq<seq<T>>): seq<T> {
    if parts == [] then [] else Flatten(parts[..|parts| - 1]) + parts[|parts| - 1]
  }

  lemma FlattenOneMore<T>(parts: seq<seq<T>>, part: seq<T>)
    ensures Flatten(parts + [part]) == Flatten(parts) + part
  {
    assert (parts + [part])[..|parts|] == parts;
  }

  /** What is in some part is in the whole, and nothing else. */
  lemma {:induction false} InFlatten<T>(parts: seq<seq<T>>, x: T)
    ensures x in Flatten(parts) <==> exists i :: 0 <= i < |parts| && x in parts[i]
  {
    if parts != [] {
      InFlatten(parts[..|parts| - 1], x);
    }
  }

  /** The elements that pass, in order. */
  function Where<T>(rows: seq<T>, keep: T -> bool): seq<T> {
    if rows == [] then []
    else (if keep(rows[0]) then [rows[0]] else []) + Where(rows[1..], keep)
  }

  lemma {:induction false} WhereOneMore<T>(rows: seq<T>, row: T, keep: T -> bool)
    ensures Where(rows + [row], keep) == Where(rows, keep) + if keep(row) then [row] else []
  {
    if rows == [] {
      assert [] + [row] == [row] && [row][1..] == [];
    } else {
      WhereOneMore(rows[1..], row, keep);
      assert (rows + [row])[0] == rows[0] && (rows + [row])[1..] == rows[1..] + [row];
    }
  }

  /** Filtering keeps every occurrence of what passes and nothing else. */
  lemma {:induction false} WhereKeeps<T>(rows: seq<T>, keep: T -> bool, row: T)
    ensures row in Where(rows, keep) <==> row in rows && keep(row)
    ensures multiset(Where(rows, keep))[row] == if keep(row) then multiset(rows)[row] else 0
  {
    if rows != [] {
      WhereKeeps(rows[1..], keep, row);
      assert rows == [rows[0]] + rows[1..];
    }
  }
}
