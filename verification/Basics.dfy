/** Values shared by every part of the model. */
module Basics {

  /** std::size_t identifiers of users and channels; zero means "none" throughout. */
  type Id = nat

  /** Identity of a client session. */
  type Session = nat

  const NO_ID: Id := 0

  type Byte = b: nat | b < 256

  datatype Option<+T> = None | Some(value: T)

  /** The rows of a table that satisfy a WHERE clause, in table order. */
  function Where<T(!new)>(rows: seq<T>, p: T -> bool): (r: seq<T>)
    ensures forall x :: x in r <==> x in rows && p(x)
    ensures |r| <= |rows|
  {
    if rows == [] then []
    else
      var last := rows[|rows| - 1];
      Where(rows[..|rows| - 1], p) + if p(last) then [last] else []
  }

  lemma WhereSnoc<T(!new)>(rows: seq<T>, row: T, p: T -> bool)
    ensures Where(rows + [row], p) == Where(rows, p) + if p(row) then [row] else []
  {
    assert (rows + [row])[..|rows|] == rows;
  }

  lemma {:induction false} WhereConcat<T(!new)>(a: seq<T>, b: seq<T>, p: T -> bool)
    ensures Where(a + b, p) == Where(a, p) + Where(b, p)
  {
    if b == [] {
      assert a + b == a;
    } else {
      hide Where;
      var init, last := b[..|b| - 1], b[|b| - 1];
      assert b == init + [last] && a + b == (a + init) + [last];
      WhereConcat(a, init, p);
      WhereSnoc(a + init, last, p);
      WhereSnoc(init, last, p);
    }
  }

  /** Two rows that pass, at different places, make two. */
  lemma {:induction false} TwoPass<T(!new)>(rows: seq<T>, p: T -> bool, i: nat, j: nat)
    requires i < j < |rows| && p(rows[i]) && p(rows[j])
    ensures |Where(rows, p)| >= 2
  {
    hide Where;
    var a, b := rows[..j], rows[j..];
    assert rows == a + b && a[i] == rows[i] && b[0] == rows[j];
    WhereConcat(a, b, p);
    assert a[i] in Where(a, p) && b[0] in Where(b, p);
  }

  /** No row passes when none satisfies the clause, and all do when each does. */
  lemma {:induction false} WhereAllOrNone<T(!new)>(rows: seq<T>, p: T -> bool)
    ensures (forall x :: x in rows ==> !p(x)) ==> Where(rows, p) == []
    ensures (forall x :: x in rows ==> p(x)) ==> Where(rows, p) == rows
  {
    if rows != [] {
      hide Where;
      var init, last := rows[..|rows| - 1], rows[|rows| - 1];
      assert rows == init + [last];
      WhereAllOrNone(init, p);
      WhereSnoc(init, last, p);
      assert last in rows && forall x :: x in init ==> x in rows;
    }
  }

  /** SELECT f(row): one value per row. */
  function Column<T, U>(rows: seq<T>, f: T -> U): (r: seq<U>)
    ensures |r| == |rows| && forall i :: 0 <= i < |rows| ==> r[i] == f(rows[i])
  {
    seq(|rows|, i requires 0 <= i < |rows| => f(rows[i]))
  }

  predicate NoDuplicates<T(==)>(s: seq<T>) {
    forall i, j :: 0 <= i < j < |s| ==> s[i] != s[j]
  }

  function Elements<T(==)>(s: seq<T>): set<T> {
    set x | x in s
  }

  lemma ElementsSnoc<T>(s: seq<T>, x: T)
    ensures Elements(s + [x]) == Elements(s) + {x}
  {
  }

  /** SELECT DISTINCT */
  function Distinct<T(==)>(s: seq<T>): (r: seq<T>)
    ensures NoDuplicates(r)
    ensures Elements(r) == Elements(s)
  {
    if s == [] then []
    else
      var last, rest := s[|s| - 1], s[..|s| - 1];
      var init := Distinct(rest);
      assert s == rest + [last];
      ElementsSnoc(rest, last);
      ElementsSnoc(init, last);
      if last in init then
        assert last in Elements(init);
        init
      else init + [last]
  }

  function Flatten<T>(parts: seq<seq<T>>): seq<T> {
    if parts == [] then [] else Flatten(parts[..|parts| - 1]) + parts[|parts| - 1]
  }
}
