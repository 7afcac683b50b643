/**
 * Spreadsheet-row helpers shared by the customer and contact importers:
 * header normalisation of a row's entries, the long-number filter, and the
 * split of a sequence of inserts into those the store accepted and those it
 * refused.
 */
module Sheets {
  import opened Wrappers
  import opened Js
  import opened Strings

  /** A row as `Object.entries` lists it. */
  type Entries = seq<(string, JsValue)>

  /**
   * The object built by writing, entry by entry, `valueOf(key, value)`
   * under `keyOf(key)`: a later entry overwrites an earlier one.
   */
  function Normalized(row: Entries, keyOf: string -> string, valueOf: (string, JsValue) -> JsValue): map<string, JsValue> {
    if row == [] then map[]
    else
      var last := row[|row| - 1];
      Normalized(row[..|row| - 1], keyOf, valueOf)[keyOf(last.0) := valueOf(last.0, last.1)]
  }

  /** Appending an entry writes it last. */
  lemma NormalizedSnoc(row: Entries, e: (string, JsValue), keyOf: string -> string, valueOf: (string, JsValue) -> JsValue)
    ensures Normalized(row + [e], keyOf, valueOf) == Normalized(row, keyOf, valueOf)[keyOf(e.0) := valueOf(e.0, e.1)]
  {
    assert (row + [e])[..|row|] == row;
  }

  /** The value as given. */
  function Raw(key: string, v: JsValue): JsValue { v }

  /**
   * A key is present iff some entry's key maps to it, and it holds the
   * converted value of the last such entry.
   */
  lemma {:induction false} NormalizedMeaning(row: Entries, keyOf: string -> string, valueOf: (string, JsValue) -> JsValue, k: string)
    ensures k in Normalized(row, keyOf, valueOf) <==> exists i :: 0 <= i < |row| && keyOf(row[i].0) == k
    ensures k in Normalized(row, keyOf, valueOf) ==>
      exists i :: (0 <= i < |row| && keyOf(row[i].0) == k
                   && Normalized(row, keyOf, valueOf)[k] == valueOf(row[i].0, row[i].1)
                   && forall j :: i < j < |row| ==> keyOf(row[j].0) != k)
  {
    if row != [] {
      var init := row[..|row| - 1];
      NormalizedMeaning(init, keyOf, valueOf, k);
      assert forall i :: 0 <= i < |init| ==> init[i] == row[i];
      if keyOf(row[|row| - 1].0) != k && k in Normalized(row, keyOf, valueOf) {
        var i :| 0 <= i < |init| && keyOf(init[i].0) == k && Normalized(init, keyOf, valueOf)[k] == valueOf(init[i].0, init[i].1)
          && forall j :: i < j < |init| ==> keyOf(init[j].0) != k;
        assert forall j :: i < j < |row| ==> keyOf(row[j].0) != k;
      }
    }
  }

  /** `.filter((n) => n.length >= 10)`: the entries with at least ten characters, in order, repeats kept. */
  function LongOnly(xs: seq<string>): (r: seq<string>)
    ensures forall x :: x in r <==> x in xs && |x| >= 10
  {
    if xs == [] then []
    else
      assert xs == [xs[0]] + xs[1..];
      (if |xs[0]| >= 10 then [xs[0]] else []) + LongOnly(xs[1..])
  }

  /** The filter works piece by piece: the order of the input is the order of the output. */
  lemma {:induction false} LongOnlyConcat(a: seq<string>, b: seq<string>)
    ensures LongOnly(a + b) == LongOnly(a) + LongOnly(b)
  {
    if a == [] {
      assert a + b == b;
    } else {
      var ab := a + b;
      assert ab[0] == a[0] && ab[1..] == a[1..] + b;
      LongOnlyConcat(a[1..], b);
      var head := if |a[0]| >= 10 then [a[0]] else [];
      assert LongOnly(ab) == head + LongOnly(ab[1..]);
      assert LongOnly(a) == head + LongOnly(a[1..]);
    }
  }

  /** A single entry is kept exactly when it is long. */
  lemma LongOnlyOne(x: string)
    ensures LongOnly([x]) == if |x| >= 10 then [x] else []
  {
    assert [x][1..] == [];
  }

  /** The de-duplicated long entries: exactly the long entries, in first-occurrence order. */
  lemma LongDistinct(cleaned: seq<string>)
    ensures var r := Dedup(LongOnly(cleaned));
      (forall x :: x in r <==> x in cleaned && |x| >= 10)
      && forall i, j :: 0 <= i < j < |r| ==> IndexOf(LongOnly(cleaned), r[i]) < IndexOf(LongOnly(cleaned), r[j])
  {
    DedupOrder(LongOnly(cleaned));
  }

  /** The results of `f` that are present, in order: a loop that `continue`s past some rows and pushes the others. */
  function Kept<T, U>(xs: seq<T>, f: T -> Option<U>): (r: seq<U>)
    ensures |r| <= |xs|
  {
    if xs == [] then []
    else
      var init := Kept(xs[..|xs| - 1], f);
      var p := f(xs[|xs| - 1]);
      if p.Some? then init + [p.value] else init
  }

  /** Every kept result comes from an element, and every element with a result contributes it. */
  lemma {:induction false} KeptMeaning<T, U>(xs: seq<T>, f: T -> Option<U>)
    ensures forall y :: y in Kept(xs, f) ==> exists i :: 0 <= i < |xs| && f(xs[i]) == Some(y)
    ensures forall i :: 0 <= i < |xs| && f(xs[i]).Some? ==> f(xs[i]).value in Kept(xs, f)
  {
    if xs != [] {
      var init := xs[..|xs| - 1];
      KeptMeaning(init, f);
      assert forall i :: 0 <= i < |init| ==> init[i] == xs[i];
    }
  }

  /** The first `n` rows whose insert the store accepted (`accepted(i)` for row `i`), in order. */
  function Accepted<T>(rows: seq<T>, accepted: nat -> bool, n: nat): (r: seq<T>)
    requires n <= |rows|
    ensures |r| <= n
    ensures forall x :: x in r ==> x in rows
  {
    if n == 0 then [] else Accepted(rows, accepted, n - 1) + (if accepted(n - 1) then [rows[n - 1]] else [])
  }

  /** The first `n` rows whose insert the store refused, in order. */
  function Refused<T>(rows: seq<T>, accepted: nat -> bool, n: nat): (r: seq<T>)
    requires n <= |rows|
    ensures forall x :: x in r ==> x in rows
  {
    if n == 0 then [] else Refused(rows, accepted, n - 1) + (if accepted(n - 1) then [] else [rows[n - 1]])
  }

  /** Every insert is either accepted or refused: the two lists together are as long as the rows tried. */
  lemma {:induction false} AcceptedAndRefused<T>(rows: seq<T>, accepted: nat -> bool, n: nat)
    requires n <= |rows|
    ensures |Accepted(rows, accepted, n)| + |Refused(rows, accepted, n)| == n
  {
    if n > 0 {
      AcceptedAndRefused(rows, accepted, n - 1);
    }
  }
}
