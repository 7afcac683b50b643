/**
 * The page arithmetic of the paginated listings (templates, customer
 * follow-ups, contact follow-ups) and the nested-object filters the
 * follow-up listings build.
 */
module Paging {
  import opened Wrappers
  import opened Strings
  import opened Query

  /**
   * The template listing's reading of a page or limit parameter:
   * `parseInt`, replaced by the default when it is NaN (an absent or
   * non-numeric parameter) or below 1.
   */
  function PageOrDefault(raw: Option<string>, default: nat): (r: int)
    requires default >= 1
    ensures r >= 1
    ensures raw.Some? && ParseInt(raw.value).Some? && ParseInt(raw.value).value >= 1 ==> r == ParseInt(raw.value).value
    ensures raw.None? || ParseInt(raw.value).None? || ParseInt(raw.value).value < 1 ==> r == default
  {
    var n := if raw.Some? then ParseInt(raw.value) else None;
    if n.None? || n.value < 1 then default else n.value
  }

  /**
   * The follow-up listings' `Math.max(1, parseInt(p))` with `p` defaulting to
   * `default` when absent: at least 1 for numeric input, NaN (None) for
   * non-numeric text, which is not defaulted.
   */
  function AtLeastOne(raw: Option<string>, default: int): (r: Option<int>)
    ensures raw.None? ==> r == Some(if default < 1 then 1 else default)
    ensures raw.Some? ==> (r.None? <==> ParseInt(raw.value).None?)
    ensures r.Some? ==> r.value >= 1
    ensures raw.Some? && r.Some? && ParseInt(raw.value).value >= 1 ==> r.value == ParseInt(raw.value).value
  {
    var n := if raw.Some? then ParseInt(raw.value) else Some(default);
    if n.None? then None else if n.value < 1 then Some(1) else n
  }

  /** `(page, limit)` of a follow-up listing: defaults 1 and 10, at least 1 when numeric, NaN (None) otherwise. */
  function FollowupPage(page: Option<string>, limit: Option<string>): (r: (Option<int>, Option<int>))
    ensures r.0.Some? ==> r.0.value >= 1
    ensures r.1.Some? ==> r.1.value >= 1
    ensures page.None? ==> r.0 == Some(1)
    ensures limit.None? ==> r.1 == Some(10)
  {
    (AtLeastOne(page, 1), AtLeastOne(limit, 10))
  }

  /** Text without a leading digit is NaN for the follow-up listings: "abc" stays NaN instead of becoming page 1. */
  lemma NonNumericNotDefaulted()
    ensures AtLeastOne(Some("abc"), 1).None?
  {
    var s := "abc";
    assert !IsSpace(s[0]);
    assert TrimStart(s) == s;
    assert LongestPrefix(s, IsDigit) == [] by { assert !IsDigit(s[0]); }
    assert ParseInt(s).None?;
  }

  /** `(page - 1) * perPage`: the rows skipped before a page. */
  function Skip(page: int, perPage: int): (r: nat)
    requires page >= 1 && perPage >= 1
    ensures page == 1 ==> r == 0
  {
    (page - 1) * perPage
  }

  /** `Math.ceil(total / perPage)`. */
  function TotalPages(total: nat, perPage: int): (r: nat)
    requires perPage >= 1
    ensures total == 0 <==> r == 0
    ensures r * perPage >= total
    ensures r > 0 ==> (r - 1) * perPage < total
  {
    var q := (total + perPage - 1) / perPage;
    assert q * perPage + (total + perPage - 1) % perPage == total + perPage - 1;
    q
  }

  /** Every page up to the last starts inside the rows, and the page after the last starts past them. */
  lemma PagesCoverRows(total: nat, perPage: int, page: int)
    requires perPage >= 1 && page >= 1
    ensures page <= TotalPages(total, perPage) ==> Skip(page, perPage) < total
    ensures page > TotalPages(total, perPage) ==> Skip(page, perPage) >= total
  {
    var n := TotalPages(total, perPage);
    if page <= n {
      assert (page - 1) * perPage <= (n - 1) * perPage by { MultiplyMonotone(page - 1, n - 1, perPage); }
    } else {
      assert n * perPage <= (page - 1) * perPage by { MultiplyMonotone(n, page - 1, perPage); }
    }
  }

  lemma MultiplyMonotone(a: int, b: int, c: int)
    requires 0 <= a <= b && c >= 0
    ensures a * c <= b * c
  {
  }

  // ---------------------------------------------------------------- filter objects

  /**
   * The clauses of a filter object built by assigning keys, in key order:
   * each key holds one clause or is absent (None).
   */
  function Somes(keys: seq<Option<Clause>>): (r: seq<Clause>)
    ensures r == [] <==> forall i :: 0 <= i < |keys| ==> keys[i].None?
  {
    if keys == [] then []
    else (if keys[0].Some? then [keys[0].value] else []) + Somes(keys[1..])
  }

  /** A row passes a filter object iff every present key's clause holds. */
  lemma {:induction false} SomesMeaning(keys: seq<Option<Clause>>, row: Row)
    ensures HoldsAll(Somes(keys), row) <==> forall i :: 0 <= i < |keys| && keys[i].Some? ==> Holds(keys[i].value, row)
  {
    if keys != [] {
      SomesMeaning(keys[1..], row);
      var head := if keys[0].Some? then [keys[0].value] else [];
      assert Somes(keys) == head + Somes(keys[1..]);
      assert forall i :: 0 <= i < |head| ==> (head + Somes(keys[1..]))[i] == head[i];
      assert forall i :: 0 <= i < |Somes(keys[1..])| ==> (head + Somes(keys[1..]))[|head| + i] == Somes(keys[1..])[i];
      assert forall i :: 1 <= i < |keys| ==> keys[i] == keys[1..][i - 1];
      if HoldsAll(head, row) && HoldsAll(Somes(keys[1..]), row) {
        forall i | 0 <= i < |head + Somes(keys[1..])| ensures Holds((head + Somes(keys[1..]))[i], row) {
          if i >= |head| { assert (head + Somes(keys[1..]))[i] == Somes(keys[1..])[i - |head|]; }
        }
      }
    }
  }

  /** `Object.keys(filter).length ? filter : undefined`: an empty filter object is left out. */
  function Attached(clauses: seq<Clause>): (r: Option<seq<Clause>>)
    ensures r.None? <==> clauses == []
    ensures forall row :: (r.None? || HoldsAll(r.value, row)) <==> HoldsAll(clauses, row)
  {
    if clauses == [] then None else Some(clauses)
  }

  /** The where of a follow-up listing: the StatusType equality and the filter on the parent record. */
  datatype FollowupWhere = FollowupWhere(status: Option<string>, parent: Option<seq<Clause>>)

  /** A follow-up (its own StatusType) with its parent row passes the where. */
  predicate FollowupPasses(w: FollowupWhere, status: Option<string>, parent: Row) {
    (w.status.Some? ==> status == w.status)
    && (w.parent.Some? ==> HoldsAll(w.parent.value, parent))
  }
}
