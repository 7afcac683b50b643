/**
 * The fragment of Prisma's `where` language the handlers build, with its
 * meaning over a record given as a map from field names to text.
 */
module Query {
  import opened Strings

  /** A record as the filters see it: field name to stored text (absent means null). */
  type Row = map<string, string>

  datatype Clause =
    | ContainsText(field: string, value: string)        // { field: { contains: value } }
    | ContainsNoCase(field: string, value: string)      // { field: { contains: value, mode: "insensitive" } }
    | Equals(field: string, value: string)              // { field: value }
    | AllOf(clauses: seq<Clause>)                       // { AND: [...] }
    | AnyOf(clauses: seq<Clause>)                       // { OR: [...] }

  /** Whether a record satisfies a clause; an empty AND holds, an empty OR does not. */
  predicate Holds(c: Clause, row: Row)
    decreases c
  {
    match c
    case ContainsText(f, v) => f in row && Contains(row[f], v)
    case ContainsNoCase(f, v) => f in row && Contains(ToLower(row[f]), ToLower(v))
    case Equals(f, v) => f in row && row[f] == v
    case AllOf(cs) => forall i :: 0 <= i < |cs| ==> Holds(cs[i], row)
    case AnyOf(cs) => exists i :: 0 <= i < |cs| && Holds(cs[i], row)
  }

  /** `{ OR: fields.map(f => ({ [f]: { contains: t } })) }`. */
  function AnyFieldContains(fields: seq<string>, t: string): (r: Clause)
    ensures r.AnyOf? && |r.clauses| == |fields|
    ensures forall i :: 0 <= i < |fields| ==> r.clauses[i] == ContainsText(fields[i], t)
  {
    AnyOf(seq(|fields|, i requires 0 <= i < |fields| => ContainsText(fields[i], t)))
  }

  /** `{ AND: tokens.map(t => ({ OR: ... })) }`: every token must occur in some field. */
  function TokensInFields(tokens: seq<string>, fields: seq<string>): (r: Clause)
    ensures r.AllOf? && |r.clauses| == |tokens|
    ensures forall i :: 0 <= i < |tokens| ==> r.clauses[i] == AnyFieldContains(fields, tokens[i])
  {
    AllOf(seq(|tokens|, i requires 0 <= i < |tokens| => AnyFieldContains(fields, tokens[i])))
  }

  /** Some field of the record among `fields` contains `t`. */
  predicate FoundIn(fields: seq<string>, t: string, row: Row) {
    exists j :: 0 <= j < |fields| && fields[j] in row && Contains(row[fields[j]], t)
  }

  lemma AnyFieldContainsMeaning(fields: seq<string>, t: string, row: Row)
    ensures Holds(AnyFieldContains(fields, t), row) <==> FoundIn(fields, t, row)
  {
    var o := AnyFieldContains(fields, t);
    if Holds(o, row) {
      var j :| 0 <= j < |fields| && Holds(o.clauses[j], row);
      assert fields[j] in row && Contains(row[fields[j]], t);
    }
    if FoundIn(fields, t, row) {
      var j :| 0 <= j < |fields| && fields[j] in row && Contains(row[fields[j]], t);
      assert Holds(o.clauses[j], row);
    }
  }

  /** A record matches the keyword clause iff each token is contained in at least one of the fields. */
  lemma TokensInFieldsMeaning(tokens: seq<string>, fields: seq<string>, row: Row)
    ensures Holds(TokensInFields(tokens, fields), row) <==>
      forall i :: 0 <= i < |tokens| ==> FoundIn(fields, tokens[i], row)
  {
    var c := TokensInFields(tokens, fields);
    forall i | 0 <= i < |tokens|
      ensures Holds(c.clauses[i], row) <==> FoundIn(fields, tokens[i], row)
    {
      AnyFieldContainsMeaning(fields, tokens[i], row);
    }
  }

  /** With no field to search, a keyword with at least one token matches no record at all. */
  lemma NoFieldsMatchNothing(tokens: seq<string>, row: Row)
    requires tokens != []
    ensures !Holds(TokensInFields(tokens, []), row)
  {
    TokensInFieldsMeaning(tokens, [], row);
    assert !FoundIn([], tokens[0], row);
  }

  /** A conjunction list, `{ AND }` or `{}` when empty: every clause must hold. */
  predicate HoldsAll(cs: seq<Clause>, row: Row) {
    forall i :: 0 <= i < |cs| ==> Holds(cs[i], row)
  }

  /** A single clause holds as a conjunction list exactly when it holds. */
  lemma HoldsAllOne(c: Clause, row: Row)
    ensures HoldsAll([c], row) <==> Holds(c, row)
  {
    assert [c][0] == c;
  }

  /** An `OR` of three clauses holds exactly when one of them does. */
  lemma AnyOfThree(a: Clause, b: Clause, c: Clause, row: Row)
    ensures Holds(AnyOf([a, b, c]), row) <==> Holds(a, row) || Holds(b, row) || Holds(c, row)
  {
    var cs := [a, b, c];
    assert cs[0] == a && cs[1] == b && cs[2] == c;
  }
}
