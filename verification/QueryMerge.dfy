/**
 The search rewrite of the database adapter: a text search is merged into a query that may already have its own
 `$or` and `$and`.

 With a list `$or` of its own, a query keeps it in an element of `$and`, next to the search.
 */
module QueryMerge {
  type Field = string

  /** `texts` are the full-text searches that the document's text index answers. */
  datatype Document = Document(fields: map<Field, string>, texts: set<string>)

  /** Conditions on fields, and `$or` and `$and` lists where present; a document must satisfy all that are present. */
  datatype Query = Query(conditions: seq<Condition>, hasOr: bool, or: seq<Query>, hasAnd: bool, and: seq<Query>)

  /** A condition on a field, the case-insensitive pattern a search makes, or a full-text search. */
  datatype Condition = Equals(field: Field, value: string) | Contains(field: Field, text: string) | Text(search: string)

  /** How the database engine folds case. */
  type Folding = char -> char

  function Folded(s: string, fold: Folding): string {
    seq(|s|, i requires 0 <= i < |s| => fold(s[i]))
  }

  predicate Occurs(text: string, s: string) {
    text <= s || (s != "" && Occurs(text, s[1..]))
  }

  predicate Satisfies(d: Document, c: Condition, fold: Folding) {
    match c
    case Equals(f, v) => f in d.fields && d.fields[f] == v
    case Contains(f, t) => f in d.fields && Occurs(Folded(t, fold), Folded(d.fields[f], fold))
    case Text(t) => t in d.texts
  }

  predicate Matches(q: Query, d: Document, fold: Folding)
    decreases q
  {
    && (forall c :: c in q.conditions ==> Satisfies(d, c, fold))
    && (q.hasOr ==> exists i :: 0 <= i < |q.or| && Matches(q.or[i], d, fold))
    && (q.hasAnd ==> forall i :: 0 <= i < |q.and| ==> Matches(q.and[i], d, fold))
  }

  function Or(queries: seq<Query>): Query {
    Query([], true, queries, false, [])
  }

  function FieldQuery(f: Field, search: string): Query {
    One(Contains(f, search))
  }

  function FieldQueries(fields: seq<Field>, search: string): seq<Query> {
    seq(|fields|, i requires 0 <= i < |fields| => FieldQuery(fields[i], search))
  }

  predicate SomeFieldContains(fields: seq<Field>, search: string, d: Document, fold: Folding) {
    exists f :: f in fields && Satisfies(d, Contains(f, search), fold)
  }

  /** What a caller asks for: the search text in some search field, or in the text index when there are none. */
  predicate Found(fields: seq<Field>, search: string, d: Document, fold: Folding) {
    search == "" || (if fields == [] then search in d.texts else SomeFieldContains(fields, search, d, fold))
  }

  /** The filter of `createCustomCursor`. */
  method CreateCustomCursor(query: Query, search: string, searchFields: seq<Field>) returns (q: Query)
    ensures forall d, fold :: Matches(q, d, fold) <==> Matches(query, d, fold) && Found(searchFields, search, d, fold)
  {
    q := query;
    if search == "" {
      return;
    }
    if searchFields == [] {
      TextAdded(query, search);
      q := q.(conditions := q.conditions + [Text(search)]);
      return;
    }
    var searchQuery := Or(FieldQueries(searchFields, search));
    forall d, fold
      ensures Matches(searchQuery, d, fold) <==> SomeFieldContains(searchFields, search, d, fold)
    {
      SearchMatches(searchFields, search, d, fold);
    }
    if q.hasOr {
      forall d, fold
        ensures Matches(WithBoth(query, searchQuery), d, fold) <==>
                Matches(query, d, fold) && Matches(searchQuery, d, fold)
      {
        PushedOr(query, searchQuery, d, fold);
      }
      if !q.hasAnd {
        q := q.(hasAnd := true, and := []);
      }
      q := q.(and := q.and + [Or(q.or), searchQuery]);
      q := q.(hasOr := false, or := []);
      assert q == WithBoth(query, searchQuery);
    } else {
      q := q.(hasOr := true, or := searchQuery.or);
    }
  }

  lemma TextAdded(query: Query, search: string)
    ensures var q := query.(conditions := query.conditions + [Text(search)]);
            forall d, fold :: Matches(q, d, fold) <==> Matches(query, d, fold) && search in d.texts
  {
    var q := query.(conditions := query.conditions + [Text(search)]);
    assert Text(search) in q.conditions && forall c :: c in query.conditions ==> c in q.conditions;
    forall d, fold
      ensures Matches(q, d, fold) <==> Matches(query, d, fold) && search in d.texts
    {
      if Matches(q, d, fold) { assert Satisfies(d, Text(search), fold); }
    }
  }

  lemma {:induction false} SearchMatches(fields: seq<Field>, search: string, d: Document, fold: Folding)
    ensures Matches(Or(FieldQueries(fields, search)), d, fold) <==> SomeFieldContains(fields, search, d, fold)
  {
    var qs := FieldQueries(fields, search);
    forall i | 0 <= i < |qs|
      ensures Matches(qs[i], d, fold) <==> Satisfies(d, Contains(fields[i], search), fold)
    {
      assert Contains(fields[i], search) in qs[i].conditions;
    }
    if SomeFieldContains(fields, search, d, fold) {
      var f :| f in fields && Satisfies(d, Contains(f, search), fold);
      var i :| 0 <= i < |fields| && fields[i] == f;
      assert Matches(qs[i], d, fold);
    }
  }

  /** The query's `$or` and the search, both under `$and`. */
  function WithBoth(query: Query, searchQuery: Query): Query {
    Query(query.conditions, false, [], true, (if query.hasAnd then query.and else []) + [Or(query.or), searchQuery])
  }

  /** Moving the `$or` under `$and`, next to the search. */
  lemma {:induction false} PushedOr(query: Query, searchQuery: Query, d: Document, fold: Folding)
    requires query.hasOr
    ensures Matches(WithBoth(query, searchQuery), d, fold) <==> Matches(query, d, fold) && Matches(searchQuery, d, fold)
  {
    var before := if query.hasAnd then query.and else [];
    var all := before + [Or(query.or), searchQuery];
    assert all[|before|] == Or(query.or) && all[|before| + 1] == searchQuery;
    assert forall i :: 0 <= i < |before| ==> all[i] == before[i];
  }

  /** A text occurs in what has it between two others. */
  lemma {:induction false} OccursIff(text: string, s: string)
    ensures Occurs(text, s) <==> exists before, behind :: s == before + text + behind
  {
    if text <= s { assert s == "" + text + s[|text|..]; }
    if s != "" {
      OccursIff(text, s[1..]);
      if before, behind :| s[1..] == before + text + behind { assert s == ([s[0]] + before) + text + behind; }
    }
    if before, behind :| s == before + text + behind && before != "" { assert s[1..] == before[1..] + text + behind; }
  }

  /** The search, on the fields of a document: everything without a text, the text index without search fields. */
  lemma FoundIff(fields: seq<Field>, search: string, d: Document, fold: Folding)
    requires search != ""
    ensures fields == [] ==> (Found(fields, search, d, fold) <==> search in d.texts)
    ensures fields != [] ==>
              (Found(fields, search, d, fold) <==>
               exists f :: f in fields && f in d.fields && Occurs(Folded(search, fold), Folded(d.fields[f], fold)))
    ensures Found(fields, "", d, fold)
  {
    if f :| f in fields && f in d.fields && Occurs(Folded(search, fold), Folded(d.fields[f], fold)) {
      assert Satisfies(d, Contains(f, search), fold);
    }
  }

  /** A query with a list of two alternatives, searched in one field: each part must hold of the document. */
  lemma {:induction false} TwoAlternatives(f: Field, v: string, w: string, g: Field, search: string, d: Document,
      fold: Folding)
    ensures var query := Query([], true, [One(Equals(f, v)), One(Equals(f, w))], false, []);
            Matches(WithBoth(query, Or(FieldQueries([g], search))), d, fold) <==>
            && f in d.fields && (d.fields[f] == v || d.fields[f] == w)
            && g in d.fields && Occurs(Folded(search, fold), Folded(d.fields[g], fold))
  {
    var query := Query([], true, [One(Equals(f, v)), One(Equals(f, w))], false, []);
    PushedOr(query, Or(FieldQueries([g], search)), d, fold);
    SearchMatches([g], search, d, fold);
    OneMatches(Equals(f, v), d, fold);
    OneMatches(Equals(f, w), d, fold);
    assert query.or[0] == One(Equals(f, v)) && query.or[1] == One(Equals(f, w));
    assert SomeFieldContains([g], search, d, fold) <==> Satisfies(d, Contains(g, search), fold);
  }

  function One(c: Condition): Query {
    Query([c], false, [], false, [])
  }

  lemma OneMatches(c: Condition, d: Document, fold: Folding)
    ensures Matches(One(c), d, fold) <==> Satisfies(d, c, fold)
  {
    assert c in One(c).conditions;
  }
}
