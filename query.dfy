/** The list queries' filter helpers: `prepareQuery` folds the entries of a
    `where` input into a query builder, one handler per key, and `searchSet`
    adds `FIND_IN_SET` conditions for a set-valued column.

    The query builder is the sequence of its `andWhere` conditions, and a
    handler is the list of conditions it adds for an input value. A handler
    that joins instead, such as the order list's `productId` handler (a
    `leftJoinAndSelect`), is outside what a list of conditions expresses. */
module Query {
  import opened Entities

  type Builder = seq<string>

  /** The input keys that belong to pagination, which no handler sees. */
  const PaginationKeys: seq<string> := ["size", "page"]

  /** Calling a handler the query map does not have. */
  const NoHandler := Error(TypeError, "Cannot read property 'call' of undefined")

  /** The fold of `prepareQuery`, over the input's entries in order. */
  function PrepareQuery<V(!new)>(entries: seq<(string, V)>, handlers: map<string, V -> seq<string>>, qb: Builder): Result<Builder>
    decreases |entries|
  {
    if entries == [] then Success(qb)
    else
      var (k, v) := entries[0];
      if k in PaginationKeys then PrepareQuery(entries[1..], handlers, qb)
      else if k !in handlers then Failure(NoHandler)
      else PrepareQuery(entries[1..], handlers, qb + handlers[k](v))
  }

  /** The entries a handler applies to: all but the pagination keys, in order. */
  function FilterEntries<V(!new)>(entries: seq<(string, V)>): (r: seq<(string, V)>)
    ensures |r| <= |entries|
    ensures forall e :: e in r <==> e in entries && e.0 !in PaginationKeys
    decreases |entries|
  {
    if entries == [] then []
    else (if entries[0].0 in PaginationKeys then [] else [entries[0]]) + FilterEntries(entries[1..])
  }

  /** Reference definition: the conditions of the entries' handlers, entry after entry. */
  function Conditions<V(!new)>(entries: seq<(string, V)>, handlers: map<string, V -> seq<string>>): seq<string>
    requires forall e :: e in entries ==> e.0 in handlers
    decreases |entries|
  {
    if entries == [] then []
    else handlers[entries[0].0](entries[0].1) + Conditions(entries[1..], handlers)
  }

  /** An input without entries leaves the builder as it is. */
  lemma EmptyInputUnchanged<V(!new)>(handlers: map<string, V -> seq<string>>, qb: Builder)
    ensures PrepareQuery([], handlers, qb) == Success(qb)
  {
  }

  /** The fold fails exactly when some non-pagination key has no handler. */
  lemma {:induction false} PrepareFailsOnUnknownKey<V(!new)>(entries: seq<(string, V)>, handlers: map<string, V -> seq<string>>, qb: Builder)
    ensures PrepareQuery(entries, handlers, qb).Failure? <==>
            exists e :: e in entries && e.0 !in PaginationKeys && e.0 !in handlers
    ensures PrepareQuery(entries, handlers, qb).Failure? ==> PrepareQuery(entries, handlers, qb) == Failure(NoHandler)
    decreases |entries|
  {
    if entries != [] {
      var (k, v) := entries[0];
      var next := if k in PaginationKeys || k !in handlers then qb else qb + handlers[k](v);
      PrepareFailsOnUnknownKey(entries[1..], handlers, next);
      assert entries == [entries[0]] + entries[1..];
    }
  }

  /** When every key is handled, the fold adds the handlers' conditions of
      the non-pagination entries, each entry once and in entry order. */
  lemma {:induction false} PrepareAppliesEachOnce<V(!new)>(entries: seq<(string, V)>, handlers: map<string, V -> seq<string>>, qb: Builder)
    requires forall e :: e in entries && e.0 !in PaginationKeys ==> e.0 in handlers
    ensures PrepareQuery(entries, handlers, qb) == Success(qb + Conditions(FilterEntries(entries), handlers))
    decreases |entries|
  {
    if entries == [] {
      assert qb + [] == qb;
    } else {
      var e, rest := entries[0], entries[1..];
      if e.0 in PaginationKeys {
        assert FilterEntries(entries) == [] + FilterEntries(rest) == FilterEntries(rest);
        PrepareAppliesEachOnce(rest, handlers, qb);
      } else {
        PrepareAppliesEachOnce(rest, handlers, qb + handlers[e.0](e.1));
        var f := FilterEntries(entries);
        assert f[0] == e && f[1..] == FilterEntries(rest);
        assert qb + handlers[e.0](e.1) + Conditions(FilterEntries(rest), handlers)
            == qb + (handlers[e.0](e.1) + Conditions(FilterEntries(rest), handlers));
      }
    }
  }

  /** Pagination entries never reach a handler: dropping them changes nothing. */
  lemma {:induction false} PaginationKeysIgnored<V(!new)>(entries: seq<(string, V)>, handlers: map<string, V -> seq<string>>, qb: Builder)
    ensures PrepareQuery(entries, handlers, qb) == PrepareQuery(FilterEntries(entries), handlers, qb)
    decreases |entries|
  {
    if entries != [] {
      var e, rest := entries[0], entries[1..];
      if e.0 in PaginationKeys {
        assert FilterEntries(entries) == [] + FilterEntries(rest) == FilterEntries(rest);
        PaginationKeysIgnored(rest, handlers, qb);
      } else {
        var next := if e.0 in handlers then qb + handlers[e.0](e.1) else qb;
        PaginationKeysIgnored(rest, handlers, next);
        var f := FilterEntries(entries);
        assert f[0] == e && f[1..] == FilterEntries(rest);
      }
    }
  }

  /** The search term of `searchSet`: one value or a list of values. */
  datatype Search = Term(term: string) | Terms(terms: seq<string>)

  /** The condition for one term: `FIND_IN_SET('<term>', <where>)`, negated with `!`. */
  function FindInSet(term: string, column: string, notIn: bool): string {
    (if notIn then "!" else "") + "FIND_IN_SET('" + term + "', " + column + ")"
  }

  /** The `reduce` over a list of terms, one `andWhere` per term. */
  function SearchTerms(qb: Builder, terms: seq<string>, column: string, notIn: bool): Builder
    decreases |terms|
  {
    if terms == [] then qb else SearchTerms(qb + [FindInSet(terms[0], column, notIn)], terms[1..], column, notIn)
  }

  /** `searchSet`. */
  function SearchSet(qb: Builder, search: Search, column: string, notIn: bool): Builder {
    match search
    case Term(t) => qb + [FindInSet(t, column, notIn)]
    case Terms(ts) => SearchTerms(qb, ts, column, notIn)
  }

  /** A list of terms adds one condition per term, in the terms' order, after the existing ones. */
  lemma {:induction false} SearchTermsInOrder(qb: Builder, terms: seq<string>, column: string, notIn: bool)
    ensures var r := SearchTerms(qb, terms, column, notIn);
      && |r| == |qb| + |terms| && r[..|qb|] == qb
      && forall i :: 0 <= i < |terms| ==> r[|qb| + i] == FindInSet(terms[i], column, notIn)
    decreases |terms|
  {
    if terms != [] {
      var next := qb + [FindInSet(terms[0], column, notIn)];
      SearchTermsInOrder(next, terms[1..], column, notIn);
      var r := SearchTerms(qb, terms, column, notIn);
      assert r[..|qb|] == next[..|next|][..|qb|];
      forall i | 0 <= i < |terms| ensures r[|qb| + i] == FindInSet(terms[i], column, notIn) {
        if i == 0 {
          assert r[|qb|] == r[..|next|][|qb|];
        } else {
          assert r[|next| + (i - 1)] == FindInSet(terms[1..][i - 1], column, notIn);
        }
      }
    }
  }

  /** One term adds exactly one condition; a list adds one per term. */
  lemma SearchSetCount(qb: Builder, search: Search, column: string, notIn: bool)
    ensures var r := SearchSet(qb, search, column, notIn);
      && |r| == |qb| + (if search.Term? then 1 else |search.terms|)
      && r[..|qb|] == qb
      && (search.Term? ==> r[|qb|] == FindInSet(search.term, column, notIn))
  {
    if search.Terms? {
      SearchTermsInOrder(qb, search.terms, column, notIn);
    }
  }

  /** A condition starts with `!` exactly when it excludes the term, and
      otherwise it is the `FIND_IN_SET` call on the quoted term and the column. */
  lemma FindInSetShape(term: string, column: string, notIn: bool)
    ensures var c := FindInSet(term, column, notIn);
      && (c[0] == '!' <==> notIn)
      && c[(if notIn then 1 else 0)..] == "FIND_IN_SET('" + term + "', " + column + ")"
  {
  }
}
