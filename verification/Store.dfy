/** The abstract database that stands in for sqlgraph and the driver. Its contract is the assumption of the
    whole query model: a query returns the rows of its table that match every predicate, in an order that is
    a function of the order terms and those rows, cut to the page given by offset and limit. */
module Store {
  import opened Schema

  /** A predicate of a query: a key-set test added by an eager load, or one of the caller's own. */
  datatype Pred = In(col: Col, keys: seq<Id>) | Custom(holds: Row -> bool)

  type OrderTerm = string

  datatype DB = DB(tables: map<Entity, seq<Row>>, arrange: (seq<OrderTerm>, seq<Row>) -> seq<Row>)

  /** A row with the columns of its entity and a string under its primary key. The foreign keys of
      many-to-one edges are NOT NULL columns. */
  ghost predicate ValidRow(e: Entity, r: Row) {
    && (forall c :: c in Columns(e) ==> c in r)
    && r[ID].Str?
    && forall k :: 0 <= k < |EdgesOf(e)| && !EdgesOf(e)[k].many ==> EdgesOf(e)[k].fk in r && r[EdgesOf(e)[k].fk].Str?
  }

  ghost predicate HasTables(db: DB) {
    forall e: Entity :: e in db.tables
  }

  ghost predicate DistinctIds(rows: seq<Row>) {
    forall i, j :: 0 <= i < j < |rows| ==> StrOf(rows[i], ID) != StrOf(rows[j], ID)
  }

  /** Every entity has a table, primary keys are unique, and ordering only permutes. */
  ghost predicate ValidDB(db: DB) {
    && HasTables(db)
    && (forall e: Entity :: DistinctIds(db.tables[e]))
    && (forall e: Entity, r :: r in db.tables[e] ==> ValidRow(e, r))
    && (forall o, rows :: multiset(db.arrange(o, rows)) == multiset(rows))
  }

  function Matches(p: Pred, r: Row): bool {
    match p
    case In(c, keys) => c in r && r[c].Str? && r[c].s in keys
    case Custom(f) => f(r)
  }

  function MatchesAll(ps: seq<Pred>, r: Row): bool {
    forall i :: 0 <= i < |ps| ==> Matches(ps[i], r)
  }

  function Filter(ps: seq<Pred>, rows: seq<Row>): (f: seq<Row>)
    ensures forall r :: r in f <==> r in rows && MatchesAll(ps, r)
  {
    if rows == [] then [] else
    (if MatchesAll(ps, rows[0]) then [rows[0]] else []) + Filter(ps, rows[1..])
  }

  /** The number a query spec holds for a limit or offset of the builder; zero stands for none. */
  function InSpec(n: Option<nat>): nat {
    if n.Some? then n.value else 0
  }

  /** The page of a query spec: an offset or limit of zero is no offset or limit. */
  function Page(offset: Option<nat>, limit: Option<nat>, rows: seq<Row>): seq<Row> {
    var rest := if InSpec(offset) <= |rows| then rows[InSpec(offset)..] else [];
    if 0 < InSpec(limit) <= |rest| then rest[..InSpec(limit)] else rest
  }

  predicate WholePage(offset: Option<nat>, limit: Option<nat>) {
    InSpec(offset) == 0 && InSpec(limit) == 0
  }

  /** The rows a query returns. */
  function Fetch(db: DB, e: Entity, ps: seq<Pred>, order: seq<OrderTerm>, offset: Option<nat>,
      limit: Option<nat>): seq<Row>
    requires e in db.tables
  {
    Page(offset, limit, db.arrange(order, Filter(ps, db.tables[e])))
  }

  lemma {:induction false} FilterKeepsDistinct(ps: seq<Pred>, rows: seq<Row>)
    requires DistinctIds(rows)
    ensures DistinctIds(Filter(ps, rows))
  {
    if rows != [] {
      FilterKeepsDistinct(ps, rows[1..]);
      var f := Filter(ps, rows[1..]);
      forall j | 0 <= j < |f| ensures StrOf(f[j], ID) != StrOf(rows[0], ID) {
        assert f[j] in f && f[j] in rows[1..];
      }
    }
  }

  /** Two predicate lists that accept the same rows select the same rows. */
  lemma {:induction false} FilterCongruence(ps: seq<Pred>, qs: seq<Pred>, rows: seq<Row>)
    requires forall r :: r in rows ==> MatchesAll(ps, r) == MatchesAll(qs, r)
    ensures Filter(ps, rows) == Filter(qs, rows)
  {
    if rows != [] {
      FilterCongruence(ps, qs, rows[1..]);
    }
  }

  lemma {:induction false} FilterNothing(rows: seq<Row>)
    ensures Filter([], rows) == rows
  {
    if rows != [] {
      FilterNothing(rows[1..]);
    }
  }

  /** Reordering rows keeps their identifiers distinct. */
  lemma PermutationKeepsDistinct(rows: seq<Row>, other: seq<Row>)
    requires DistinctIds(rows) && multiset(other) == multiset(rows)
    ensures DistinctIds(other)
  {
    forall i, j | 0 <= i < j < |other| ensures StrOf(other[i], ID) != StrOf(other[j], ID) {
      if StrOf(other[i], ID) == StrOf(other[j], ID) {
        assert other[i] in multiset(other) && other[j] in multiset(other);
        assert other[i] in rows && other[j] in rows;
        assert other[i] == other[j];
        var x := other[i];
        assert multiset(other)[x] >= 2 by {
          assert other == other[..j] + other[j..];
          assert x in other[..j] && x in other[j..] by { assert other[..j][i] == x && other[j..][0] == x; }
          assert multiset(other) == multiset(other[..j]) + multiset(other[j..]);
        }
        DistinctCount(rows, x);
      }
    }
  }

  lemma {:induction false} DistinctCount(rows: seq<Row>, x: Row)
    requires DistinctIds(rows)
    ensures multiset(rows)[x] <= 1
  {
    if rows != [] {
      assert rows == [rows[0]] + rows[1..];
      DistinctCount(rows[1..], x);
      if rows[0] == x {
        assert x !in rows[1..];
      }
    }
  }

  lemma SameElements(a: seq<Row>, b: seq<Row>)
    requires multiset(a) == multiset(b)
    ensures forall r :: r in a <==> r in b
  {
    assert forall r :: r in a <==> r in multiset(a);
    assert forall r :: r in b <==> r in multiset(b);
  }

  lemma PageContract(offset: Option<nat>, limit: Option<nat>, rows: seq<Row>)
    requires DistinctIds(rows)
    ensures var p := Page(offset, limit, rows);
      && (forall r :: r in p ==> r in rows)
      && DistinctIds(p)
      && (WholePage(offset, limit) ==> p == rows)
  {
  }

  /** The rows of a page stand next to each other in what the store returns in the order asked for, from the offset
      on and no more than the limit; an offset or limit of zero is none. */
  lemma FetchIsPage(db: DB, e: Entity, ps: seq<Pred>, order: seq<OrderTerm>, offset: Option<nat>, limit: Option<nat>)
    requires e in db.tables
    ensures var rows, all := Fetch(db, e, ps, order, offset, limit), db.arrange(order, Filter(ps, db.tables[e]));
      var from := match offset case Some(n) => n case None => 0;
      && (forall j :: 0 <= j < |rows| ==> from + j < |all| && rows[j] == all[from + j])
      && (if from <= |all| then |rows| == |all| - from || limit == Some(|rows|) else rows == [])
      && (limit.Some? && 0 < limit.value ==> |rows| <= limit.value)
      && (rows == [] ==> |all| <= from)
  {
  }

  /** What a caller may rely on: returned rows are matching rows of the table, each once; without a page
      every matching row is returned. */
  lemma FetchContract(db: DB, e: Entity, ps: seq<Pred>, order: seq<OrderTerm>, offset: Option<nat>, limit: Option<nat>)
    requires ValidDB(db)
    ensures var rows := Fetch(db, e, ps, order, offset, limit);
      && (forall r :: r in rows ==> r in db.tables[e] && MatchesAll(ps, r) && ValidRow(e, r))
      && DistinctIds(rows)
      && (WholePage(offset, limit) ==> forall r :: r in db.tables[e] && MatchesAll(ps, r) ==> r in rows)
  {
    var f := Filter(ps, db.tables[e]);
    FilterKeepsDistinct(ps, db.tables[e]);
    var a := db.arrange(order, f);
    PermutationKeepsDistinct(f, a);
    SameElements(a, f);
    PageContract(offset, limit, a);
  }
}
