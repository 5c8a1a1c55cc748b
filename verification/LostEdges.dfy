/** Two inputs on which a query object that was run before loads wrong edges. */
module LostEdges {
  import opened Schema
  import opened Store
  import opened Plan
  import opened EagerLoad
  import opened BuilderCalls
  import opened Rerun
  import opened SlotHistory
  import opened EdgePaths
  import opened StaleKeys
  import Accessors

  const TENANT_A: Row := map[ID := Str("a"), Slug := Null, Name := Null, Plan := Null, Status := Null,
    SchemaName := Null]
  const TENANT_B: Row := TENANT_A[ID := Str("b")]
  const MEMBER_OF_B: Row := map[ID := Str("t"), UserID := Str("u"), TenantID := Str("b"), BranchID := Null,
    RoleID := Null, Status := Null, CreatedAt := Null]

  // ----- A larger limit -----

  /** A store of two tenants, the second with one user, read in table order. */
  ghost predicate TwoTenants(db: DB) {
    && ValidDB(db)
    && db.tables[Tenant] == [TENANT_A, TENANT_B] && db.tables[TenantUser] == [MEMBER_OF_B]
    && (forall o, rows :: db.arrange(o, rows) == rows)
  }

  lemma TwoTenantsExist() returns (db: DB)
    ensures TwoTenants(db)
  {
    db := DB(map[Tenant := [TENANT_A, TENANT_B], TenantUser := [MEMBER_OF_B], User := [], PluginInstall := [],
                 Branch := [], Role := [], RolePermission := []], (o, rows) => rows);
    forall e: Entity ensures e in db.tables && DistinctIds(db.tables[e]) {
      assert e.Tenant? || e.TenantUser? || e.User? || e.PluginInstall? || e.Branch? || e.Role? || e.RolePermission?;
      assert StrOf(TENANT_A, ID) == "a" && StrOf(TENANT_B, ID) == "b" && "a"[0] != "b"[0];
    }
    assert ValidRow(Tenant, TENANT_A) && ValidRow(Tenant, TENANT_B) && ValidRow(TenantUser, MEMBER_OF_B);
    forall e: Entity, r | r in db.tables[e] ensures ValidRow(e, r) {
      assert (e == Tenant && (r == TENANT_A || r == TENANT_B)) || (e == TenantUser && r == MEMBER_OF_B);
    }
  }

  lemma TenantRows(p: Spec, db: DB)
    requires TwoTenants(db) && |p.preds| == 0 && (p.limit == Some(1) || p.limit == Some(2)) && InSpec(p.offset) == 0
    ensures Fetch(db, Tenant, p.preds, p.order, p.offset, p.limit) ==
      if p.limit == Some(2) then [TENANT_A, TENANT_B] else [TENANT_A]
  {
    FilterNothing([TENANT_A, TENANT_B]);
    assert p.preds == [];
  }

  lemma TenantIds(p: Spec, db: DB)
    requires TwoTenants(db) && WellFormed(p) && p.entity == Tenant && |p.preds| == 0
    requires InSpec(p.offset) == 0 && (p.limit == Some(1) || p.limit == Some(2))
    ensures Ids(Base(p, db)) == if p.limit == Some(2) then ["a", "b"] else ["a"]
  {
    TenantRows(p, db);
    SelectedColumns(p);
    AssignedKey(Selected(p), TENANT_A, ID);
    AssignedKey(Selected(p), TENANT_B, ID);
    hide Fetch, Selected, Assigned, WellFormed;
  }

  /** One tenant, and then two. */
  function LargerLimit(db: DB): seq<Call> {
    [Limit(1), All(db), Limit(2)]
  }

  lemma AfterLargerLimit(q: Spec, db: DB)
    requires WellFormed(q) && ValidDB(db)
    ensures AllSensible(LargerLimit(db)) && HasTables(db)
    ensures AfterAll(q, LargerLimit(db)) == Run(q.(limit := Some(1)), db).0.(limit := Some(2))
  {
    hide Run;
    var h := LargerLimit(db);
    assert h[..2][..1] == h[..1] && h[..1][..0] == [] && h[..2][1] == h[1] && h[..1][0] == h[0];
    assert AfterAll(q, h[..1]) == q.(limit := Some(1));
    assert AfterAll(q, h[..2]) == Run(q.(limit := Some(1)), db).0;
  }

  /** Fetching the first tenant and then the first two through one query object that eager-loads tenant users
      loses the second tenant's user: the store links it, the second answer does not. */
  lemma LargerLimitLosesEdges(q: Spec, db: DB)
    requires WellFormed(q) && AllValid(q) && q.entity == Tenant && |q.preds| == 0 && InSpec(q.offset) == 0
    requires q.with[0].Some? && Unfiltered(q.with[0].value) && TwoTenants(db)
    ensures AllSensible(LargerLimit(db))
    ensures var r := Run(AfterAll(q, LargerLimit(db)), db).1;
      && r.Ok? && |r.value| == 2 && StrOf(r.value[1].fields, ID) == "b"
      && 0 < |r.value[1].edges| && r.value[1].edges[0].Many?
      && Joins(db, q.with[0].value, TenantID, "b", "t") && !HasId(r.value[1].edges[0].nodes, "t")
  {
    hide Run, Base, AfterAll, AllValid, SlotLoaded, MatchesAll, Joins;
    var h := LargerLimit(db);
    AfterLargerLimit(q, db);
    StaysValid(q, db);
    var one, p := q.(limit := Some(1)), AfterAll(q, h);
    TenantIds(one, db);
    TenantIds(p, db);
    OneReaches(one, db);
    AfterRun(one, 0, db);
    ListLinks(p, 0, db);
    RunResult(p, db);
    hide ValidDB, WellFormed;
    var base, nodes := Base(p, db), Run(p, db).1.value;
    assert Ids(base)[1] == "b" == StrOf(nodes[1].fields, ID);
    StrangerMissed(q.with[0].value, p.with[0].value, In(TenantID, ["a"]), db);
  }

  lemma OneReaches(p: Spec, db: DB)
    requires WellFormed(p) && AllValid(p) && HasTables(db) && 0 < |p.with| && Base(p, db) != []
    ensures Reaches(p, 0, db)
  {
  }

  lemma StaysValid(q: Spec, db: DB)
    requires WellFormed(q) && AllValid(q) && ValidDB(db)
    ensures AllValid(q.(limit := Some(1))) && AllValid(Run(q.(limit := Some(1)), db).0.(limit := Some(2)))
  {
    hide Run;
    RunStaysValid(q.(limit := Some(1)), db);
  }

  lemma StrangerMissed(c: Spec, c': Spec, used: Pred, db: DB)
    requires TwoTenants(db) && |c.preds| == 0 && c.entity == c'.entity == TenantUser && used == In(TenantID, ["a"])
    requires c'.preds == c.preds + [used]
    ensures Joins(db, c, TenantID, "b", "t") && !Joins(db, c', TenantID, "b", "t")
  {
    assert MEMBER_OF_B in db.tables[TenantUser] && MatchesAll(c.preds, MEMBER_OF_B);
    assert c'.preds[0] == used;
    assert !Matches(used, MEMBER_OF_B);
  }

  // ----- A new row below -----

  const FIRST: Row := map[ID := Str("s"), UserID := Str("u"), TenantID := Str("a"), BranchID := Null,
    RoleID := Null, Status := Null, CreatedAt := Null]
  const SECOND: Row := FIRST[ID := Str("t")][UserID := Str("v")]
  const USER_U: Row := map[ID := Str("u"), Email := Null, PasswordHash := Null, GoogleSub := Null,
    IsPlatformAdmin := Null, CreatedAt := Null]
  const USER_V: Row := USER_U[ID := Str("v")]

  /** A store before and after the only tenant gains a second member; both users were there all along. */
  ghost predicate GainsMember(before: DB, after: DB) {
    && ValidDB(before) && ValidDB(after)
    && before.tables[Tenant] == after.tables[Tenant] == [TENANT_A]
    && before.tables[TenantUser] == [FIRST] && after.tables[TenantUser] == [FIRST, SECOND]
    && before.tables[User] == after.tables[User] == [USER_U, USER_V]
  }

  lemma GainsMemberExists() returns (before: DB, after: DB)
    ensures GainsMember(before, after)
  {
    before := StoreOf([FIRST]);
    after := StoreOf([FIRST, SECOND]);
    StoreIsValid([FIRST]);
    StoreIsValid([FIRST, SECOND]);
  }

  function StoreOf(members: seq<Row>): DB {
    DB(map[Tenant := [TENANT_A], TenantUser := members, User := [USER_U, USER_V], PluginInstall := [],
           Branch := [], Role := [], RolePermission := []], (o, rows) => rows)
  }

  lemma StoreIsValid(members: seq<Row>)
    requires members == [FIRST] || members == [FIRST, SECOND]
    ensures ValidDB(StoreOf(members))
  {
    var db := StoreOf(members);
    forall e: Entity
      ensures e in db.tables && DistinctIds(db.tables[e]) && forall r :: r in db.tables[e] ==> ValidRow(e, r)
    {
      RowsAreValid();
      hide StrOf, ValidRow;
      match e
      case TenantUser => assert db.tables[e] == members;
      case _ =>
    }
  }

  lemma RowsAreValid()
    ensures ValidRow(Tenant, TENANT_A) && ValidRow(TenantUser, FIRST) && ValidRow(TenantUser, SECOND)
    ensures ValidRow(User, USER_U) && ValidRow(User, USER_V)
    ensures StrOf(FIRST, ID) != StrOf(SECOND, ID) && StrOf(USER_U, ID) != StrOf(USER_V, ID)
  {
    assert StrOf(FIRST, ID) == "s" && StrOf(SECOND, ID) == "t" && "s"[0] != "t"[0];
    assert StrOf(USER_U, ID) == "u" && StrOf(USER_V, ID) == "v" && "u"[0] != "v"[0];
  }

  /** The keys an unpaged query asks for over an edge are those of all its rows. */
  lemma KeysAsked(p: Spec, k: nat, db: DB)
    requires WellFormed(p) && ValidDB(db) && k < |p.with| && p.with[k].Some? && Unpaged(p)
    ensures var e := EdgesOf(p.entity)[k];
      forall x :: x in KeyPred(e, Base(p, db)).keys <==>
        exists r :: r in db.tables[p.entity] && MatchesAll(p.preds, r) && StrOf(r, if e.many then ID else e.fk) == x
  {
    hide Base, Selected, MatchesAll, DistinctIds, ValidRow;
    var e, base := EdgesOf(p.entity)[k], Base(p, db);
    var rows := BaseRows(p, db);
    SelectedColumns(p);
    hide EdgesOf, ValidDB, WellFormed;
    var c := if e.many then ID else e.fk;
    assert forall i :: 0 <= i < |rows| ==> rows[i] in rows && StrOf(base[i], c) == StrOf(rows[i], c);
    assert forall x :: x in KeyPred(e, base).keys <==> exists i :: 0 <= i < |base| && StrOf(base[i], c) == x;
  }

  /** What a loader did with a builder in one run, and did before the next. */
  ghost function Loading(s: Spec, e: Edge, base: seq<Row>, db: DB, s': Spec, base': seq<Row>): seq<Call> {
    Narrowing(e, s, base) + [All(db)] + Narrowing(e, s', base')
  }

  /** Calls that neither run a builder nor touch its slot k leave no predicates there. */
  lemma {:induction false} Quiet(s: Spec, k: nat, g: seq<Call>, h: seq<Call>)
    requires WellFormed(s) && k < |s.with| && AllSensible(g) && AllSensible(h) && AllSensible(g + h)
    requires forall c :: c in h ==> c.Select? || c.Where?
    ensures KeysUsed(s, k, g + h) == KeysUsed(s, k, g) && Own(s, k, g + h) == Own(s, k, g)
  {
    hide AfterAll, Reaches, KeyPred, Base;
    if h == [] {
      assert g + h == g;
    } else {
      var n := |h| - 1;
      assert (g + h)[..|g + h|-1] == g + h[..n] && (g + h)[|g + h|-1] == h[n];
      Quiet(s, k, g, h[..n]);
    }
  }

  /** A run that loads slot k leaves one key set there. */
  lemma RunAdds(q: Spec, k: nat, g: seq<Call>, db: DB)
    requires WellFormed(q) && k < |q.with| && AllSensible(g) && Sensible(All(db))
    requires AfterAll(q, g).with[k].Some? && Reaches(AfterAll(q, g), k, db)
    ensures AllSensible(g + [All(db)])
    ensures var h, p := g + [All(db)], AfterAll(q, g);
      var e, base := EdgesOf(q.entity)[k], Base(p, db);
      && KeysUsed(q, k, h) == KeysUsed(q, k, g) + [KeyPred(e, base)]
      && Own(q, k, h) == Own(q, k, g) && Start(q, k, h) == Start(q, k, g)
      && SlotCalls(q, k, h) == SlotCalls(q, k, g) + Narrowing(e, p.with[k].value, base) + [All(db)]
  {
    hide Reaches, Base, KeyPred, AfterAll, Narrowing, ValidDB;
    var h := g + [All(db)];
    assert h[..|h|-1] == g && h[|h|-1] == All(db);
  }

  lemma NothingYet(s: Spec, k: nat)
    requires WellFormed(s) && k < |s.with| && s.with[k].Some?
    ensures AllSensible([]) && KeysUsed(s, k, []) == [] && Own(s, k, []) == s.with[k].value.preds
    ensures Start(s, k, []) == s.with[k] && SlotCalls(s, k, []) == [] && AfterAll(s, []) == s
  {
  }

  lemma Parts(g: seq<Call>, db: DB, h: seq<Call>)
    requires ValidDB(db) && AllSensible(g + [All(db)] + h)
    ensures Sensible(All(db)) && AllSensible(g) && AllSensible(g + [All(db)]) && AllSensible(h)
  {
  }

  /** Then the builder in its slot k has one key set, of the one run. */
  lemma LoadedOnce(s: Spec, e: Edge, base: seq<Row>, db: DB, s': Spec, base': seq<Row>, k: nat)
    requires WellFormed(s) && k < |s.with| && s.with[k].Some? && ValidDB(db)
    requires AllSensible(Loading(s, e, base, db, s', base')) && Reaches(Narrow(e, s, base), k, db)
    ensures var g, n := Loading(s, e, base, db, s', base'), Narrow(e, s, base);
      && KeysUsed(s, k, g) == [KeyPred(EdgesOf(s.entity)[k], Base(n, db))] && Own(s, k, g) == s.with[k].value.preds
  {
    var n1, n2 := Narrowing(e, s, base), Narrowing(e, s', base');
    hide Reaches, Base, KeyPred, AfterAll, Narrow, AllSensible, KeysUsed, Own, ValidDB, Sensible;
    NarrowingIs(e, s, base);
    NothingYet(s, k);
    Parts(n1, db, n2);
    assert [] + n1 == n1;
    RunAdds(s, k, n1, db);
    Quiet(s, k, [], n1);
    Quiet(s, k, n1 + [All(db)], n2);
  }

  /** The builder in the first slot, after one run of the query and before the next. */
  lemma SecondLoading(q: Spec, before: DB, after: DB)
    requires WellFormed(q) && AllValid(q) && ValidDB(before) && ValidDB(after) && 0 < |q.with| && q.with[0].Some?
    requires Base(q, before) != []
    ensures AllSensible([All(before)])
    ensures var h, p := [All(before)], Run(q, before).0;
      && AfterAll(q, h) == p && p.with[0].Some? && Start(q, 0, h) == q.with[0]
      && KeysUsed(q, 0, h) == [KeyPred(EdgesOf(q.entity)[0], Base(q, before))] && Own(q, 0, h) == q.with[0].value.preds
      && SubHistory(q, 0, h, after) == Loading(q.with[0].value, EdgesOf(q.entity)[0], Base(q, before), before,
        p.with[0].value, Base(p, after))
  {
    hide Run, Base, AfterAll, KeysUsed, Own, Start, SlotCalls, SubHistory, Loading, Narrowing, KeyPred, AllSensible;
    hide AllValid;
    FirstLoading(q, before);
    SubHistoryIs(q, 0, [All(before)], after);
    LoadingIs(q.with[0].value, EdgesOf(q.entity)[0], Base(q, before), before, Run(q, before).0.with[0].value,
      Base(Run(q, before).0, after));
  }

  lemma FirstLoading(q: Spec, db: DB)
    requires WellFormed(q) && AllValid(q) && ValidDB(db) && HasTables(db) && 0 < |q.with| && q.with[0].Some?
    requires Base(q, db) != []
    ensures AllSensible([All(db)]) && |q.with| == |EdgesOf(q.entity)|
    ensures var h, p, e, base := [All(db)], Run(q, db).0, EdgesOf(q.entity)[0], Base(q, db);
      && AfterAll(q, h) == p && 0 < |p.with| && p.with[0].Some? && Start(q, 0, h) == q.with[0]
      && KeysUsed(q, 0, h) == [KeyPred(e, base)] && Own(q, 0, h) == q.with[0].value.preds
      && SlotCalls(q, 0, h) == Narrowing(e, q.with[0].value, base) + [All(db)]
  {
    OneReaches(q, db);
    assert Sensible(All(db));
    AfterOne(q, All(db));
    NothingYet(q, 0);
    SlotsStay(q, 0, db);
    hide Own, KeysUsed, Start, SlotCalls, WellFormed, Run, Base, AllValid, KeyPred, Narrow, Narrowing, AfterAll;
    hide ValidDB, Reaches;
    RunAdds(q, 0, [], db);
    assert [] + [All(db)] == [All(db)];
  }

  lemma SubHistoryIs(q: Spec, k: nat, h: seq<Call>, db: DB)
    requires WellFormed(q) && k < |q.with| && AllSensible(h) && ValidDB(db) && HasTables(db)
    requires AfterAll(q, h).with[k].Some?
    ensures var p := AfterAll(q, h);
      && |q.with| == |EdgesOf(q.entity)| && |p.with| == |q.with|
      && SubHistory(q, k, h, db) ==
        SlotCalls(q, k, h) + Narrowing(EdgesOf(q.entity)[k], p.with[k].value, Base(p, db))
  {
    hide AfterAll, Base, Narrowing, SlotCalls, Start;
  }

  lemma LoadingIs(s: Spec, e: Edge, base: seq<Row>, db: DB, s': Spec, base': seq<Row>)
    ensures Loading(s, e, base, db, s', base') == Narrowing(e, s, base) + [All(db)] + Narrowing(e, s', base')
  {
    hide Narrowing;
  }

  /** A query for all tenants with all their members and all users of those. */
  ghost predicate WithMembersAndUsers(q: Spec) {
    && WellFormed(q) && AllValid(q) && q.entity == Tenant && Unfiltered(q)
    && q.with[0].Some? && Unfiltered(q.with[0].value)
    && 0 < |q.with[0].value.with|
    && q.with[0].value.with[0].Some? && Unfiltered(q.with[0].value.with[0].value)
  }

  /** A row that belongs to the one tenant. */
  predicate InA(r: Row) {
    TenantID in r && r[TenantID] == Str("a")
  }

  const MEMBERS := Edge(true, TenantUser, TenantID)
  const USER := Edge(false, User, UserID)

  /** Such a query asks for the members of the one tenant. */
  lemma TenantKeys(p: Spec, db: DB)
    requires WellFormed(p) && p.entity == Tenant && Unfiltered(p) && p.with[0].Some?
    requires ValidDB(db) && db.tables[Tenant] == [TENANT_A]
    ensures Base(p, db) != []
    ensures forall r :: Matches(KeyPred(MEMBERS, Base(p, db)), r) <==> InA(r)
  {
    KeysAsked(p, 0, db);
    hide Base, ValidDB, WellFormed;
    var keys := KeyPred(MEMBERS, Base(p, db)).keys;
    assert MatchesAll(p.preds, TENANT_A) && StrOf(TENANT_A, ID) == "a";
    assert forall x :: x in keys <==> x == "a";
  }

  lemma MemberRows()
    ensures InA(FIRST) && InA(SECOND) && StrOf(FIRST, UserID) == "u" && StrOf(SECOND, UserID) == "v" && "u" != "v"
  {
    assert "u"[0] != "v"[0];
  }

  /** The builder of the members, when it was narrowed to that tenant, asks for their users. */
  lemma UserKeys(n: Spec, db: DB)
    requires WellFormed(n) && n.entity == TenantUser && Unpaged(n) && n.with[0].Some?
    requires forall r :: MatchesAll(n.preds, r) <==> InA(r)
    requires ValidDB(db) && (db.tables[TenantUser] == [FIRST] || db.tables[TenantUser] == [FIRST, SECOND])
    ensures Base(n, db) != []
    ensures Matches(KeyPred(USER, Base(n, db)), USER_V) <==> SECOND in db.tables[TenantUser]
  {
    hide Base, MatchesAll, InA, StrOf, ValidRow, DistinctIds;
    KeysAsked(n, 0, db);
    MemberRows();
    var e, keys, rows := EdgesOf(n.entity)[0], KeyPred(USER, Base(n, db)).keys, db.tables[TenantUser];
    assert e == USER && FIRST in rows && MatchesAll(n.preds, FIRST) && StrOf(FIRST, e.fk) == "u";
    assert "u" in keys;
    if SECOND in rows {
      assert MatchesAll(n.preds, SECOND) && StrOf(SECOND, e.fk) == "v";
    } else {
      assert rows == [FIRST];
    }
  }

  /** The first run narrows the builder of the members to that tenant and leaves one key set on that of their users,
      without the second user. */
  lemma FirstRun(q: Spec, before: DB, after: DB)
    requires WithMembersAndUsers(q) && GainsMember(before, after)
    ensures AllSensible([All(before)])
    ensures var h, s := [All(before)], q.with[0].value;
      var p, g := AfterAll(q, h), SubHistory(q, 0, h, after);
      && p == Run(q, before).0 && AllValid(p) && Start(q, 0, h) == Some(s) && p.with[0].Some?
      && Own(q, 0, h) == s.preds && Own(s, 0, g) == s.with[0].value.preds
      && (forall r :: MatchesAll(KeysUsed(q, 0, h), r) <==> InA(r))
      && !MatchesAll(KeysUsed(s, 0, g), USER_V)
  {
    hide Run, Base, AllValid, AfterAll, KeyPred, KeysUsed, Own, Matches, MatchesAll, Narrow, AllSensible, InA, Reaches;
    hide SubHistory, Loading, Start;
    var s, base := q.with[0].value, Base(q, before);
    TenantKeys(q, before);
    SecondLoading(q, before, after);
    RunStaysValid(q, before);
    var n := Narrow(MEMBERS, s, base);
    NarrowStaysValid(q, 0, base);
    NarrowToA(s, base);
    UserKeys(n, before);
    OneReaches(n, before);
    LoadedOnce(s, MEMBERS, base, before, AfterAll(q, [All(before)]).with[0].value,
      Base(AfterAll(q, [All(before)]), after), 0);
    OnePred(KeyPred(MEMBERS, base));
    OnePred(KeyPred(USER, Base(n, before)));
  }

  lemma OnePred(p: Pred)
    ensures forall r :: MatchesAll([p], r) <==> Matches(p, r)
  {
    hide Matches;
    assert [p][0] == p;
  }

  lemma NarrowToA(c: Spec, base: seq<Row>)
    requires WellFormed(c)
    requires forall r :: Matches(KeyPred(MEMBERS, base), r) <==> InA(r)
    requires |c.preds| == 0 || forall r :: MatchesAll(c.preds, r) <==> InA(r)
    ensures var n := Narrow(MEMBERS, c, base);
      && n.entity == c.entity && n.with == c.with && n.offset == c.offset && n.limit == c.limit
      && forall r :: MatchesAll(n.preds, r) <==> InA(r)
  {
    NarrowedPreds(MEMBERS, c, base);
  }

  /** Before the second run the builder of the members asks for both users. */
  lemma SecondRun(q: Spec, before: DB, after: DB)
    requires WithMembersAndUsers(q) && GainsMember(before, after)
    requires AllSensible([All(before)]) && AfterAll(q, [All(before)]) == Run(q, before).0
    requires AfterAll(q, [All(before)]).with[0].Some? && AllValid(Run(q, before).0)
    ensures var p := Run(q, before).0;
      && Base(p, after) != [] && (forall r :: Matches(KeyPred(MEMBERS, Base(p, after)), r) <==> InA(r))
      && var n := Narrow(MEMBERS, p.with[0].value, Base(p, after));
      && WellFormed(n) && n.entity == TenantUser && n.with[0].Some? && Unpaged(n.with[0].value)
      && Matches(KeyPred(USER, Base(n, after)), USER_V)
  {
    hide Base, AllValid, AfterAll, KeyPred, Matches, MatchesAll, AllSensible, InA, Reaches, Narrow;
    var s, base, p := q.with[0].value, Base(q, before), Run(q, before).0;
    TenantKeys(q, before);
    TenantKeys(p, after);
    OneReaches(q, before);
    AfterRun(q, 0, before);
    var n1 := Narrow(MEMBERS, s, base);
    hide Run;
    NarrowToA(s, base);
    SlotsStay(n1, 0, before);
    NarrowStaysValid(q, 0, base);
    TenantUserPage(n1, before);
    NarrowToA(p.with[0].value, Base(p, after));
    UserKeys(Narrow(MEMBERS, p.with[0].value, Base(p, after)), after);
  }

  lemma TenantUserPage(n: Spec, db: DB)
    requires WellFormed(n) && n.entity == TenantUser && n.with[0].Some? && Unpaged(n.with[0].value) && ValidDB(db)
    ensures Run(n, db).0.with[0].Some? && Unpaged(Run(n, db).0.with[0].value)
  {
    SlotsStay(n, 0, db);
    AfterRun(n, 0, db);
    hide Run, Reaches, Base;
  }

  lemma UserMissed(s: Spec, g: seq<Call>, db: DB)
    requires WellFormed(s) && s.entity == TenantUser && AllSensible(g) && HasTables(db) && USER_V in db.tables[User]
    requires AfterAll(s, g).with[0].Some? && |Own(s, 0, g)| == 0
    requires !MatchesAll(KeysUsed(s, 0, g), USER_V) && Matches(KeyPred(USER, Base(AfterAll(s, g), db)), USER_V)
    ensures !NeverMissed(s, 0, g, db)
  {
    hide Base, AfterAll, KeyPred, KeysUsed, Own, Matches, AllSensible;
    assert MatchesAll(Asked(s, 0, g).preds, USER_V);
  }

  lemma Below(q: Spec, h: seq<Call>, db: DB)
    requires WellFormed(q) && 0 < |q.with| && AllSensible(h) && ValidDB(db) && AfterAll(q, h).with[0].Some?
    ensures Requests(q, h, db, [0]) && BuilderAt(q, h, db, [0]) == (Start(q, 0, h).value, SubHistory(q, 0, h, db))
  {
    hide Run, Base, AfterAll, KeyPred, Narrow, SubHistory, Start;
  }

  /** The members of the tenant were all asked for before. */
  lemma MembersServed(q: Spec, before: DB, after: DB)
    requires WithMembersAndUsers(q) && GainsMember(before, after)
    requires var h := [All(before)];
      && AllSensible(h) && AfterAll(q, h).with[0].Some?
      && (forall r :: MatchesAll(KeysUsed(q, 0, h), r) <==> InA(r))
      && forall r :: Matches(KeyPred(MEMBERS, Base(AfterAll(q, h), after)), r) <==> InA(r)
    ensures NeverMissed(q, 0, [All(before)], after)
  {
    hide Base, AfterAll, KeyPred, KeysUsed, Own, Matches, AllSensible, MatchesAll, InA;
  }

  lemma JoinsAlike(db: DB, c: Spec, d: Spec)
    requires c.entity == d.entity && c.preds == d.preds && c.entity in db.tables
    ensures forall n :: HasNeighbor(db, c, n, USER) <==> HasNeighbor(db, d, n, USER)
  {
    hide MatchesAll;
  }

  /** When the tenant gains a member between two runs of one query object, the list of members is right, and still a
      member's accessor answers not-found for a user the store has. */
  lemma NewMemberLosesUser(q: Spec, before: DB, after: DB)
    requires WithMembersAndUsers(q) && GainsMember(before, after)
    ensures AllSensible([All(before)])
    ensures var p := AfterAll(q, [All(before)]);
      && p.with[0].Some? && NeverMissed(q, 0, [All(before)], after) && Run(p, after).1.Ok?
      && exists n :: Reached(Run(p, after).1.value, n, [0])
           && 0 < |n.edges| && 0 < |n.loaded| && n.edges[0].One?
           && Accessors.OneOrErr(n, 0) == Err(Accessors.NotFound)
           && HasNeighbor(after, q.with[0].value.with[0].value, n, USER)
  {
    hide Run, Base, AllValid, AfterAll, KeyPred, KeysUsed, Own, Matches, MatchesAll, Narrow, AllSensible,
      InA, SubHistory;
    hide Start, Reached, Joins, HasNeighbor, NeverMissed, BuilderAt, Accessors.OneOrErr;
    var h, s := [All(before)], q.with[0].value;
    FirstRun(q, before, after);
    SecondRun(q, before, after);
    var p, g := AfterAll(q, h), SubHistory(q, 0, h, after);
    Below(q, h, after);
    MembersServed(q, before, after);
    UserMissed(s, g, after);
    WrongNotFoundIff(q, h, after, [0], 0);
    JoinsAlike(after, Asked(s, 0, g), s.with[0].value);
  }
}
