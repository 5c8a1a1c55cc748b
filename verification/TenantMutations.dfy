/** The mutation object of a tenant, the update and create builders that lower it, and what a save leaves in
    the store in terms of the calls made on the mutation. */
module TenantMutations {
  import opened Schema
  import opened EdgeHistory
  import opened SelectedFields

  datatype TenantEdge = TenantUsers | PluginInstalls | Branches

  /** One value for each edge: the mutation has a field of its own for each. */
  datatype PerEdge<T> = PerEdge(tenantUsers: T, pluginInstalls: T, branches: T) {
    function At(e: TenantEdge): T {
      match e
      case TenantUsers => tenantUsers
      case PluginInstalls => pluginInstalls
      case Branches => branches
    }

    function With(e: TenantEdge, v: T): PerEdge<T> {
      match e
      case TenantUsers => this.(tenantUsers := v)
      case PluginInstalls => this.(pluginInstalls := v)
      case Branches => this.(branches := v)
    }
  }

  datatype Error =
    | UnknownField(c: Col)
    | UnexpectedType(c: Col)
    | Missing(c: Col)
    | InvalidField(c: Col)
    | NotFound
    | Driver

  const FIELDS := {Slug, Name, Plan, Status, SchemaName}

  /** The fields update builders send to the store. */
  const UPDATABLE := {Name, Plan, Status}

  /** What a mutation holds. A pointer field that is nil is absent from `values`. */
  datatype State = State(id: Option<Id>, values: map<Col, string>, edges: PerEdge<Pending>, done: bool)

  ghost function New(id: Option<Id>): (s: State)
  {
    State(id, map[], PerEdge(UNTOUCHED, UNTOUCHED, UNTOUCHED), false)
  }

  datatype Call = SetID(id: Id) | SetField(c: Col, v: Value) | ResetField(c: Col)
    | OnEdge(e: TenantEdge, call: EdgeCall)

  ghost function After(s: State, c: Call): (r: State)
  {
    match c
    case SetID(id) => s.(id := Some(id))
    case SetField(c, v) => if c in FIELDS && v.Str? then s.(values := s.values[c := v.s]) else s
    case ResetField(c) => s.(values := s.values - {c})
    case OnEdge(e, call) => s.(edges := s.edges.With(e, Step(s.edges.At(e), call)))
  }

  ghost function AfterAll(s: State, calls: seq<Call>): (r: State)
  {
    if calls == [] then s else After(AfterAll(s, calls[..|calls|-1]), calls[|calls|-1])
  }

  class TenantMutation {
    var id: Option<Id>
    var values: map<Col, string>
    var edges: PerEdge<Pending>
    var done: bool

    ghost predicate Valid()
      reads this
    {
      values.Keys <= FIELDS
    }

    ghost function Contents(): State
      reads this
    {
      State(id, values, edges, done)
    }

    constructor (id: Option<Id>)
      ensures Valid() && Contents() == New(id)
    {
      this.id := id;
      values := map[];
      edges := PerEdge(UNTOUCHED, UNTOUCHED, UNTOUCHED);
      done := false;
    }

    method SetID(x: Id)
      requires Valid()
      modifies `id
      ensures Valid() && Contents() == After(old(Contents()), Call.SetID(x))
    {
      id := Some(x);
    }

    method SetField(c: Col, v: Value) returns (r: Result<(), Error>)
      requires Valid()
      modifies `values
      ensures Valid() && Contents() == After(old(Contents()), Call.SetField(c, v))
      ensures r == if c !in FIELDS then Err(UnknownField(c)) else if !v.Str? then Err(UnexpectedType(c)) else Ok(())
    {
      if c !in FIELDS {
        return Err(UnknownField(c));
      }
      if !v.Str? {
        return Err(UnexpectedType(c));
      }
      values := values[c := v.s];
      return Ok(());
    }

    method ResetField(c: Col) returns (r: Result<(), Error>)
      requires Valid()
      modifies `values
      ensures Valid() && Contents() == After(old(Contents()), Call.ResetField(c))
      ensures r == if c in FIELDS then Ok(()) else Err(UnknownField(c))
    {
      if c !in FIELDS {
        assert values - {c} == values;
        return Err(UnknownField(c));
      }
      values := values - {c};
      return Ok(());
    }

    method AddIDs(e: TenantEdge, ids: seq<Id>)
      requires Valid()
      modifies `edges
      ensures Valid() && Contents() == After(old(Contents()), OnEdge(e, Add(ids)))
    {
      var p := edges.At(e);
      if p.added.None? {
        edges := edges.With(e, p.(added := Some({})));
      }
      assert SetOf(ids[..0]) == {} && Members(p.added) + {} == Members(p.added);
      for i := 0 to |ids|
        invariant Valid()
        invariant edges == old(edges).With(e, p.(added := Some(Members(p.added) + SetOf(ids[..i]))))
      {
        assert Members(p.added) + SetOf(ids[..i+1]) == Members(p.added) + SetOf(ids[..i]) + {ids[i]};
        edges := edges.With(e, edges.At(e).(added := Some(edges.At(e).added.value + {ids[i]})));
      }
      assert ids[..|ids|] == ids;
    }

    method RemoveIDs(e: TenantEdge, ids: seq<Id>)
      requires Valid()
      modifies `edges
      ensures Valid() && Contents() == After(old(Contents()), OnEdge(e, Remove(ids)))
    {
      var p := edges.At(e);
      if p.removed.None? {
        edges := edges.With(e, p.(removed := Some({})));
      }
      assert SetOf(ids[..0]) == {} && Members(p.removed) + {} == Members(p.removed);
      assert p.added.Some? ==> p.added.value - {} == p.added.value;
      for i := 0 to |ids|
        invariant Valid()
        invariant edges == old(edges).With(e, p.(
          added := if p.added.Some? then Some(p.added.value - SetOf(ids[..i])) else None,
          removed := Some(Members(p.removed) + SetOf(ids[..i]))))
      {
        var q := edges.At(e);
        assert Members(p.removed) + SetOf(ids[..i+1]) == Members(p.removed) + SetOf(ids[..i]) + {ids[i]};
        assert p.added.Some? ==> p.added.value - SetOf(ids[..i+1]) == p.added.value - SetOf(ids[..i]) - {ids[i]};
        edges := edges.With(e, q.(added := if q.added.Some? then Some(q.added.value - {ids[i]}) else None,
                                  removed := Some(q.removed.value + {ids[i]})));
      }
      assert ids[..|ids|] == ids;
    }

    method ClearEdge(e: TenantEdge)
      requires Valid()
      modifies `edges
      ensures Valid() && Contents() == After(old(Contents()), OnEdge(e, Clear))
    {
      edges := edges.With(e, edges.At(e).(cleared := true));
    }

    method ResetEdge(e: TenantEdge)
      requires Valid()
      modifies `edges
      ensures Valid() && Contents() == After(old(Contents()), OnEdge(e, Reset))
    {
      edges := edges.With(e, UNTOUCHED);
    }

    /** The names of the edges with pending additions, in the order of the schema. */
    method AddedEdges() returns (es: seq<TenantEdge>)
      requires Valid()
      ensures forall e :: e in es <==> edges.At(e).added.Some?
      ensures forall i, j :: 0 <= i < j < |es| ==> es[i] != es[j]
    {
      es := [];
      if edges.tenantUsers.added.Some? { es := es + [TenantUsers]; }
      if edges.pluginInstalls.added.Some? { es := es + [PluginInstalls]; }
      if edges.branches.added.Some? { es := es + [Branches]; }
      assert TenantUsers in es <==> edges.tenantUsers.added.Some?;
      assert PluginInstalls in es <==> edges.pluginInstalls.added.Some?;
      assert Branches in es <==> edges.branches.added.Some?;
    }
  }

  // ----- The table of tenants -----

  /** A stored tenant: its columns other than the id, and the ids linked over each edge. */
  datatype Stored = Stored(values: map<Col, string>, links: PerEdge<set<Id>>)

  datatype UpdateSpec = UpdateSpec(sets: map<Col, string>, clear: seq<EdgeSpec<TenantEdge>>,
      add: seq<EdgeSpec<TenantEdge>>)

  /** The value for each edge. */
  function Each<T>(f: TenantEdge -> T): PerEdge<T> {
    PerEdge(f(TenantUsers), f(PluginInstalls), f(Branches))
  }

  /** The store's contract for one row of an accepted update. */
  function Updated(r: Stored, spec: UpdateSpec): Stored {
    Stored(r.values + spec.sets, Each(e => Applied(r.links.At(e), e, spec.clear, spec.add)))
  }

  class Table {
    var rows: map<Id, Stored>

    /** Apply an update to the rows it matches; when the store refuses, nothing changes. */
    method Update(ids: set<Id>, spec: UpdateSpec, accepted: bool) returns (r: Result<nat, Error>)
      requires ids <= rows.Keys
      modifies this
      ensures accepted ==>
        && r == Ok(|ids|)
        && rows == map x | x in old(rows) :: if x in ids then Updated(old(rows)[x], spec) else old(rows)[x]
      ensures !accepted ==> r == Err(Driver) && rows == old(rows)
    {
      if !accepted {
        return Err(Driver);
      }
      rows := map x | x in rows :: if x in ids then Updated(rows[x], spec) else rows[x];
      return Ok(|ids|);
    }

    /** Insert a new row; the store refuses a missing or used primary key. */
    method Insert(id: Option<Id>, row: Stored, accepted: bool) returns (r: Result<(), Error>)
      modifies this
      ensures r == if accepted && id.Some? && id.value !in old(rows) then Ok(()) else Err(Driver)
      ensures rows == if r.Ok? then old(rows)[id.value := row] else old(rows)
    {
      if !accepted || id.None? || id.value in rows {
        return Err(Driver);
      }
      rows := rows[id.value := row];
      return Ok(());
    }
  }

  // ----- Saving -----

  /** One row after a mutation was saved over it. */
  ghost function SavedRow(r: Stored, s: State): Stored
  {
    Stored(r.values + (map c | c in s.values && c in UPDATABLE :: s.values[c]),
           Each(e => Outcome(s.edges.At(e), r.links.At(e))))
  }

  ghost function SavedRows(rows: map<Id, Stored>, ids: set<Id>, s: State): map<Id, Stored>
  {
    map x | x in rows :: if x in ids then SavedRow(rows[x], s) else rows[x]
  }

  /** The row a create builder inserts. */
  ghost function CreatedRow(s: State): Stored
  {
    Stored(s.values, Each(e => Members(s.edges.At(e).added)))
  }

  /** The blocks of two further edges leave an edge as its own block left it. */
  lemma ThreeBlocks(S: PerEdge<set<Id>>, edges: PerEdge<Pending>,
      c1: seq<EdgeSpec<TenantEdge>>, a1: seq<EdgeSpec<TenantEdge>>,
      c2: seq<EdgeSpec<TenantEdge>>, a2: seq<EdgeSpec<TenantEdge>>,
      c3: seq<EdgeSpec<TenantEdge>>, a3: seq<EdgeSpec<TenantEdge>>, e: TenantEdge)
    requires Lowered(TenantUsers, edges.tenantUsers, [], [], c1, a1)
    requires Lowered(PluginInstalls, edges.pluginInstalls, c1, a1, c2, a2)
    requires Lowered(Branches, edges.branches, c2, a2, c3, a3)
    ensures Applied(S.At(e), e, c3, a3) == Outcome(edges.At(e), S.At(e))
  {
    var r1, d1 :| ListsIds(r1, edges.tenantUsers.removed) && ListsIds(d1, edges.tenantUsers.added)
      && c1 == [] + LoweredClear(TenantUsers, edges.tenantUsers, r1) && a1 == [] + LoweredAdd(TenantUsers, d1);
    BlockEffect(S.At(e), e, TenantUsers, edges.tenantUsers, [], [], r1, d1);
    var r2, d2 :| ListsIds(r2, edges.pluginInstalls.removed) && ListsIds(d2, edges.pluginInstalls.added)
      && c2 == c1 + LoweredClear(PluginInstalls, edges.pluginInstalls, r2) && a2 == a1 + LoweredAdd(PluginInstalls, d2);
    BlockEffect(S.At(e), e, PluginInstalls, edges.pluginInstalls, c1, a1, r2, d2);
    var r3, d3 :| ListsIds(r3, edges.branches.removed) && ListsIds(d3, edges.branches.added)
      && c3 == c2 + LoweredClear(Branches, edges.branches, r3) && a3 == a2 + LoweredAdd(Branches, d3);
    BlockEffect(S.At(e), e, Branches, edges.branches, c2, a2, r3, d3);
  }

  /** Appending the block of edge d to a spec changes what the spec does to edge d only. */
  lemma BlockEffect(S: set<Id>, e: TenantEdge, d: TenantEdge, p: Pending, c: seq<EdgeSpec<TenantEdge>>,
      a: seq<EdgeSpec<TenantEdge>>, removed: seq<Id>, added: seq<Id>)
    requires ListsIds(removed, p.removed) && ListsIds(added, p.added)
    ensures var c', a' := c + LoweredClear(d, p, removed), a + LoweredAdd(d, added);
      && ClearAll(S, e, c') == (if e != d then ClearAll(S, e, c) else if p.cleared then {}
        else ClearAll(S, e, c) - Members(p.removed))
      && forall T :: AddAll(T, e, a') == if e != d then AddAll(T, e, a) else AddAll(T, e, a) + Members(p.added)
  {
    ClearConcat(S, e, c, LoweredClear(d, p, removed));
    LoweredEffect(ClearAll(S, e, c), S, e, d, p, removed, added);
    forall T ensures AddAll(T, e, a + LoweredAdd(d, added)) == if e != d then AddAll(T, e, a)
      else AddAll(T, e, a) + Members(p.added) {
      AddConcat(T, e, a, LoweredAdd(d, added));
      LoweredEffect(S, AddAll(T, e, a), e, d, p, removed, added);
    }
  }

  lemma LoweredRow(r: Stored, s: State, spec: UpdateSpec,
      c1: seq<EdgeSpec<TenantEdge>>, a1: seq<EdgeSpec<TenantEdge>>, c2: seq<EdgeSpec<TenantEdge>>,
        a2: seq<EdgeSpec<TenantEdge>>)
    requires spec.sets == map c | c in s.values && c in UPDATABLE :: s.values[c]
    requires Lowered(TenantUsers, s.edges.tenantUsers, [], [], c1, a1)
    requires Lowered(PluginInstalls, s.edges.pluginInstalls, c1, a1, c2, a2)
    requires Lowered(Branches, s.edges.branches, c2, a2, spec.clear, spec.add)
    ensures Updated(r, spec) == SavedRow(r, s)
  {
    hide Applied, Outcome, Lowered, LoweredClear, LoweredAdd, ClearAll, AddAll, ListsIds;
    forall e: TenantEdge ensures Applied(r.links.At(e), e, spec.clear, spec.add) ==
      Outcome(s.edges.At(e), r.links.At(e)) {
      ThreeBlocks(r.links, s.edges, c1, a1, c2, a2, spec.clear, spec.add, e);
    }
    assert Updated(r, spec).links == SavedRow(r, s).links;
  }

  /** The fields an update sends: name, plan and status, each when the mutation sets it. */
  method SetsOf(values: map<Col, string>) returns (sets: map<Col, string>)
    ensures sets == map c | c in values && c in UPDATABLE :: values[c]
  {
    sets := map[];
    if Name in values { sets := sets[Name := values[Name]]; }
    if Plan in values { sets := sets[Plan := values[Plan]]; }
    if Status in values { sets := sets[Status := values[Status]]; }
  }

  /** Lower a mutation to an update spec. */
  method Lower(m: TenantMutation) returns (spec: UpdateSpec)
    requires m.Valid()
    ensures forall r: Stored :: Updated(r, spec) == SavedRow(r, m.Contents())
  {
    hide Updated, SavedRow, Lowered, ListsIds;
    var sets := SetsOf(m.values);
    var c1, a1 := LowerEdge(TenantUsers, m.edges.tenantUsers, [], []);
    var c2, a2 := LowerEdge(PluginInstalls, m.edges.pluginInstalls, c1, a1);
    var c3, a3 := LowerEdge(Branches, m.edges.branches, c2, a2);
    spec := UpdateSpec(sets, c3, a3);
    forall r: Stored ensures Updated(r, spec) == SavedRow(r, m.Contents()) {
      LoweredRow(r, m.Contents(), spec, c1, a1, c2, a2);
    }
  }

  /** Save of the builder that updates every matching tenant. */
  method UpdateMany(t: Table, m: TenantMutation, matching: set<Id>, accepted: bool) returns (r: Result<nat, Error>)
    requires m.Valid() && matching <= t.rows.Keys
    modifies t, m`done
    ensures m.Valid()
    ensures r == if accepted then Ok(|matching|) else Err(Driver)
    ensures t.rows == if r.Ok? then SavedRows(old(t.rows), matching, old(m.Contents())) else old(t.rows)
    ensures m.Contents() == old(m.Contents()).(done := r.Ok? || old(m.done))
  {
    var spec := Lower(m);
    r := t.Update(matching, spec, accepted);
    if r.Err? {
      return;
    }
    m.done := true;
  }

  /** What an update of one tenant reports when it fails. */
  function UpdateError(id: Option<Id>, fields: seq<Col>, matching: set<Id>): Error {
    if id.None? then Missing(ID)
    else if FirstUnknown(fields, Columns(Tenant)).Some? then InvalidField(FirstUnknown(fields, Columns(Tenant)).value)
    else if id.value !in matching then NotFound else Driver
  }

  /** A missing id comes first, then a selected name that is no column, then a tenant that does not match. */
  lemma UpdateErrorIs(id: Option<Id>, fields: seq<Col>, matching: set<Id>)
    ensures var e, known := UpdateError(id, fields, matching), forall c :: c in fields ==> c in Columns(Tenant);
      && (id.None? ==> e == Missing(ID))
      && (id.Some? && !known ==> e.InvalidField? && IsFirstUnknown(fields, Columns(Tenant), e.c))
      && (id.Some? && known && id.value !in matching ==> e == NotFound)
      && (id.Some? && known && id.value in matching ==> e == Driver)
  {
    FirstUnknownIs(fields, Columns(Tenant));
  }

  /** Save of the builder that updates one tenant and returns its selected columns. */
  method UpdateOne(t: Table, m: TenantMutation, fields: seq<Col>, matching: set<Id>, accepted: bool)
    returns (r: Result<(Id, map<Col, string>), Error>)
    requires m.Valid() && matching <= t.rows.Keys
    modifies t, m`done
    ensures m.Valid()
    ensures r.Err? ==> t.rows == old(t.rows) && m.Contents() == old(m.Contents())
    ensures r.Ok? ==>
      && m.id.Some? && m.id.value in matching && r.value.0 == m.id.value
      && t.rows == SavedRows(old(t.rows), {m.id.value}, old(m.Contents()))
      && m.Contents() == old(m.Contents()).(done := true)
      && r.value.1 == map c | c in t.rows[m.id.value].values
        && c in Returned(fields, Columns(Tenant)) :: t.rows[m.id.value].values[c]
    ensures r.Err? ==> r.error == UpdateError(m.id, fields, matching)
    ensures r.Ok? <==> m.id.Some? && FirstUnknown(fields, Columns(Tenant)).None? && m.id.value in matching && accepted
  {
    if m.id.None? {
      return Err(Missing(ID));
    }
    var columns := ReturnedColumns(fields, Columns(Tenant));
    if columns.Err? {
      return Err(InvalidField(columns.error));
    }
    var spec := Lower(m);
    if m.id.value !in matching {
      return Err(NotFound);
    }
    var n := t.Update({m.id.value}, spec, accepted);
    if n.Err? {
      return Err(n.error);
    }
    m.done := true;
    var row := t.rows[m.id.value].values;
    return Ok((m.id.value, map c | c in row && c in columns.value :: row[c]));
  }

  /** A created row has the five columns, each with the value set for it or, for plan and status, the default, and no
      other column. */
  ghost predicate HasColumns(row: Stored, given: map<Col, string>, plan: string, status: string) {
    && (forall c :: c in row.values <==> c == Slug || c == Name || c == Plan || c == Status || c == SchemaName)
    && (forall c :: c in row.values && c in given ==> row.values[c] == given[c])
    && (Plan !in given ==> row.values[Plan] == plan)
    && (Status !in given ==> row.values[Status] == status)
  }

  /** The fields that a create demands, in the order in which it checks them. */
  const REQUIRED := [Slug, Name, Plan, Status, SchemaName]

  function FirstUnset(values: map<Col, string>): Option<Col> {
    if Slug !in values then Some(Slug)
    else if Name !in values then Some(Name)
    else if Plan !in values then Some(Plan)
    else if Status !in values then Some(Status)
    else if SchemaName !in values then Some(SchemaName)
    else None
  }

  /** It is the first of them that is not set. */
  lemma FirstUnsetIs(values: map<Col, string>)
    ensures FirstUnset(values).None? <==> forall i :: 0 <= i < |REQUIRED| ==> REQUIRED[i] in values
    ensures FirstUnset(values).Some? ==> exists i ::
      && 0 <= i < |REQUIRED| && FirstUnset(values) == Some(REQUIRED[i]) && REQUIRED[i] !in values
      && forall j :: 0 <= j < i ==> REQUIRED[j] in values
  {
    if REQUIRED[0] !in values {
    } else if REQUIRED[1] !in values {
    } else if REQUIRED[2] !in values {
    } else if REQUIRED[3] !in values {
    } else if REQUIRED[4] !in values {
    }
  }

  /** The check of the create builder: every field must be set. */
  method Check(values: map<Col, string>) returns (e: Option<Error>)
    ensures e.None? <==> FIELDS <= values.Keys
    ensures e.Some? ==> e.value.Missing? && e.value.c in FIELDS && e.value.c !in values
    ensures e == if FirstUnset(values).Some? then Some(Missing(FirstUnset(values).value)) else None
  {
    if Slug !in values { return Some(Missing(Slug)); }
    if Name !in values { return Some(Missing(Name)); }
    if Plan !in values { return Some(Missing(Plan)); }
    if Status !in values { return Some(Missing(Status)); }
    if SchemaName !in values { return Some(Missing(SchemaName)); }
    return None;
  }

  /** Save of the create builder: the default plan and status are filled in first. */
  method Create(t: Table, m: TenantMutation, plan: string, status: string, accepted: bool)
      returns (r: Result<Id, Error>)
    requires m.Valid()
    modifies t, m`values, m`done
    ensures m.Valid()
    ensures m.id == old(m.id) && m.edges == old(m.edges)
      && m.values == map[Plan := plan, Status := status] + old(m.values)
    ensures r.Ok? ==> m.id == Some(r.value) && m.done && r.value !in old(t.rows)
    ensures r.Ok? ==> t.rows == old(t.rows)[r.value := CreatedRow(m.Contents())] && FIELDS <= m.values.Keys
    ensures r.Ok? ==> HasColumns(t.rows[r.value], old(m.values), plan, status)
    ensures r.Err? ==> t.rows == old(t.rows) && m.done == old(m.done)
    ensures r.Err? ==> r.error == (if FirstUnset(m.values).Some? then Missing(FirstUnset(m.values).value) else Driver)
    ensures r.Ok? <==>
      accepted && m.id.Some? && m.id.value !in old(t.rows) && {Slug, Name, SchemaName} <= old(m.values).Keys
  {
    hide HasColumns, CreatedRow;
    Defaults(m, plan, status);
    var missing := Check(m.values);
    if missing.Some? {
      return Err(missing.value);
    }
    var row := Described(m);
    var done := t.Insert(m.id, row, accepted);
    if done.Err? {
      return Err(done.error);
    }
    DoneAside(m.Contents());
    m.done := true;
    CreatedColumns(old(m.values), plan, status, t.rows[m.id.value]);
    return Ok(m.id.value);
  }

  lemma DoneAside(s: State)
    ensures CreatedRow(s.(done := true)) == CreatedRow(s)
  {
  }

  /** Fill in the default plan and status where none is set. */
  method Defaults(m: TenantMutation, plan: string, status: string)
    requires m.Valid()
    modifies m`values
    ensures m.Valid() && m.values == map[Plan := plan, Status := status] + old(m.values)
  {
    if Plan !in m.values { m.values := m.values[Plan := plan]; }
    if Status !in m.values { m.values := m.values[Status := status]; }
  }

  /** The row that the create spec of a mutation describes. */
  method Described(m: TenantMutation) returns (row: Stored)
    ensures row == CreatedRow(m.Contents()) && row.values == m.values
  {
    var links := PerEdge(Members(m.edges.tenantUsers.added), Members(m.edges.pluginInstalls.added),
                         Members(m.edges.branches.added));
    assert links == CreatedRow(m.Contents()).links;
    return Stored(m.values, links);
  }

  lemma CreatedColumns(given: map<Col, string>, plan: string, status: string, row: Stored)
    requires row.values == map[Plan := plan, Status := status] + given && row.values.Keys == FIELDS
    ensures HasColumns(row, given, plan, status)
  {
  }

  // ----- The saved result agrees with the calls -----

  /** The calls made on one edge. */
  function CallsOn(e: TenantEdge, calls: seq<Call>): seq<EdgeCall> {
    if calls == [] then []
    else var before, c := CallsOn(e, calls[..|calls|-1]), calls[|calls|-1];
      if c.OnEdge? && c.e == e then before + [c.call] else before
  }

  /** The last value set on a field since it was last reset. */
  function LastSet(c: Col, calls: seq<Call>): Option<string> {
    if calls == [] then None
    else match calls[|calls|-1]
      case SetField(d, v) => if d == c && v.Str? then Some(v.s) else LastSet(c, calls[..|calls|-1])
      case ResetField(d) => if d == c then None else LastSet(c, calls[..|calls|-1])
      case _ => LastSet(c, calls[..|calls|-1])
  }

  /** It is the value of a Set that no Set and no Reset of the field follows. */
  lemma {:induction false} LastSetMeans(c: Col, calls: seq<Call>, v: string)
    ensures LastSet(c, calls) == Some(v) <==> exists i :: 0 <= i < |calls| && SetsLast(c, calls, v, i)
  {
    if calls != [] {
      hide SetsLast;
      var n := |calls| - 1;
      LastSetMeans(c, calls[..n], v);
      forall i | 0 <= i < |calls|
        ensures SetsLast(c, calls, v, i) <==>
          if i == n then calls[n] == SetField(c, Str(v)) else !Touches(calls[n], c) && SetsLast(c, calls[..n], v, i)
      {
        SetsLastSnoc(c, calls, v, i);
      }
      assert SetsLast(c, calls, v, n) <==> calls[n] == SetField(c, Str(v));
    }
  }

  predicate Touches(o: Call, c: Col) {
    (o.SetField? && o.c == c && o.v.Str?) || o == ResetField(c)
  }

  ghost predicate SetsLast(c: Col, calls: seq<Call>, v: string, i: nat)
    requires i < |calls|
  {
    calls[i] == SetField(c, Str(v)) && forall j :: i < j < |calls| ==> !Touches(calls[j], c)
  }

  lemma SetsLastSnoc(c: Col, calls: seq<Call>, v: string, i: nat)
    requires i < |calls|
    ensures var n := |calls| - 1;
      SetsLast(c, calls, v, i) <==>
        if i == n then calls[n] == SetField(c, Str(v)) else !Touches(calls[n], c) && SetsLast(c, calls[..n], v, i)
  {
    var n := |calls| - 1;
    assert forall j :: 0 <= j < n ==> calls[..n][j] == calls[j];
  }

  /** The id set last, or the one the mutation was made with. */
  function LastID(id: Option<Id>, calls: seq<Call>): Option<Id> {
    if calls == [] then id
    else if calls[|calls|-1].SetID? then Some(calls[|calls|-1].id)
    else LastID(id, calls[..|calls|-1])
  }

  lemma {:induction false} IDOfCalls(id: Option<Id>, calls: seq<Call>)
    ensures AfterAll(New(id), calls).id == LastID(id, calls)
  {
    if calls != [] {
      IDOfCalls(id, calls[..|calls|-1]);
    }
  }

  /** An edge of the mutation depends on the calls on that edge alone. */
  lemma {:induction false} EdgeOfCalls(id: Option<Id>, calls: seq<Call>, e: TenantEdge)
    ensures AfterAll(New(id), calls).edges.At(e) == Play(CallsOn(e, calls))
  {
    hide Step;
    if calls != [] {
      EdgeOfCalls(id, calls[..|calls|-1], e);
      CallsOnSnoc(e, calls);
    }
  }

  lemma CallsOnSnoc(e: TenantEdge, calls: seq<Call>)
    requires calls != []
    ensures var before, last := CallsOn(e, calls[..|calls|-1]), calls[|calls|-1];
      Play(CallsOn(e, calls)) == if last.OnEdge? && last.e == e then Step(Play(before), last.call) else Play(before)
  {
    var before, last := CallsOn(e, calls[..|calls|-1]), calls[|calls|-1];
    if last.OnEdge? && last.e == e {
      assert (before + [last.call])[..|before|] == before;
    }
  }

  /** A field of the mutation depends on the calls on that field alone. */
  lemma {:induction false} FieldOfCalls(id: Option<Id>, calls: seq<Call>, c: Col)
    ensures var s := AfterAll(New(id), calls);
      && (c in FIELDS ==> (if c in s.values then Some(s.values[c]) else None) == LastSet(c, calls))
      && (c !in FIELDS ==> c !in s.values)
  {
    if calls != [] {
      FieldOfCalls(id, calls[..|calls|-1], c);
    }
  }

  /** Saving after any sequence of calls links, over each edge, exactly the ids the calls on that edge ask
      for, and stores the last values set on name, plan and status and no other column. */
  lemma SaveFollowsCalls(r: Stored, id: Option<Id>, calls: seq<Call>, e: TenantEdge, c: Col)
    ensures var saved := SavedRow(r, AfterAll(New(id), calls));
      && (forall x :: x in saved.links.At(e) <==> Linked(CallsOn(e, calls), r.links.At(e), x))
      && (c in UPDATABLE && LastSet(c, calls).Some? ==> c in saved.values && saved.values[c] == LastSet(c, calls).value)
      && (c !in UPDATABLE || LastSet(c, calls).None? ==>
        (c in saved.values <==> c in r.values) && (c in r.values ==> saved.values[c] == r.values[c]))
  {
    EdgeOfCalls(id, calls, e);
    FieldOfCalls(id, calls, c);
    OutcomeMeans(CallsOn(e, calls), r.links.At(e));
  }

  /** A created tenant is linked to the ids whose last Add or Remove since the last Reset was an Add;
      removals and clears play no further part. */
  lemma CreateFollowsCalls(id: Option<Id>, calls: seq<Call>, e: TenantEdge, x: Id)
    ensures x in CreatedRow(AfterAll(New(id), calls)).links.At(e) <==> LastTouch(CallsOn(e, calls), x) == Some(true)
  {
    EdgeOfCalls(id, calls, e);
    PendingMeans(CallsOn(e, calls), x);
  }

  /** The mutation names an edge as added iff an Add call, be it an empty one, followed the last Reset of
      that edge. */
  lemma AddedEdgesFollowCalls(id: Option<Id>, calls: seq<Call>, e: TenantEdge)
    ensures AfterAll(New(id), calls).edges.At(e).added.Some? <==> AddedSinceReset(CallsOn(e, calls))
  {
    EdgeOfCalls(id, calls, e);
    PendingMeans(CallsOn(e, calls), "");
  }

  /** Make a sequence of calls on the object. */
  method Perform(m: TenantMutation, calls: seq<Call>)
    requires m.Valid()
    modifies m
    ensures m.Valid() && m.Contents() == AfterAll(old(m.Contents()), calls)
  {
    hide After;
    for i := 0 to |calls|
      invariant m.Valid() && m.Contents() == AfterAll(old(m.Contents()), calls[..i])
    {
      assert calls[..i+1][..i] == calls[..i];
      match calls[i]
      case SetID(x) => m.SetID(x);
      case SetField(c, v) => var _ := m.SetField(c, v);
      case ResetField(c) => var _ := m.ResetField(c);
      case OnEdge(e, call) =>
        match call
        case Add(ids) => m.AddIDs(e, ids);
        case Remove(ids) => m.RemoveIDs(e, ids);
        case Clear => m.ClearEdge(e);
        case Reset => m.ResetEdge(e);
    }
    assert calls[..|calls|] == calls;
  }

  /** Row `after` is row `before` with the links and the columns that the calls ask for. */
  ghost predicate AsAsked(calls: seq<Call>, before: Stored, after: Stored) {
    && (forall e: TenantEdge, y :: y in after.links.At(e) <==> Linked(CallsOn(e, calls), before.links.At(e), y))
    && (forall c: Col :: c in UPDATABLE && LastSet(c, calls).Some? ==>
         c in after.values && after.values[c] == LastSet(c, calls).value)
    && (forall c: Col :: c !in UPDATABLE || LastSet(c, calls).None? ==>
         (c in after.values <==> c in before.values) && (c in before.values ==> after.values[c] == before.values[c]))
  }

  /** An update builder from first call to save: when the store accepts, every matching tenant is left with
      exactly the links and columns the calls ask for, and every other tenant is untouched; when it refuses,
      all are. */
  method UpdateBy(t: Table, calls: seq<Call>, matching: set<Id>, accepted: bool) returns (r: Result<nat, Error>)
    requires matching <= t.rows.Keys
    modifies t
    ensures r == if accepted then Ok(|matching|) else Err(Driver)
    ensures t.rows.Keys == old(t.rows).Keys
    ensures forall x :: x in t.rows ==>
      if accepted && x in matching then AsAsked(calls, old(t.rows)[x], t.rows[x]) else t.rows[x] == old(t.rows)[x]
  {
    hide AfterAll, Linked, Outcome;
    var m := new TenantMutation(None);
    Perform(m, calls);
    r := UpdateMany(t, m, matching, accepted);
    forall x | x in matching && accepted ensures AsAsked(calls, old(t.rows)[x], t.rows[x]) {
      SavedAsAsked(old(t.rows)[x], calls);
    }
  }

  /** A new tenant as the calls on its builder ask for it: each of the five columns holds the value set last, or the
      default plan or status, there is no other column, and the tenant is linked to the ids whose last touch since
      the last Reset was an Add. */
  ghost predicate MadeAsAsked(calls: seq<Call>, plan: string, status: string, row: Stored) {
    && (forall c: Col :: c in row.values <==> c == Slug || c == Name || c == Plan || c == Status || c == SchemaName)
    && (forall c: Col :: c in row.values && LastSet(c, calls).Some? ==> row.values[c] == LastSet(c, calls).value)
    && (LastSet(Plan, calls).None? ==> row.values[Plan] == plan)
    && (LastSet(Status, calls).None? ==> row.values[Status] == status)
    && (forall e: TenantEdge, y :: y in row.links.At(e) <==> LastTouch(CallsOn(e, calls), y) == Some(true))
  }

  /** A create builder from first call to save. */
  method CreateBy(t: Table, id: Option<Id>, calls: seq<Call>, plan: string, status: string, accepted: bool)
      returns (r: Result<Id, Error>)
    modifies t
    ensures r.Ok? <==>
      && accepted && LastID(id, calls).Some? && LastID(id, calls).value !in old(t.rows)
      && LastSet(Slug, calls).Some? && LastSet(Name, calls).Some? && LastSet(SchemaName, calls).Some?
    ensures r.Ok? ==>
      && LastID(id, calls) == Some(r.value) && t.rows.Keys == old(t.rows).Keys + {r.value}
      && MadeAsAsked(calls, plan, status, t.rows[r.value])
    ensures forall x :: x in old(t.rows) ==> x in t.rows && t.rows[x] == old(t.rows)[x]
    ensures r.Err? ==> t.rows == old(t.rows)
  {
    hide AfterAll, LastTouch, CallsOn, LastSet, HasColumns, CreatedRow, MadeAsAsked;
    var m := new TenantMutation(id);
    Perform(m, calls);
    IDOfCalls(id, calls);
    FieldOfCalls(id, calls, Slug);
    FieldOfCalls(id, calls, Name);
    FieldOfCalls(id, calls, SchemaName);
    ghost var s := m.Contents();
    r := Create(t, m, plan, status, accepted);
    if r.Ok? {
      MadeByCalls(id, calls, plan, status, t.rows[r.value], m.Contents());
    }
  }

  lemma MadeByCalls(id: Option<Id>, calls: seq<Call>, plan: string, status: string, row: Stored, s: State)
    requires s.edges == AfterAll(New(id), calls).edges && row == CreatedRow(s)
    requires HasColumns(row, AfterAll(New(id), calls).values, plan, status)
    ensures MadeAsAsked(calls, plan, status, row)
  {
    hide AfterAll, LastTouch, CallsOn, LastSet;
    forall c {
      FieldOfCalls(id, calls, c);
    }
    forall e: TenantEdge, y ensures y in row.links.At(e) <==> LastTouch(CallsOn(e, calls), y) == Some(true) {
      assert row.links.At(e) == CreatedRow(AfterAll(New(id), calls)).links.At(e);
      CreateFollowsCalls(id, calls, e, y);
    }
  }

  lemma SavedAsAsked(r: Stored, calls: seq<Call>)
    ensures AsAsked(calls, r, SavedRow(r, AfterAll(New(None), calls)))
  {
    hide SavedRow, AfterAll, Linked, LastSet;
    var after := SavedRow(r, AfterAll(New(None), calls));
    forall e: TenantEdge, y ensures y in after.links.At(e) <==> Linked(CallsOn(e, calls), r.links.At(e), y) {
      SaveFollowsCalls(r, None, calls, e, Name);
    }
    forall c: Col
      ensures c in UPDATABLE && LastSet(c, calls).Some? ==>
        c in after.values && after.values[c] == LastSet(c, calls).value
      ensures c !in UPDATABLE || LastSet(c, calls).None? ==>
        (c in after.values <==> c in r.values) && (c in r.values ==> after.values[c] == r.values[c])
    {
      SaveFollowsCalls(r, None, calls, TenantUsers, c);
    }
  }

  // ----- Whole runs -----

  /** A save of a mutation, whatever it holds, that the store accepted. */
  datatype Saving = Updating(ids: set<Id>, state: State) | Creating(id: Id, state: State)

  ghost function RunSaves(rows: map<Id, Stored>, run: seq<Saving>): map<Id, Stored>
    decreases |run|
  {
    if run == [] then rows
    else
      var before := RunSaves(rows, run[..|run|-1]);
      match run[|run|-1]
      case Updating(ids, s) => SavedRows(before, ids, s)
      case Creating(x, s) => if x in before then before else before[x := CreatedRow(s)]
  }

  /** No run of creates and updates changes a column that updates do not send, the slug and the schema name
      among them, of a tenant that exists. */
  lemma {:induction false} ImmutableColumns(rows: map<Id, Stored>, run: seq<Saving>, x: Id, c: Col)
    requires x in rows && c !in UPDATABLE
    ensures var after := RunSaves(rows, run);
      && x in after && (c in after[x].values <==> c in rows[x].values)
      && (c in rows[x].values ==> after[x].values[c] == rows[x].values[c])
  {
    if run != [] {
      ImmutableColumns(rows, run[..|run|-1], x, c);
    }
  }
}
