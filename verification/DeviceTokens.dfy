/** Device tokens: the mutation with its nullable fields, the builders that lower it, and the entity that
    reads a stored row back. */
module DeviceTokens {
  import opened Schema
  import opened SelectedFields

  const COLUMNS := [ID, TokenHash, UserID, TenantID, BranchID, DeviceName, CreatedAt, LastUsedAt, RevokedAt]

  predicate IsString(c: Col) {
    c.ID? || c.TokenHash? || c.UserID? || c.TenantID? || c.BranchID? || c.DeviceName?
  }

  predicate IsTime(c: Col) {
    c.CreatedAt? || c.LastUsedAt? || c.RevokedAt?
  }

  predicate IsColumn(c: Col) {
    IsString(c) || IsTime(c)
  }

  /** The columns a mutation has a field for. */
  predicate IsField(c: Col) {
    IsColumn(c) && !c.ID?
  }

  predicate Nullable(c: Col) {
    c.BranchID? || c.DeviceName? || c.LastUsedAt? || c.RevokedAt?
  }

  /** The fields update builders send to the store: all but the creation time. */
  predicate Updatable(c: Col) {
    IsField(c) && !c.CreatedAt?
  }

  datatype Error =
    | UnknownField(c: Col)
    | UnexpectedType(c: Col)
    | NotNullable(c: Col)
    | Missing(c: Col)
    | Invalid(c: Col)
    | Mismatch(values: nat, columns: nat)
    | NotFound
    | Driver

  /** Whether v has the Go type of field c. */
  predicate HasType(c: Col, v: Value) {
    if IsTime(c) then v.Time? else v.Str?
  }

  // ----- The mutation -----

  datatype State = State(id: Option<Id>, values: map<Col, Value>, cleared: set<Col>, done: bool)

  datatype Call = SetField(c: Col, v: Value) | ClearField(c: Col) | ResetField(c: Col)

  /** Whether a call changes field c; the others are refused with an error. */
  predicate Touches(o: Call, c: Col) {
    o.c == c && match o
      case SetField(_, v) => IsField(c) && HasType(c, v)
      case ClearField(_) => Nullable(c)
      case ResetField(_) => IsField(c)
  }

  function After(s: State, o: Call): State {
    if !Touches(o, o.c) then s
    else match o
      case SetField(c, v) => s.(values := s.values[c := v])
      case ClearField(c) => s.(values := s.values - {c}, cleared := s.cleared + {c})
      case ResetField(c) => s.(values := s.values - {c}, cleared := s.cleared - {c})
  }

  function AfterAll(s: State, calls: seq<Call>): State {
    if calls == [] then s else After(AfterAll(s, calls[..|calls|-1]), calls[|calls|-1])
  }

  function New(id: Option<Id>): State {
    State(id, map[], {}, false)
  }

  ghost predicate ValidState(s: State) {
    && (forall c :: c in s.values ==> IsField(c) && HasType(c, s.values[c]))
    && (forall c :: c in s.cleared ==> Nullable(c))
  }

  class DeviceTokenMutation {
    var id: Option<Id>
    var values: map<Col, Value>
    var clearedFields: set<Col>
    var done: bool

    function Contents(): State
      reads this
    {
      State(id, values, clearedFields, done)
    }

    ghost predicate Valid()
      reads this
    {
      ValidState(Contents())
    }

    constructor (id: Option<Id>)
      ensures Valid() && Contents() == New(id)
    {
      this.id, values, clearedFields, done := id, map[], {}, false;
    }

    method SetField(c: Col, v: Value) returns (r: Result<(), Error>)
      requires Valid()
      modifies `values
      ensures Valid() && Contents() == After(old(Contents()), Call.SetField(c, v))
      ensures r == if !IsField(c) then Err(UnknownField(c))
        else if !HasType(c, v) then Err(UnexpectedType(c)) else Ok(())
    {
      if !IsField(c) {
        return Err(UnknownField(c));
      }
      if !HasType(c, v) {
        return Err(UnexpectedType(c));
      }
      values := values[c := v];
      return Ok(());
    }

    method ClearField(c: Col) returns (r: Result<(), Error>)
      requires Valid()
      modifies `values, `clearedFields
      ensures Valid() && Contents() == After(old(Contents()), Call.ClearField(c))
      ensures r == if Nullable(c) then Ok(()) else Err(NotNullable(c))
    {
      if !Nullable(c) {
        return Err(NotNullable(c));
      }
      values := values - {c};
      clearedFields := clearedFields + {c};
      return Ok(());
    }

    /** Fields that cannot be cleared have nothing to delete from the cleared set. */
    method ResetField(c: Col) returns (r: Result<(), Error>)
      requires Valid()
      modifies `values, `clearedFields
      ensures Valid() && Contents() == After(old(Contents()), Call.ResetField(c))
      ensures r == if IsField(c) then Ok(()) else Err(UnknownField(c))
    {
      if !IsField(c) {
        return Err(UnknownField(c));
      }
      values := values - {c};
      if Nullable(c) {
        clearedFields := clearedFields - {c};
      }
      assert clearedFields == old(clearedFields) - {c};
      return Ok(());
    }

    /** The names of the cleared fields: every key of the cleared set, once. */
    method ClearedFields() returns (fields: seq<Col>)
      requires Valid()
      ensures forall c :: c in fields <==> c in clearedFields
      ensures forall i, j :: 0 <= i < j < |fields| ==> fields[i] != fields[j]
    {
      fields := [];
      if BranchID in clearedFields { fields := fields + [BranchID]; }
      if DeviceName in clearedFields { fields := fields + [DeviceName]; }
      if LastUsedAt in clearedFields { fields := fields + [LastUsedAt]; }
      if RevokedAt in clearedFields { fields := fields + [RevokedAt]; }
    }
  }

  /** The last call that touched field c was call number i. */
  ghost predicate LastTouch(calls: seq<Call>, c: Col, i: nat) {
    && i < |calls| && Touches(calls[i], c)
    && forall j :: i < j < |calls| ==> !Touches(calls[j], c)
  }

  lemma {:induction false} StatesAreValid(id: Option<Id>, calls: seq<Call>)
    ensures ValidState(AfterAll(New(id), calls))
  {
    if calls != [] {
      StatesAreValid(id, calls[..|calls|-1]);
    }
  }

  lemma LastTouchSnoc(calls: seq<Call>, c: Col, i: nat)
    requires calls != []
    ensures var n := |calls| - 1;
      LastTouch(calls, c, i) <==> if Touches(calls[n], c) then i == n else LastTouch(calls[..n], c, i)
  {
    hide Touches;
    var n := |calls| - 1;
    assert forall j :: 0 <= j < n ==> calls[..n][j] == calls[j];
    if !Touches(calls[n], c) && LastTouch(calls[..n], c, i) {
      forall j | i < j < |calls| ensures !Touches(calls[j], c) {
        if j < n { assert !Touches(calls[..n][j], c); }
      }
    }
  }

  /** After any calls a field has a value iff the last call that touched it was a Set, and then it is that
      Set's value. */
  lemma {:induction false} ValueFollowsCalls(id: Option<Id>, calls: seq<Call>, c: Col)
    ensures var s := AfterAll(New(id), calls);
      && (c in s.values <==> exists i: nat :: LastTouch(calls, c, i) && calls[i].SetField?)
      && (forall i: nat :: LastTouch(calls, c, i) && calls[i].SetField? ==> c in s.values && s.values[c] == calls[i].v)
  {
    if calls != [] {
      var n := |calls| - 1;
      ValueFollowsCalls(id, calls[..n], c);
      ValueAfter(AfterAll(New(id), calls[..n]), calls[n], c);
      forall i: nat { LastTouchSnoc(calls, c, i); }
      hide Touches, After;
      if Touches(calls[n], c) {
        assert LastTouch(calls, c, n);
      } else {
        assert forall i: nat :: LastTouch(calls[..n], c, i) ==> calls[..n][i] == calls[i];
      }
    }
  }

  /** One call changes the value of the field it touches and no other. */
  lemma ValueAfter(s: State, o: Call, c: Col)
    ensures var r := After(s, o).values;
      if Touches(o, c) then (c in r <==> o.SetField?) && (o.SetField? ==> r[c] == o.v)
      else (c in r <==> c in s.values) && (c in r ==> r[c] == s.values[c])
  {
  }

  /** Call number i cleared field c and no later call reset it. */
  ghost predicate ClearedAt(calls: seq<Call>, c: Col, i: nat) {
    && i < |calls| && calls[i] == ClearField(c) && Nullable(c)
    && forall j :: i < j < |calls| ==> calls[j] != ResetField(c)
  }

  /** After any calls a field is marked cleared iff a Clear of it followed its last Reset; a later Set does
      not unmark it. */
  lemma {:induction false} ClearedFollowsCalls(id: Option<Id>, calls: seq<Call>, c: Col)
    ensures c in AfterAll(New(id), calls).cleared <==> exists i: nat :: ClearedAt(calls, c, i)
  {
    if calls != [] {
      var n := |calls| - 1;
      var before := calls[..n];
      ClearedFollowsCalls(id, before, c);
      if calls[n] == ClearField(c) && Nullable(c) {
        assert ClearedAt(calls, c, n);
      } else if calls[n] == ResetField(c) {
        assert forall i: nat :: ClearedAt(calls, c, i) ==> i < n;
        assert IsField(c) || !Nullable(c);
        if !Nullable(c) {
          assert forall i: nat :: !ClearedAt(before, c, i);
        }
      } else {
        forall i: nat ensures ClearedAt(calls, c, i) <==> ClearedAt(before, c, i) {
          if i < n { assert before[i] == calls[i]; }
          if ClearedAt(before, c, i) {
            forall j | i < j < |calls| ensures calls[j] != ResetField(c) {
              if j < n { assert before[j] == calls[j]; }
            }
          }
        }
      }
    }
  }

  // ----- Update -----

  /** The store's contract for one row of an accepted update. What the store makes of a column that is both
      set and cleared is its own choice. */
  function Updated(r: Row, sets: map<Col, Value>, clears: set<Col>, both: Col -> Value): Row {
    map c | c in r.Keys + sets.Keys + clears ::
      if c in sets && c in clears then both(c) else if c in sets then sets[c] else if c in clears then Null else r[c]
  }

  /** What an update builder sends for a mutation. */
  function SetsOf(s: State): map<Col, Value> {
    map c | c in s.values && Updatable(c) :: s.values[c]
  }

  type Validator = (Col, Value) -> bool

  /** The first set field, of those that have a validator, whose validator refuses the value. */
  function FirstInvalid(valid: Validator, s: State): Option<Error> {
    if TokenHash in s.values && !valid(TokenHash, s.values[TokenHash]) then Some(Invalid(TokenHash))
    else if UserID in s.values && !valid(UserID, s.values[UserID]) then Some(Invalid(UserID))
    else if TenantID in s.values && !valid(TenantID, s.values[TenantID]) then Some(Invalid(TenantID))
    else None
  }

  /** The fields that updates validate, in the order in which they do. */
  const VALIDATED := [TokenHash, UserID, TenantID]

  predicate Refused(valid: Validator, s: State, c: Col) {
    c in s.values && !valid(c, s.values[c])
  }

  /** An update passes the validators iff none refuses the value set on its field, and otherwise reports the first that
      does. */
  lemma FirstInvalidIs(valid: Validator, s: State)
    ensures FirstInvalid(valid, s).None? <==> forall i :: 0 <= i < |VALIDATED| ==> !Refused(valid, s, VALIDATED[i])
    ensures FirstInvalid(valid, s).Some? ==> exists i ::
      && 0 <= i < |VALIDATED| && Refused(valid, s, VALIDATED[i])
      && FirstInvalid(valid, s) == Some(Invalid(VALIDATED[i]))
      && forall j :: 0 <= j < i ==> !Refused(valid, s, VALIDATED[j])
  {
    assert FirstInvalid(valid, s).None? ==> !Refused(valid, s, VALIDATED[0]) && !Refused(valid, s, VALIDATED[1]);
    if Refused(valid, s, VALIDATED[0]) {
    } else if Refused(valid, s, VALIDATED[1]) {
    } else if Refused(valid, s, VALIDATED[2]) {
    }
  }

  function Restrict(values: map<Col, Value>, cs: set<Col>): map<Col, Value> {
    map c | c in values && c in cs :: values[c]
  }

  /** Add one field to a spec when the mutation sets it. */
  method PutField(spec: map<Col, Value>, values: map<Col, Value>, c: Col, ghost before: set<Col>)
    returns (spec': map<Col, Value>, ghost cs: set<Col>)
    requires spec == Restrict(values, before)
    ensures cs == before + {c}
    ensures spec' == Restrict(values, before + {c})
  {
    spec', cs := spec, before + {c};
    if c in values {
      spec' := spec'[c := values[c]];
    }
  }

  /** Add one field to the cleared columns of a spec when the mutation clears it. */
  method PutClear(clears: set<Col>, cleared: set<Col>, c: Col) returns (clears': set<Col>)
    ensures clears' == clears + cleared * {c}
  {
    clears' := if c in cleared then clears + {c} else clears;
  }

  lemma UpdatableFields(s: State, cs: set<Col>)
    requires ValidState(s) && cs == {TokenHash, UserID, TenantID, BranchID, DeviceName, LastUsedAt, RevokedAt}
    ensures Restrict(s.values, cs) == SetsOf(s)
    ensures s.cleared * {BranchID} + s.cleared * {DeviceName} + s.cleared * {LastUsedAt}
      + s.cleared * {RevokedAt} == s.cleared
  {
  }

  /** Lower the fields of a mutation to what an update sends. */
  method Lower(m: DeviceTokenMutation) returns (sets: map<Col, Value>, clears: set<Col>)
    requires m.Valid()
    ensures sets == SetsOf(m.Contents()) && clears == m.clearedFields
  {
    hide SetsOf, Restrict, ValidState;
    EmptySpec(m.values);
    ghost var cs: set<Col> := {};
    sets := map[];
    sets, cs := PutField(sets, m.values, TokenHash, cs);
    sets, cs := PutField(sets, m.values, UserID, cs);
    sets, cs := PutField(sets, m.values, TenantID, cs);
    sets, cs := PutField(sets, m.values, BranchID, cs);
    clears := PutClear({}, m.clearedFields, BranchID);
    sets, cs := PutField(sets, m.values, DeviceName, cs);
    clears := PutClear(clears, m.clearedFields, DeviceName);
    sets, cs := PutField(sets, m.values, LastUsedAt, cs);
    clears := PutClear(clears, m.clearedFields, LastUsedAt);
    sets, cs := PutField(sets, m.values, RevokedAt, cs);
    clears := PutClear(clears, m.clearedFields, RevokedAt);
    UpdatableFields(m.Contents(), cs);
  }

  lemma EmptySpec(values: map<Col, Value>)
    ensures Restrict(values, {}) == map[]
  {
  }

  /** A row after a save of a mutation: fields only set have the value, fields only cleared are NULL, and everything
      else is as before; the creation time is never sent. */
  ghost predicate RowSaved(before: Row, after: Row, s: State) {
    && (forall c :: c in s.values && c != CreatedAt && c !in s.cleared ==> c in after && after[c] == s.values[c])
    && (forall c :: c in s.cleared && c !in s.values ==> c in after && after[c] == Null)
    && (forall c :: (c !in s.values || c == CreatedAt) && c !in s.cleared ==>
         (c in after <==> c in before) && (c in before ==> after[c] == before[c]))
  }

  /** The matching rows are saved, the others are not touched. */
  ghost predicate RowsSaved(before: map<Id, Row>, after: map<Id, Row>, ids: set<Id>, s: State) {
    && after.Keys == before.Keys
    && forall x :: x in before ==> if x in ids then RowSaved(before[x], after[x], s) else after[x] == before[x]
  }

  lemma SavedRowsAre(rows: map<Id, Row>, ids: set<Id>, s: State, both: Col -> Value)
    requires ValidState(s)
    ensures RowsSaved(rows, SavedRows(rows, ids, s, both), ids, s)
  {
    hide RowSaved, Updated, SetsOf;
    forall x | x in rows {
      RowSavedIs(rows[x], s, both);
    }
  }

  lemma RowSavedIs(r: Row, s: State, both: Col -> Value)
    requires ValidState(s)
    ensures RowSaved(r, Updated(r, SetsOf(s), s.cleared, both), s)
  {
    var sets := SetsOf(s);
    assert forall c :: c in sets <==> c in s.values && c != CreatedAt;
    assert forall c :: c in sets ==> sets[c] == s.values[c];
    hide SetsOf, ValidState;
    assert CreatedAt !in s.cleared;
  }

  function SavedRows(rows: map<Id, Row>, ids: set<Id>, s: State, both: Col -> Value): map<Id, Row> {
    map x | x in rows :: if x in ids then Updated(rows[x], SetsOf(s), s.cleared, both) else rows[x]
  }

  class Table {
    var rows: map<Id, Row>
  }

  /** Save of the builder that updates every matching token. */
  method UpdateMany(t: Table, m: DeviceTokenMutation, valid: Validator, matching: set<Id>, accepted: bool,
      both: Col -> Value)
    returns (r: Result<nat, Error>)
    requires m.Valid() && matching <= t.rows.Keys
    modifies t, m`done
    ensures m.Valid()
    ensures r == match FirstInvalid(valid, old(m.Contents()))
                 case Some(e) => Err(e)
                 case None => if accepted then Ok(|matching|) else Err(Driver)
    ensures t.rows == if r.Ok? then SavedRows(old(t.rows), matching, old(m.Contents()), both) else old(t.rows)
    ensures r.Ok? ==> RowsSaved(old(t.rows), t.rows, matching, old(m.Contents()))
    ensures m.Contents() == old(m.Contents()).(done := r.Ok? || old(m.done))
  {
    var invalid := FirstInvalid(valid, m.Contents());
    if invalid.Some? {
      return Err(invalid.value);
    }
    var sets, clears := Lower(m);
    if !accepted {
      return Err(Driver);
    }
    SavedRowsAre(t.rows, matching, m.Contents(), both);
    hide RowsSaved, Updated, SetsOf;
    t.rows := map x | x in t.rows :: if x in matching then Updated(t.rows[x], sets, clears, both) else t.rows[x];
    m.done := true;
    return Ok(|matching|);
  }

  /** What a save makes of a nullable field, by the calls made on it: untouched since its last Reset it
      keeps what is stored; cleared last it becomes NULL; set without a Clear since the last Reset it gets
      the value. Only a Set on top of a Clear is left to the store. */
  lemma SaveFollowsCalls(r: Row, id: Option<Id>, calls: seq<Call>, c: Col, i: nat, both: Col -> Value)
    requires Nullable(c) && c in r
    ensures var s := AfterAll(New(id), calls);
      var saved := Updated(r, SetsOf(s), s.cleared, both);
      && c in saved
      && ((forall j :: 0 <= j < |calls| ==> !Touches(calls[j], c)) ==> saved[c] == r[c])
      && (LastTouch(calls, c, i) ==>
           match calls[i]
           case ResetField(_) => saved[c] == r[c]
           case ClearField(_) => saved[c] == Null
           case SetField(_, v) => (if exists k: nat :: ClearedAt(calls, c, k) then saved[c] == both(c)
             else saved[c] == v))
  {
    StatesAreValid(id, calls);
    ValueFollowsCalls(id, calls, c);
    ClearedFollowsCalls(id, calls, c);
    if LastTouch(calls, c, i) {
      forall k: nat | LastTouch(calls, c, k) ensures k == i {
      }
      if calls[i].ClearField? {
        assert ClearedAt(calls, c, i) by {
          forall j | i < j < |calls| ensures calls[j] != ResetField(c) {
            assert !Touches(calls[j], c);
          }
        }
      }
    }
    assert forall k: nat :: ClearedAt(calls, c, k) ==> Touches(calls[k], c);
  }

  /** What a save makes of the other columns: the token hash, the user and the tenant get the value of the last call
      that touched the field if it was a Set, and everything else a row holds stays. */
  lemma SaveOfRequired(r: Row, id: Option<Id>, calls: seq<Call>, c: Col, i: nat, both: Col -> Value)
    requires !Nullable(c) && c in r
    ensures var s := AfterAll(New(id), calls);
      var saved := Updated(r, SetsOf(s), s.cleared, both);
      && c in saved
      && (c != TokenHash && c != UserID && c != TenantID ==> saved[c] == r[c])
      && ((forall j :: 0 <= j < |calls| ==> !Touches(calls[j], c)) ==> saved[c] == r[c])
      && (LastTouch(calls, c, i) && calls[i].SetField? && (c == TokenHash || c == UserID || c == TenantID) ==>
           saved[c] == calls[i].v)
      && (LastTouch(calls, c, i) && !calls[i].SetField? ==> saved[c] == r[c])
  {
    StatesAreValid(id, calls);
    ValueFollowsCalls(id, calls, c);
    if LastTouch(calls, c, i) {
      forall k: nat | LastTouch(calls, c, k) ensures k == i {
      }
    }
  }

  /** A save the store accepted, of a mutation in any state. */
  datatype Saving = Updating(ids: set<Id>, state: State, both: Col -> Value) | Creating(id: Id, state: State)

  ghost function RunSaves(rows: map<Id, Row>, run: seq<Saving>): map<Id, Row>
    decreases |run|
  {
    if run == [] then rows
    else
      var before := RunSaves(rows, run[..|run|-1]);
      match run[|run|-1]
      case Updating(ids, s, both) => SavedRows(before, ids, s, both)
      case Creating(x, s) => if x in before then before else before[x := CreatedRow(s.(id := Some(x)))]
  }

  /** No run of creates and updates changes the creation time of a token that exists. */
  lemma {:induction false} CreatedAtIsImmutable(rows: map<Id, Row>, run: seq<Saving>, x: Id)
    requires x in rows && CreatedAt in rows[x]
    requires forall o :: o in run ==> ValidState(o.state)
    ensures var after := RunSaves(rows, run);
      x in after && CreatedAt in after[x] && after[x][CreatedAt] == rows[x][CreatedAt]
  {
    if run != [] {
      var last := run[|run|-1];
      CreatedAtIsImmutable(rows, run[..|run|-1], x);
      assert ValidState(last.state);
      assert CreatedAt !in SetsOf(last.state) && CreatedAt !in last.state.cleared;
    }
  }

  // ----- Create -----

  /** The value of an entity. A nil pointer field is None; the zero time is 0. */
  datatype Token = Token(id: string, tokenHash: string, userID: string, tenantID: string, branchID: string,
      deviceName: string, createdAt: int, lastUsedAt: Option<int>, revokedAt: Option<int>)

  const ZERO := Token("", "", "", "", "", "", 0, None, None)

  function TimeIn(r: Row, c: Col): Option<int> {
    if c in r && r[c].Time? then Some(r[c].t) else None
  }

  function TokenOf(r: Row): Token {
    Token(StrOf(r, ID), StrOf(r, TokenHash), StrOf(r, UserID), StrOf(r, TenantID), StrOf(r, BranchID),
      StrOf(r, DeviceName), if TimeIn(r, CreatedAt).Some? then TimeIn(r, CreatedAt).value else 0,
      TimeIn(r, LastUsedAt), TimeIn(r, RevokedAt))
  }

  /** The row an insert of a spec leaves: columns the spec does not name are NULL. */
  function RowOf(spec: map<Col, Value>): Row {
    map c | c in {ID, TokenHash, UserID, TenantID, BranchID, DeviceName, CreatedAt, LastUsedAt, RevokedAt} ::
      if c in spec then spec[c] else Null
  }

  function SpecOf(s: State): map<Col, Value> {
    if s.id.Some? then s.values[ID := Str(s.id.value)] else s.values - {ID}
  }

  function CreatedRow(s: State): Row {
    RowOf(SpecOf(s))
  }

  /** The values the create builder fills in: they come from the schema and the clock. */
  function Defaulted(s: State, deviceName: string, now: int): State {
    s.(values := map[DeviceName := Str(deviceName), CreatedAt := Time(now)] + s.values)
  }

  /** State t is s with the default name and creation time where s has none, and nothing else changed. */
  ghost predicate WithDefaults(s: State, t: State, deviceName: string, now: int) {
    && t.id == s.id && t.cleared == s.cleared && t.done == s.done
    && (forall c :: c in t.values <==> c in s.values || c == DeviceName || c == CreatedAt)
    && (forall c :: c in s.values ==> t.values[c] == s.values[c])
    && (DeviceName !in s.values ==> t.values[DeviceName] == Str(deviceName))
    && (CreatedAt !in s.values ==> t.values[CreatedAt] == Time(now))
  }

  /** The defaults never replace a value. */
  lemma DefaultedIs(s: State, deviceName: string, now: int)
    ensures WithDefaults(s, Defaulted(s, deviceName, now), deviceName, now)
  {
    var defaults: map<Col, Value> := map[DeviceName := Str(deviceName), CreatedAt := Time(now)];
    assert forall c :: c in defaults <==> c == DeviceName || c == CreatedAt;
  }

  /** The row sent for a mutation has the values set on it, under its id if it has one, and nothing else. */
  ghost predicate Describes(spec: map<Col, Value>, s: State) {
    && (forall c :: c in spec <==> c in s.values || (c == ID && s.id.Some?))
    && (forall c :: c in s.values ==> spec[c] == s.values[c])
    && (s.id.Some? ==> spec[ID] == Str(s.id.value))
  }

  lemma SpecDescribes(s: State)
    requires ValidState(s)
    ensures Describes(SpecOf(s), s)
  {
    assert ID !in s.values;
  }

  /** The row a create leaves: what was set on the mutation, and NULL under every other column. */
  lemma CreatedRowIs(s: State)
    requires ValidState(s)
    ensures var r := CreatedRow(s);
      && (forall c :: c in r <==> IsColumn(c))
      && (forall c :: c in s.values ==> r[c] == s.values[c])
      && r[ID] == (if s.id.Some? then Str(s.id.value) else Null)
      && forall c :: IsColumn(c) && c != ID && c !in s.values ==> r[c] == Null
  {
    SpecDescribes(s);
    hide SpecOf;
  }

  predicate ReadsString(field: string, r: Row, c: Col) {
    field == if c in r && r[c].Str? then r[c].s else ""
  }

  predicate ReadsTime(field: Option<int>, r: Row, c: Col) {
    field == if c in r && r[c].Time? then Some(r[c].t) else None
  }

  /** Each field of an entity holds the cell of its own column. */
  ghost predicate Reads(t: Token, r: Row) {
    && ReadsString(t.id, r, ID) && ReadsString(t.tokenHash, r, TokenHash) && ReadsString(t.userID, r, UserID)
    && ReadsString(t.tenantID, r, TenantID) && ReadsString(t.branchID, r, BranchID)
    && ReadsString(t.deviceName, r, DeviceName)
    && t.createdAt == (if CreatedAt in r && r[CreatedAt].Time? then r[CreatedAt].t else 0)
    && ReadsTime(t.lastUsedAt, r, LastUsedAt) && ReadsTime(t.revokedAt, r, RevokedAt)
  }

  lemma TokenReads(r: Row)
    ensures Reads(TokenOf(r), r)
  {
  }

  /** The entity a create returns holds what the row it sends holds. */
  lemma CreatedReads(s: State)
    ensures Reads(TokenOf(CreatedRow(s)), SpecOf(s))
  {
    hide SpecOf;
  }

  /** The fields that a create demands, in the order in which it checks them; the last has no validator. */
  const REQUIRED := [TokenHash, UserID, TenantID, CreatedAt]

  predicate Demanded(valid: Validator, s: State, i: nat)
    requires i < |REQUIRED|
  {
    REQUIRED[i] in s.values && (i < 3 ==> valid(REQUIRED[i], s.values[REQUIRED[i]]))
  }

  /** A create passes its check iff every required field is set and no validator refuses it, and otherwise the check
      reports the first field that is missing or refused. */
  lemma FirstUnmetIs(valid: Validator, s: State)
    ensures FirstUnmet(valid, s).None? <==> forall i :: 0 <= i < |REQUIRED| ==> Demanded(valid, s, i)
    ensures FirstUnmet(valid, s).Some? ==> exists i ::
      && 0 <= i < |REQUIRED| && !Demanded(valid, s, i)
      && FirstUnmet(valid, s) == Some(if REQUIRED[i] in s.values then Invalid(REQUIRED[i]) else Missing(REQUIRED[i]))
      && forall j :: 0 <= j < i ==> Demanded(valid, s, j)
  {
    if !Demanded(valid, s, 0) {
    } else if !Demanded(valid, s, 1) {
    } else if !Demanded(valid, s, 2) {
    } else if !Demanded(valid, s, 3) {
    }
  }

  /** The check of the create builder: the first required field that is missing or refused by its validator.
      */
  function FirstUnmet(valid: Validator, s: State): Option<Error> {
    if TokenHash !in s.values then Some(Missing(TokenHash))
    else if !valid(TokenHash, s.values[TokenHash]) then Some(Invalid(TokenHash))
    else if UserID !in s.values then Some(Missing(UserID))
    else if !valid(UserID, s.values[UserID]) then Some(Invalid(UserID))
    else if TenantID !in s.values then Some(Missing(TenantID))
    else if !valid(TenantID, s.values[TenantID]) then Some(Invalid(TenantID))
    else if CreatedAt !in s.values then Some(Missing(CreatedAt))
    else None
  }

  class DeviceToken {
    var id: string
    var tokenHash: string
    var userID: string
    var tenantID: string
    var branchID: string
    var deviceName: string
    var createdAt: int
    var lastUsedAt: Option<int>
    var revokedAt: Option<int>
    var selectValues: map<Col, Scan>

    function Contents(): Token
      reads this
    {
      Token(id, tokenHash, userID, tenantID, branchID, deviceName, createdAt, lastUsedAt, revokedAt)
    }

    constructor ()
      ensures Contents() == ZERO && selectValues == map[]
    {
      id, tokenHash, userID, tenantID, branchID, deviceName := "", "", "", "", "", "";
      createdAt, lastUsedAt, revokedAt, selectValues := 0, None, None, map[];
    }

    /** Assign the holder of a string column; a NULL leaves the field as it is. */
    method AssignString(c: Col, v: Scan) returns (r: Result<(), Error>)
      requires IsString(c)
      modifies `id, `tokenHash, `userID, `tenantID, `branchID, `deviceName
      ensures r == if v.NullString? then Ok(()) else Err(UnexpectedType(c))
      ensures Contents() == if v.NullString? && v.str.Some? then WithString(old(Contents()), c, v.str.value)
        else old(Contents())
    {
      if !v.NullString? {
        return Err(UnexpectedType(c));
      }
      if v.str.Some? {
        match c
        case ID => id := v.str.value;
        case TokenHash => tokenHash := v.str.value;
        case UserID => userID := v.str.value;
        case TenantID => tenantID := v.str.value;
        case BranchID => branchID := v.str.value;
        case DeviceName => deviceName := v.str.value;
      }
      return Ok(());
    }

    /** Assign the holder of a time column; a NULL leaves a pointer field nil. */
    method AssignTime(c: Col, v: Scan) returns (r: Result<(), Error>)
      requires IsTime(c)
      modifies `createdAt, `lastUsedAt, `revokedAt
      ensures r == if v.NullTime? then Ok(()) else Err(UnexpectedType(c))
      ensures Contents() == if v.NullTime? && v.time.Some? then WithTime(old(Contents()), c, v.time.value)
        else old(Contents())
    {
      if !v.NullTime? {
        return Err(UnexpectedType(c));
      }
      if v.time.Some? {
        match c
        case CreatedAt => createdAt := v.time.value;
        case LastUsedAt => lastUsedAt := Some(v.time.value);
        case RevokedAt => revokedAt := Some(v.time.value);
      }
      return Ok(());
    }

    /** Assign the holder of one column. */
    method Assign(c: Col, v: Scan) returns (r: Result<(), Error>)
      modifies this
      ensures r == if !IsColumn(c) || IsHolder(c, v) then Ok(()) else Err(UnexpectedType(c))
      ensures Contents() == if r.Ok? then Assigned(old(Contents()), c, v) else old(Contents())
      ensures selectValues == if IsColumn(c) then old(selectValues) else old(selectValues)[c := v]
    {
      hide WithString, WithTime;
      if IsString(c) {
        r := AssignString(c, v);
      } else if IsTime(c) {
        r := AssignTime(c, v);
      } else {
        selectValues := selectValues[c := v];
        r := Ok(());
      }
    }

    /** Assign the holders of a row. On an error the columns before the offending one stay assigned. */
    method AssignValues(columns: seq<Col>, values: seq<Scan>) returns (r: Result<(), Error>)
      modifies this
      ensures |values| < |columns| ==> r == Err(Mismatch(|values|, |columns|)) && Contents() == old(Contents())
      ensures |columns| <= |values| ==>
        var k := FirstMistyped(columns, values);
        && r == (if k < |columns| then Err(UnexpectedType(columns[k])) else Ok(()))
        && Contents() == AssignedAll(old(Contents()), columns[..k], values[..k])
    {
      if |values| < |columns| {
        return Err(Mismatch(|values|, |columns|));
      }
      for i := 0 to |columns|
        invariant Contents() == AssignedAll(old(Contents()), columns[..i], values[..i])
        invariant forall j :: 0 <= j < i ==> !IsColumn(columns[j]) || IsHolder(columns[j], values[j])
      {
        assert columns[..i+1][..i] == columns[..i] && values[..i+1][..i] == values[..i];
        r := Assign(columns[i], values[i]);
        if r.Err? {
          FirstMistypedIs(columns, values, i);
          return;
        }
      }
      FirstMistypedIs(columns, values, |columns|);
      return Ok(());
    }
  }

  /** The holders rows are scanned into. */
  datatype Scan = NullString(str: Option<string>) | NullTime(time: Option<int>) | UnknownType(cell: Value)

  /** The type of holder a column asks for. */
  predicate IsHolder(c: Col, v: Scan) {
    if IsTime(c) then v.NullTime? else if IsString(c) then v.NullString? else v.UnknownType?
  }

  function WithString(t: Token, c: Col, s: string): Token
    requires IsString(c)
  {
    match c
    case ID => t.(id := s)
    case TokenHash => t.(tokenHash := s)
    case UserID => t.(userID := s)
    case TenantID => t.(tenantID := s)
    case BranchID => t.(branchID := s)
    case DeviceName => t.(deviceName := s)
  }

  function WithTime(t: Token, c: Col, n: int): Token
    requires IsTime(c)
  {
    match c
    case CreatedAt => t.(createdAt := n)
    case LastUsedAt => t.(lastUsedAt := Some(n))
    case RevokedAt => t.(revokedAt := Some(n))
  }

  function Assigned(t: Token, c: Col, v: Scan): Token {
    if IsString(c) && v.NullString? && v.str.Some? then WithString(t, c, v.str.value)
    else if IsTime(c) && v.NullTime? && v.time.Some? then WithTime(t, c, v.time.value)
    else t
  }

  function AssignedAll(t: Token, columns: seq<Col>, values: seq<Scan>): Token
    requires |columns| == |values|
  {
    if columns == [] then t
    else var n := |columns| - 1; Assigned(AssignedAll(t, columns[..n], values[..n]), columns[n], values[n])
  }

  /** The index of the first holder whose type does not fit its column, or the number of columns. */
  function FirstMistyped(columns: seq<Col>, values: seq<Scan>): (k: nat)
    requires |columns| <= |values|
    ensures k <= |columns|
  {
    if columns == [] then 0
    else if IsColumn(columns[0]) && !IsHolder(columns[0], values[0]) then 0
    else 1 + FirstMistyped(columns[1..], values[1..])
  }

  lemma {:induction false} FirstMistypedIs(columns: seq<Col>, values: seq<Scan>, k: nat)
    requires k <= |columns| <= |values|
    requires forall j :: 0 <= j < k ==> !IsColumn(columns[j]) || IsHolder(columns[j], values[j])
    requires k < |columns| ==> IsColumn(columns[k]) && !IsHolder(columns[k], values[k])
    ensures FirstMistyped(columns, values) == k
  {
    if k > 0 {
      FirstMistypedIs(columns[1..], values[1..], k - 1);
    }
  }

  /** The holders for a list of columns, empty. */
  method ScanValues(columns: seq<Col>) returns (values: seq<Scan>)
    ensures |values| == |columns|
    ensures forall i :: 0 <= i < |columns| ==> IsHolder(columns[i], values[i])
  {
    values := [];
    for i := 0 to |columns|
      invariant |values| == i && forall j :: 0 <= j < i ==> IsHolder(columns[j], values[j])
    {
      match columns[i]
      case ID | TokenHash | UserID | TenantID | BranchID | DeviceName => values := values + [NullString(None)];
      case CreatedAt | LastUsedAt | RevokedAt => values := values + [NullTime(None)];
      case _ => values := values + [UnknownType(Null)];
    }
  }

  /** The driver scans a cell into a holder of a fitting type. */
  function Scanned(v: Scan, cell: Value): Scan {
    match v
    case NullString(_) => NullString(if cell.Str? then Some(cell.s) else None)
    case NullTime(_) => NullTime(if cell.Time? then Some(cell.t) else None)
    case UnknownType(_) => UnknownType(cell)
  }

  lemma CreatedCells(s: State, cs: set<Col>)
    requires ValidState(s) && cs == {TokenHash, UserID, TenantID, BranchID, DeviceName, CreatedAt,
      LastUsedAt, RevokedAt}
    ensures Restrict(s.values, cs) == s.values && s.values - {ID} == s.values
    ensures TokenOf(CreatedRow(s)) == TokenOf(s.values).(id := if s.id.Some? then s.id.value else "")
  {
  }

  /** The fields of the returned entity: a field the mutation does not set keeps its zero value. */
  method FillNode(m: DeviceTokenMutation, node: DeviceToken)
    requires m.Valid() && node.Contents() == ZERO
    modifies node
    ensures node.Contents() == TokenOf(m.values).(id := if m.id.Some? then m.id.value else "")
  {
    hide StrOf, TimeIn, ValidState;
    if m.id.Some? { node.id := m.id.value; }
    node.tokenHash := StrOf(m.values, TokenHash);
    node.userID := StrOf(m.values, UserID);
    node.tenantID := StrOf(m.values, TenantID);
    node.branchID := StrOf(m.values, BranchID);
    node.deviceName := StrOf(m.values, DeviceName);
    var createdAt := TimeIn(m.values, CreatedAt);
    if createdAt.Some? { node.createdAt := createdAt.value; }
    node.lastUsedAt := TimeIn(m.values, LastUsedAt);
    node.revokedAt := TimeIn(m.values, RevokedAt);
  }

  /** Build the entity and the spec of a create, field by field. */
  method CreateSpec(m: DeviceTokenMutation) returns (node: DeviceToken, spec: map<Col, Value>)
    requires m.Valid()
    ensures fresh(node) && spec == SpecOf(m.Contents()) && node.Contents() == TokenOf(CreatedRow(m.Contents()))
    ensures Describes(spec, m.Contents()) && Reads(node.Contents(), CreatedRow(m.Contents()))
  {
    hide Restrict, CreatedRow, TokenOf, ValidState, Describes, Reads;
    SpecDescribes(m.Contents());
    TokenReads(CreatedRow(m.Contents()));
    node := new DeviceToken();
    FillNode(m, node);
    EmptySpec(m.values);
    ghost var cs: set<Col> := {};
    spec := map[];
    spec, cs := PutField(spec, m.values, TokenHash, cs);
    spec, cs := PutField(spec, m.values, UserID, cs);
    spec, cs := PutField(spec, m.values, TenantID, cs);
    spec, cs := PutField(spec, m.values, BranchID, cs);
    spec, cs := PutField(spec, m.values, DeviceName, cs);
    spec, cs := PutField(spec, m.values, CreatedAt, cs);
    spec, cs := PutField(spec, m.values, LastUsedAt, cs);
    spec, cs := PutField(spec, m.values, RevokedAt, cs);
    CreatedCells(m.Contents(), cs);
    if m.id.Some? { spec := spec[ID := Str(m.id.value)]; }
  }

  // ----- Reading back -----

  /** The cells of a row restricted to some columns. */
  function Cells(r: Row, columns: seq<Col>): Row {
    map c | c in r && c in columns :: r[c]
  }

  /** A row whose cells have the types of their columns. */
  ghost predicate TypedRow(r: Row) {
    forall c :: c in r && IsColumn(c) ==> r[c].Null? || HasType(c, r[c])
  }

  /** The holder v of column c was scanned from row r. */
  predicate FromCell(r: Row, c: Col, v: Scan) {
    IsHolder(c, v) && v == Scanned(v, if c in r then r[c] else Null)
  }

  lemma CellAfter(r: Row, columns: seq<Col>, c: Col, d: Col)
    ensures StrOf(Cells(r, columns + [c]), d) == if d == c && c in r && r[c].Str? then r[c].s
      else StrOf(Cells(r, columns), d)
    ensures TimeIn(Cells(r, columns + [c]), d) == if d == c && c in r && r[c].Time? then Some(r[c].t)
      else TimeIn(Cells(r, columns), d)
  {
    CellIs(r, columns, d);
    CellIs(r, columns + [c], d);
    hide Cells;
  }

  lemma CellIs(r: Row, columns: seq<Col>, d: Col)
    ensures d in Cells(r, columns) <==> d in r && d in columns
    ensures d in Cells(r, columns) ==> Cells(r, columns)[d] == r[d]
  {
  }

  lemma AssignOne(r: Row, columns: seq<Col>, c: Col, v: Scan)
    requires TypedRow(r) && FromCell(r, c, v)
    ensures Assigned(TokenOf(Cells(r, columns)), c, v) == TokenOf(Cells(r, columns + [c]))
  {
    hide Cells, StrOf, TimeIn, WithString, WithTime, TokenOf;
    forall d {
      CellAfter(r, columns, c, d);
    }
    var before, after := Cells(r, columns), Cells(r, columns + [c]);
    if IsString(c) && v.NullString? && v.str.Some? {
      StringCell(before, after, c, v.str.value);
    } else if IsTime(c) && v.NullTime? && v.time.Some? {
      TimeCell(before, after, c, v.time.value);
    } else {
      SameCells(before, after);
    }
  }

  lemma SameCells(before: Row, after: Row)
    requires forall d :: IsColumn(d) ==> StrOf(after, d) == StrOf(before, d) && TimeIn(after, d) == TimeIn(before, d)
    ensures TokenOf(after) == TokenOf(before)
  {
  }

  lemma StringCell(before: Row, after: Row, c: Col, s: string)
    requires IsString(c) && forall d :: StrOf(after, d) == if d == c then s else StrOf(before, d)
    requires forall d :: TimeIn(after, d) == TimeIn(before, d)
    ensures TokenOf(after) == WithString(TokenOf(before), c, s)
  {
    hide StrOf, TimeIn;
  }

  lemma TimeCell(before: Row, after: Row, c: Col, n: int)
    requires IsTime(c) && forall d :: TimeIn(after, d) == if d == c then Some(n) else TimeIn(before, d)
    requires forall d :: StrOf(after, d) == StrOf(before, d)
    ensures TokenOf(after) == WithTime(TokenOf(before), c, n)
  {
    hide StrOf, TimeIn;
  }

  /** Assigning scanned holders to a zero entity yields the cells of the scanned columns. */
  lemma {:induction false} AssignedCells(r: Row, columns: seq<Col>, values: seq<Scan>)
    requires TypedRow(r) && |values| == |columns|
    requires forall i :: 0 <= i < |columns| ==> FromCell(r, columns[i], values[i])
    ensures AssignedAll(ZERO, columns, values) == TokenOf(Cells(r, columns))
  {
    if columns != [] {
      var n := |columns| - 1;
      AssignedCells(r, columns[..n], values[..n]);
      AssignOne(r, columns[..n], columns[n], values[n]);
      assert columns[..n] + [columns[n]] == columns;
    }
  }

  /** Read a row through the columns a query returned. */
  method ReadRow(r: Row, columns: seq<Col>) returns (node: DeviceToken, e: Result<(), Error>)
    requires TypedRow(r)
    ensures fresh(node) && e.Ok? && node.Contents() == TokenOf(Cells(r, columns))
    ensures Reads(node.Contents(), Cells(r, columns))
    ensures forall c :: (c in Cells(r, columns) <==> c in r && c in columns) && (c in Cells(r, columns) ==>
      Cells(r, columns)[c] == r[c])
  {
    TokenReads(Cells(r, columns));
    var holders := ScanValues(columns);
    var values := [];
    for i := 0 to |columns|
      invariant |values| == i
      invariant forall j :: 0 <= j < i ==> FromCell(r, columns[j], values[j])
    {
      values := values + [Scanned(holders[i], if columns[i] in r then r[columns[i]] else Null)];
    }
    node := new DeviceToken();
    e := node.AssignValues(columns, values);
    FirstMistypedIs(columns, values, |columns|);
    assert columns[..|columns|] == columns && values[..|columns|] == values;
    AssignedCells(r, columns, values);
  }

  /** Reading back what was created, through any list of columns that has them all, in any order and however
      repeated or extended, gives the entity the create returned, down to nil pointers. */
  method CreateThenRead(m: DeviceTokenMutation, columns: seq<Col>)
      returns (created: DeviceToken, read: DeviceToken, e: Result<(), Error>)
    requires m.Valid() && forall c :: IsColumn(c) ==> c in columns
    ensures e.Ok? && read.Contents() == created.Contents()
    ensures read.lastUsedAt.Some? <==> LastUsedAt in m.values
    ensures read.revokedAt.Some? <==> RevokedAt in m.values
  {
    hide Describes, Reads;
    var spec;
    created, spec := CreateSpec(m);
    var row := RowOf(spec);
    assert row == CreatedRow(m.Contents());
    read, e := ReadRow(row, columns);
    assert Cells(row, columns) == row;
  }

  // ----- Updating one token -----

  lemma UpdatedIsTyped(r: Row, s: State, both: Col -> Value)
    requires TypedRow(r) && ValidState(s) && forall c :: both(c).Null? || HasType(c, both(c))
    ensures TypedRow(Updated(r, SetsOf(s), s.cleared, both)) && ValidState(s.(done := true))
  {
  }

  /** What an update of one token reports when it fails, in the order of the checks. */
  function UpdateError(s: State, fields: seq<Col>, valid: Validator, matching: set<Id>, accepted: bool): Option<Error> {
    if FirstInvalid(valid, s).Some? then FirstInvalid(valid, s)
    else if s.id.None? then Some(Missing(ID))
    else if FirstUnknown(fields, COLUMNS).Some? then Some(UnknownField(FirstUnknown(fields, COLUMNS).value))
    else if s.id.value !in matching then Some(NotFound)
    else if !accepted then Some(Driver)
    else None
  }

  predicate Known(fields: seq<Col>) {
    forall c :: c in fields ==> c in COLUMNS
  }

  /** A refused value comes first, then a missing id, then a selected name that is no column, then a token that does not
      match, then a refusal of the store. */
  lemma UpdateErrorIs(s: State, fields: seq<Col>, valid: Validator, matching: set<Id>, accepted: bool)
    ensures var e, fine := UpdateError(s, fields, valid, matching, accepted), FirstInvalid(valid, s).None?;
      && (!fine ==> e == FirstInvalid(valid, s))
      && (fine && s.id.None? ==> e == Some(Missing(ID)))
      && (fine && s.id.Some? && !Known(fields) ==>
           e.Some? && e.value.UnknownField? && IsFirstUnknown(fields, COLUMNS, e.value.c))
      && (fine && s.id.Some? && Known(fields) && s.id.value !in matching ==> e == Some(NotFound))
      && (fine && s.id.Some? && Known(fields) && s.id.value in matching ==>
        e == if accepted then None else Some(Driver))
  {
    hide FirstInvalid;
    FirstUnknownIs(fields, COLUMNS);
  }

  /** Save of the builder that updates one token and reads its new row back. */
  method UpdateOne(t: Table, m: DeviceTokenMutation, fields: seq<Col>, valid: Validator, matching: set<Id>,
      accepted: bool, both: Col -> Value)
    returns (r: Result<DeviceToken, Error>)
    requires m.Valid() && matching <= t.rows.Keys && forall x :: x in t.rows ==> TypedRow(t.rows[x])
    requires forall c :: both(c).Null? || HasType(c, both(c))
    modifies t, m`done
    ensures m.Valid() && forall x :: x in t.rows ==> TypedRow(t.rows[x])
    ensures match UpdateError(old(m.Contents()), fields, valid, matching, accepted)
      case Some(e) => r == Err(e) && t.rows == old(t.rows) && m.Contents() == old(m.Contents())
      case None =>
        && r.Ok? && fresh(r.value) && m.Contents() == old(m.Contents()).(done := true)
        && t.rows == SavedRows(old(t.rows), {m.id.value}, old(m.Contents()), both)
        && RowsSaved(old(t.rows), t.rows, {m.id.value}, old(m.Contents()))
        && r.value.Contents() == TokenOf(Cells(t.rows[m.id.value], Returned(fields, COLUMNS)))
  {
    hide Updated, SetsOf, ValidState, HasType, TypedRow, TokenOf, Cells, FirstInvalid, FirstUnknown, RowsSaved;
    var invalid := FirstInvalid(valid, m.Contents());
    if invalid.Some? {
      return Err(invalid.value);
    }
    if m.id.None? {
      return Err(Missing(ID));
    }
    var columns := ReturnedColumns(fields, COLUMNS);
    if columns.Err? {
      return Err(UnknownField(columns.error));
    }
    var sets, clears := Lower(m);
    if m.id.value !in matching {
      return Err(NotFound);
    }
    if !accepted {
      return Err(Driver);
    }
    var id := m.id.value;
    SavedRowsAre(t.rows, {id}, m.Contents(), both);
    assert SavedRows(t.rows, {id}, m.Contents(), both) ==
      map x | x in t.rows :: if x == id then Updated(t.rows[x], sets, clears, both) else t.rows[x];
    UpdatedIsTyped(t.rows[id], m.Contents(), both);
    t.rows := map x | x in t.rows :: if x == id then Updated(t.rows[x], sets, clears, both) else t.rows[x];
    var node, e := ReadRow(t.rows[id], columns.value);
    m.done := true;
    return Ok(node);
  }
}
